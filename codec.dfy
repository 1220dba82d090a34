/**
 * Digit codec of the Collatz base-6 cellular automaton (`TritBitDomino` in
 * src/state.rs): a base-6 digit is held in a cell as three bits, two "trit"
 * bits and a parity bit, together with a flag telling whether the cell belongs
 * to the tail of the configuration.
 */
module Codec {

  /** Rust's `u8`. */
  newtype u8 = x: int | 0 <= x < 256

  datatype Option<T> = None | Some(value: T)

  /** The errors of the core; the source carries them as formatted strings. */
  datatype Error =
    | InvalidDigit(digit: u8)   // a number outside 0..5 handed to the codec
    | InvalidChar(c: char)      // a character outside '0'..'5'
    | InvalidInput(s: string)   // a string holding a character outside '0'..'5'

  datatype Result<T> = Ok(value: T) | Err(error: Error)

  /**
   * One cell. `carry`, `sum` and `parity` are `trit_bit[0]`, `trit_bit[1]` and
   * `trit_bit[2]` of the source; `isTail` is `is_tail`.
   */
  datatype Domino = Domino(carry: bool, sum: bool, parity: bool, isTail: bool)

  /** `b as u32` for a boolean `b`. */
  function Bit(b: bool): nat {
    if b then 1 else 0
  }

  /** The number a cell stands for: twice each trit bit plus the parity bit. */
  function Value(d: Domino): nat {
    2 * Bit(d.carry) + 2 * Bit(d.sum) + Bit(d.parity)
  }

  /** The character of a decimal digit. */
  function DigitChar(n: nat): char
    requires n < 10
  {
    ('0' as int + n) as char
  }

  /** `std::char::from_digit(num, 10)`: a character exactly for the numbers below ten. */
  function CharFromDigit(num: nat): (r: Option<char>)
    ensures r.Some? <==> num < 10
    ensures r.Some? ==> '0' <= r.value <= '9' && r.value as int - '0' as int == num
  {
    if num < 10 then Some(DigitChar(num)) else None
  }

  /**
   * `TritBitDomino::to_base_6_digit`. Every one of the eight bit triples
   * decodes to a character in '0'..'5', so the `unwrap` of the source never
   * fails, and the character is the digit of the cell's value.
   */
  function ToBase6Digit(d: Domino): (c: char)
    ensures '0' <= c <= '5'
    ensures c as int - '0' as int == Value(d)
  {
    CharFromDigit(2 * Bit(d.carry) + 2 * Bit(d.sum) + Bit(d.parity)).value
  }

  /**
   * The triples the encoder produces: all but (true, false, true) and
   * (false, true, false), which decode to '3' and '2' like (false, true, true)
   * and (true, false, false) do.
   */
  predicate Canonical(d: Domino) {
    !(d.carry && !d.sum && d.parity) && !(!d.carry && d.sum && !d.parity)
  }

  /**
   * `TritBitDomino::from_base_6_digit`: fails exactly on a digit of 6 or more;
   * otherwise the cell keeps the tail flag it was given, its parity bit tells
   * whether the digit is odd and its value is the digit.
   */
  function FromBase6Digit(digit: u8, isTail: bool): (r: Result<Domino>)
    ensures r.Err? <==> digit >= 6
    ensures r.Err? ==> r.error == InvalidDigit(digit)
    ensures r.Ok? ==> Value(r.value) == digit as int && Canonical(r.value)
    ensures r.Ok? ==> r.value.parity == (digit % 2 != 0) && r.value.isTail == isTail
  {
    if !(digit >= 0 && digit < 6) then
      Err(InvalidDigit(digit))
    else
      var tritCarry := digit >= 2 && digit != 3;
      var tritSum := digit >= 3;
      Ok(Domino(tritCarry, tritSum, digit % 2 != 0, isTail))
  }

  /** Decoding inverts encoding on every digit 0..5, whatever the tail flag. */
  lemma DecodeEncode(digit: u8, isTail: bool)
    requires digit < 6
    ensures FromBase6Digit(digit, isTail).Ok?
    ensures ToBase6Digit(FromBase6Digit(digit, isTail).value) == DigitChar(digit as nat)
  {
  }

  /**
   * Encoding inverts decoding exactly on the canonical triples: re-encoding a
   * cell's value gives back that cell if and only if it is canonical.
   */
  lemma EncodeDecode(d: Domino)
    ensures FromBase6Digit(Value(d) as u8, d.isTail) == Ok(d) <==> Canonical(d)
  {
  }

  /** Decoding is not injective on bit triples. */
  lemma DecodeNotInjective(isTail: bool)
    ensures ToBase6Digit(Domino(true, false, true, isTail)) == ToBase6Digit(Domino(false, true, true, isTail)) == '3'
    ensures ToBase6Digit(Domino(true, false, false, isTail)) == ToBase6Digit(Domino(false, true, false, isTail)) == '2'
  {
  }

  /** The tail flag plays no part in decoding. */
  lemma DecodeIgnoresTail(d: Domino, isTail: bool)
    ensures ToBase6Digit(d.(isTail := isTail)) == ToBase6Digit(d)
  {
  }
}
