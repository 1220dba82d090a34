# Collatz base-6 cellular automaton state, in Dafny

A model of the state of visusix's Collatz base-6 cellular automaton, with
proofs about it. A configuration is a sequence of cells, most significant digit
first. Each cell ("trit-bit domino") holds one base-6 digit as three bits and a
tail flag. The state is built from a base-6 string and remembers that string.
It can be reset to the string, written back out as a string, and stripped of
trailing tail cells whose parity bit is clear ("tail flush").

- `codec.dfy`, module `Codec`: the cell datatype `Domino` and the digit codec
  (`to_base_6_digit`, `from_base_6_digit`). Both are pure functions.
- `state.dfy`, module `CaState`: the class `CcaState`. It has a `seq<Domino>`
  field in place of the source's `VecDeque`, plus the stored `initStr`. Its
  methods keep the loops of `from_str`, `check_base_6`, `reset`, `flush_tail`
  and `to_str`. Each method is proved against a specification function
  (`InitialCells`, `Serialise`, `Flushed`), and the source's promises are
  proved as lemmas about those functions.

Notes on what the code does, as opposed to what one might expect of such an
automaton:

- No per-generation transition rule and no generation history exist in the
  code: the controller's `event` is empty (src/state_controller.rs:22-24).
  Neither is modelled.
- The codec is not a bijection on cells. Decoding is not injective on bit
  triples. (true, false, true) and (false, true, true) both decode to '3'.
  (true, false, false) and (false, true, false) both decode to '2'. Only
  decode after encode is the identity (`Codec.DecodeNotInjective`,
  `Codec.EncodeDecode`).
- The empty string is accepted by `check_base_6`, and `from_str` then panics
  at `back_mut().unwrap()`. So `FromStr` requires a non-empty string.

## Model

| member | source | states |
|---|---|---|
| `Codec.ToBase6Digit` | src/state.rs:15-21 | every bit triple decodes to a character in '0'..'5', so the `unwrap` never fails; the character's digit is 2·trit0 + 2·trit1 + parity |
| `Codec.CharFromDigit` | src/state.rs:16-19 | `from_digit(num, 10)` yields a character exactly when num < 10, and that character is '0' + num |
| `Codec.FromBase6Digit` | src/state.rs:24-34 | fails with an invalid-digit error exactly when the digit is 6 or more; on success keeps the given tail flag, sets the parity bit to "digit is odd", yields a canonical triple whose value is the digit |
| `Codec.DecodeEncode` | src/state.rs:15-34 | for every digit 0..5 and tail flag, decoding the encoding gives the digit's character |
| `Codec.EncodeDecode` | src/state.rs:15-34 | re-encoding a cell's decoded value gives back the same cell if and only if its triple is canonical |
| `Codec.DecodeNotInjective` | src/state.rs:15-21 | (T,F,T) and (F,T,T) both decode to '3'; (T,F,F) and (F,T,F) both decode to '2' |
| `Codec.DecodeIgnoresTail` | src/state.rs:15-21 | the tail flag does not affect the decoded character |
| `CaState.B6ToTbd` | src/state.rs:118-129 | fails exactly on a character outside '0'..'5'; otherwise yields the canonical non-tail cell that decodes back to the character |
| `CaState.Pushed` | src/state.rs:57-61 | the push_back loop yields one cell per character, each the `b6_to_tbd` result of that character |
| `CaState.InitialCells` | src/state.rs:57-62 | the cells of a valid non-empty string: exactly one per character, each encoding its character, and only the last marked tail |
| `CaState.Serialise` | src/state.rs:98-104 | the serialised string has one character per cell, is the decoding of each cell in order, and is valid base 6 |
| `CaState.SerialiseInitialCells` | src/state.rs:49-67 | serialising the cells built from a valid non-empty string gives back the string |
| `CaState.PopWhileEven` | src/state.rs:90-94 | popping from the back while the last parity bit is clear leaves a prefix that ends in a parity-true cell (or is empty), with only parity-false cells removed |
| `CaState.Flushed` | src/state.rs:78-95 | the cells after a tail flush are never more than before, and they are a prefix of them, so every kept cell is untouched; when no parity-true cell is in the trailing tail run, the cells are exactly unchanged |
| `CaState.FlushedShape` | src/state.rs:78-95 | when the trailing tail run holds a parity-true cell, the flush keeps a non-empty prefix ending at the rightmost parity-true cell, which is a tail cell, and removes only parity-false tail cells |
| `CaState.FlushedIdempotent` | src/state.rs:78-95 | flushing twice equals flushing once |
| `CaState.PopWhileEvenIsMaximal` | src/state.rs:90-94 | any non-empty prefix ending in a parity-true cell, with only parity-false cells after it, is what the pop loop leaves |
| `CaState.CcaState.constructor` | src/state.rs:63-66 | the new state holds exactly the given cells and string |
| `CaState.CcaState.CheckBase6` | src/state.rs:107-115 | true if and only if every character is in '0'..'5' (so true for the empty string) |
| `CaState.CcaState.FromStr` | src/state.rs:49-67 | errors with invalid input exactly when the string is not base 6; otherwise a fresh state whose cells are `InitialCells(s)`, whose `initStr` is `s`, and which serialises back to `s` |
| `CaState.CcaState.Reset` | src/state.rs:70-75 | keeps `initStr` and the state's validity, rebuilds the cells as `InitialCells(initStr)`, after which the cells serialise to `initStr` |
| `CaState.CcaState.FlushTail` | src/state.rs:78-95 | leaves `initStr` alone and sets the cells to `Flushed` of the old cells: unchanged when no parity-true cell is in the trailing tail run; the `back().unwrap()` never fails |
| `CaState.CcaState.ToStr` | src/state.rs:98-104 | returns the serialisation of the cells, one character per cell |
| `CaState.FromStrToStr` | src/state.rs:49-104 | `from_str` then `to_str` returns every valid non-empty string unchanged, and reports every other non-empty string as invalid input |
| `CaState.ResetTwice` | src/state.rs:70-75 | a second `reset` leaves the state the first one made (idempotence) |

## Left out

- The `println!` at the start of `check_base_6` (src/state.rs:108) writes to the console, so it is not modelled.
- Error messages: the source returns formatted strings. The model returns an `Error` variant that carries the offending value.
- `VecDeque` layout: the source uses only `push_back`, `back`, `back_mut`, `pop_back`, a front-to-back `iter()` (`to_str`, src/state.rs:100) and a back-to-front `iter().rev()` (`flush_tail`, src/state.rs:80). So the model uses a sequence, walked by index in the same two directions. The deque's ring-buffer storage and its in-place update are not modelled.
- `CaState.CcaState.FromStr`: requires a non-empty string. The source panics on the empty string, and the model does not describe that panic.
- src/state_view.rs is not part of this model: it is rendering, pan/zoom key handling and `f64` coordinates.
- src/main.rs is not part of this model: it holds argument parsing (default input "12345"), window creation and the event loop.
- src/state_controller.rs is not part of this model: it only holds a state, and its event handler does nothing.
- A per-generation transition rule and a generation history are not modelled: no code for either exists in the repository (src/state_controller.rs:22-24).
