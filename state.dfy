/**
 * State of the Collatz base-6 cellular automaton (`CCAState` in
 * src/state.rs): the cells of a configuration, most significant digit first,
 * and the base-6 string the configuration was built from.
 */
module CaState {
  import opened Codec

  predicate IsBase6Digit(c: char) {
    '0' <= c <= '5'
  }

  predicate IsBase6(s: string) {
    forall i :: 0 <= i < |s| ==> IsBase6Digit(s[i])
  }

  /**
   * `CCAState::b6_to_tbd`: fails exactly on a character outside '0'..'5';
   * otherwise gives the canonical cell, outside the tail, that decodes back to
   * the character.
   */
  function B6ToTbd(c: char): (r: Result<Domino>)
    ensures r.Err? <==> !IsBase6Digit(c)
    ensures r.Err? ==> r.error == InvalidChar(c)
    ensures r.Ok? ==> !r.value.isTail && Canonical(r.value) && ToBase6Digit(r.value) == c
  {
    if !(c >= '0' && c <= '5') then
      Err(InvalidChar(c))
    else
      // `(c as u8) - ('0' as u8)`; the cast keeps the low eight bits
      var digit := (c as int % 256 - '0' as int) as u8;
      FromBase6Digit(digit, false)
  }

  /** The cells the loop of `from_str` pushes, one per character, none yet in the tail. */
  function Pushed(s: string): (cells: seq<Domino>)
    requires IsBase6(s)
    ensures |cells| == |s|
    ensures forall i :: 0 <= i < |s| ==> B6ToTbd(s[i]) == Ok(cells[i])
  {
    if s == [] then [] else Pushed(s[..|s| - 1]) + [B6ToTbd(s[|s| - 1]).value]
  }

  /**
   * The cells `from_str` builds from a valid non-empty string: one per
   * character, each the encoding of its character, and only the last one in
   * the tail.
   */
  function InitialCells(s: string): (cells: seq<Domino>)
    requires IsBase6(s) && s != []
    ensures |cells| == |s|
    ensures forall i :: 0 <= i < |s| ==> cells[i].isTail == (i == |s| - 1)
    ensures forall i :: 0 <= i < |s| ==> B6ToTbd(s[i]) == Ok(cells[i].(isTail := false))
  {
    var pushed := Pushed(s);
    pushed[..|s| - 1] + [pushed[|s| - 1].(isTail := true)]
  }

  /**
   * The string `to_str` produces: one digit per cell, in order, whatever the
   * tail flags; it is always a valid base-6 string.
   */
  function Serialise(cells: seq<Domino>): (s: string)
    ensures |s| == |cells| && IsBase6(s)
    ensures forall i :: 0 <= i < |cells| ==> s[i] == ToBase6Digit(cells[i])
  {
    if cells == [] then [] else Serialise(cells[..|cells| - 1]) + [ToBase6Digit(cells[|cells| - 1])]
  }

  /** Serialising the cells built from a valid non-empty string gives the string back. */
  lemma {:induction false} SerialiseInitialCells(s: string)
    requires IsBase6(s) && s != []
    ensures Serialise(InitialCells(s)) == s
  {
    var cells := InitialCells(s);
    forall i | 0 <= i < |s|
      ensures Serialise(cells)[i] == s[i]
    {
      DecodeIgnoresTail(cells[i], false);
    }
  }

  /** Every cell from position `i` to the end is in the tail. */
  predicate InTailRun(cells: seq<Domino>, i: nat)
    requires i <= |cells|
  {
    forall j :: i <= j < |cells| ==> cells[j].isTail
  }

  /**
   * The condition the reverse scan of `flush_tail` detects: the trailing run of
   * tail cells holds a cell whose parity bit is set.
   */
  predicate CanFlush(cells: seq<Domino>) {
    exists i :: 0 <= i < |cells| && cells[i].parity && InTailRun(cells, i)
  }

  /**
   * What the `pop_back` loop of `flush_tail` leaves: the longest prefix that
   * ends in a cell with its parity bit set, everything removed having it clear.
   */
  function PopWhileEven(cells: seq<Domino>): (r: seq<Domino>)
    ensures |r| <= |cells| && r == cells[..|r|]
    ensures r != [] ==> r[|r| - 1].parity
    ensures forall j :: |r| <= j < |cells| ==> !cells[j].parity
  {
    if cells == [] || cells[|cells| - 1].parity then cells
    else PopWhileEven(cells[..|cells| - 1])
  }

  /**
   * The cells after `flush_tail`: never longer than before and a prefix of
   * them, so every cell kept is untouched; exactly the old cells when no flush
   * applies.
   */
  function Flushed(cells: seq<Domino>): (r: seq<Domino>)
    ensures |r| <= |cells| && r == cells[..|r|]
    ensures !CanFlush(cells) ==> r == cells
  {
    if CanFlush(cells) then PopWhileEven(cells) else cells
  }

  /**
   * When a flush applies, it keeps a non-empty prefix ending at the rightmost
   * cell with its parity bit set, which lies in the tail, and removes only
   * tail cells whose parity bit is clear.
   */
  lemma {:induction false} FlushedShape(cells: seq<Domino>)
    requires CanFlush(cells)
    ensures Flushed(cells) != []
    ensures Flushed(cells)[|Flushed(cells)| - 1].parity
    ensures Flushed(cells)[|Flushed(cells)| - 1].isTail
    ensures forall j :: |Flushed(cells)| <= j < |cells| ==> cells[j].isTail && !cells[j].parity
  {
    var i :| 0 <= i < |cells| && cells[i].parity && InTailRun(cells, i);
    var r := PopWhileEven(cells);
    assert i < |r|;
    assert r[|r| - 1] == cells[|r| - 1];
  }

  /** Flushing twice is flushing once. */
  lemma {:induction false} FlushedIdempotent(cells: seq<Domino>)
    ensures Flushed(Flushed(cells)) == Flushed(cells)
  {
    if CanFlush(cells) {
      var r := Flushed(cells);
      FlushedShape(cells);
      assert r[|r| - 1].parity && InTailRun(r, |r| - 1);
      assert CanFlush(r);
    }
  }

  class CcaState {
    /** The configuration, most significant digit first (a `VecDeque` in the source). */
    var cells: seq<Domino>
    /** The string the configuration was built from. */
    var initStr: string

    /** `init_str` is what `from_str` accepted, so `reset` can rebuild from it. */
    ghost predicate Valid()
      reads this
    {
      IsBase6(initStr) && initStr != []
    }

    /** The struct literal of `from_str`. */
    constructor (cells: seq<Domino>, initStr: string)
      ensures this.cells == cells && this.initStr == initStr
    {
      this.cells := cells;
      this.initStr := initStr;
    }

    /** `CCAState::check_base_6`: true exactly when every character is in '0'..'5'. */
    static method CheckBase6(s: string) returns (ok: bool)
      ensures ok <==> IsBase6(s)
    {
      for i := 0 to |s|
        invariant forall j :: 0 <= j < i ==> IsBase6Digit(s[j])
      {
        if !(s[i] >= '0' && s[i] <= '5') {
          return false;
        }
      }
      return true;
    }

    /**
     * `CCAState::from_str`: fails exactly on a string that is not base 6;
     * otherwise builds one cell per character with only the last in the tail,
     * keeps the string, and serialises back to it. The source panics on the
     * empty string (`back_mut().unwrap()`), hence the precondition.
     */
    static method FromStr(s: string) returns (r: Result<CcaState>)
      requires s != []
      ensures r.Err? <==> !IsBase6(s)
      ensures r.Err? ==> r.error == InvalidInput(s)
      ensures r.Ok? ==> fresh(r.value) && r.value.Valid()
      ensures r.Ok? ==> r.value.cells == InitialCells(s) && r.value.initStr == s
      ensures r.Ok? ==> Serialise(r.value.cells) == s
    {
      var valid := CheckBase6(s);
      if !valid {
        return Err(InvalidInput(s));
      }
      var cells: seq<Domino> := [];
      for i := 0 to |s|
        invariant cells == Pushed(s[..i])
      {
        assert s[..i + 1][..i] == s[..i];
        // the `?` of the source cannot fire: `s` passed `check_base_6`
        var tbd := B6ToTbd(s[i]).value;
        cells := cells + [tbd];
      }
      assert s[..|s|] == s;
      cells := cells[..|cells| - 1] + [cells[|cells| - 1].(isTail := true)];
      SerialiseInitialCells(s);
      var st := new CcaState(cells, s);
      return Ok(st);
    }

    /**
     * `CCAState::reset`: rebuilds the cells from `init_str`, which it leaves
     * alone, so that afterwards `to_str` gives `init_str` again.
     */
    method Reset()
      requires Valid()
      modifies this
      ensures Valid() && initStr == old(initStr)
      ensures cells == InitialCells(initStr)
      ensures Serialise(cells) == initStr
    {
      var built := FromStr(initStr);
      cells := built.value.cells;
    }

    /**
     * `CCAState::flush_tail`: scans the trailing run of tail cells from the
     * back for a cell with its parity bit set; if there is one, pops cells
     * from the back until the last has its parity bit set.
     */
    method FlushTail()
      modifies this
      ensures initStr == old(initStr)
      ensures cells == Flushed(old(cells))
    {
      var canFlush := false;
      var i := |cells|;
      while i > 0
        invariant 0 <= i <= |cells|
        invariant forall j :: i <= j < |cells| ==> cells[j].isTail && !cells[j].parity
      {
        var tbd := cells[i - 1];
        if !tbd.isTail {
          break;
        }
        if tbd.parity {
          canFlush := true;
          break;
        }
        i := i - 1;
      }
      assert canFlush ==> cells[i - 1].parity && InTailRun(cells, i - 1);
      assert canFlush <==> CanFlush(cells);

      if canFlush {
        ghost var before := cells;
        // `back().unwrap()` never fails: the cell found by the scan is never popped
        while !cells[|cells| - 1].parity
          invariant 0 < |cells| <= |before| && cells == before[..|cells|]
          invariant i <= |cells|
          invariant forall j :: |cells| <= j < |before| ==> !before[j].parity
          invariant initStr == old(initStr)
          decreases |cells|
        {
          cells := cells[..|cells| - 1];
        }
        PopWhileEvenIsMaximal(before, cells);
      }
    }

    /** `CCAState::to_str`: the digits of the cells, in order. */
    method ToStr() returns (s: string)
      ensures s == Serialise(cells)
    {
      s := "";
      for i := 0 to |cells|
        invariant s == Serialise(cells[..i])
      {
        assert cells[..i + 1][..i] == cells[..i];
        s := s + [ToBase6Digit(cells[i])];
      }
      assert cells[..|cells|] == cells;
    }
  }

  /**
   * A prefix that ends in a cell with its parity bit set, with only cells whose
   * parity bit is clear after it, is what `PopWhileEven` keeps.
   */
  lemma {:induction false} PopWhileEvenIsMaximal(cells: seq<Domino>, r: seq<Domino>)
    requires 0 < |r| <= |cells| && r == cells[..|r|] && r[|r| - 1].parity
    requires forall j :: |r| <= j < |cells| ==> !cells[j].parity
    ensures PopWhileEven(cells) == r
  {
    if |r| < |cells| {
      assert cells[..|cells| - 1][..|r|] == r;
      PopWhileEvenIsMaximal(cells[..|cells| - 1], r);
    } else {
      assert cells == r;
    }
  }

  /**
   * `from_str` followed by `to_str` gives back every valid non-empty string,
   * and reports every other string as invalid input.
   */
  method FromStrToStr(s: string) returns (r: Result<string>)
    requires s != []
    ensures r == if IsBase6(s) then Ok(s) else Err(InvalidInput(s))
  {
    var st := CcaState.FromStr(s);
    if st.Err? {
      return Err(st.error);
    }
    var out := st.value.ToStr();
    return Ok(out);
  }

  /** `reset` is idempotent: a second call leaves the state the first one made. */
  method ResetTwice(st: CcaState) returns (once: seq<Domino>)
    requires st.Valid()
    modifies st
    ensures st.initStr == old(st.initStr) && once == InitialCells(st.initStr)
    ensures st.cells == once
  {
    st.Reset();
    once := st.cells;
    st.Reset();
  }
}
