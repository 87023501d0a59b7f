// What the search members of StringStorage compute, stated on sequences of code
// units: the first or last position in a range whose unit is (or is not) one of a
// set of units, and the first position where a pattern occurs.
module SearchSpec {
  import opened Types

  /** `static_cast<usize>(-1)`: "no position". */
  const NPos: int := 0xFFFF_FFFF_FFFF_FFFF

  /** Position i of s is a hit: its unit is in `units` exactly when `wanted`. */
  predicate Hit(s: seq<u8>, i: int, units: seq<u8>, wanted: bool)
    requires 0 <= i < |s|
  {
    (s[i] in units) == wanted
  }

  /** No position in [lo, hi) is a hit. */
  predicate NoHit(s: seq<u8>, units: seq<u8>, wanted: bool, lo: int, hi: int)
    requires hi <= |s|
  {
    forall i :: 0 <= lo <= i < hi ==> !Hit(s, i, units, wanted)
  }

  /** r is the least hit in [lo, |s|), or NPos when there is none. */
  predicate FirstHit(s: seq<u8>, units: seq<u8>, wanted: bool, lo: int, r: int)
    requires 0 <= lo
  {
    if r == NPos then NoHit(s, units, wanted, lo, |s|)
    else lo <= r < |s| && Hit(s, r, units, wanted) && NoHit(s, units, wanted, lo, r)
  }

  /** r is the greatest hit in [0, hi), or NPos when there is none. */
  predicate LastHit(s: seq<u8>, units: seq<u8>, wanted: bool, hi: int, r: int)
    requires hi <= |s|
  {
    if r == NPos then NoHit(s, units, wanted, 0, hi)
    else 0 <= r < hi && Hit(s, r, units, wanted) && NoHit(s, units, wanted, r + 1, hi)
  }

  /** `pattern` occurs in s at position i. */
  predicate MatchAt(s: seq<u8>, pattern: seq<u8>, i: int)
  {
    0 <= i && i + |pattern| <= |s| && s[i..i + |pattern|] == pattern
  }

  /** The result of searching s for `pattern` from position `off`. */
  predicate FindResult(s: seq<u8>, pattern: seq<u8>, off: int, r: int)
  {
    if |pattern| > |s| || off > |s| - |pattern| then r == NPos
    else if |pattern| == 0 then r == off
    else if r == NPos then forall i :: off <= i <= |s| - |pattern| ==> !MatchAt(s, pattern, i)
    else off <= r && MatchAt(s, pattern, r) && forall i :: off <= i < r ==> !MatchAt(s, pattern, i)
  }

  /** `char_traits::find`: the first position in [lo, hi) holding c, or -1. */
  function TraitsFind(s: seq<u8>, lo: int, hi: int, c: u8): (r: int)
    requires 0 <= lo <= hi <= |s|
    decreases hi - lo
    ensures r == -1 || lo <= r < hi
    ensures r == -1 ==> (forall i :: lo <= i < hi ==> s[i] != c)
    ensures r != -1 ==> s[r] == c && (forall i :: lo <= i < r ==> s[i] != c)
  {
    if lo == hi then -1
    else if s[lo] == c then lo
    else TraitsFind(s, lo + 1, hi, c)
  }

  /** A first hit is unique: two results that satisfy FirstHit agree. */
  lemma FirstHitUnique(s: seq<u8>, units: seq<u8>, wanted: bool, lo: int, r1: int, r2: int)
    requires 0 <= lo && |s| < NPos
    requires FirstHit(s, units, wanted, lo, r1) && FirstHit(s, units, wanted, lo, r2)
    ensures r1 == r2
  {
  }

  /** A last hit is unique. */
  lemma LastHitUnique(s: seq<u8>, units: seq<u8>, wanted: bool, hi: int, r1: int, r2: int)
    requires hi <= |s| < NPos
    requires LastHit(s, units, wanted, hi, r1) && LastHit(s, units, wanted, hi, r2)
    ensures r1 == r2
  {
  }

  /** Searching for a single unit finds the first position of that unit. */
  lemma FindOneUnit(s: seq<u8>, c: u8, off: int, r: int)
    requires 0 <= off && |s| < NPos
    requires FindResult(s, [c], off, r)
    ensures off < |s| ==> FirstHit(s, [c], true, off, r)
  {
    if off < |s| {
      forall i | off <= i < |s|
        ensures MatchAt(s, [c], i) <==> Hit(s, i, [c], true)
      {
        assert s[i..i + 1] == [s[i]];
      }
      if r != NPos {
        assert MatchAt(s, [c], r);
      }
    }
  }

  /** A match at i starts with the pattern's first unit. */
  lemma MatchHead(s: seq<u8>, pattern: seq<u8>, i: int)
    requires |pattern| > 0 && MatchAt(s, pattern, i)
    ensures s[i] == pattern[0]
  {
    assert s[i..i + |pattern|][0] == s[i];
  }

  /** A search result other than NPos exactly when the pattern occurs at or after `off`. */
  lemma FoundIffMatch(s: seq<u8>, pattern: seq<u8>, off: int, r: int)
    requires 0 <= off && |s| < NPos && FindResult(s, pattern, off, r)
    ensures r != NPos <==> exists i :: off <= i && MatchAt(s, pattern, i)
  {
    if r != NPos {
      if |pattern| == 0 {
        assert s[off..off] == pattern;
        assert MatchAt(s, pattern, off);
      } else {
        assert MatchAt(s, pattern, r);
      }
    } else {
      assert forall i :: off <= i ==> !MatchAt(s, pattern, i);
    }
  }

  /** A reference definition of the first hit: check positions upward from `lo`. */
  function FirstIndex(s: seq<u8>, units: seq<u8>, wanted: bool, lo: int): (r: int)
    requires 0 <= lo <= |s| < NPos
    decreases |s| - lo
    ensures FirstHit(s, units, wanted, lo, r)
  {
    if lo == |s| then NPos
    else if Hit(s, lo, units, wanted) then lo
    else FirstIndex(s, units, wanted, lo + 1)
  }

  /** A reference definition of the last hit: check positions downward from `hi - 1`. */
  function LastIndex(s: seq<u8>, units: seq<u8>, wanted: bool, hi: int): (r: int)
    requires 0 <= hi <= |s| < NPos
    decreases hi
    ensures LastHit(s, units, wanted, hi, r)
  {
    if hi == 0 then NPos
    else if Hit(s, hi - 1, units, wanted) then hi - 1
    else LastIndex(s, units, wanted, hi - 1)
  }

  /**
   * With the terminator appended and the range running past the last unit, the
   * last position not holding a non-zero unit is always the terminator itself.
   */
  lemma LastNotOfSeesTerminator(s: seq<u8>, ch: u8, r: int)
    requires ch != 0 && |s| + 1 < NPos
    requires LastHit(s + [0], [ch], false, |s| + 1, r)
    ensures r == |s|
  {
    assert Hit(s + [0], |s|, [ch], false);
  }

  /**
   * Looking for a non-zero unit, including the terminator in the range changes
   * nothing: the search over the string with its terminator agrees with the
   * search over the string.
   */
  lemma LastOfIgnoresTerminator(s: seq<u8>, ch: u8, r: int)
    requires ch != 0 && |s| + 1 < NPos
    ensures LastHit(s + [0], [ch], true, |s| + 1, r) <==> LastHit(s, [ch], true, |s|, r)
  {
    var t := s + [0];
    assert !Hit(t, |s|, [ch], true);
    forall i | 0 <= i < |s|
      ensures Hit(t, i, [ch], true) == Hit(s, i, [ch], true)
    {
      assert t[i] == s[i];
    }
  }

  /**
   * A search that starts at 0 returns a position before `off` whenever the unit
   * occurs before `off`, whatever occurs after it.
   */
  lemma FirstFromStartBeforeOffset(s: seq<u8>, ch: u8, off: int, j: int, r: int)
    requires 0 <= j < off && j < |s| && s[j] == ch
    requires FirstHit(s, [ch], true, 0, r)
    ensures r <= j < off
  {
    assert Hit(s, j, [ch], true);
  }

  /** A hit at the top of the range is missed when the range stops one short of it. */
  lemma LastHitSkipsTop(s: seq<u8>, units: seq<u8>, wanted: bool, hi: int, r: int)
    requires 0 <= hi < |s| < NPos && Hit(s, hi, units, wanted)
    requires LastHit(s, units, wanted, hi, r)
    ensures r != hi
    ensures LastHit(s, units, wanted, hi + 1, hi)
  {
  }
}
