/** The few string primitives of Python that the modelled code leans on. */
module Text {

  /** `needle` occurs in `hay` at position `i`. */
  predicate MatchesAt(hay: string, needle: string, i: int)
  {
    0 <= i && i + |needle| <= |hay| && hay[i..i + |needle|] == needle
  }

  lemma MatchEnds(hay: string, needle: string, i: nat)
    requires MatchesAt(hay, needle, i) && needle != []
    ensures hay[i] == needle[0] && hay[i + |needle| - 1] == needle[|needle| - 1]
  {
    assert hay[i..i + |needle|][|needle| - 1] == hay[i + |needle| - 1];
  }

  /** Every position, overlapping ones included, at or after `from` where `needle` occurs. */
  function Matches(hay: string, needle: string, from: nat): set<int>
  {
    set i | from <= i <= |hay| && MatchesAt(hay, needle, i)
  }

  /** `hay.find(needle, from)`. */
  function FindFrom(hay: string, needle: string, from: nat): (r: int)
    ensures r == -1 || r >= from
    ensures r == -1 ==> forall i :: from <= i ==> !MatchesAt(hay, needle, i)
    ensures r != -1 ==> MatchesAt(hay, needle, r)
    ensures r != -1 ==> forall i :: from <= i < r ==> !MatchesAt(hay, needle, i)
    decreases |hay| - from
  {
    if from + |needle| > |hay| then -1
    else if MatchesAt(hay, needle, from) then from
    else FindFrom(hay, needle, from + 1)
  }

  /** `s.lstrip()` for the given notion of whitespace. */
  function StripLeft(isspace: char -> bool, s: string): string
  {
    if s != [] && isspace(s[0]) then StripLeft(isspace, s[1..]) else s
  }

  /** `s.rstrip()`. */
  function StripRight(isspace: char -> bool, s: string): string
  {
    if s != [] && isspace(s[|s| - 1]) then StripRight(isspace, s[..|s| - 1]) else s
  }

  /** `s.strip()`. */
  function Strip(isspace: char -> bool, s: string): string
  {
    StripRight(isspace, StripLeft(isspace, s))
  }

  /** Nothing to strip at either end. */
  predicate Trimmed(isspace: char -> bool, s: string)
  {
    s != [] ==> !isspace(s[0]) && !isspace(s[|s| - 1])
  }

  lemma StripOfTrimmed(isspace: char -> bool, s: string)
    requires Trimmed(isspace, s)
    ensures Strip(isspace, s) == s
  {
  }

  lemma {:induction false} StripOfSpace(isspace: char -> bool, s: string)
    requires forall i :: 0 <= i < |s| ==> isspace(s[i])
    ensures Strip(isspace, s) == []
  {
    if s != [] { StripOfSpace(isspace, s[1..]); }
  }

  /** `strip` takes away whitespace put around a trimmed string. */
  lemma {:induction false} StripOfPadded(isspace: char -> bool, before: string, s: string, after: string)
    requires s != [] && Trimmed(isspace, s)
    requires forall i :: 0 <= i < |before| ==> isspace(before[i])
    requires forall i :: 0 <= i < |after| ==> isspace(after[i])
    ensures Strip(isspace, before + s + after) == s
    decreases |before| + |after|
  {
    var padded := before + s + after;
    if before != [] {
      assert padded[1..] == before[1..] + s + after;
      StripOfPadded(isspace, before[1..], s, after);
    } else if after != [] {
      var n := |after| - 1;
      assert padded[..|padded| - 1] == before + s + after[..n];
      StripOfPadded(isspace, before, s, after[..n]);
      assert StripLeft(isspace, padded) == padded;
    } else {
      assert padded == s;
    }
  }

  /** What `strip` removes from the right is whitespace, and what it leaves is a prefix. */
  lemma {:induction false} StripRightIsTrimmedPrefix(isspace: char -> bool, s: string)
    ensures var r := StripRight(isspace, s);
            |r| <= |s| && r == s[..|r|] &&
            (r != [] ==> !isspace(r[|r| - 1])) &&
            forall i :: |r| <= i < |s| ==> isspace(s[i])
  {
    if s != [] && isspace(s[|s| - 1]) {
      StripRightIsTrimmedPrefix(isspace, s[..|s| - 1]);
    }
  }

  lemma {:induction false} StripLeftIsTrimmedSuffix(isspace: char -> bool, s: string)
    ensures var r := StripLeft(isspace, s);
            |r| <= |s| && r == s[|s| - |r|..] &&
            (r != [] ==> !isspace(r[0])) &&
            forall i :: 0 <= i < |s| - |r| ==> isspace(s[i])
  {
    if s != [] && isspace(s[0]) {
      StripLeftIsTrimmedSuffix(isspace, s[1..]);
      var r := StripLeft(isspace, s[1..]);
      assert forall i :: 0 < i < |s| - |r| ==> s[i] == s[1..][i - 1];
    }
  }

  /** `strip` returns a trimmed slice, and cuts off nothing but whitespace. */
  lemma StripIsTrimmedSlice(isspace: char -> bool, s: string) returns (from: nat, to: nat)
    ensures from <= to <= |s| && Strip(isspace, s) == s[from..to]
    ensures Trimmed(isspace, s[from..to])
    ensures forall i :: 0 <= i < from || to <= i < |s| ==> isspace(s[i])
  {
    StripLeftIsTrimmedSuffix(isspace, s);
    var left := StripLeft(isspace, s);
    StripRightIsTrimmedPrefix(isspace, left);
    from := |s| - |left|;
    to := from + |Strip(isspace, s)|;
    assert forall i :: to <= i < |s| ==> s[i] == left[i - from];
  }
}
