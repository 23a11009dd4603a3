/**
 `pipeline_version_ordinal`: a version string as one integer whose order is the version order.
 */
module VersionOrdinal {
  import opened Options
  import opened Text

  /**
   What Python knows about digits. `str.isdigit` accepts more than `int()` can read: a superscript
   two is a digit with no decimal value.
   */
  datatype DigitTable = DigitTable(isdigit: char -> bool, decimal: char -> Option<nat>)

  predicate IsAsciiDigit(c: char) { '0' <= c <= '9' }

  function AsciiValue(c: char): nat
    requires IsAsciiDigit(c)
  {
    c as int - '0' as int
  }

  /** The ten ASCII digits mean what they should, the dot is no digit, and decimals are digits. */
  ghost predicate Faithful(d: DigitTable)
  {
    && (forall c :: IsAsciiDigit(c) ==> d.decimal(c) == Some(AsciiValue(c)))
    && (forall c :: d.decimal(c).Some? ==> d.isdigit(c) && d.decimal(c).value < 10)
    && !d.isdigit('.')
  }

  /** There is such a table: the one that knows ASCII and nothing else. */
  const ASCII := DigitTable(c => IsAsciiDigit(c), c => if IsAsciiDigit(c) then Some(AsciiValue(c)) else None)

  lemma AsciiIsFaithful()
    ensures Faithful(ASCII)
  {
  }

  /** Outcomes of the conversion: `int()` may raise, a component may have no digits. */
  datatype Parsed = Raises | Malformed | Numbers(ns: seq<nat>)

  /** `version.split(".")`. */
  function SplitDots(s: string): (parts: seq<string>)
    ensures parts != []
  {
    var dot := FindFrom(s, ".", 0);
    if dot == -1 then [s] else [s[..dot]] + SplitDots(s[dot + 1..])
  }

  function LeadingDigits(d: DigitTable, part: string): string
  {
    if part != [] && d.isdigit(part[0]) then [part[0]] + LeadingDigits(d, part[1..]) else []
  }

  /** `int(digits)`. */
  function IntOf(d: DigitTable, digits: string): Option<nat>
  {
    if digits == [] then Some(0)
    else
      match (IntOf(d, digits[..|digits| - 1]), d.decimal(digits[|digits| - 1]))
      case (Some(high), Some(low)) => Some(10 * high + low)
      case _ => None
  }

  /** The numbers of `parts`, read left to right. */
  function ReadParts(d: DigitTable, parts: seq<string>): Parsed
  {
    if parts == [] then Numbers([])
    else
      var digits := LeadingDigits(d, parts[0]);
      if digits == [] then Malformed
      else
        match (IntOf(d, digits), ReadParts(d, parts[1..]))
        case (None, _) => Raises
        case (Some(n), Numbers(ns)) => Numbers([n] + ns)
        case (_, other) => other
  }

  function Weigh(major: nat, minor: nat, patch: nat): nat
  {
    major * 1_000_000 + minor * 1_000 + patch
  }

  function At(ns: seq<nat>, i: nat): nat { if i < |ns| then ns[i] else 0 }

  /** The components that are looked at. */
  function Components(isspace: char -> bool, version: string): seq<string>
  {
    var parts := SplitDots(Strip(isspace, version));
    if |parts| > 3 then parts[..3] else parts
  }

  /** The ordinal, or `None` where the source raises. */
  function Ordinal(d: DigitTable, isspace: char -> bool, version: string): Option<nat>
  {
    match ReadParts(d, Components(isspace, version))
    case Raises => None
    case Malformed => Some(0)
    case Numbers(ns) => Some(Weigh(At(ns, 0), At(ns, 1), At(ns, 2)))
  }

  function Prepend(ns: seq<nat>, rest: Parsed): Parsed
  {
    if rest.Numbers? then Numbers(ns + rest.ns) else rest
  }

  lemma ReadPartsAt(d: DigitTable, parts: seq<string>, i: nat)
    requires i < |parts|
    ensures var digits := LeadingDigits(d, parts[i]);
            ReadParts(d, parts[i..]) == if digits == [] then Malformed
                                        else if IntOf(d, digits).None? then Raises
                                        else Prepend([IntOf(d, digits).value], ReadParts(d, parts[i + 1..]))
  {
    hide LeadingDigits, IntOf;
    assert parts[i..][1..] == parts[i + 1..];
  }

  lemma ReadPartsAtEnd(d: DigitTable, parts: seq<string>)
    requires parts == []
    ensures ReadParts(d, parts) == Numbers([])
  {
  }

  /** The inner loop of `pipeline_version_ordinal`, up to its `break`. */
  method TakeDigits(d: DigitTable, part: string) returns (digits: string)
    ensures digits == LeadingDigits(d, part)
  {
    digits := [];
    var k := 0;
    while k < |part| && d.isdigit(part[k])
      invariant 0 <= k <= |part|
      invariant LeadingDigits(d, part) == digits + LeadingDigits(d, part[k..])
    {
      assert part[k..][1..] == part[k + 1..];
      digits := digits + [part[k]];
      k := k + 1;
    }
  }

  /** `pipeline_version_ordinal`. */
  method PipelineVersionOrdinal(d: DigitTable, isspace: char -> bool, version: string) returns (ordinal: Option<nat>)
    ensures ordinal == Ordinal(d, isspace, version)
  {
    hide Strip, SplitDots, IntOf, LeadingDigits, ReadParts;
    var parts := SplitDots(Strip(isspace, version));
    parts := if |parts| > 3 then parts[..3] else parts;
    var numbers: seq<nat> := [];
    var i := 0;
    while i < |parts|
      invariant 0 <= i <= |parts| && |numbers| == i
      invariant ReadParts(d, parts) == Prepend(numbers, ReadParts(d, parts[i..]))
    {
      var digits := TakeDigits(d, parts[i]);
      ReadPartsAt(d, parts, i);
      if digits == [] {
        return Some(0);
      }
      var n := IntOf(d, digits);
      if n.None? {
        return None;
      }
      numbers := numbers + [n.value];
      i := i + 1;
    }
    ReadPartsAtEnd(d, parts[i..]);
    ghost var read := numbers;
    while |numbers| < 3
      invariant read <= numbers && |numbers| <= 3
      invariant forall j :: |read| <= j < |numbers| ==> numbers[j] == 0
    {
      numbers := numbers + [0];
    }
    ordinal := Some(Weigh(numbers[0], numbers[1], numbers[2]));
  }

  // ------------------------------------------------------ printed versions

  function Digit(n: nat): char
    requires n < 10
  {
    (n + '0' as int) as char
  }

  /** `str(n)`. */
  function Print(n: nat): (s: string)
    ensures s != [] && forall i :: 0 <= i < |s| ==> IsAsciiDigit(s[i])
  {
    if n < 10 then [Digit(n)] else Print(n / 10) + [Digit(n % 10)]
  }

  lemma {:induction false} IntOfPrint(d: DigitTable, n: nat)
    requires Faithful(d)
    ensures IntOf(d, Print(n)) == Some(n)
  {
    assert d.decimal(Digit(n % 10)) == Some(n % 10);
    if n < 10 {
      assert Print(n)[..0] == [];
    } else {
      IntOfPrint(d, n / 10);
      assert Print(n)[..|Print(n)| - 1] == Print(n / 10);
    }
  }

  /** A pre-release or build tag: does not start with a digit and holds no dot. */
  predicate IsSuffix(d: DigitTable, suffix: string)
  {
    (suffix != [] ==> !d.isdigit(suffix[0])) && '.' !in suffix
  }

  lemma {:induction false} LeadingDigitsOf(d: DigitTable, digits: string, suffix: string)
    requires forall i :: 0 <= i < |digits| ==> d.isdigit(digits[i])
    requires suffix != [] ==> !d.isdigit(suffix[0])
    ensures LeadingDigits(d, digits + suffix) == digits
  {
    if digits == [] {
      assert digits + suffix == suffix;
    } else {
      assert (digits + suffix)[1..] == digits[1..] + suffix;
      LeadingDigitsOf(d, digits[1..], suffix);
    }
  }

  /** A number with a tag reads back as the number: the tag is irrelevant. */
  lemma ComponentReadsBack(d: DigitTable, n: nat, suffix: string)
    requires Faithful(d) && IsSuffix(d, suffix)
    ensures LeadingDigits(d, Print(n) + suffix) == Print(n)
    ensures IntOf(d, Print(n)) == Some(n)
  {
    forall i | 0 <= i < |Print(n)| ensures d.isdigit(Print(n)[i]) {
      assert d.decimal(Print(n)[i]).Some?;
    }
    LeadingDigitsOf(d, Print(n), suffix);
    IntOfPrint(d, n);
  }

  lemma SplitAtFirstDot(part: string, rest: string)
    requires '.' !in part
    ensures SplitDots(part) == [part]
    ensures SplitDots(part + ['.'] + rest) == [part] + SplitDots(rest)
  {
    var s := part + ['.'] + rest;
    var at, dot := FindFrom(s, ".", 0), FindFrom(part, ".", 0);
    if dot != -1 {
      MatchEnds(part, ".", dot);
      assert false;
    }
    assert MatchesAt(s, ".", |part|);
    if at != |part| {
      MatchEnds(s, ".", at);
      assert false;
    }
    assert s[..|part|] == part && s[|part| + 1..] == rest;
  }

  /** One printed version: three tagged numbers and whatever components follow. */
  function Printed(major: nat, minor: nat, patch: nat, tags: (string, string, string), more: string): string
  {
    Print(major) + tags.0 + ['.'] + (Print(minor) + tags.1 + ['.'] + (Print(patch) + tags.2 + more))
  }

  /**
   A printed version has the ordinal of its triple, whatever tags follow the numbers and whatever
   further components follow the patch.
   */
  lemma OrdinalOfPrinted(d: DigitTable, isspace: char -> bool, major: nat, minor: nat, patch: nat,
                         tags: (string, string, string), more: string)
    requires Faithful(d)
    requires IsSuffix(d, tags.0) && IsSuffix(d, tags.1) && IsSuffix(d, tags.2)
    requires more == [] || more[0] == '.'
    requires Trimmed(isspace, Printed(major, minor, patch, tags, more))
    ensures Ordinal(d, isspace, Printed(major, minor, patch, tags, more))
         == Some(major * 1_000_000 + minor * 1_000 + patch)
  {
    hide Print, LeadingDigits, IntOf, FindFrom, SplitDots;
    var a, b, c := Print(major) + tags.0, Print(minor) + tags.1, Print(patch) + tags.2;
    StripOfTrimmed(isspace, Printed(major, minor, patch, tags, more));
    SplitAtFirstDot(a, b + ['.'] + (c + more));
    assert a + ['.'] + (b + ['.'] + (c + more)) == Printed(major, minor, patch, tags, more);
    SplitAtFirstDot(b, c + more);
    if more == [] {
      assert c + more == c;
      SplitAtFirstDot(c, []);
    } else {
      assert c + more == c + ['.'] + more[1..];
      SplitAtFirstDot(c, more[1..]);
    }
    var parts := SplitDots(Printed(major, minor, patch, tags, more));
    assert parts == [a] + [b] + SplitDots(c + more);
    assert parts[..3] == [a, b, c];
    ComponentReadsBack(d, major, tags.0);
    ComponentReadsBack(d, minor, tags.1);
    ComponentReadsBack(d, patch, tags.2);
    assert [a, b, c][1..] == [b, c] && [b, c][1..] == [c] && [c][1..] == [];
    assert ReadParts(d, [c]) == Numbers([patch]);
    assert ReadParts(d, [b, c]) == Numbers([minor] + [patch]);
    assert ReadParts(d, [a, b, c]) == Numbers([major] + ([minor] + [patch]));
    assert parts == (if more == [] then [a, b, c] else [a, b, c] + SplitDots(more[1..]));
  }

  /** A version of one or two components reads as if zeros followed. */
  lemma OrdinalOfShort(d: DigitTable, isspace: char -> bool, major: nat, minor: nat, tags: (string, string))
    requires Faithful(d) && IsSuffix(d, tags.0) && IsSuffix(d, tags.1)
    ensures var s := Print(major) + tags.0;
            Trimmed(isspace, s) ==> Ordinal(d, isspace, s) == Some(major * 1_000_000)
    ensures var s := Print(major) + tags.0 + ['.'] + (Print(minor) + tags.1);
            Trimmed(isspace, s) ==> Ordinal(d, isspace, s) == Some(major * 1_000_000 + minor * 1_000)
  {
    hide Print, LeadingDigits, IntOf, FindFrom, SplitDots;
    var a, b := Print(major) + tags.0, Print(minor) + tags.1;
    ComponentReadsBack(d, major, tags.0);
    ComponentReadsBack(d, minor, tags.1);
    SplitAtFirstDot(a, b);
    SplitAtFirstDot(b, []);
    assert [a][1..] == [] && [a, b][1..] == [b] && [b][1..] == [] && [a] + [b] == [a, b];
    assert ReadParts(d, [a]) == Numbers([major]) && ReadParts(d, [b]) == Numbers([minor]);
    assert ReadParts(d, [a, b]) == Numbers([major] + [minor]);
    if Trimmed(isspace, a) { StripOfTrimmed(isspace, a); }
    if Trimmed(isspace, a + ['.'] + b) { StripOfTrimmed(isspace, a + ['.'] + b); }
  }

  // -------------------------------------------------------------- the order

  datatype Version = Version(major: nat, minor: nat, patch: nat)

  predicate Older(a: Version, b: Version)
  {
    a.major < b.major || (a.major == b.major && (a.minor < b.minor || (a.minor == b.minor && a.patch < b.patch)))
  }

  predicate Below(n: nat, v: Version) { v.minor < n && v.patch < n }

  function WeightOf(v: Version): nat { Weigh(v.major, v.minor, v.patch) }

  /** Ordinals compare as versions do, for all versions whose minor and patch stay below `n`. */
  ghost predicate EmbedsBelow(n: nat)
  {
    forall a, b :: Below(n, a) && Below(n, b) ==> (WeightOf(a) < WeightOf(b) <==> Older(a, b))
  }

  lemma OrderEmbedding(a: Version, b: Version)
    requires Below(1000, a) && Below(1000, b)
    ensures WeightOf(a) < WeightOf(b) <==> Older(a, b)
  {
  }

  /** The documented bound is the exact one: the order is right below `n` iff `n` is at most 1000. */
  lemma EmbedsExactlyBelowThousand(n: nat)
    ensures EmbedsBelow(n) <==> n <= 1000
  {
    if n > 1000 {
      var a, b := Version(0, 0, 1000), Version(0, 1, 0);
      assert Below(n, a) && Below(n, b) && Older(a, b) && WeightOf(a) == WeightOf(b);
    } else {
      forall a, b | Below(n, a) && Below(n, b) ensures WeightOf(a) < WeightOf(b) <==> Older(a, b) {
        OrderEmbedding(a, b);
      }
    }
  }

  // --------------------------------------------------------------- failures

  /** Some character counts as a digit but has no decimal value. */
  predicate Undecimal(d: DigitTable, digits: string)
  {
    exists i :: 0 <= i < |digits| && d.decimal(digits[i]).None?
  }

  lemma {:induction false} IntFailsIffUndecimal(d: DigitTable, digits: string)
    ensures IntOf(d, digits).None? <==> Undecimal(d, digits)
  {
    if digits != [] {
      var n := |digits| - 1;
      IntFailsIffUndecimal(d, digits[..n]);
      if i :| 0 <= i < |digits| && d.decimal(digits[i]).None? {
        if i < n { assert digits[..n][i] == digits[i]; }
      }
      if i :| 0 <= i < n && d.decimal(digits[..n][i]).None? {
        assert d.decimal(digits[i]).None?;
      }
    }
  }

  /** Every component before `k` starts with digits that can be read. */
  predicate ReadableUpTo(d: DigitTable, parts: seq<string>, k: nat)
    requires k <= |parts|
  {
    forall j :: 0 <= j < k ==> LeadingDigits(d, parts[j]) != [] && !Undecimal(d, LeadingDigits(d, parts[j]))
  }

  /** Component `k` is the first that cannot be read, for want of any digits. */
  predicate LacksDigitsAt(d: DigitTable, parts: seq<string>, k: int)
  {
    0 <= k < |parts| && LeadingDigits(d, parts[k]) == [] && ReadableUpTo(d, parts, k)
  }

  /** Component `k` is the first whose digits include one without a decimal value, and none before lacks digits. */
  predicate RaisesAt(d: DigitTable, parts: seq<string>, k: int)
  {
    0 <= k < |parts| && Undecimal(d, LeadingDigits(d, parts[k])) && ReadableUpTo(d, parts, k)
  }

  lemma ShiftFault(d: DigitTable, parts: seq<string>, k: int)
    requires parts != [] && LeadingDigits(d, parts[0]) != [] && !Undecimal(d, LeadingDigits(d, parts[0]))
    ensures RaisesAt(d, parts[1..], k) <==> RaisesAt(d, parts, k + 1) && k >= 0
    ensures LacksDigitsAt(d, parts[1..], k) <==> LacksDigitsAt(d, parts, k + 1) && k >= 0
  {
    hide LeadingDigits, Undecimal;
    var rest := parts[1..];
    assert forall j :: 0 <= j < |rest| ==> rest[j] == parts[j + 1];
    if 0 <= k < |rest| {
      assert ReadableUpTo(d, rest, k) ==> ReadableUpTo(d, parts, k + 1) by {
        assert forall j :: 0 < j < k + 1 ==> parts[j] == rest[j - 1];
      }
      assert ReadableUpTo(d, parts, k + 1) ==> ReadableUpTo(d, rest, k);
    }
  }

  /** How reading ends is decided by the first component that cannot be read. */
  lemma {:induction false} FirstFaultDecides(d: DigitTable, parts: seq<string>)
    ensures ReadParts(d, parts) == Raises <==> exists k :: RaisesAt(d, parts, k)
    ensures ReadParts(d, parts) == Malformed <==> exists k :: LacksDigitsAt(d, parts, k)
    decreases |parts|
  {
    hide LeadingDigits, IntOf, Undecimal;
    if parts != [] {
      IntFailsIffUndecimal(d, LeadingDigits(d, parts[0]));
      if LeadingDigits(d, parts[0]) == [] {
        assert LacksDigitsAt(d, parts, 0);
        assert !Undecimal(d, []) by { NothingUndecimal(d); }
      } else if IntOf(d, LeadingDigits(d, parts[0])).None? {
        assert RaisesAt(d, parts, 0);
      } else {
        FirstFaultDecides(d, parts[1..]);
        if k :| RaisesAt(d, parts[1..], k) { ShiftFault(d, parts, k); }
        if k :| LacksDigitsAt(d, parts[1..], k) { ShiftFault(d, parts, k); }
        if k :| RaisesAt(d, parts, k) { ShiftFault(d, parts, k - 1); }
        if k :| LacksDigitsAt(d, parts, k) { ShiftFault(d, parts, k - 1); }
      }
    }
  }

  lemma NothingUndecimal(d: DigitTable)
    ensures !Undecimal(d, [])
  {
  }

  /**
   Not every unreadable version becomes 0: when the first component that cannot be read holds, among
   its leading digits, one that has no decimal value, the source raises instead.
   */
  lemma OrdinalRaisesIffUndecimalDigit(d: DigitTable, isspace: char -> bool, version: string)
    ensures Ordinal(d, isspace, version).None? <==> exists k :: RaisesAt(d, Components(isspace, version), k)
  {
    hide ReadParts, Components, RaisesAt, LacksDigitsAt;
    FirstFaultDecides(d, Components(isspace, version));
  }

  /** A malformed version gets 0: it loses to every triple but 0.0.0, and beats none. */
  lemma MalformedNeverBeats(d: DigitTable, isspace: char -> bool, version: string, v: Version)
    requires exists k :: LacksDigitsAt(d, Components(isspace, version), k)
    ensures Ordinal(d, isspace, version) == Some(0)
    ensures 0 <= WeightOf(v) && (WeightOf(v) == 0 <==> v == Version(0, 0, 0))
  {
    hide ReadParts, Components, RaisesAt, LacksDigitsAt;
    FirstFaultDecides(d, Components(isspace, version));
  }

  /** So the promise that unparseable input does not raise fails for a lone superscript. */
  lemma SuperscriptRaises(d: DigitTable, isspace: char -> bool, c: char)
    requires d.isdigit(c) && d.decimal(c).None? && !isspace(c) && c != '.'
    ensures Ordinal(d, isspace, [c]).None?
  {
    StripOfTrimmed(isspace, [c]);
    SplitAtFirstDot([c], []);
    assert Components(isspace, [c]) == [[c]];
    assert [c][1..] == [];
    assert LeadingDigits(d, [c]) == [c];
    assert Undecimal(d, [c]) by { assert d.decimal([c][0]).None?; }
    assert RaisesAt(d, [[c]], 0);
    OrdinalRaisesIffUndecimalDigit(d, isspace, [c]);
  }
}
