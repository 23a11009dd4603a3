/**
 `find_quote`: search in the normalized text, answer in offsets of the original.
 */
module QuoteSearch {
  import opened Options
  import opened Text
  import opened QuoteNormalization

  datatype QuoteSpan = QuoteSpan(charStart: nat, charEnd: nat, occurrences: nat, exact: bool)

  /** Offsets ascend with the position in the normal form. */
  lemma StartsAscend(w: Whitespace, content: string, i: nat, j: nat)
    requires i <= j < |Buffer(w, content)|
    ensures StartAt(w, content, i) <= StartAt(w, content, j)
  {
    hide Buffer, StartAt, RunEnd;
    var s, e := StartAt(w, content, i), StartAt(w, content, j);
    if e < s {
      BufferGrows(w, content, e, s);
      assert false;
    }
  }

  /** From the start of one run to the end of a later one is a slice of the text. */
  lemma SpanIsInText(w: Whitespace, content: string, i: nat, j: nat)
    requires i <= j < |Buffer(w, content)|
    ensures StartAt(w, content, i) <= EndAt(w, content, j) <= |content|
  {
    hide Buffer, StartAt, RunEnd;
    StartsAscend(w, content, i, j);
  }

  /** What `find_quote` answers, as a value. */
  function Located(w: Whitespace, content: string, quote: string): Option<QuoteSpan>
  {
    var n, q := Normalized(w, content), Normalized(w, quote);
    var first := FindFrom(n, q, 0);
    if q == [] || first < 0 then None
    else
      SpanIsInText(w, content, first, first + |q| - 1);
      var from, to := StartAt(w, content, first), EndAt(w, content, first + |q| - 1);
      Some(QuoteSpan(from, to, |Matches(n, q, first)|, content[from..to] == quote))
  }

  /** `find_quote`. */
  method FindQuote(w: Whitespace, content: string, quote: string) returns (span: Option<QuoteSpan>)
    ensures span == Located(w, content, quote)
  {
    hide Buffer, Normalized, StartAt, RunEnd, FindFrom, Strip, ExtentEnd;
    if Strip(w.isspace, quote) == [] || content == [] {
      if content != [] {
        BlankQuote(w, quote);
      }
      return None;
    }
    var normalizedContent, starts, ends := NormalizeWithOffsets(w, content);
    var normalizedQuote, _, _ := NormalizeWithOffsets(w, quote);
    if normalizedQuote == [] {
      return None;
    }
    var first := FindFrom(normalizedContent, normalizedQuote, 0);
    if first < 0 {
      return None;
    }

    var occurrences := CountFrom(normalizedContent, normalizedQuote, first);
    StartsAscend(w, content, first, first + |normalizedQuote| - 1);
    var charStart := starts[first];
    var charEnd := ends[first + |normalizedQuote| - 1];
    span := Some(QuoteSpan(charStart, charEnd, occurrences, content[charStart..charEnd] == quote));
  }

  /** The counting loop of `find_quote`, entered at the first match. */
  method CountFrom(hay: string, needle: string, first: nat) returns (occurrences: nat)
    requires MatchesAt(hay, needle, first)
    ensures occurrences == |Matches(hay, needle, first)|
  {
    occurrences := 0;
    var cursor := first;
    while cursor >= 0
      invariant cursor == -1 || MatchesAt(hay, needle, cursor)
      invariant occurrences + (if cursor == -1 then 0 else |Matches(hay, needle, cursor)|) ==
                |Matches(hay, needle, first)|
      decreases if cursor == -1 then 0 else |hay| + 1 - cursor
    {
      CountOne(hay, needle, cursor);
      occurrences := occurrences + 1;
      cursor := FindFrom(hay, needle, cursor + 1);
    }
  }

  /** One turn of the counting loop: a match, and then as many as the next match begins. */
  lemma CountOne(hay: string, needle: string, at: nat)
    requires MatchesAt(hay, needle, at)
    ensures var next := FindFrom(hay, needle, at + 1);
            |Matches(hay, needle, at)| == 1 + if next == -1 then 0 else |Matches(hay, needle, next)|
  {
    var next := FindFrom(hay, needle, at + 1);
    assert Matches(hay, needle, at) == {at} + Matches(hay, needle, at + 1);
    assert Matches(hay, needle, at + 1) == if next == -1 then {} else Matches(hay, needle, next);
  }

  /** A quote that strips to nothing normalizes to nothing. */
  lemma BlankQuote(w: Whitespace, quote: string)
    requires Strip(w.isspace, quote) == []
    ensures Normalized(w, quote) == []
  {
    hide Buffer, StartAt, RunEnd;
    var from, to := StripIsTrimmedSlice(w.isspace, quote);
    BlankNormalizesToNothing(w, quote);
  }

  // ----------------------------------------- matches and slices correspond

  /** The slice of `content` that the match of `q` at position `p` of the normal form stands for. */
  lemma SliceOfMatch(w: Whitespace, content: string, q: string, p: nat) returns (a: nat, b: nat)
    requires MatchesAt(Normalized(w, content), q, p)
    requires q != [] && !w.IsSpace(q[0]) && !w.IsSpace(q[|q| - 1])
    ensures a == StartAt(w, content, p) && b == EndAt(w, content, p + |q| - 1)
    ensures Tight(w, content, a, b) && Normalized(w, content[a..b]) == q
    ensures |Buffer(w, content[..a])| == p
  {
    hide Buffer, Normalized, StartAt, RunEnd, FindFrom;
    var last := p + |q| - 1;
    assert Buffer(w, content)[p] == q[0] && Buffer(w, content)[last] == q[|q| - 1] by {
      MatchEnds(Normalized(w, content), q, p);
    }
    a := StartAt(w, content, p);
    var z := StartAt(w, content, last);
    b := z + 1;
    StartsAscend(w, content, p, last);
    BufferOfVisible(w, content, z);
    TightSlice(w, content, a, b, p, q);
  }

  /** The buffer of a tight slice is read off the buffer of the whole. */
  lemma TightSlice(w: Whitespace, content: string, a: nat, b: nat, p: nat, q: string)
    requires Tight(w, content, a, b)
    requires |Buffer(w, content[..a])| == p && |Buffer(w, content[..b])| == p + |q|
    requires MatchesAt(Normalized(w, content), q, p)
    ensures Normalized(w, content[a..b]) == q
  {
    hide Buffer, StartAt, RunEnd;
    var slice, upTo := content[a..b], Buffer(w, content[..b]);
    assert slice[|slice| - 1] == content[b - 1];
    assert upTo == Buffer(w, content[..a]) + Buffer(w, slice) by { BufferOfSlice(w, content, a, b); }
    assert upTo <= Buffer(w, content) by {
      assert content[..|content|] == content;
      BufferGrows(w, content, b, |content|);
    }
    assert q == Buffer(w, content)[p..p + |q|];
    assert q == upTo[p..];
  }

  /** A visible character starts its own run. */
  lemma StartOfVisible(w: Whitespace, content: string, i: nat)
    requires i < |content| && !w.IsSpace(content[i])
    ensures |Buffer(w, content[..i])| < |Buffer(w, content)|
    ensures StartAt(w, content, |Buffer(w, content[..i])|) == i
  {
    var k := |Buffer(w, content[..i])|;
    assert content[..i + 1][..i] == content[..i] && content[..|content|] == content;
    BufferOfVisible(w, content, i);
    assert StartAt(w, content[..i + 1], k) == i;
    BufferGrows(w, content, i + 1, |content|);
  }

  /** The final pop never reaches a visible character. */
  lemma VisibleEndSurvives(w: Whitespace, content: string, b: nat)
    requires 0 < b <= |content| && !w.IsSpace(content[b - 1])
    ensures Buffer(w, content[..b]) <= Normalized(w, content)
  {
    assert content[..|content|] == content;
    BufferGrows(w, content, b, |content|);
    assert content[..b][b - 1] == content[b - 1];
  }

  /** Conversely, a tight slice shows up in the normal form of the whole. */
  lemma MatchOfSlice(w: Whitespace, content: string, a: nat, b: nat) returns (p: nat)
    requires Tight(w, content, a, b)
    ensures p == |Buffer(w, content[..a])|
    ensures var q := Normalized(w, content[a..b]);
            q != [] && MatchesAt(Normalized(w, content), q, p) &&
            StartAt(w, content, p) == a && EndAt(w, content, p + |q| - 1) == b
  {
    hide Buffer, Normalized, StartAt, RunEnd, FindFrom;
    p := |Buffer(w, content[..a])|;
    var q := TightBuffer(w, content, a, b);
    BufferOfVisible(w, content, b - 1);
    StartOfVisible(w, content, a);
    StartOfVisible(w, content, b - 1);
    assert p + |q| - 1 == |Buffer(w, content[..b - 1])|;
  }

  lemma TightBuffer(w: Whitespace, content: string, a: nat, b: nat) returns (q: string)
    requires Tight(w, content, a, b)
    ensures q == Normalized(w, content[a..b]) != []
    ensures Buffer(w, content[..b]) == Buffer(w, content[..a]) + q
    ensures MatchesAt(Normalized(w, content), q, |Buffer(w, content[..a])|)
  {
    hide Buffer, StartAt, RunEnd;
    q := Normalized(w, content[a..b]);
    var slice := content[a..b];
    assert slice[|slice| - 1] == content[b - 1];
    BufferOfSlice(w, content, a, b);
    VisibleEndSurvives(w, content, b);
    var head, n := Buffer(w, content[..b]), Normalized(w, content);
    assert n[..|head|] == head;
    assert n[|head| - |q|..|head|] == head[|head| - |q|..] == q;
  }

  // ---------------------------------------------------------- the theorems

  /** The slice `content[i..j]` says what the quote says, whitespace aside. */
  predicate Quotes(w: Whitespace, content: string, i: int, j: int, quote: string)
  {
    0 <= i <= j <= |content| && Normalized(w, content[i..j]) == Normalized(w, quote) != []
  }

  /**
   Soundness: a returned span is a slice of the original that normalizes to the quote, and no
   slice that does so ends before it or, if it starts on a visible character, starts before it.
   */
  lemma LocatedIsFirstSlice(w: Whitespace, content: string, quote: string)
    requires Located(w, content, quote).Some?
    ensures var s := Located(w, content, quote).value;
            && Quotes(w, content, s.charStart, s.charEnd, quote)
            && Tight(w, content, s.charStart, s.charEnd)
            && (s.exact <==> content[s.charStart..s.charEnd] == quote)
            && forall i, j :: Quotes(w, content, i, j, quote) ==>
                 s.charEnd <= j && (i < |content| && !w.IsSpace(content[i]) ==> s.charStart <= i)
  {
    hide Buffer, Normalized, StartAt, RunEnd, FindFrom;
    var n, q := Normalized(w, content), Normalized(w, quote);
    var a, b := SliceOfMatch(w, content, q, FindFrom(n, q, 0));
    forall i, j | Quotes(w, content, i, j, quote)
      ensures b <= j && (i < |content| && !w.IsSpace(content[i]) ==> a <= i)
    {
      NoSliceEndsBefore(w, content, quote, FindFrom(n, q, 0), i, j);
      if i < |content| && !w.IsSpace(content[i]) {
        NoSliceStartsBefore(w, content, quote, FindFrom(n, q, 0), i, j);
      }
    }
  }

  /** `p` is the first match of `q` in the normal form. */
  predicate IsFirstMatch(w: Whitespace, content: string, q: string, p: nat)
  {
    MatchesAt(Normalized(w, content), q, p) && forall i :: 0 <= i < p ==> !MatchesAt(Normalized(w, content), q, i)
  }

  lemma NoSliceEndsBefore(w: Whitespace, content: string, quote: string, first: nat, i: nat, j: nat)
    requires Quotes(w, content, i, j, quote) && IsFirstMatch(w, content, Normalized(w, quote), first)
    ensures EndAt(w, content, first + |Normalized(w, quote)| - 1) <= j
  {
    hide Buffer, Normalized, StartAt, RunEnd, FindFrom;
    var p := MatchOfAnySlice(w, content, quote, i, j);
    EndsOfMatchesAscend(w, content, Normalized(w, quote), first, p);
  }

  lemma NoSliceStartsBefore(w: Whitespace, content: string, quote: string, first: nat, i: nat, j: nat)
    requires Quotes(w, content, i, j, quote) && IsFirstMatch(w, content, Normalized(w, quote), first)
    requires i < |content| && !w.IsSpace(content[i])
    ensures StartAt(w, content, first) <= i
  {
    hide Buffer, Normalized, StartAt, RunEnd, FindFrom;
    var p := MatchOfAnySlice(w, content, quote, i, j);
    StartsAscend(w, content, first, p);
  }

  lemma MatchOfAnySlice(w: Whitespace, content: string, quote: string, i: nat, j: nat) returns (p: nat)
    requires Quotes(w, content, i, j, quote)
    ensures MatchesAt(Normalized(w, content), Normalized(w, quote), p)
    ensures i <= StartAt(w, content, p) && EndAt(w, content, p + |Normalized(w, quote)| - 1) <= j
    ensures !w.IsSpace(content[i]) ==> StartAt(w, content, p) == i
  {
    hide Buffer, Normalized, StartAt, RunEnd, FindFrom;
    var i', j' := Tighten(w, content, i, j);
    p := MatchOfSlice(w, content, i', j');
    if !w.IsSpace(content[i]) {
      VisibleHeadIsTight(w, content, i, j, i', j');
    }
  }

  lemma EndsOfMatchesAscend(w: Whitespace, content: string, q: string, p: nat, p': nat)
    requires p <= p' && MatchesAt(Normalized(w, content), q, p) && MatchesAt(Normalized(w, content), q, p')
    requires q != [] && !w.IsSpace(q[|q| - 1])
    ensures EndAt(w, content, p + |q| - 1) <= EndAt(w, content, p' + |q| - 1)
  {
    hide Buffer, Normalized, StartAt, RunEnd, FindFrom;
    MatchEnds(Normalized(w, content), q, p);
    MatchEnds(Normalized(w, content), q, p');
    EndsAscend(w, content, p + |q| - 1, p' + |q| - 1);
  }

  lemma EndsAscend(w: Whitespace, content: string, i: nat, j: nat)
    requires i <= j < |Normalized(w, content)|
    requires !w.IsSpace(Normalized(w, content)[i]) && !w.IsSpace(Normalized(w, content)[j])
    ensures EndAt(w, content, i) <= EndAt(w, content, j)
  {
    StartsAscend(w, content, i, j);
    assert Normalized(w, content)[i] == Buffer(w, content)[i] && Normalized(w, content)[j] == Buffer(w, content)[j];
  }

  lemma SliceOfSlice(s: string, i: nat, j: nat, k: nat, l: nat)
    requires i <= j <= |s| && k <= l <= j - i
    ensures s[i..j][k..l] == s[i + k..i + l]
  {
    var inner, outer := s[i..j][k..l], s[i + k..i + l];
    assert |inner| == |outer| == l - k;
    assert forall x :: 0 <= x < l - k ==> inner[x] == s[i..j][k + x] == outer[x];
  }

  /** Tightening a slice that begins on a visible character keeps its beginning. */
  lemma VisibleHeadIsTight(w: Whitespace, content: string, i: nat, j: nat, i': nat, j': nat)
    requires i <= i' < j' <= j <= |content| && !w.IsSpace(content[i])
    requires Tight(w, content, i', j')
    requires Normalized(w, content[i'..j']) == Normalized(w, content[i..j])
    ensures i' == i
  {
    hide Buffer, StartAt, RunEnd;
    var whole, head, tail := content[i..j], content[i..j'], content[i'..j'];
    SliceOfSlice(content, i, j, 0, j' - i);
    SliceOfSlice(content, i, j', i' - i, j' - i);
    assert head == whole[..j' - i] && tail == head[i' - i..];
    VisibleEndSurvives(w, whole, j' - i);
    assert |Buffer(w, tail)| <= |Normalized(w, tail)| by {
      assert tail[|tail| - 1] == content[j' - 1];
    }
    if i < i' {
      LongerSlice(w, head, i' - i);
      assert false;
    }
  }

  /** A proper tight tail has a strictly shorter normal form. */
  lemma LongerSlice(w: Whitespace, text: string, cut: nat)
    requires 0 < cut < |text| && !w.IsSpace(text[0]) && !w.IsSpace(text[cut])
    ensures |Buffer(w, text[cut..])| < |Buffer(w, text)|
  {
    hide Buffer, StartAt, RunEnd;
    assert text[..|text|] == text;
    BufferOfSlice(w, text, cut, |text|);
    assert text[..cut][0] == text[0];
    BufferNonEmpty(w, text[..cut]);
  }

  /** Completeness: the search succeeds exactly when some slice of the content says the quote. */
  lemma LocatedIffSomeSlice(w: Whitespace, content: string, quote: string)
    ensures Located(w, content, quote).Some? <==> exists i, j :: Quotes(w, content, i, j, quote)
  {
    hide Buffer, Normalized, StartAt, RunEnd, FindFrom;
    var n, q := Normalized(w, content), Normalized(w, quote);
    if Located(w, content, quote).Some? {
      var a, b := SliceOfMatch(w, content, q, FindFrom(n, q, 0));
      assert Quotes(w, content, a, b, quote);
    }
    if i, j :| Quotes(w, content, i, j, quote) {
      var p := MatchOfAnySlice(w, content, quote, i, j);
    }
  }

  /** The tight slices that say the quote, by where they start. */
  ghost predicate StartsQuote(w: Whitespace, content: string, quote: string, a: int)
  {
    exists b :: Tight(w, content, a, b) && Quotes(w, content, a, b, quote)
  }

  /** Where in the document the quote stands. */
  ghost function Places(w: Whitespace, content: string, quote: string): set<int>
  {
    set a | 0 <= a < |content| && StartsQuote(w, content, quote, a)
  }

  lemma PlaceOfMatch(w: Whitespace, content: string, quote: string, p: nat)
    requires Normalized(w, quote) != [] && MatchesAt(Normalized(w, content), Normalized(w, quote), p)
    ensures StartAt(w, content, p) in Places(w, content, quote)
    ensures |Buffer(w, content[..StartAt(w, content, p)])| == p
  {
    hide Buffer, Normalized, StartAt, RunEnd, FindFrom;
    var a, b := SliceOfMatch(w, content, Normalized(w, quote), p);
    assert Tight(w, content, a, b) && Quotes(w, content, a, b, quote);
  }

  lemma MatchOfPlace(w: Whitespace, content: string, quote: string, a: int)
    requires a in Places(w, content, quote)
    ensures 0 <= a < |content|
    ensures var p := |Buffer(w, content[..a])|;
            MatchesAt(Normalized(w, content), Normalized(w, quote), p) && StartAt(w, content, p) == a
  {
    hide Buffer, Normalized, StartAt, RunEnd, FindFrom;
    var b :| Tight(w, content, a, b) && Quotes(w, content, a, b, quote);
    var p := MatchOfSlice(w, content, a, b);
  }

  lemma NoMorePlacesThanMatches(w: Whitespace, content: string, quote: string)
    requires Normalized(w, quote) != []
    ensures |Places(w, content, quote)| <= |Matches(Normalized(w, content), Normalized(w, quote), 0)|
  {
    hide Buffer, Normalized, StartAt, RunEnd, FindFrom;
    var places := Places(w, content, quote);
    var toMatch := map a | a in places :: if 0 <= a <= |content| then |Buffer(w, content[..a])| else 0;
    forall a | a in places
      ensures toMatch[a] in Matches(Normalized(w, content), Normalized(w, quote), 0)
      ensures toMatch[a] < |Buffer(w, content)| && StartAt(w, content, toMatch[a]) == a
    {
      MatchOfPlace(w, content, quote, a);
    }
    InjectionBounds(places, Matches(Normalized(w, content), Normalized(w, quote), 0), toMatch);
  }

  lemma NoMoreMatchesThanPlaces(w: Whitespace, content: string, quote: string)
    requires Normalized(w, quote) != []
    ensures |Matches(Normalized(w, content), Normalized(w, quote), 0)| <= |Places(w, content, quote)|
  {
    hide Buffer, Normalized, StartAt, RunEnd, FindFrom;
    var ps := Matches(Normalized(w, content), Normalized(w, quote), 0);
    var toPlace := map p | p in ps :: if p < |Buffer(w, content)| then StartAt(w, content, p) else 0;
    forall p | p in ps
      ensures toPlace[p] in Places(w, content, quote)
      ensures 0 <= toPlace[p] <= |content| && |Buffer(w, content[..toPlace[p]])| == p
    {
      PlaceOfMatch(w, content, quote, p);
    }
    InjectionBounds(ps, Places(w, content, quote), toPlace);
  }

  /** `occurrences` counts places in the document, overlapping ones included. */
  lemma OccurrencesCountPlaces(w: Whitespace, content: string, quote: string)
    requires Located(w, content, quote).Some?
    ensures Located(w, content, quote).value.occurrences == |Places(w, content, quote)|
  {
    hide Buffer, Normalized, StartAt, RunEnd, FindFrom;
    var n, q := Normalized(w, content), Normalized(w, quote);
    NoMorePlacesThanMatches(w, content, quote);
    NoMoreMatchesThanPlaces(w, content, quote);
    assert Matches(n, q, 0) == Matches(n, q, FindFrom(n, q, 0));
  }

  /** An injection into a finite set bounds its size. */
  lemma {:induction false} InjectionBounds<T, U>(xs: set<T>, ys: set<U>, f: map<T, U>)
    requires forall x :: x in xs ==> x in f && f[x] in ys
    requires forall x, x' :: x in xs && x' in xs && f[x] == f[x'] ==> x == x'
    ensures |xs| <= |ys|
    decreases |xs|
  {
    if |xs| > 0 {
      var x :| x in xs;
      InjectionBounds(xs - {x}, ys - {f[x]}, f);
    }
  }
}
