/**
 `_verify`: the claimed window first, the whole document second, rejection last.
 */
module CitationVerification {
  import opened Options
  import opened Text
  import opened QuoteNormalization
  import opened QuoteSearch

  datatype Citation = Citation(quote: string, charStart: Option<int>, charEnd: Option<int>)

  datatype Outcome = Verified | Relocated | Misquoted | SignalMissing | EmptyQuote {
    /** `VerificationOutcome.is_verified`. */
    predicate IsVerified() { Verified? || Relocated? }
  }

  datatype Verification = Verification(outcome: Outcome, span: Option<QuoteSpan>)

  /** Both offsets recorded, in range, and the right way round. */
  predicate ClaimsWindow(content: string, c: Citation)
  {
    c.charStart.Some? && c.charEnd.Some? && 0 <= c.charStart.value < c.charEnd.value <= |content|
  }

  /** `_within_claimed_span`. */
  function WithinClaimedSpan(w: Whitespace, content: string, c: Citation): Option<QuoteSpan>
  {
    if c.charStart.None? || c.charEnd.None? then None
    else
      var start, end := c.charStart.value, c.charEnd.value;
      if start < 0 || end > |content| || end <= start then None
      else
        match Located(w, content[start..end], c.quote)
        case None => None
        case Some(inner) =>
          Some(QuoteSpan(start + inner.charStart, start + inner.charEnd, inner.occurrences, inner.exact))
  }

  /** `_verify`; `signal` is the stored text, or `None` when the tenant has no such signal. */
  function Verify(w: Whitespace, c: Citation, signal: Option<string>): Verification
  {
    if Strip(w.isspace, c.quote) == [] then Verification(EmptyQuote, None)
    else if signal.None? then Verification(SignalMissing, None)
    else
      var content := signal.value;
      var span := WithinClaimedSpan(w, content, c);
      if span.Some? then Verification(Verified, span)
      else
        var found := Located(w, content, c.quote);
        if found.None? then Verification(Misquoted, None) else Verification(Relocated, found)
  }

  /** Some slice of `content[from..to]` says what the quote says. */
  ghost predicate QuotedWithin(w: Whitespace, content: string, from: int, to: int, quote: string)
  {
    exists i, j :: from <= i <= j <= to && Quotes(w, content, i, j, quote)
  }

  /** Slicing a window and slicing the document name the same text. */
  lemma WindowSlice(w: Whitespace, content: string, start: nat, end: nat, i: nat, j: nat, quote: string)
    requires start <= end <= |content| && i <= j <= end - start
    ensures content[start..end][i..j] == content[start + i..start + j]
    ensures Quotes(w, content[start..end], i, j, quote) <==> Quotes(w, content, start + i, start + j, quote)
  {
    hide Normalized;
    var window := content[start..end];
    assert forall k :: i <= k < j ==> window[k] == content[start + k];
    assert window[i..j] == content[start + i..start + j];
  }

  /** A search in the window finds exactly what the document has between its ends. */
  lemma WindowSearch(w: Whitespace, content: string, start: nat, end: nat, quote: string)
    requires start <= end <= |content|
    ensures Located(w, content[start..end], quote).Some? <==> QuotedWithin(w, content, start, end, quote)
  {
    hide Located, Normalized;
    LocatedIffSomeSlice(w, content[start..end], quote);
    if i, j :| Quotes(w, content[start..end], i, j, quote) {
      WindowSlice(w, content, start, end, i, j, quote);
    }
    if i, j :| start <= i <= j <= end && Quotes(w, content, i, j, quote) {
      WindowSlice(w, content, start, end, i - start, j - start, quote);
    }
  }

  /**
   What each outcome says about the stored text, both ways. A quote that strips to nothing is
   `EmptyQuote`; otherwise `Verified` means some slice of the claimed window says the quote,
   `Misquoted` that no slice of the whole text does, and `Relocated` is exactly the rest. A quote whose
   signal is not stored is `SignalMissing` unless it is empty.
   */
  lemma OutcomesPartition(w: Whitespace, c: Citation, content: string)
    ensures var v := Verify(w, c, Some(content)).outcome;
            var claimed := ClaimsWindow(content, c) &&
                           QuotedWithin(w, content, c.charStart.value, c.charEnd.value, c.quote);
            var anywhere := QuotedWithin(w, content, 0, |content|, c.quote);
            && (v == EmptyQuote <==> Strip(w.isspace, c.quote) == [])
            && (v == Verified <==> claimed)
            && (v == Misquoted <==> Strip(w.isspace, c.quote) != [] && !anywhere)
            && (v == Relocated <==> anywhere && !claimed)
            && (v.IsVerified() <==> anywhere)
    ensures Verify(w, c, None) ==
              Verification(if Strip(w.isspace, c.quote) == [] then EmptyQuote else SignalMissing, None)
  {
    hide Located, Normalized;
    WindowSearch(w, content, 0, |content|, c.quote);
    assert content[0..|content|] == content;
    if ClaimsWindow(content, c) {
      WindowSearch(w, content, c.charStart.value, c.charEnd.value, c.quote);
    }
    if Strip(w.isspace, c.quote) == [] {
      BlankQuote(w, c.quote);
    }
  }

  /** `span` is a slice of the stored text, visible at both ends, that says the quote. */
  ghost predicate Resolves(w: Whitespace, content: string, quote: string, span: QuoteSpan)
  {
    && Tight(w, content, span.charStart, span.charEnd)
    && Quotes(w, content, span.charStart, span.charEnd, quote)
    && (span.exact <==> content[span.charStart..span.charEnd] == quote)
  }

  lemma WindowSpanResolves(w: Whitespace, content: string, start: nat, end: nat, quote: string)
    requires start <= end <= |content| && Located(w, content[start..end], quote).Some?
    ensures var inner := Located(w, content[start..end], quote).value;
            start + inner.charEnd <= end &&
            Resolves(w, content, quote, inner.(charStart := start + inner.charStart, charEnd := start + inner.charEnd))
  {
    hide Located, Normalized;
    LocatedIsFirstSlice(w, content[start..end], quote);
    var inner := Located(w, content[start..end], quote).value;
    WindowSlice(w, content, start, end, inner.charStart, inner.charEnd, quote);
  }

  /**
   Every span handed out, by either route, resolves against the stored text; a `Verified` one
   lies inside the claimed range.
   */
  lemma SpansResolve(w: Whitespace, c: Citation, content: string)
    requires Verify(w, c, Some(content)).outcome.IsVerified()
    ensures var v := Verify(w, c, Some(content));
            && v.span.Some?
            && Resolves(w, content, c.quote, v.span.value)
            && (v.outcome == Verified ==>
                  c.charStart.value <= v.span.value.charStart && v.span.value.charEnd <= c.charEnd.value)
  {
    hide Located, Normalized, Resolves;
    if Verify(w, c, Some(content)).outcome == Verified {
      WindowSpanResolves(w, content, c.charStart.value, c.charEnd.value, c.quote);
    } else {
      DocumentSpanResolves(w, content, c.quote);
    }
  }

  lemma DocumentSpanResolves(w: Whitespace, content: string, quote: string)
    requires Located(w, content, quote).Some?
    ensures Resolves(w, content, quote, Located(w, content, quote).value)
  {
    hide Located, Normalized;
    LocatedIsFirstSlice(w, content, quote);
  }

  /**
   Whole-document search agrees with the claimed window: a verified citation is found by it too,
   no later than where the window found it.
   */
  lemma VerifiedIsFoundInDocument(w: Whitespace, c: Citation, content: string)
    requires Verify(w, c, Some(content)).outcome == Verified
    ensures var whole := Located(w, content, c.quote);
            whole.Some? &&
            whole.value.charStart <= Verify(w, c, Some(content)).span.value.charStart &&
            whole.value.charEnd <= Verify(w, c, Some(content)).span.value.charEnd
  {
    SpansResolve(w, c, content);
    hide Located, Normalized, Verify, WithinClaimedSpan;
    var span := Verify(w, c, Some(content)).span.value;
    assert Quotes(w, content, span.charStart, span.charEnd, c.quote);
    LocatedIffSomeSlice(w, content, c.quote);
    LocatedIsFirstSlice(w, content, c.quote);
  }

  /** Two spans that differ at most in `exact`. */
  predicate SameSpan(a: Option<QuoteSpan>, b: Option<QuoteSpan>)
  {
    a.Some? == b.Some? && (a.Some? ==> a.value.(exact := true) == b.value.(exact := true))
  }

  lemma SearchSeesOnlyWords(w: Whitespace, content: string, quote: string, quote': string)
    requires Words(w, quote) == Words(w, quote')
    ensures SameSpan(Located(w, content, quote), Located(w, content, quote'))
  {
    hide Normalized, StartAt, EndAt, FindFrom, Words, Buffer;
    SameNormalFormIffSameWords(w, quote, quote');
  }

  /**
   Verification does not depend on how the quote was wrapped: quotes with the same words get
   the same outcome and the same offsets, unless one of them is blank.
   */
  lemma RewrappingIsInvisible(w: Whitespace, c: Citation, d: Citation, signal: Option<string>)
    requires Words(w, c.quote) == Words(w, d.quote)
    requires c.charStart == d.charStart && c.charEnd == d.charEnd
    requires Strip(w.isspace, c.quote) == [] <==> Strip(w.isspace, d.quote) == []
    ensures Verify(w, c, signal).outcome == Verify(w, d, signal).outcome
    ensures SameSpan(Verify(w, c, signal).span, Verify(w, d, signal).span)
  {
    hide Located, Words;
    if signal.Some? {
      var content := signal.value;
      SearchSeesOnlyWords(w, content, c.quote, d.quote);
      if ClaimsWindow(content, c) {
        SearchSeesOnlyWords(w, content[c.charStart.value..c.charEnd.value], c.quote, d.quote);
      }
    }
  }
}
