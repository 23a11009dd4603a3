/**
 Whitespace normalization with a map back into the original text: the two lists `starts` and
 `ends` that `_normalize_with_offsets` builds beside the collapsed string.

 Two descriptions of the collapsed string are given and proved equal: `Normalized`, which reads
 the text one character at a time as the loop does, and `Joined(Words(text))`, which is what
 `" ".join(text.split())` would say.
 */
module QuoteNormalization {

  /** `_is_space`: `str.isspace()` or Unicode category `Zs`. Both tables stay arbitrary. */
  datatype Unicode = Unicode(isspace: char -> bool, isZs: char -> bool) {
    predicate IsSpace(c: char) { isspace(c) || isZs(c) }
  }

  /** All that is assumed of the tables: the ASCII space is whitespace. */
  type Whitespace = u: Unicode | u.isspace(' ') witness Unicode(c => c == ' ', c => c == ' ')

  /** The list `normalized` once the loop has consumed all of `text`, before the final pop. */
  function Buffer(w: Whitespace, text: string): (r: string)
    ensures |r| <= |text|
    ensures r != [] ==> !w.IsSpace(r[0]) && (r[|r| - 1] == ' ' || !w.IsSpace(r[|r| - 1]))
    ensures |r| > 1 && r[|r| - 1] == ' ' ==> !w.IsSpace(r[|r| - 2])
    ensures text != [] && w.IsSpace(text[|text| - 1]) ==> r == [] || r[|r| - 1] == ' '
    ensures text != [] && !w.IsSpace(text[|text| - 1]) ==> r != [] && r[|r| - 1] == text[|text| - 1]
  {
    if text == [] then []
    else
      var before := Buffer(w, text[..|text| - 1]);
      var c := text[|text| - 1];
      if !w.IsSpace(c) then before + [c]
      else if before == [] || before[|before| - 1] == ' ' then before
      else before + [' ']
  }

  /** `normalize_whitespace`. */
  function Normalized(w: Whitespace, text: string): (r: string)
    ensures r != [] ==> !w.IsSpace(r[0]) && !w.IsSpace(r[|r| - 1])
    ensures r <= Buffer(w, text) && |Buffer(w, text)| <= |r| + 1
    ensures |Buffer(w, text)| == |r| + 1 ==> Buffer(w, text)[|r|] == ' '
  {
    var b := Buffer(w, text);
    if b != [] && b[|b| - 1] == ' ' then b[..|b| - 1] else b
  }

  /** Both tables count: between two visible characters either kind of space becomes one plain space. */
  lemma EitherTableSeparates(w: Whitespace, a: char, c: char, b: char)
    requires !w.isspace(a) && !w.isZs(a) && !w.isspace(b) && !w.isZs(b)
    ensures Normalized(w, [a, c, b]) == if w.isspace(c) || w.isZs(c) then [a, ' ', b] else [a, c, b]
  {
    assert [a, c, b][..2] == [a, c] && [a, c][..1] == [a] && [a][..0] == [];
    assert Buffer(w, []) == [] && Buffer(w, [a]) == [] + [a] == [a];
    assert Buffer(w, [a, c]) == if w.IsSpace(c) then [a] + [' '] else [a] + [c];
    assert Buffer(w, [a, c, b]) == if w.IsSpace(c) then [a, ' '] + [b] else [a, c] + [b];
  }

  // ------------------------------------------------------------------ offsets

  /** Where in `text` the `k`-th character of the buffer was appended: `starts[k]`. */
  function StartAt(w: Whitespace, text: string, k: nat): (i: nat)
    requires k < |Buffer(w, text)|
    ensures i < |text| && |Buffer(w, text[..i])| == k
    ensures Buffer(w, text)[k] == if w.IsSpace(text[i]) then ' ' else text[i]
    ensures w.IsSpace(text[i]) ==> i > 0 && !w.IsSpace(text[i - 1])
  {
    var init := text[..|text| - 1];
    if k < |Buffer(w, init)| then
      var i := StartAt(w, init, k);
      assert init[..i] == text[..i];
      i
    else |text| - 1
  }

  /** The first position at or after `i` that holds no whitespace. */
  function RunEnd(w: Whitespace, text: string, i: nat): (j: nat)
    requires i <= |text|
    ensures i <= j <= |text|
    ensures forall m :: i <= m < j ==> w.IsSpace(text[m])
    ensures j < |text| ==> !w.IsSpace(text[j])
    decreases |text| - i
  {
    if i < |text| && w.IsSpace(text[i]) then RunEnd(w, text, i + 1) else i
  }

  /** Where the run that starts at `i` ends: a whole whitespace run, or one visible character. */
  function ExtentEnd(w: Whitespace, text: string, i: nat): (j: nat)
    requires i < |text|
    ensures i < j <= |text|
  {
    if w.IsSpace(text[i]) then RunEnd(w, text, i) else i + 1
  }

  /** Where the run behind the `k`-th character of the buffer ends: `ends[k]`. */
  function EndAt(w: Whitespace, text: string, k: nat): nat
    requires k < |Buffer(w, text)|
  {
    ExtentEnd(w, text, StartAt(w, text, k))
  }

  /** Appending non-whitespace adds one character that starts where it stands. */
  lemma BufferOfVisible(w: Whitespace, text: string, i: nat)
    requires i < |text| && !w.IsSpace(text[i])
    ensures Buffer(w, text[..i + 1]) == Buffer(w, text[..i]) + [text[i]]
  {
    assert text[..i + 1][..i] == text[..i];
  }

  /** A whitespace run adds one space, unless nothing precedes it. */
  lemma {:induction false} BufferOfRun(w: Whitespace, text: string, i: nat, j: nat)
    requires i < j <= |text|
    requires forall m :: i <= m < j ==> w.IsSpace(text[m])
    requires i > 0 ==> !w.IsSpace(text[i - 1])
    ensures Buffer(w, text[..j]) == Buffer(w, text[..i]) + (if Buffer(w, text[..i]) == [] then [] else [' '])
  {
    assert text[..j][..j - 1] == text[..j - 1];
    if i == 0 {
      if j > 1 { BufferOfRun(w, text, i, j - 1); }
    } else if j > i + 1 {
      BufferOfRun(w, text, i, j - 1);
    } else {
      assert text[..i] != [] && text[..i][|text[..i]| - 1] == text[i - 1];
    }
  }

  /** The buffer only ever grows, and what is in it keeps its starting point. */
  lemma {:induction false} BufferGrows(w: Whitespace, text: string, i: nat, j: nat)
    requires i <= j <= |text|
    ensures Buffer(w, text[..i]) <= Buffer(w, text[..j])
    ensures forall k :: 0 <= k < |Buffer(w, text[..i])| ==> StartAt(w, text[..i], k) == StartAt(w, text[..j], k)
  {
    if i < j {
      BufferGrows(w, text, i, j - 1);
      assert text[..j][..j - 1] == text[..j - 1];
    }
  }

  /** The three lists are right for the first `index` characters of `text`. */
  ghost predicate Tracks(w: Whitespace, text: string, index: nat, normalized: string, starts: seq<nat>, ends: seq<nat>)
    requires index <= |text|
  {
    && normalized == Buffer(w, text[..index])
    && |starts| == |ends| == |normalized|
    && (forall k :: 0 <= k < |starts| ==> starts[k] == StartAt(w, text[..index], k))
    && (forall k :: 0 <= k < |starts| ==> ends[k] == ExtentEnd(w, text, starts[k]))
  }

  lemma TracksVisible(w: Whitespace, text: string, i: nat, normalized: string, starts: seq<nat>, ends: seq<nat>)
    requires i < |text| && !w.IsSpace(text[i]) && Tracks(w, text, i, normalized, starts, ends)
    ensures Tracks(w, text, i + 1, normalized + [text[i]], starts + [i], ends + [i + 1])
  {
    hide Buffer, RunEnd;
    BufferOfVisible(w, text, i);
    BufferGrows(w, text, i, i + 1);
    assert text[..i + 1][..i] == text[..i];
  }

  lemma TracksRun(w: Whitespace, text: string, i: nat, j: nat, normalized: string, starts: seq<nat>, ends: seq<nat>)
    requires i < j <= |text| && Tracks(w, text, i, normalized, starts, ends)
    requires w.IsSpace(text[i]) && j == RunEnd(w, text, i)
    requires i > 0 ==> !w.IsSpace(text[i - 1])
    ensures if normalized == [] then Tracks(w, text, j, normalized, starts, ends)
            else Tracks(w, text, j, normalized + [' '], starts + [i], ends + [j])
  {
    BufferOfRun(w, text, i, j);
    BufferGrows(w, text, i, j);
    if normalized != [] {
      BufferOfRun(w, text, i, i + 1);
      BufferGrows(w, text, i + 1, j);
      assert text[..i + 1][..i] == text[..i];
      assert StartAt(w, text[..i + 1], |normalized|) == i;
    }
  }

  /** `_normalize_with_offsets`. */
  method NormalizeWithOffsets(w: Whitespace, text: string)
    returns (normalized: string, starts: seq<nat>, ends: seq<nat>)
    ensures normalized == Normalized(w, text)
    ensures |starts| == |ends| == |normalized|
    ensures forall k :: 0 <= k < |normalized| ==> starts[k] == StartAt(w, text, k) && ends[k] == EndAt(w, text, k)
  {
    normalized, starts, ends := [], [], [];
    var index, length := 0, |text|;
    while index < length
      invariant index <= length
      invariant Tracks(w, text, index, normalized, starts, ends)
      invariant 0 < index < length && w.IsSpace(text[index - 1]) ==> !w.IsSpace(text[index])
    {
      if w.IsSpace(text[index]) {
        var runStart := index;
        while index < length && w.IsSpace(text[index])
          invariant runStart <= index <= length
          invariant RunEnd(w, text, runStart) == RunEnd(w, text, index)
        {
          index := index + 1;
        }
        TracksRun(w, text, runStart, index, normalized, starts, ends);
        if normalized != [] {
          normalized := normalized + [' '];
          starts := starts + [runStart];
          ends := ends + [index];
        }
      } else {
        TracksVisible(w, text, index, normalized, starts, ends);
        normalized := normalized + [text[index]];
        starts := starts + [index];
        ends := ends + [index + 1];
        index := index + 1;
      }
    }
    assert text[..length] == text;
    if normalized != [] && normalized[|normalized| - 1] == ' ' {
      normalized := normalized[..|normalized| - 1];
      starts := starts[..|starts| - 1];
      ends := ends[..|ends| - 1];
    }
  }

  // ------------------------------------------------------ what the map means

  /** A text that ends in whitespace loses the last character of its buffer. */
  lemma LastRunIsDropped(w: Whitespace, text: string, s: nat)
    requires s < |text| && (forall m :: s <= m < |text| ==> w.IsSpace(text[m]))
    requires s > 0 ==> !w.IsSpace(text[s - 1])
    ensures Normalized(w, text) == Buffer(w, text[..s])
  {
    hide Buffer, StartAt, RunEnd;
    assert text[..|text|] == text;
    BufferOfRun(w, text, s, |text|);
    var before := Buffer(w, text[..s]);
    if s > 0 {
      assert text[..s][s - 1] == text[s - 1];
      assert (before + [' '])[..|before|] == before;
    }
  }

  /** A collapsed space inside the normalized text is followed by something visible. */
  lemma InnerRunEnds(w: Whitespace, text: string, s: nat, e: nat)
    requires s < e <= |text| && w.IsSpace(text[s]) && e == RunEnd(w, text, s)
    requires s > 0 ==> !w.IsSpace(text[s - 1])
    requires |Buffer(w, text[..s])| < |Normalized(w, text)|
    ensures e < |text|
  {
    if e == |text| {
      LastRunIsDropped(w, text, s);
      assert false;
    }
  }

  /** The run after the `k`-th starts where the `k`-th ends. */
  lemma NextRunStarts(w: Whitespace, text: string, k: nat)
    requires k + 1 < |Normalized(w, text)|
    ensures StartAt(w, text, k + 1) == EndAt(w, text, k)
  {
    hide Buffer, StartAt, RunEnd;
    var s, e := StartAt(w, text, k), EndAt(w, text, k);
    assert text[..|text|] == text;
    if w.IsSpace(text[s]) {
      InnerRunEnds(w, text, s, e);
      BufferOfRun(w, text, s, e);
    } else {
      BufferOfVisible(w, text, s);
      BufferGrows(w, text, e, |text|);
    }
    BufferStepAt(w, text, e);
  }

  /** `text[s..e]` is the run that shows as `c`: `c` itself, or a whole inner whitespace run. */
  predicate IsRunOf(w: Whitespace, text: string, s: int, e: int, c: char)
  {
    && 0 <= s < e <= |text|
    && (c != ' ' ==> text[s..e] == [c])
    && (c == ' ' ==> 0 < s && e < |text| && !w.IsSpace(text[s - 1]) && !w.IsSpace(text[e]) &&
                     forall i :: s <= i < e ==> w.IsSpace(text[i]))
  }

  lemma RunShape(w: Whitespace, text: string, s: nat, e: nat)
    requires s < |text| && |Buffer(w, text[..s])| < |Normalized(w, text)|
    requires w.IsSpace(text[s]) ==> s > 0 && !w.IsSpace(text[s - 1])
    requires e == ExtentEnd(w, text, s)
    ensures IsRunOf(w, text, s, e, if w.IsSpace(text[s]) then ' ' else text[s])
  {
    hide Buffer, Normalized, RunEnd;
    if w.IsSpace(text[s]) {
      InnerRunEnds(w, text, s, e);
    }
  }

  /**
   Every character of the normalized text owns one run of the original, the runs follow each
   other without gap or overlap, and a collapsed space owns its whole whitespace run.
   */
  lemma OffsetsNameTheirRuns(w: Whitespace, text: string, k: nat)
    requires k < |Normalized(w, text)|
    ensures IsRunOf(w, text, StartAt(w, text, k), EndAt(w, text, k), Normalized(w, text)[k])
    ensures k + 1 < |Normalized(w, text)| ==> StartAt(w, text, k + 1) == EndAt(w, text, k)
  {
    hide Buffer, Normalized, StartAt, RunEnd;
    RunShape(w, text, StartAt(w, text, k), EndAt(w, text, k));
    if k + 1 < |Normalized(w, text)| {
      NextRunStarts(w, text, k);
    }
  }

  /** A character that extends the buffer is where its new last character starts. */
  lemma BufferStepAt(w: Whitespace, text: string, e: nat)
    requires 0 < e < |text| && Buffer(w, text[..e]) != []
    requires w.IsSpace(text[e - 1]) ==> !w.IsSpace(text[e])
    ensures |Buffer(w, text[..e])| < |Buffer(w, text)|
    ensures StartAt(w, text, |Buffer(w, text[..e])|) == e
  {
    hide Buffer, StartAt, RunEnd;
    BufferExtends(w, text, e);
    assert text[..e + 1][..e] == text[..e] && text[..|text|] == text;
    StartOfLast(w, text[..e + 1]);
    BufferGrows(w, text, e + 1, |text|);
  }

  lemma BufferExtends(w: Whitespace, text: string, e: nat)
    requires 0 < e < |text| && Buffer(w, text[..e]) != []
    requires w.IsSpace(text[e - 1]) ==> !w.IsSpace(text[e])
    ensures |Buffer(w, text[..e + 1])| == |Buffer(w, text[..e])| + 1
  {
    hide Buffer;
    if w.IsSpace(text[e]) {
      BufferOfRun(w, text, e, e + 1);
    } else {
      BufferOfVisible(w, text, e);
    }
  }

  lemma StartOfLast(w: Whitespace, text: string)
    requires text != [] && |Buffer(w, text)| == |Buffer(w, text[..|text| - 1])| + 1
    ensures StartAt(w, text, |Buffer(w, text)| - 1) == |text| - 1
  {
  }

  // ---------------------------------------------------- normalizing a slice

  /** One turn of the loop. */
  lemma BufferSnoc(w: Whitespace, text: string, c: char)
    ensures var b := Buffer(w, text);
            Buffer(w, text + [c]) == if !w.IsSpace(c) then b + [c]
                                     else if b == [] || b[|b| - 1] == ' ' then b
                                     else b + [' ']
  {
    assert (text + [c])[..|text|] == text;
  }

  /** One turn of the loop extends the whole and the slice alike. */
  lemma BufferSnocBoth(w: Whitespace, whole: string, head: string, slice: string, c: char)
    requires Buffer(w, whole) == Buffer(w, head) + Buffer(w, slice)
    requires !w.IsSpace((slice + [c])[0])
    ensures Buffer(w, whole + [c]) == Buffer(w, head) + Buffer(w, slice + [c])
  {
    hide Buffer;
    BufferSnoc(w, whole, c);
    BufferSnoc(w, slice, c);
    if slice != [] {
      BufferNonEmpty(w, slice);
    }
  }

  /** From a visible character on, the buffer of a slice is a piece of the buffer of the whole. */
  lemma {:induction false} BufferOfSlice(w: Whitespace, text: string, i: nat, j: nat)
    requires i <= j <= |text|
    requires i < j ==> !w.IsSpace(text[i])
    ensures Buffer(w, text[..j]) == Buffer(w, text[..i]) + Buffer(w, text[i..j])
  {
    hide Buffer;
    if i < j {
      BufferOfSlice(w, text, i, j - 1);
      var whole, slice, c := text[..j - 1], text[i..j - 1], text[j - 1];
      assert whole + [c] == text[..j];
      assert slice + [c] == text[i..j];
      BufferSnocBoth(w, whole, text[..i], slice, c);
    }
  }

  lemma {:induction false} BufferNonEmpty(w: Whitespace, text: string)
    requires text != [] && !w.IsSpace(text[0])
    ensures Buffer(w, text) != []
  {
    if |text| > 1 {
      BufferNonEmpty(w, text[..|text| - 1]);
    }
  }

  /** `text[i..j]` starts and ends with a visible character. */
  predicate Tight(w: Whitespace, text: string, i: int, j: int)
  {
    0 <= i < j <= |text| && !w.IsSpace(text[i]) && !w.IsSpace(text[j - 1])
  }

  lemma {:induction false} DropLeadingSpace(w: Whitespace, text: string)
    requires text != [] && w.IsSpace(text[0])
    ensures Buffer(w, text) == Buffer(w, text[1..])
    ensures Normalized(w, text) == Normalized(w, text[1..])
  {
    var n := |text| - 1;
    if n > 0 {
      DropLeadingSpace(w, text[..n]);
      assert text[..n][1..] == text[1..][..n - 1];
    }
  }

  lemma DropTrailingSpace(w: Whitespace, text: string)
    requires text != [] && w.IsSpace(text[|text| - 1])
    ensures Normalized(w, text) == Normalized(w, text[..|text| - 1])
  {
    var before := Buffer(w, text[..|text| - 1]);
    if before != [] && before[|before| - 1] != ' ' {
      assert (before + [' '])[..|before|] == before;
    }
  }

  /** Whitespace around a slice does not show after normalization. */
  lemma {:induction false} Tighten(w: Whitespace, text: string, i: nat, j: nat) returns (a: nat, b: nat)
    requires i <= j <= |text| && Normalized(w, text[i..j]) != []
    ensures i <= a < b <= j && Tight(w, text, a, b)
    ensures Normalized(w, text[a..b]) == Normalized(w, text[i..j])
    decreases j - i
  {
    hide Buffer, Normalized;
    var slice := text[i..j];
    if w.IsSpace(slice[|slice| - 1]) {
      DropTrailingSpace(w, slice);
      assert slice[..j - i - 1] == text[i..j - 1];
      a, b := Tighten(w, text, i, j - 1);
    } else if w.IsSpace(slice[0]) {
      DropLeadingSpace(w, slice);
      assert slice[1..] == text[i + 1..j];
      a, b := Tighten(w, text, i + 1, j);
    } else {
      a, b := i, j;
    }
  }

  /** A text of nothing but whitespace normalizes to nothing. */
  lemma {:induction false} BlankNormalizesToNothing(w: Whitespace, text: string)
    requires forall i :: 0 <= i < |text| ==> w.IsSpace(text[i])
    ensures Buffer(w, text) == []
  {
    if text != [] {
      BlankNormalizesToNothing(w, text[..|text| - 1]);
    }
  }

  // ------------------------------------------------ the word-list reference

  /** `text.split()`: the maximal whitespace-free runs, in order. */
  function Words(w: Whitespace, text: string): seq<string>
  {
    if text == [] then []
    else
      var n := |text| - 1;
      var before := Words(w, text[..n]);
      if w.IsSpace(text[n]) then before
      else if n == 0 || w.IsSpace(text[n - 1]) || before == [] then before + [[text[n]]]
      else before[..|before| - 1] + [before[|before| - 1] + [text[n]]]
  }

  /** `" ".join(words)`. */
  function Joined(words: seq<string>): string
  {
    if words == [] then []
    else if |words| == 1 then words[0]
    else Joined(words[..|words| - 1]) + [' '] + words[|words| - 1]
  }

  /** Non-empty and free of whitespace: what `split` returns. */
  predicate IsWord(w: Whitespace, word: string)
  {
    word != [] && forall i :: 0 <= i < |word| ==> !w.IsSpace(word[i])
  }

  lemma {:induction false} WordsAreWords(w: Whitespace, text: string)
    ensures forall k :: 0 <= k < |Words(w, text)| ==> IsWord(w, Words(w, text)[k])
    ensures text != [] && !w.IsSpace(text[|text| - 1]) ==> Words(w, text) != []
  {
    if text != [] {
      WordsAreWords(w, text[..|text| - 1]);
    }
  }

  /** One more visible character on the last word, or as a word of its own. */
  lemma JoinedSnoc(words: seq<string>, word: string, c: char)
    ensures Joined(words + [word + [c]]) == Joined(words + [word]) + [c]
    ensures Joined(words + [[c]]) == if words == [] then [c] else Joined(words) + [' '] + [c]
  {
    assert (words + [word + [c]])[..|words|] == words;
    assert (words + [word])[..|words|] == words;
    assert (words + [[c]])[..|words|] == words;
  }

  /** The space the buffer still carries after a whitespace run that follows a word. */
  function Pending(w: Whitespace, text: string): string
  {
    if text != [] && w.IsSpace(text[|text| - 1]) && Words(w, text) != [] then [' '] else []
  }

  /** `Buffer` and `Words` agree on `text`. */
  ghost predicate Agrees(w: Whitespace, text: string)
  {
    Buffer(w, text) == Joined(Words(w, text)) + Pending(w, text) && (Words(w, text) == [] <==> Buffer(w, text) == [])
  }

  lemma WordsSnoc(w: Whitespace, text: string, c: char)
    ensures var before := Words(w, text);
            Words(w, text + [c]) == if w.IsSpace(c) then before
                                    else if text == [] || w.IsSpace(text[|text| - 1]) || before == []
                                    then before + [[c]]
                                    else before[..|before| - 1] + [before[|before| - 1] + [c]]
  {
    assert (text + [c])[..|text|] == text;
  }

  lemma AgreesAfterSpace(w: Whitespace, text: string, c: char)
    requires Agrees(w, text) && w.IsSpace(c)
    ensures Agrees(w, text + [c])
  {
    hide Buffer, Words, Joined;
    BufferSnoc(w, text, c);
    WordsSnoc(w, text, c);
    WordsAreWords(w, text);
  }

  lemma AgreesAfterVisible(w: Whitespace, text: string, c: char)
    requires Agrees(w, text) && !w.IsSpace(c)
    ensures Agrees(w, text + [c])
  {
    hide Buffer, Words, Joined;
    BufferSnoc(w, text, c);
    WordsSnoc(w, text, c);
    var before := Words(w, text);
    if text == [] || w.IsSpace(text[|text| - 1]) || before == [] {
      JoinedSnoc(before, [], c);
    } else {
      var init, last := before[..|before| - 1], before[|before| - 1];
      assert before == init + [last];
      JoinedSnoc(init, last, c);
    }
  }

  /** The loop computes what splitting and joining would. */
  lemma {:induction false} BufferIsJoinedWords(w: Whitespace, text: string)
    ensures Agrees(w, text)
  {
    if text != [] {
      hide Buffer, Words, Joined;
      var init, c := text[..|text| - 1], text[|text| - 1];
      assert text == init + [c];
      BufferIsJoinedWords(w, init);
      if w.IsSpace(c) {
        AgreesAfterSpace(w, init, c);
      } else {
        AgreesAfterVisible(w, init, c);
      }
    }
  }

  /** `normalize_whitespace(text) == " ".join(text.split())`. */
  lemma NormalizedIsJoinedWords(w: Whitespace, text: string)
    ensures Normalized(w, text) == Joined(Words(w, text))
  {
    BufferIsJoinedWords(w, text);
    WordsAreWords(w, text);
    var words := Words(w, text);
    if words != [] && !w.IsSpace(text[|text| - 1]) {
      assert Buffer(w, text)[|Buffer(w, text)| - 1] == text[|text| - 1];
    }
  }

  lemma WordsBeforeSpace(w: Whitespace, text: string)
    ensures Words(w, text + [' ']) == Words(w, text)
  {
    assert (text + [' '])[..|text|] == text;
  }

  lemma JoinedOneMore(init: seq<string>, last: string)
    ensures Joined(init + [last]) == if init == [] then last else Joined(init) + [' '] + last
  {
    assert (init + [last])[..|init|] == init;
  }

  /** Splitting undoes joining. */
  lemma {:induction false} WordsOfJoined(w: Whitespace, words: seq<string>)
    requires forall k :: 0 <= k < |words| ==> IsWord(w, words[k])
    ensures Words(w, Joined(words)) == words
  {
    if words != [] {
      var init, last := words[..|words| - 1], words[|words| - 1];
      assert words == init + [last];
      WordsOfJoined(w, init);
      JoinedOneMore(init, last);
      var lead := if init == [] then [] else Joined(init) + [' '];
      WordsBeforeSpace(w, Joined(init));
      WordsOfLeadAndWord(w, lead, last);
      assert Joined(words) == lead + last;
    }
  }

  lemma {:induction false} WordsOfLeadAndWord(w: Whitespace, lead: string, word: string)
    requires lead == [] || w.IsSpace(lead[|lead| - 1])
    requires IsWord(w, word)
    ensures Words(w, lead + word) == Words(w, lead) + [word]
  {
    var n := |word| - 1;
    var init, c := word[..n], word[n];
    assert init + [c] == word;
    WordsSnoc(w, lead + init, c);
    assert lead + init + [c] == lead + word;
    hide Words;
    if n == 0 {
      assert lead + init == lead;
    } else {
      assert (lead + init)[|lead + init| - 1] == word[n - 1];
      WordsOfLeadAndWord(w, lead, init);
      var before := Words(w, lead) + [init];
      assert before[..|before| - 1] == Words(w, lead);
    }
  }

  /**
   Whitespace-insensitive and nothing else: two texts normalize alike exactly when they have
   the same words in the same order.
   */
  lemma SameNormalFormIffSameWords(w: Whitespace, a: string, b: string)
    ensures Normalized(w, a) == Normalized(w, b) <==> Words(w, a) == Words(w, b)
  {
    NormalizedIsJoinedWords(w, a);
    NormalizedIsJoinedWords(w, b);
    WordsAreWords(w, a);
    WordsAreWords(w, b);
    WordsOfJoined(w, Words(w, a));
    WordsOfJoined(w, Words(w, b));
  }

  /** Normalizing twice changes nothing. */
  lemma NormalFormIsStable(w: Whitespace, text: string)
    ensures Normalized(w, Normalized(w, text)) == Normalized(w, text)
  {
    hide Normalized, Words, Joined;
    NormalizedIsJoinedWords(w, text);
    NormalizedIsJoinedWords(w, Normalized(w, text));
    WordsAreWords(w, text);
    WordsOfJoined(w, Words(w, text));
  }
}
