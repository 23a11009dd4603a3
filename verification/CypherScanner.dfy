/**
 `cypher_statements`: split a script on the `;` that end statements, dropping comments.
 */
module CypherScanner {
  import opened Options
  import opened Text

  /** The scanner's `quote` variable: outside a literal, or inside one opened by `delim`. */
  datatype Mode = Top | Quoted(delim: char)

  predicate IsQuote(c: char) { c == '\'' || c == '"' || c == '`' }

  /** What is left after a `//` comment: its newline stays. */
  function AfterLine(src: string): (rest: string)
    ensures |rest| <= |src|
    ensures src != [] && src[0] != '\n' ==> |rest| < |src|
  {
    var newline := FindFrom(src, "\n", 0);
    if newline == -1 then [] else src[newline..]
  }

  /** What is left after a block comment. The closer may share its `*` with the opener. */
  function AfterBlock(src: string): (rest: string)
    ensures |rest| <= |src|
    ensures src != [] ==> |rest| < |src|
  {
    var close := FindFrom(src, "*/", 0);
    if close == -1 then [] else src[close + 2..]
  }

  predicate OpensLine(src: string) { "//" <= src }

  predicate OpensBlock(src: string) { "/*" <= src }

  /** A statement is kept when something is left of it after trimming. */
  function Flush(isspace: char -> bool, current: string): seq<string>
  {
    if Strip(isspace, current) == [] then [] else [Strip(isspace, current)]
  }

  /** Everything the scanner still appends when `src` is unread and `current` is pending. */
  function Scan(isspace: char -> bool, src: string, mode: Mode, current: string): seq<string>
    decreases |src|
  {
    if src == [] then Flush(isspace, current)
    else
      var c := src[0];
      match mode
      case Quoted(delim) =>
        if c == '\\' && |src| > 1 then Scan(isspace, src[2..], mode, current + src[..2])
        else Scan(isspace, src[1..], if c == delim then Top else mode, current + [c])
      case Top =>
        if IsQuote(c) then Scan(isspace, src[1..], Quoted(c), current + [c])
        else if OpensLine(src) then Scan(isspace, AfterLine(src), Top, current)
        else if OpensBlock(src) then Scan(isspace, AfterBlock(src), Top, current)
        else if c == ';' then Flush(isspace, current) + Scan(isspace, src[1..], Top, [])
        else Scan(isspace, src[1..], Top, current + [c])
  }

  /** `cypher_statements` as a value. */
  function Statements(isspace: char -> bool, source: string): seq<string>
  {
    Scan(isspace, source, Top, [])
  }

  /** One turn of the scanner, in offsets of the whole script rather than in suffixes. */
  lemma ScanAt(isspace: char -> bool, source: string, i: nat, mode: Mode, current: string)
    requires i < |source|
    ensures var c := source[i];
            Scan(isspace, source[i..], mode, current) ==
            match mode
            case Quoted(delim) =>
              if c == '\\' && i + 1 < |source|
              then Scan(isspace, source[i + 2..], mode, current + [c] + [source[i + 1]])
              else Scan(isspace, source[i + 1..], if c == delim then Top else mode, current + [c])
            case Top =>
              if IsQuote(c) then Scan(isspace, source[i + 1..], Quoted(c), current + [c])
              else if OpensLine(source[i..]) then
                Scan(isspace, source[Target(FindFrom(source, "\n", i), 0, |source|)..], Top, current)
              else if OpensBlock(source[i..]) then
                Scan(isspace, source[Target(FindFrom(source, "*/", i), 2, |source|)..], Top, current)
              else if c == ';' then Flush(isspace, current) + Scan(isspace, source[i + 1..], Top, [])
              else Scan(isspace, source[i + 1..], Top, current + [c])
  {
    hide FindFrom, Strip, Flush;
    var src := source[i..];
    assert src[1..] == source[i + 1..];
    if i + 1 < |source| {
      assert src[2..] == source[i + 2..];
      assert current + src[..2] == current + [source[i]] + [source[i + 1]];
    }
    AfterLineAt(source, i);
    AfterBlockAt(source, i);
  }

  lemma ScanEnd(isspace: char -> bool, src: string, mode: Mode, current: string)
    requires src == []
    ensures Scan(isspace, src, mode, current) == Flush(isspace, current)
  {
  }

  /** Where scanning resumes after a search: past what was found, or at the end. */
  function Target(found: int, past: nat, length: nat): (to: nat)
    requires found == -1 || (0 <= found && found + past <= length)
    ensures to <= length
  {
    if found == -1 then length else found + past
  }

  lemma AfterLineAt(source: string, i: nat)
    requires i < |source|
    ensures AfterLine(source[i..]) == source[Target(FindFrom(source, "\n", i), 0, |source|)..]
  {
    hide FindFrom;
    FindInSuffix(source, "\n", i);
  }

  lemma AfterBlockAt(source: string, i: nat)
    requires i < |source|
    ensures AfterBlock(source[i..]) == source[Target(FindFrom(source, "*/", i), 2, |source|)..]
  {
    hide FindFrom;
    FindInSuffix(source, "*/", i);
  }

  /** `cypher_statements`. */
  method CypherStatements(isspace: char -> bool, source: string) returns (statements: seq<string>)
    ensures statements == Statements(isspace, source)
  {
    hide Scan, FindFrom, Strip;
    statements := [];
    var current: string := [];
    var quote: Option<char> := None;
    var index, length := 0, |source|;
    while index < length
      invariant 0 <= index <= length
      invariant statements + Scan(isspace, source[index..], if quote.None? then Top else Quoted(quote.value), current)
             == Statements(isspace, source)
      decreases length - index
    {
      var c := source[index];
      ScanAt(isspace, source, index, if quote.None? then Top else Quoted(quote.value), current);
      if quote.Some? {
        current := current + [c];
        if c == '\\' && index + 1 < length {
          current := current + [source[index + 1]];
          index := index + 2;
          continue;
        }
        if c == quote.value {
          quote := None;
        }
        index := index + 1;
        continue;
      }
      if IsQuote(c) {
        quote := Some(c);
        current := current + [c];
        index := index + 1;
        continue;
      }
      if OpensLine(source[index..]) {
        var newline := FindFrom(source, "\n", index);
        assert source[index..][0] == '/';
        if newline != -1 { MatchEnds(source, "\n", newline); }
        index := if newline == -1 then length else newline;
        continue;
      }
      if OpensBlock(source[index..]) {
        var close := FindFrom(source, "*/", index);
        index := if close == -1 then length else close + 2;
        continue;
      }
      if c == ';' {
        var statement := Strip(isspace, current);
        if statement != [] {
          statements := statements + [statement];
        }
        current := [];
        index := index + 1;
        continue;
      }
      current := current + [c];
      index := index + 1;
    }
    ScanEnd(isspace, source[index..], if quote.None? then Top else Quoted(quote.value), current);
    var trailing := Strip(isspace, current);
    if trailing != [] {
      statements := statements + [trailing];
    }
  }

  /** Searching from an offset is searching the suffix. */
  lemma {:induction false} FindInSuffix(hay: string, needle: string, from: nat)
    requires from <= |hay|
    ensures var r, r' := FindFrom(hay, needle, from), FindFrom(hay[from..], needle, 0);
            r' == if r == -1 then -1 else r - from
  {
    var r, r' := FindFrom(hay, needle, from), FindFrom(hay[from..], needle, 0);
    forall i | 0 <= i
      ensures MatchesAt(hay[from..], needle, i) <==> MatchesAt(hay, needle, from + i)
    {
      if i + |needle| <= |hay| - from {
        assert hay[from..][i..i + |needle|] == hay[from + i..from + i + |needle|];
      }
    }
    if r != -1 {
      assert MatchesAt(hay[from..], needle, r - from);
    }
    if r' != -1 {
      assert MatchesAt(hay, needle, from + r');
    }
  }

  // ------------------------------------- what a statement is, independently

  /** A lexer over one statement: plain text, plain text after a slash, or inside a literal. */
  datatype Lex = Plain | Slash | In(delim: char) | Escaped(delim: char)

  /** One character of the lexer. `None` where a statement cannot go on: a `;` or a comment. */
  function Step(l: Lex, c: char): Option<Lex>
  {
    match l
    case In(d) => Some(if c == '\\' then Escaped(d) else if c == d then Plain else l)
    case Escaped(d) => Some(In(d))
    case _ =>
      if c == '\'' || c == '"' || c == '`' then Some(In(c))
      else if c == ';' || (l == Slash && (c == '/' || c == '*')) then None
      else Some(if c == '/' then Slash else Plain)
  }

  function LexFrom(l: Lex, s: string): Option<Lex>
    decreases |s|
  {
    if s == [] then Some(l)
    else match Step(l, s[0])
         case None => None
         case Some(l') => LexFrom(l', s[1..])
  }

  predicate Open(l: Lex) { l.In? || l.Escaped? }

  function ModeOf(l: Lex): Mode { if Open(l) then Quoted(l.delim) else Top }

  /** Trimmed, not empty, and free of top-level `;` and comments. */
  predicate IsStatement(isspace: char -> bool, s: string)
  {
    s != [] && Trimmed(isspace, s) && LexFrom(Plain, s).Some?
  }

  /** Statements in which every literal is closed, except perhaps in the last. */
  predicate IsScript(isspace: char -> bool, ss: seq<string>)
  {
    forall k :: 0 <= k < |ss| ==>
      IsStatement(isspace, ss[k]) && (k < |ss| - 1 ==> !Open(LexFrom(Plain, ss[k]).value))
  }

  /** `";".join(ss)`. */
  function Joined(ss: seq<string>): string
  {
    if ss == [] then [] else if |ss| == 1 then ss[0] else ss[0] + [';'] + Joined(ss[1..])
  }

  // --------------------------------------------- splitting undoes joining

  /** What may follow text that left the lexer there: nothing that makes a comment of its last slash. */
  predicate Continues(l: Lex, tail: string)
  {
    tail == [] || (!l.Escaped? && (l == Slash ==> tail[0] != '/' && tail[0] != '*'))
  }

  /** The scanner carries text without top-level `;` and comments over to `current` unchanged. */
  lemma {:induction false} ScanCarries(isspace: char -> bool, s: string, l: Lex, l': Lex, tail: string, current: string)
    requires LexFrom(l, s) == Some(l') && !l.Escaped? && (l.In? ==> IsQuote(l.delim)) && Continues(l', tail)
    ensures Scan(isspace, s + tail, ModeOf(l), current) == Scan(isspace, tail, ModeOf(l'), current + s)
    decreases |s|
  {
    if s == [] {
      assert s + tail == tail && current + s == current;
    } else if l.In? && s[0] == '\\' {
      CarryEscape(isspace, s, l, l', tail, current);
      if |s| > 1 {
        hide Scan, LexFrom;
        ScanCarries(isspace, s[2..], l, l', tail, current + s[..2]);
        assert current + s[..2] + s[2..] == current + s;
      }
    } else {
      assert Step(l, s[0]).Some?;
      hide Scan, LexFrom, Step;
      CarryOne(isspace, s, l, tail, current);
      ScanCarries(isspace, s[1..], Step(l, s[0]).value, l', tail, current + [s[0]]);
      assert current + [s[0]] + s[1..] == current + s;
    }
  }

  lemma CarryEscape(isspace: char -> bool, s: string, l: Lex, l': Lex, tail: string, current: string)
    requires s != [] && l.In? && IsQuote(l.delim) && s[0] == '\\' && LexFrom(l, s) == Some(l') && Continues(l', tail)
    ensures if |s| == 1 then Scan(isspace, s + tail, ModeOf(l), current) == Scan(isspace, tail, ModeOf(l'), current + s)
            else Scan(isspace, s + tail, ModeOf(l), current) ==
                 Scan(isspace, s[2..] + tail, ModeOf(l), current + s[..2])
    ensures |s| > 1 ==> LexFrom(l, s[2..]) == Some(l')
  {
    var src := s + tail;
    assert LexFrom(l, s) == LexFrom(Escaped(l.delim), s[1..]);
    if |s| == 1 {
      assert s[1..] == [] && src == s == [s[0]] && src[1..] == [];
    } else {
      assert src[2..] == s[2..] + tail && src[..2] == s[..2];
      assert s[1..][1..] == s[2..];
    }
  }

  lemma CarryOne(isspace: char -> bool, s: string, l: Lex, tail: string, current: string)
    requires s != [] && Step(l, s[0]).Some? && LexFrom(l, s).Some? && !l.Escaped? && (l.In? ==> s[0] != '\\')
    requires Continues(LexFrom(l, s).value, tail)
    ensures Scan(isspace, s + tail, ModeOf(l), current)
         == Scan(isspace, s[1..] + tail, ModeOf(Step(l, s[0]).value), current + [s[0]])
    ensures LexFrom(Step(l, s[0]).value, s[1..]) == LexFrom(l, s)
    ensures (l.In? ==> IsQuote(l.delim)) ==>
              var next := Step(l, s[0]).value; !next.Escaped? && (next.In? ==> IsQuote(next.delim))
  {
    var src := s + tail;
    assert src[1..] == s[1..] + tail;
    if !l.In? {
      if s[0] == '/' && |s| > 1 {
        assert LexFrom(Slash, s[1..]).Some?;
        assert src[1] == s[1] != '/' && s[1] != '*';
      } else if s[0] == '/' {
        assert LexFrom(l, s) == LexFrom(Slash, s[1..]) == Some(Slash);
      }
      assert |src| > 1 && src[0] == '/' ==> src[1] != '/' && src[1] != '*';
    }
  }

  /**
   Splitting undoes joining: whatever the statements hold inside their literals, including `;`,
   `//` and escaped quotes, comes back verbatim.
   */
  lemma {:induction false} SplittingUndoesJoining(isspace: char -> bool, ss: seq<string>)
    requires IsScript(isspace, ss)
    ensures Statements(isspace, Joined(ss)) == ss
  {
    if |ss| == 1 {
      CarryStatement(isspace, ss[0], []);
      assert ss[0] + [] == ss[0];
    } else if |ss| > 1 {
      SplittingUndoesJoining(isspace, ss[1..]);
      CarryStatement(isspace, ss[0], [';'] + Joined(ss[1..]));
      assert ss[0] + ([';'] + Joined(ss[1..])) == Joined(ss);
      assert ([';'] + Joined(ss[1..]))[1..] == Joined(ss[1..]);
    }
  }

  lemma CarryStatement(isspace: char -> bool, s: string, tail: string)
    requires IsStatement(isspace, s)
    requires tail == [] || (tail[0] == ';' && !Open(LexFrom(Plain, s).value))
    ensures Statements(isspace, s + tail) == [s] + if tail == [] then [] else Statements(isspace, tail[1..])
  {
    var l' := LexFrom(Plain, s).value;
    ScanCarries(isspace, s, Plain, l', tail, []);
    StripOfTrimmed(isspace, s);
    assert [] + s == s;
    assert tail != [] ==> !OpensLine(tail) && !OpensBlock(tail);
  }

  // ------------------------------------- a whole script, comments and blanks

  /** A comment as it is spelled, its newline or its closer included. */
  datatype Comment = Line(text: string) | Block(text: string) {
    predicate WellFormed()
    {
      match this
      case Line(t) => "//" <= t && t[|t| - 1] == '\n' && forall i :: 0 <= i < |t| - 1 ==> t[i] != '\n'
      case Block(t) =>
        "/*" <= t && MatchesAt(t, "*/", |t| - 2) && forall i :: 0 <= i < |t| - 2 ==> !MatchesAt(t, "*/", i)
    }

    /** What a statement keeps of it. */
    function Gap(): string { if Line? then "\n" else "" }
  }

  /** What stands between two semicolons: text, broken by comments anywhere outside its literals. */
  datatype Entry = Entry(parts: seq<(string, Comment)>, last: string) {
    function Source(): string
      decreases |parts|
    {
      if parts == [] then last else parts[0].0 + parts[0].1.text + Entry(parts[1..], last).Source()
    }

    /** The text without the comments. */
    function Spelled(): string
      decreases |parts|
    {
      if parts == [] then last else parts[0].0 + parts[0].1.Gap() + Entry(parts[1..], last).Spelled()
    }

    predicate WellFormed()
    {
      && LexFrom(Plain, last).Some?
      && forall k :: 0 <= k < |parts| ==> LexFrom(Plain, parts[k].0) == Some(Plain) && parts[k].1.WellFormed()
    }

    /** The statement, with nothing but whitespace around it. */
    ghost predicate Says(isspace: char -> bool, statement: string)
    {
      exists before, after ::
        && Spelled() == before + statement + after && Trimmed(isspace, statement)
        && AllSpace(isspace, before) && AllSpace(isspace, after)
    }
  }

  predicate AllSpace(isspace: char -> bool, s: string)
  {
    forall i :: 0 <= i < |s| ==> isspace(s[i])
  }

  /** A comment the script ends in: a line without its newline, or a block that is never closed. */
  predicate IsOpenComment(s: string)
  {
    || ("//" <= s && forall i :: 0 <= i < |s| ==> s[i] != '\n')
    || ("/*" <= s && forall i :: 0 <= i < |s| ==> !MatchesAt(s, "*/", i))
  }

  /** Entries whose literals are closed, except perhaps in the last, and perhaps a comment left open. */
  predicate IsSource(entries: seq<Entry>, rest: string)
  {
    && entries != []
    && (forall k :: 0 <= k < |entries| ==> entries[k].WellFormed())
    && (forall k :: 0 <= k < |entries| - 1 ==> !Open(LexFrom(Plain, entries[k].last).value))
    && (rest != [] ==> IsOpenComment(rest) && LexFrom(Plain, entries[|entries| - 1].last) == Some(Plain))
  }

  function SourceOf(entries: seq<Entry>, rest: string): string
    requires entries != []
  {
    if |entries| == 1 then entries[0].Source() + rest
    else entries[0].Source() + [';'] + SourceOf(entries[1..], rest)
  }

  function NonEmpty(ss: seq<string>): seq<string>
  {
    if ss == [] then [] else (if ss[0] == [] then [] else [ss[0]]) + NonEmpty(ss[1..])
  }

  /** The first match, found wherever the text goes on. */
  lemma FindsFirst(hay: string, needle: string, at: nat, tail: string)
    requires MatchesAt(hay, needle, at) && forall i :: 0 <= i < at ==> !MatchesAt(hay + tail, needle, i)
    ensures FindFrom(hay + tail, needle, 0) == at
  {
    assert (hay + tail)[at..at + |needle|] == hay[at..at + |needle|];
    assert MatchesAt(hay + tail, needle, at);
  }

  lemma ScanSkipsComment(isspace: char -> bool, c: Comment, tail: string, current: string)
    requires c.WellFormed()
    ensures Scan(isspace, c.text + tail, Top, current) == Scan(isspace, tail, Top, current + c.Gap())
  {
    hide Strip, Flush, FindFrom;
    var src, n := c.text + tail, |c.text|;
    match c
    case Line(t) =>
      assert src[0] == t[0] == '/' && src[1] == t[1] == '/' && OpensLine(src);
      forall i | 0 <= i < n - 1 ensures !MatchesAt(src, "\n", i) {
        assert src[i..i + 1] == [t[i]] && "\n"[0] == '\n';
      }
      assert t[n - 1..n] == [t[n - 1]] == "\n";
      FindsFirst(t, "\n", n - 1, tail);
      var rest := src[n - 1..];
      assert AfterLine(src) == rest && rest[0] == '\n' && rest[1..] == tail;
      assert !OpensLine(rest) && !OpensBlock(rest);
      assert Scan(isspace, src, Top, current) == Scan(isspace, rest, Top, current);
    case Block(t) =>
      assert src[0] == t[0] == '/' && src[1] == t[1] == '*' && OpensBlock(src) && !OpensLine(src);
      forall i | 0 <= i < n - 2 ensures !MatchesAt(src, "*/", i) {
        assert src[i..i + 2] == t[i..i + 2];
        assert !MatchesAt(t, "*/", i);
      }
      FindsFirst(t, "*/", n - 2, tail);
      assert src[n..] == tail && current + [] == current;
  }

  lemma ScanDropsOpenComment(isspace: char -> bool, s: string, current: string)
    requires IsOpenComment(s)
    ensures Scan(isspace, s, Top, current) == Flush(isspace, current)
  {
    hide Strip, Flush, FindFrom;
    ScanEnd(isspace, [], Top, current);
    assert |s| >= 2 && s[0] == '/';
    if s[1] == '/' {
      var newline := FindFrom(s, "\n", 0);
      if newline != -1 { MatchEnds(s, "\n", newline); }
      assert AfterLine(s) == [] && OpensLine(s);
    } else {
      assert s[1] == '*' && FindFrom(s, "*/", 0) == -1;
      assert AfterBlock(s) == [] && OpensBlock(s) && !OpensLine(s);
    }
  }

  /** The scanner carries an entry over without its comments. */
  lemma {:induction false} ScanCarriesEntry(isspace: char -> bool, e: Entry, tail: string, current: string)
    requires e.WellFormed() && Continues(LexFrom(Plain, e.last).value, tail)
    ensures Scan(isspace, e.Source() + tail, Top, current)
         == Scan(isspace, tail, ModeOf(LexFrom(Plain, e.last).value), current + e.Spelled())
    decreases |e.parts|
  {
    hide Scan, LexFrom, Continues;
    if e.parts == [] {
      ScanCarries(isspace, e.last, Plain, LexFrom(Plain, e.last).value, tail, current);
    } else {
      var text, comment, rest := e.parts[0].0, e.parts[0].1, Entry(e.parts[1..], e.last);
      hide Comment.WellFormed;
      assert rest.WellFormed();
      ScanCarriesEntry(isspace, rest, tail, current + text + comment.Gap());
      var after := rest.Source() + tail;
      ScanCarriesPart(isspace, text, comment, after, current);
      assert e.Source() + tail == text + comment.text + after;
      assert current + e.Spelled() == current + text + comment.Gap() + rest.Spelled();
    }
  }

  lemma ScanCarriesPart(isspace: char -> bool, text: string, comment: Comment, after: string, current: string)
    requires LexFrom(Plain, text) == Some(Plain) && comment.WellFormed()
    ensures Scan(isspace, text + comment.text + after, Top, current)
         == Scan(isspace, after, Top, current + text + comment.Gap())
  {
    hide Scan, LexFrom, Comment.WellFormed;
    ScanCarries(isspace, text, Plain, Plain, comment.text + after, current);
    ScanSkipsComment(isspace, comment, after, current + text);
    assert text + comment.text + after == text + (comment.text + after);
  }

  lemma FlushFinds(isspace: char -> bool, e: Entry, statement: string)
    requires e.Says(isspace, statement)
    ensures Flush(isspace, e.Spelled()) == if statement == [] then [] else [statement]
  {
    var before, after :|
      && e.Spelled() == before + statement + after && Trimmed(isspace, statement)
      && AllSpace(isspace, before) && AllSpace(isspace, after);
    if statement == [] {
      StripOfSpace(isspace, e.Spelled());
    } else {
      StripOfPadded(isspace, before, statement, after);
    }
  }

  /**
   Comments and blanks are the only thing a script loses: whatever whitespace and comments stand around
   the statements or break them, and whatever is between two semicolons without being a statement, each
   statement is returned, in order, without its comments.
   */
  lemma {:induction false} SplittingFindsEveryStatement(isspace: char -> bool, entries: seq<Entry>, rest: string,
                                                        ss: seq<string>)
    requires IsSource(entries, rest) && |ss| == |entries|
    requires forall k :: 0 <= k < |entries| ==> entries[k].Says(isspace, ss[k])
    ensures Statements(isspace, SourceOf(entries, rest)) == NonEmpty(ss)
  {
    hide Scan, LexFrom, Flush, Entry.WellFormed, Entry.Spelled, Entry.Source, Entry.Says, IsOpenComment;
    var e := entries[0];
    FlushFinds(isspace, e, ss[0]);
    assert [] + e.Spelled() == e.Spelled();
    if |entries| == 1 {
      LastEntryScans(isspace, e, rest);
      assert ss[1..] == [];
    } else {
      var later := SourceOf(entries[1..], rest);
      EntryScans(isspace, e, later);
      SplittingFindsEveryStatement(isspace, entries[1..], rest, ss[1..]);
    }
  }

  lemma EntryScans(isspace: char -> bool, e: Entry, tail: string)
    requires e.WellFormed() && !Open(LexFrom(Plain, e.last).value)
    ensures Statements(isspace, e.Source() + [';'] + tail) == Flush(isspace, e.Spelled()) + Statements(isspace, tail)
  {
    ScanCarriesEntry(isspace, e, [';'] + tail, []);
    hide LexFrom, Flush, Entry.Spelled, Entry.Source, Entry.WellFormed;
    assert e.Source() + [';'] + tail == e.Source() + ([';'] + tail) && [] + e.Spelled() == e.Spelled();
    assert ([';'] + tail)[1..] == tail;
  }

  lemma LastEntryScans(isspace: char -> bool, e: Entry, rest: string)
    requires e.WellFormed() && (rest != [] ==> IsOpenComment(rest) && LexFrom(Plain, e.last) == Some(Plain))
    ensures Statements(isspace, e.Source() + rest) == Flush(isspace, e.Spelled())
  {
    ScanCarriesEntry(isspace, e, rest, []);
    assert [] + e.Spelled() == e.Spelled();
    EndsTheScan(isspace, rest, ModeOf(LexFrom(Plain, e.last).value), e.Spelled());
  }

  lemma EndsTheScan(isspace: char -> bool, rest: string, mode: Mode, current: string)
    requires rest == [] || (IsOpenComment(rest) && mode == Top)
    ensures Scan(isspace, rest, mode, current) == Flush(isspace, current)
  {
    hide Flush;
    if rest != [] { ScanDropsOpenComment(isspace, rest, current); }
  }

  // ------------------------------------------- every output is such a list

  /** Whitespace that is none of the characters the scanner looks for. */
  predicate PlainSpace(isspace: char -> bool)
  {
    && !isspace('\'') && !isspace('"') && !isspace('`')
    && !isspace(';') && !isspace('/') && !isspace('*') && !isspace('\\')
  }

  lemma {:induction false} LexSnoc(l: Lex, s: string, c: char)
    ensures LexFrom(l, s + [c]) == if LexFrom(l, s).None? then None else Step(LexFrom(l, s).value, c)
    decreases |s|
  {
    if s == [] {
      assert (s + [c])[1..] == [];
    } else {
      assert (s + [c])[1..] == s[1..] + [c];
      match Step(l, s[0])
      case None =>
      case Some(l') => LexSnoc(l', s[1..], c);
    }
  }

  lemma {:induction false} LexDelim(l: Lex, s: string)
    requires LexFrom(l, s).Some? && (Open(l) ==> IsQuote(l.delim))
    ensures Open(LexFrom(l, s).value) ==> IsQuote(LexFrom(l, s).value.delim)
    decreases |s|
  {
    if s != [] {
      LexDelim(Step(l, s[0]).value, s[1..]);
    }
  }

  lemma {:induction false} StripLeftLexes(isspace: char -> bool, s: string)
    requires PlainSpace(isspace)
    ensures LexFrom(Plain, StripLeft(isspace, s)) == LexFrom(Plain, s)
  {
    if s != [] && isspace(s[0]) {
      StripLeftLexes(isspace, s[1..]);
    }
  }

  lemma {:induction false} StripRightLexes(isspace: char -> bool, s: string)
    requires PlainSpace(isspace) && LexFrom(Plain, s).Some?
    ensures LexFrom(Plain, StripRight(isspace, s)).Some?
    ensures !Open(LexFrom(Plain, s).value) ==> !Open(LexFrom(Plain, StripRight(isspace, s)).value)
  {
    if s != [] && isspace(s[|s| - 1]) {
      assert s == s[..|s| - 1] + [s[|s| - 1]];
      LexSnoc(Plain, s[..|s| - 1], s[|s| - 1]);
      LexDelim(Plain, s[..|s| - 1]);
      StripRightLexes(isspace, s[..|s| - 1]);
    }
  }

  lemma FlushIsScript(isspace: char -> bool, current: string)
    requires PlainSpace(isspace) && LexFrom(Plain, current).Some?
    ensures IsScript(isspace, Flush(isspace, current))
    ensures !Open(LexFrom(Plain, current).value) ==>
              forall s :: s in Flush(isspace, current) ==> !Open(LexFrom(Plain, s).value)
  {
    StripLeftLexes(isspace, current);
    StripRightLexes(isspace, StripLeft(isspace, current));
    var from, to := StripIsTrimmedSlice(isspace, current);
  }

  /** Where the scanner stands: `current` lexes, and what follows does not turn its end into a comment. */
  predicate Sound(src: string, mode: Mode, current: string)
  {
    match LexFrom(Plain, current)
    case None => false
    case Some(l) =>
      && ModeOf(l) == mode
      && (l.Escaped? ==> src == [])
      && (l == Slash ==> src == [] || (src[0] != '/' && src[0] != '*'))
  }

  lemma SoundStep(src: string, mode: Mode, current: string)
    requires src != [] && Sound(src, mode, current)
    requires mode == Top ==> !OpensLine(src) && !OpensBlock(src) && src[0] != ';'
    requires mode.Quoted? ==> src[0] != '\\' || |src| == 1
    ensures var c := src[0];
            var mode' := if mode == Top then (if IsQuote(c) then Quoted(c) else Top)
                         else if c == mode.delim && c != '\\' then Top else mode;
            Sound(src[1..], mode', current + [c])
  {
    LexSnoc(Plain, current, src[0]);
    if src[0] == '/' && |src| > 1 && mode == Top {
      assert "//" == src[..2] || src[1] != '/';
      assert "/*" == src[..2] || src[1] != '*';
    }
  }

  lemma SoundEscape(src: string, mode: Mode, current: string)
    requires |src| > 1 && Sound(src, mode, current) && mode.Quoted? && src[0] == '\\'
    ensures Sound(src[2..], mode, current + src[..2])
  {
    LexSnoc(Plain, current, src[0]);
    LexSnoc(Plain, current + [src[0]], src[1]);
    assert current + [src[0]] + [src[1]] == current + src[..2];
  }

  // ------------------------------------------------ every script is of that form

  /** A comment that is closed splits off. */
  lemma ClosedComment(src: string) returns (c: Comment, after: string)
    requires (OpensLine(src) || OpensBlock(src)) && !IsOpenComment(src)
    ensures c.WellFormed() && src == c.text + after && |after| < |src|
  {
    hide FindFrom;
    if OpensLine(src) {
      var newline := FindFrom(src, "\n", 0);
      if newline == -1 {
        forall i | 0 <= i < |src| ensures src[i] != '\n' {
          assert !MatchesAt(src, "\n", i) && src[i..i + 1] == [src[i]];
        }
      }
      MatchEnds(src, "\n", newline);
      c, after := Line(src[..newline + 1]), src[newline + 1..];
      forall i | 0 <= i < newline ensures src[i] != '\n' {
        assert !MatchesAt(src, "\n", i) && src[i..i + 1] == [src[i]];
      }
      assert c.text[0] == '/' && c.text[1] == '/';
    } else {
      var close := FindFrom(src, "*/", 0);
      MatchEnds(src, "*/", close);
      c, after := Block(src[..close + 2]), src[close + 2..];
      assert c.text[0] == '/' && c.text[1] == '*';
      assert src[close..close + 2] == c.text[close..close + 2];
      forall i | 0 <= i < close ensures !MatchesAt(c.text, "*/", i) {
        assert !MatchesAt(src, "*/", i) && src[i..i + 2] == c.text[i..i + 2];
      }
    }
  }

  /** Text read so far, and what follows it, spell entries of the form the splitting theorem asks for. */
  lemma {:induction false} Decomposes(src: string, mode: Mode, text: string) returns (entries: seq<Entry>, rest: string)
    requires Sound(src, mode, text)
    ensures IsSource(entries, rest) && SourceOf(entries, rest) == text + src
    decreases |src|
  {
    hide Entry.WellFormed, Entry.Source, IsOpenComment, Comment.WellFormed;
    if src == [] {
      entries, rest := OneEntry(text, []);
      assert text + src == text;
    } else if mode.Quoted? && src[0] == '\\' && |src| > 1 {
      SoundEscape(src, mode, text);
      entries, rest := Decomposes(src[2..], mode, text + src[..2]);
      assert text + src[..2] + src[2..] == text + src;
    } else if mode == Top && (OpensLine(src) || OpensBlock(src)) {
      if IsOpenComment(src) {
        entries, rest := OneEntry(text, src);
      } else {
        var comment, after := ClosedComment(src);
        entries, rest := Decomposes(after, Top, []);
        entries := BreakFirst(entries, rest, text, comment);
        assert text + comment.text + ([] + after) == text + src;
      }
    } else if mode == Top && src[0] == ';' {
      entries, rest := Decomposes(src[1..], Top, []);
      entries := NewFirst(entries, rest, text);
      assert text + [';'] + ([] + src[1..]) == text + src;
    } else {
      if mode.Quoted? { LexDelim(Plain, text); }
      SoundStep(src, mode, text);
      var c := src[0];
      var mode' := if mode == Top then (if IsQuote(c) then Quoted(c) else Top)
                   else if c == mode.delim && c != '\\' then Top else mode;
      entries, rest := Decomposes(src[1..], mode', text + [c]);
      assert text + [c] + src[1..] == text + src;
    }
  }

  lemma OneEntry(text: string, open: string) returns (entries: seq<Entry>, rest: string)
    requires LexFrom(Plain, text).Some? && (open != [] ==> IsOpenComment(open) && LexFrom(Plain, text) == Some(Plain))
    ensures IsSource(entries, rest) && SourceOf(entries, rest) == text + open
  {
    entries, rest := [Entry([], text)], open;
  }

  lemma BreakFirst(entries: seq<Entry>, rest: string, text: string, comment: Comment) returns (broken: seq<Entry>)
    requires IsSource(entries, rest) && LexFrom(Plain, text) == Some(Plain) && comment.WellFormed()
    ensures IsSource(broken, rest) && SourceOf(broken, rest) == text + comment.text + SourceOf(entries, rest)
  {
    hide Comment.WellFormed, LexFrom;
    var e := entries[0];
    var first := Entry([(text, comment)] + e.parts, e.last);
    assert first.parts[1..] == e.parts && first.Source() == text + comment.text + e.Source();
    broken := [first] + entries[1..];
    assert broken[1..] == entries[1..];
    forall k | 0 <= k < |broken| ensures broken[k].WellFormed() {
      assert entries[k].WellFormed();
    }
    hide Entry.Source, Entry.WellFormed;
  }

  lemma NewFirst(entries: seq<Entry>, rest: string, text: string) returns (more: seq<Entry>)
    requires IsSource(entries, rest) && LexFrom(Plain, text).Some? && !Open(LexFrom(Plain, text).value)
    ensures IsSource(more, rest) && SourceOf(more, rest) == text + [';'] + SourceOf(entries, rest)
  {
    var first := Entry([], text);
    assert first.WellFormed() && first.Source() == text;
    more := [first] + entries;
    hide Entry.Source, Entry.WellFormed, LexFrom;
    assert more[1..] == entries;
  }

  /** What an entry says: there is always something. */
  lemma SaysItsStrip(isspace: char -> bool, e: Entry)
    ensures e.Says(isspace, Strip(isspace, e.Spelled()))
  {
    var s := e.Spelled();
    var from, to := StripIsTrimmedSlice(isspace, s);
    assert s == s[..from] + s[from..to] + s[to..];
    assert AllSpace(isspace, s[..from]) && AllSpace(isspace, s[to..]);
  }

  /**
   So for every script there is, the scanner returns exactly the statements its entries spell: nothing but
   comments, surrounding whitespace and empty entries is lost.
   */
  lemma EveryScriptIsSplitIntoItsEntries(isspace: char -> bool, source: string)
    returns (entries: seq<Entry>, rest: string, ss: seq<string>)
    ensures IsSource(entries, rest) && SourceOf(entries, rest) == source && |ss| == |entries|
    ensures forall k :: 0 <= k < |entries| ==> entries[k].Says(isspace, ss[k])
    ensures Statements(isspace, source) == NonEmpty(ss)
  {
    entries, rest := Decomposes(source, Top, []);
    assert [] + source == source;
    ss := seq(|entries|, k requires 0 <= k < |entries| => Strip(isspace, entries[k].Spelled()));
    hide Entry.Says, Entry.Spelled, IsSource, Strip;
    forall k | 0 <= k < |entries| ensures entries[k].Says(isspace, ss[k]) {
      SaysItsStrip(isspace, entries[k]);
    }
    SplittingFindsEveryStatement(isspace, entries, rest, ss);
  }

  lemma {:induction false} ScanYieldsScript(isspace: char -> bool, src: string, mode: Mode, current: string)
    requires PlainSpace(isspace) && Sound(src, mode, current)
    ensures IsScript(isspace, Scan(isspace, src, mode, current))
    decreases |src|
  {
    if src == [] {
      FlushIsScript(isspace, current);
    } else if mode.Quoted? {
      LexDelim(Plain, current);
      if src[0] == '\\' && |src| > 1 {
        SoundEscape(src, mode, current);
        ScanYieldsScript(isspace, src[2..], mode, current + src[..2]);
      } else {
        SoundStep(src, mode, current);
        ScanYieldsScript(isspace, src[1..], if src[0] == mode.delim then Top else mode, current + [src[0]]);
      }
    } else if IsQuote(src[0]) {
      SoundStep(src, mode, current);
      ScanYieldsScript(isspace, src[1..], Quoted(src[0]), current + [src[0]]);
    } else if OpensLine(src) {
      ScanYieldsScript(isspace, AfterLine(src), Top, current);
    } else if OpensBlock(src) {
      ScanYieldsScript(isspace, AfterBlock(src), Top, current);
    } else if src[0] == ';' {
      FlushIsScript(isspace, current);
      ScanYieldsScript(isspace, src[1..], Top, []);
    } else {
      SoundStep(src, mode, current);
      ScanYieldsScript(isspace, src[1..], Top, current + [src[0]]);
    }
  }

  /**
   Whatever the script, comments and stray whitespace included, each returned statement is
   trimmed, non-empty, and free of top-level `;` and comments, and every one but perhaps the last
   closes its literals.
   */
  lemma StatementsFormScript(isspace: char -> bool, source: string)
    requires PlainSpace(isspace)
    ensures IsScript(isspace, Statements(isspace, source))
  {
    ScanYieldsScript(isspace, source, Top, []);
  }

  /** Splitting is a normal form: joining what it returned and splitting again changes nothing. */
  lemma SplittingIsIdempotent(isspace: char -> bool, source: string)
    requires PlainSpace(isspace)
    ensures var ss := Statements(isspace, source); Statements(isspace, Joined(ss)) == ss
  {
    StatementsFormScript(isspace, source);
    SplittingUndoesJoining(isspace, Statements(isspace, source));
  }
}
