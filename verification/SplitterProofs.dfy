/** Every chunk is balanced by itself, the chunks carry the text, and how long a chunk can get. */
module SplitterProofs {
  import opened Options
  import opened Text
  import opened Splitter

  // ---------------------------------------------------------------- balanced text

  predicate Known(name: string) {
    IsSimple(name) || name == "a"
  }

  /** Tags must be closed innermost first; closers of elements the splitter does not follow are ignored. */
  function Nest(content: string, open: seq<string>): Option<seq<string>> {
    if content != "" && content[0] == '/' && Known(Lower(content[1..])) then
      if open != [] && NameOf(open[|open| - 1]) == Lower(content[1..]) then Some(open[..|open| - 1]) else None
    else Some(Apply(content, open))
  }

  function NestAll(contents: seq<string>, open: seq<string>): Option<seq<string>> {
    if contents == [] then Some(open)
    else
      match Nest(contents[0], open)
      case None => None
      case Some(next) => NestAll(contents[1..], next)
  }

  /** Reading the text from the given open tags nests properly and ends with these. */
  predicate Leads(text: string, open: seq<string>, end: seq<string>) {
    NestAll(Tags(text), open) == Some(end)
  }

  predicate Balanced(text: string) {
    Leads(text, [], [])
  }

  lemma {:induction false} NestConcat(a: seq<string>, b: seq<string>, open: seq<string>)
    ensures NestAll(a + b, open) == match NestAll(a, open) { case None => None case Some(mid) => NestAll(b, mid) }
  {
    hide Nest;
    if a == [] {
      assert a + b == b;
    } else {
      assert (a + b)[1..] == a[1..] + b;
      match Nest(a[0], open)
      case None =>
      case Some(next) => NestConcat(a[1..], b, next);
    }
  }

  // ---------------------------------------------------------------- tags of a concatenation

  lemma IndexOfConcat(a: string, b: string, c: char)
    requires c in a
    ensures IndexOf(a + b, c) == IndexOf(a, c)
  {
    hide IndexOf;
    var i := IndexOf(a, c);
    IndexOfFirst(a[..i], c, a[i + 1..] + b);
    assert a + b == a[..i] + [c] + (a[i + 1..] + b);
  }

  /** A text that starts with a tag: what follows the tag, here and with more text behind. */
  lemma FirstTag(a: string, b: string)
    requires a != "" && a[0] == '<' && '>' in a
    ensures var end := IndexOf(a, '>');
            && Tags(a) == [Trim(a[1..end])] + Tags(a[end + 1..]) && Closed(a) == Closed(a[end + 1..])
            && Tags(a + b) == [Trim(a[1..end])] + Tags(a[end + 1..] + b) && Closed(a + b) == Closed(a[end + 1..] + b)
  {
    hide IndexOf, Trim;
    var end := IndexOf(a, '>');
    IndexOfConcat(a, b, '>');
    assert (a + b)[1..end] == a[1..end] && (a + b)[end + 1..] == a[end + 1..] + b;
  }

  lemma FirstPlain(a: string, b: string)
    requires a != "" && a[0] != '<'
    ensures Tags(a) == Tags(a[1..]) && Closed(a) == Closed(a[1..])
    ensures Tags(a + b) == Tags(a[1..] + b) && Closed(a + b) == Closed(a[1..] + b)
  {
    hide IndexOf, Trim;
    assert (a + b)[1..] == a[1..] + b;
  }

  lemma ClosedTag(a: string)
    requires Closed(a) && a != "" && a[0] == '<'
    ensures '>' in a
  {
    hide IndexOf;
  }

  lemma NoText()
    ensures Tags("") == [] && Closed("")
  {
  }

  lemma {:induction false} TagsConcat(a: string, b: string)
    requires Closed(a)
    ensures Tags(a + b) == Tags(a) + Tags(b)
    ensures Closed(b) ==> Closed(a + b)
    decreases |a|
  {
    hide Tags, Closed, Trim;
    if a == "" {
      NoText();
      assert a + b == b;
    } else if a[0] != '<' {
      FirstPlain(a, b);
      TagsConcat(a[1..], b);
    } else {
      ClosedTag(a);
      FirstTag(a, b);
      TagsConcat(a[IndexOf(a, '>') + 1..], b);
    }
  }

  lemma PlainText(a: string)
    requires '<' !in a
    ensures Tags(a) == [] && Closed(a)
  {
    if a != "" { PlainText(a[1..]); }
  }

  lemma OneTag(content: string)
    requires Trimmed(content) && '>' !in content
    ensures Tags("<" + content + ">") == [content] && Closed("<" + content + ">")
  {
    hide IndexOf, Trim;
    var s := "<" + content + ">";
    var i := |content| + 1;
    IndexOfFirst("<" + content, '>', "");
    assert s == "<" + content + ['>'] + "";
    assert s[1..i] == content && s[i + 1..] == "";
  }

  // ---------------------------------------------------------------- escaped text

  /** How the three entities are read; other text is itself. */
  function Unescape(s: string): string
    decreases |s|
  {
    if s == "" then ""
    else if |s| >= 5 && s[..5] == "&amp;" then "&" + Unescape(s[5..])
    else if |s| >= 4 && s[..4] == "&lt;" then "<" + Unescape(s[4..])
    else if |s| >= 4 && s[..4] == "&gt;" then ">" + Unescape(s[4..])
    else [s[0]] + Unescape(s[1..])
  }

  lemma UnescapeStep(c: char, rest: string)
    ensures Unescape(EscapeChar(c) + rest) == [c] + Unescape(rest)
  {
    var e := EscapeChar(c);
    var s := e + rest;
    assert s[..|e|] == e && s[|e|..] == rest && s[0] == e[0];
    if c == '<' || c == '>' {
      assert s[1] == e[1] && "&amp;"[1] == 'a';
      assert |s| >= 5 ==> s[..5][1] == s[1];
    }
    if c == '>' {
      assert "&lt;"[1] == 'l' && s[..4][1] == s[1];
    }
    if c != '&' && c != '<' && c != '>' {
      assert |s| >= 5 ==> s[..5][0] == c;
      assert |s| >= 4 ==> s[..4][0] == c;
      assert "&amp;"[0] == '&' && "&lt;"[0] == '&' && "&gt;"[0] == '&';
      assert s[1..] == rest;
    }
  }

  lemma {:induction false} EscapedChars(s: string)
    ensures '<' !in EscapeHTML(s) && '>' !in EscapeHTML(s)
  {
    if s != "" {
      EscapedChars(s[1..]);
      assert '<' !in EscapeChar(s[0]) && '>' !in EscapeChar(s[0]);
    }
  }

  lemma {:induction false} EscapedReadsBack(s: string)
    ensures Unescape(EscapeHTML(s)) == s
  {
    hide EscapeChar, Unescape;
    if s == "" {
      UnescapeNothing();
    } else {
      EscapedReadsBack(s[1..]);
      UnescapeStep(s[0], EscapeHTML(s[1..]));
      assert s == [s[0]] + s[1..];
    }
  }

  lemma UnescapeNothing()
    ensures Unescape("") == ""
  {
  }

  /** Escaped text opens no tag, closes its own brackets, and is read back as it was. */
  lemma EscapedIsInert(s: string)
    ensures Tags(EscapeHTML(s)) == [] && Closed(EscapeHTML(s))
    ensures Unescape(EscapeHTML(s)) == s
  {
    hide EscapeHTML, Unescape;
    EscapedChars(s);
    PlainText(EscapeHTML(s));
    EscapedReadsBack(s);
  }

  // ---------------------------------------------------------------- tags that survive reopening

  /** An open tag as the splitter stores it. */
  ghost predicate Stored(t: string) {
    && t != "" && Trimmed(t) && '>' !in t && t[0] != '/' && t[|t| - 1] != '/'
    && (if IsSimple(NameOf(t)) then t == NameOf(t) else NameOf(t) == "a")
  }

  ghost predicate AllStored(open: seq<string>) {
    forall t | t in open :: Stored(t)
  }

  predicate SmallLetters(s: string) {
    s != "" && forall i | 0 <= i < |s| :: 'a' <= s[i] <= 'z' || s[i] == '-'
  }

  lemma SimpleIsSmall(name: string)
    requires IsSimple(name)
    ensures SmallLetters(name)
  {
  }

  lemma SmallIsItsName(s: string)
    requires SmallLetters(s)
    ensures NameOf(s) == s && Trimmed(s) && '>' !in s && s[0] != '/' && s[|s| - 1] != '/'
  {
    SmallIsItsField(s);
    VisibleEnds(s);
    hide FirstField, SpaceAhead, SpaceBehind;
    assert Lower(s) == s;
  }

  lemma {:induction false} SmallIsItsWord(s: string)
    requires s != "" ==> SmallLetters(s)
    ensures Word(s) == s
  {
    if s != "" {
      SmallIsItsWord(s[1..]);
      VisibleEnds(s);
      hide SpaceAhead;
      assert s == [s[0]] + s[1..];
    }
  }

  lemma SmallIsItsField(s: string)
    requires SmallLetters(s)
    ensures FirstField(s) == s
  {
    VisibleEnds(s);
    TrimLeftOfTrimmed(s);
    SmallIsItsWord(s);
    hide SpaceAhead, TrimLeft, Word;
  }

  lemma ApplyStores(content: string, open: seq<string>)
    requires AllStored(open) && Trimmed(content) && '>' !in content
    ensures AllStored(Apply(content, open))
  {
    hide FirstField, Lower, IsSimple;
    var n := NameOf(content);
    if IsSimple(n) {
      SimpleIsSmall(n);
      SmallIsItsName(n);
    }
  }

  /** Where nesting is proper, the splitter's own bookkeeping agrees with it. */
  lemma NestIsApply(content: string, open: seq<string>)
    requires AllStored(open) && Trimmed(content) && '>' !in content && Nest(content, open).Some?
    ensures Nest(content, open).value == Apply(content, open) && AllStored(Apply(content, open))
  {
    hide FirstField, Lower, IsSimple, Stored;
    ApplyStores(content, open);
  }

  lemma {:induction false} NestAllIsApplyAll(contents: seq<string>, open: seq<string>)
    requires AllStored(open) && forall c | c in contents :: Trimmed(c) && '>' !in c
    requires NestAll(contents, open).Some?
    ensures NestAll(contents, open).value == ApplyAll(contents, open) && AllStored(ApplyAll(contents, open))
  {
    hide Nest, Apply, Stored;
    if contents != [] {
      NestIsApply(contents[0], open);
      NestAllIsApplyAll(contents[1..], Apply(contents[0], open));
    }
  }

  // ---------------------------------------------------------------- prefixes and closers

  lemma StoredReopens(t: string, open: seq<string>)
    requires Stored(t)
    ensures Apply(t, open) == open + [t] && Nest(t, open) == Some(open + [t])
  {
    hide FirstField, Lower, IsSimple;
    StoredHasField(t);
  }

  lemma StoredHasField(t: string)
    requires Stored(t)
    ensures FirstField(t) != ""
  {
    hide FirstField, IsSimple;
  }

  lemma {:induction false} PrefixOpens(open: seq<string>, before: seq<string>)
    requires AllStored(open)
    ensures Closed(Prefix(open)) && NestAll(Tags(Prefix(open)), before) == Some(before + open)
    decreases |open|
  {
    hide Stored, Nest, Tags, Closed, Apply;
    if open == [] {
      PlainText("");
      assert before + open == before;
    } else {
      var t := open[0];
      StoredShape(t);
      OneTag(t);
      PrefixOpens(open[1..], before + [t]);
      TagsConcat(Opener(t), Prefix(open[1..]));
      StoredReopens(t, before);
      assert ([t] + Tags(Prefix(open[1..])))[1..] == Tags(Prefix(open[1..]));
      assert before + [t] + open[1..] == before + open;
    }
  }

  lemma StoredShape(t: string)
    requires Stored(t)
    ensures Trimmed(t) && '>' !in t
  {
    hide IsSimple, NameOf;
  }

  lemma CloserCloses(t: string, rest: seq<string>)
    requires Stored(t)
    ensures Tags(Closer(t)) == ["/" + FirstField(t)] && Closed(Closer(t))
    ensures Nest("/" + FirstField(t), rest + [t]) == Some(rest)
  {
    hide FirstField, Lower, IsSimple, Tags, Closed;
    var c := "/" + FirstField(t);
    StoredHasField(t);
    FieldCloserTrimmed(t);
    OneTag(c);
    assert "<" + c + ">" == Closer(t);
    assert c[1..] == FirstField(t);
    assert (rest + [t])[..|rest|] == rest;
  }

  lemma {:induction false} ClosersClose(open: seq<string>)
    requires AllStored(open)
    ensures Closed(Closers(open)) && NestAll(Tags(Closers(open)), open) == Some([])
    decreases |open|
  {
    hide Nest, Tags, Closed, Apply, Closer, Stored;
    if open == [] {
      PlainText("");
    } else {
      var n := |open| - 1;
      assert open[..n] + [open[n]] == open;
      ClosersClose(open[..n]);
      ClosersStep(open[..n], open[n]);
    }
  }

  lemma ClosersStep(rest: seq<string>, t: string)
    requires Stored(t) && Closed(Closers(rest)) && NestAll(Tags(Closers(rest)), rest) == Some([])
    ensures Closed(Closers(rest + [t])) && NestAll(Tags(Closers(rest + [t])), rest + [t]) == Some([])
  {
    hide Stored, Nest, Tags, Closed, Apply, Closer, Closers, NestAll;
    ClosersLast(rest + [t]);
    assert (rest + [t])[..|rest|] == rest;
    CloserCloses(t, rest);
    TagsConcat(Closer(t), Closers(rest));
    NestConcat(["/" + FirstField(t)], Tags(Closers(rest)), rest + [t]);
    NestOne("/" + FirstField(t), rest + [t]);
  }

  lemma NestOne(c: string, open: seq<string>)
    ensures NestAll([c], open) == Nest(c, open)
  {
    hide Nest;
  }

  /** Closers come innermost first. */
  lemma {:induction false} ClosersLast(open: seq<string>)
    requires open != []
    ensures Closers(open) == Closer(open[|open| - 1]) + Closers(open[..|open| - 1])
    decreases |open|
  {
    hide Closer;
    var n := |open| - 1;
    if n > 0 {
      ClosersLast(open[1..]);
      assert open[1..][..n - 1] == open[..n][1..];
    }
  }

  /** A part whose body leads from its open tags to its closed ones makes a balanced chunk. */
  lemma PartBalanced(p: Part)
    requires AllStored(p.open) && AllStored(p.close) && Closed(p.body) && Leads(p.body, p.open, p.close)
    ensures Balanced(Chunk(p)) && Closed(Chunk(p))
  {
    hide AllStored, Tags, Closed, NestAll, Prefix, Closers;
    PrefixOpens(p.open, []);
    ClosersClose(p.close);
    assert [] + p.open == p.open;
    var a, b, c := Prefix(p.open), p.body, Closers(p.close);
    TagsConcat(a, b);
    TagsConcat(a + b, c);
    NestConcat(Tags(a), Tags(b), []);
    NestConcat(Tags(a) + Tags(b), Tags(c), []);
  }

  // ---------------------------------------------------------------- every chunk is balanced

  ghost predicate Sound(p: Part) {
    AllStored(p.open) && AllStored(p.close) && Closed(p.body) && Leads(p.body, p.open, p.close)
  }

  /** The chunk being filled is sound if it were closed now, like all finished ones. */
  ghost predicate StateSound(st: State) {
    (forall p | p in st.done :: Sound(p)) && Sound(Part(st.open, st.body, st.tags))
  }

  lemma FlushSound(st: State)
    requires StateSound(st)
    ensures StateSound(Flush(st))
  {
    hide AllStored;
    PlainText("");
  }

  lemma AppendSound(st: State, line: string, end: seq<string>)
    requires StateSound(st) && Closed(line) && Leads(line, st.tags, end)
    ensures StateSound(Append(st, line)) && Append(st, line).tags == end
  {
    hide AllStored, Tags, Closed, NestAll, Prefix, Length, ApplyAll;
    NestAllIsApplyAll(Tags(line), st.tags);
    PlainText("\n");
    PlainText("");
    var newline := if Length(st) > 0 && Length(st) != |Prefix(st.tags)| then "\n" else "";
    TagsConcat(st.body, newline);
    TagsConcat(st.body + newline, line);
    assert Tags(st.body) + [] == Tags(st.body);
    NestConcat(Tags(st.body), Tags(line), st.open);
  }

  /** The tags of a list of lines, one after another. */
  function LineTags(lines: seq<string>): seq<string> {
    if lines == [] then [] else Tags(lines[0]) + LineTags(lines[1..])
  }

  lemma {:induction false} RunSound(st: State, lines: seq<string>, limit: int, end: seq<string>)
    requires StateSound(st) && (forall l | l in lines :: Closed(l)) && NestAll(LineTags(lines), st.tags) == Some(end)
    ensures StateSound(Run(st, lines, limit))
    decreases |lines|
  {
    hide Sound, NestAll, Tags, Closed, StateSound, Append, Flush, MustFlush;
    if lines != [] {
      NestConcat(Tags(lines[0]), LineTags(lines[1..]), st.tags);
      var mid := NestAll(Tags(lines[0]), st.tags).value;
      StepSound(st, lines[0], limit, mid);
      RunSound(Step(st, lines[0], limit), lines[1..], limit, end);
    }
  }

  lemma StepSound(st: State, line: string, limit: int, end: seq<string>)
    requires StateSound(st) && Closed(line) && Leads(line, st.tags, end)
    ensures StateSound(Step(st, line, limit)) && Step(st, line, limit).tags == end
  {
    hide StateSound, Append, MustFlush, Leads, Closed;
    if MustFlush(st, line, limit) { FlushSound(st); }
    AppendSound(if MustFlush(st, line, limit) then Flush(st) else st, line, end);
  }

  // ---------------------------------------------------------------- lines of the text

  lemma {:induction false} SplitJoin(text: string)
    ensures JoinLines(Split(text)) == text
    ensures forall l | l in Split(text) :: '\n' !in l
  {
    if text != "" {
      SplitJoin(text[1..]);
      var rest := Split(text[1..]);
      assert text == [text[0]] + text[1..];
      if text[0] == '\n' {
        assert Split(text)[1..] == rest;
      } else {
        assert Split(text)[1..] == rest[1..];
        assert rest[0] in rest;
      }
    }
  }

  lemma {:induction false} TagsOfLines(lines: seq<string>)
    requires forall l | l in lines :: Closed(l)
    ensures Tags(JoinLines(lines)) == LineTags(lines) && Closed(JoinLines(lines))
  {
    hide Tags, Closed;
    PlainText("");
    PlainText("\n");
    if |lines| == 1 {
      assert Tags(lines[0]) + [] == Tags(lines[0]);
      assert LineTags(lines[1..]) == [];
    } else if lines != [] {
      TagsOfLines(lines[1..]);
      TagsConcat(lines[0], ['\n']);
      TagsConcat(lines[0] + ['\n'], JoinLines(lines[1..]));
      assert Tags(lines[0]) + [] == Tags(lines[0]);
      assert Tags(lines[0] + ['\n']) == Tags(lines[0]);
    }
  }

  /** A balanced text whose lines close their own `<` is cut into chunks that are each balanced. */
  lemma ChunksBalanced(text: string, limit: int)
    requires (forall l | l in Split(text) :: Closed(l)) && Balanced(text)
    ensures forall c | c in Chunks(Parts(text, limit)) :: Balanced(c) && Closed(c)
  {
    hide Closed, Split, StateSound, Run, Length, Flush, NestAll, LineTags, Sound, Chunks, Chunk;
    var lines := Split(text);
    SplitJoin(text);
    TagsOfLines(lines);
    EmptySound(text);
    RunSound(EMPTY, lines, limit, []);
    var st := Run(EMPTY, lines, limit);
    FlushSound(st);
    assert forall p | p in Parts(text, limit) :: Sound(p) by { DoneSound(st); DoneSound(Flush(st)); }
    forall c | c in Chunks(Parts(text, limit)) ensures Balanced(c) && Closed(c) {
      var k :| 0 <= k < |Chunks(Parts(text, limit))| && Chunks(Parts(text, limit))[k] == c;
      SoundPartBalanced(Parts(text, limit)[k]);
    }
  }

  lemma SoundPartBalanced(p: Part)
    requires Sound(p)
    ensures Balanced(Chunk(p)) && Closed(Chunk(p))
  {
    hide AllStored, Tags, Closed, NestAll, Prefix, Closers, Chunk, Leads;
    PartBalanced(p);
  }

  lemma DoneSound(st: State)
    requires StateSound(st)
    ensures forall p | p in st.done :: Sound(p)
  {
    hide Sound;
  }

  lemma EmptySound(text: string)
    ensures StateSound(EMPTY)
    ensures Balanced(text) && Closed(text) ==> Sound(Part([], text, []))
  {
    PlainText("");
  }

  // ---------------------------------------------------------------- the text is all there

  function NoNewlines(s: string): string {
    if s == "" then "" else (if s[0] == '\n' then "" else [s[0]]) + NoNewlines(s[1..])
  }

  lemma {:induction false} NoNewlinesConcat(a: string, b: string)
    ensures NoNewlines(a + b) == NoNewlines(a) + NoNewlines(b)
  {
    if a == "" {
      assert a + b == b;
    } else {
      assert (a + b)[1..] == a[1..] + b;
      NoNewlinesConcat(a[1..], b);
    }
  }

  function Bodies(parts: seq<Part>): string {
    if parts == [] then "" else Bodies(parts[..|parts| - 1]) + parts[|parts| - 1].body
  }

  lemma {:induction false} RunKeepsText(st: State, lines: seq<string>, limit: int)
    ensures var r := Run(st, lines, limit);
            NoNewlines(Bodies(r.done) + r.body) == NoNewlines(Bodies(st.done) + st.body) + NoNewlines(JoinLines(lines))
    decreases |lines|
  {
    hide Append, Flush, MustFlush, NoNewlines;
    if lines == [] {
      NoNewlinesConcat("", Bodies(st.done) + st.body);
      NoNewlinesConcat(Bodies(st.done) + st.body, "");
      assert Bodies(st.done) + st.body + "" == Bodies(st.done) + st.body;
    } else {
      var next := Step(st, lines[0], limit);
      RunKeepsText(next, lines[1..], limit);
      StepKeepsText(st, lines[0], limit);
      NoNewlinesOfLines(lines);
    }
  }

  lemma NoNewlinesOfLines(lines: seq<string>)
    requires lines != []
    ensures NoNewlines(JoinLines(lines)) == NoNewlines(lines[0]) + NoNewlines(JoinLines(lines[1..]))
  {
    if |lines| > 1 {
      NoNewlinesConcat(lines[0], ['\n']);
      NoNewlinesConcat(lines[0] + ['\n'], JoinLines(lines[1..]));
    }
  }

  lemma StepKeepsText(st: State, line: string, limit: int)
    ensures var r := Step(st, line, limit);
            NoNewlines(Bodies(r.done) + r.body) == NoNewlines(Bodies(st.done) + st.body) + NoNewlines(line)
  {
    hide MustFlush, Update, Prefix, NoNewlines;
    var mid := if MustFlush(st, line, limit) then Flush(st) else st;
    assert Bodies(mid.done) + mid.body == Bodies(st.done) + st.body by {
      assert Flush(st).done[..|st.done|] == st.done;
      assert Bodies(st.done) + st.body + "" == Bodies(st.done) + st.body;
    }
    AppendKeepsText(mid, line);
  }

  lemma AppendKeepsText(st: State, line: string)
    ensures NoNewlines(Bodies(st.done) + Append(st, line).body)
              == NoNewlines(Bodies(st.done) + st.body) + NoNewlines(line)
  {
    hide Update, Prefix, Bodies;
    var newline := if Length(st) > 0 && Length(st) != |Prefix(st.tags)| then "\n" else "";
    var before := Bodies(st.done) + st.body;
    assert Bodies(st.done) + Append(st, line).body == before + newline + line;
    NoNewlinesConcat(before, newline);
    NoNewlinesConcat(before + newline, line);
    assert NoNewlines(newline) == "";
  }

  /** The bodies of the chunks, in order, are the text up to newlines, for any text at all. */
  lemma ChunksCarryText(text: string, limit: int)
    ensures NoNewlines(Bodies(Parts(text, limit))) == NoNewlines(text)
  {
    hide Run, Split, NoNewlines, JoinLines;
    if |text| > limit {
      SplitJoin(text);
      RunKeepsText(EMPTY, Split(text), limit);
      var st := Run(EMPTY, Split(text), limit);
      assert Bodies([]) + "" == "";
      NoNewlinesConcat("", text);
      assert NoNewlines("") + NoNewlines(text) == NoNewlines("" + text) && "" + text == text;
      assert Flush(st).done[..|st.done|] == st.done;
      if Length(st) == 0 { assert Bodies(st.done) + st.body == Bodies(st.done); }
    } else {
      assert Bodies([]) + text == text && [Part([], text, [])][..0] == [];
    }
  }

  /** Each chunk reopens what the one before it closed; the first reopens nothing. */
  ghost predicate Chained(parts: seq<Part>) {
    && (parts != [] ==> parts[0].open == [])
    && forall k | 0 < k < |parts| :: parts[k].open == parts[k - 1].close
  }

  ghost predicate StateChained(st: State) {
    Chained(st.done + [Part(st.open, st.body, st.tags)])
  }

  lemma {:induction false} RunChains(st: State, lines: seq<string>, limit: int)
    requires StateChained(st)
    ensures StateChained(Run(st, lines, limit))
    decreases |lines|
  {
    hide Update, Prefix, Closers;
    if lines != [] {
      StepChains(st, lines[0], limit);
      RunChains(Step(st, lines[0], limit), lines[1..], limit);
    }
  }

  lemma StepChains(st: State, line: string, limit: int)
    requires StateChained(st)
    ensures StateChained(Step(st, line, limit))
  {
    hide Update, Prefix, Closers, MustFlush, Append;
    var mid := if MustFlush(st, line, limit) then Flush(st) else st;
    var was := st.done + [Part(st.open, st.body, st.tags)];
    var now := mid.done + [Part(mid.open, mid.body, mid.tags)];
    assert was[0] == if st.done == [] then Part(st.open, st.body, st.tags) else st.done[0];
    assert Chained(now);
    AppendChains(mid, line);
  }

  lemma AppendChains(st: State, line: string)
    requires StateChained(st)
    ensures StateChained(Append(st, line))
  {
    hide Update, Prefix, Length;
    var was := st.done + [Part(st.open, st.body, st.tags)];
    var next := Append(st, line);
    var now := next.done + [Part(next.open, next.body, next.tags)];
    assert forall k | 0 <= k < |now| :: now[k].open == was[k].open;
    assert forall k | 0 <= k < |now| - 1 :: now[k].close == was[k].close;
  }

  lemma ChunksChain(text: string, limit: int)
    ensures Chained(Parts(text, limit))
  {
    hide Run, Split;
    RunChains(EMPTY, Split(text), limit);
    var st := Run(EMPTY, Split(text), limit);
    assert forall k | 0 <= k < |st.done| :: (st.done + [Part(st.open, st.body, st.tags)])[k] == st.done[k];
  }

  // ---------------------------------------------------------------- length

  /** Every line fits with what is reopened before it and closed after it; no line adds more than g to the closers. */
  ghost predicate Fits(lines: seq<string>, tags: seq<string>, limit: int, g: nat) {
    lines == [] ||
    (&& |Prefix(tags)| + |lines[0]| + |Closers(tags)| <= limit
     && |Closers(Update(lines[0], tags))| <= |Closers(tags)| + g
     && Fits(lines[1..], Update(lines[0], tags), limit, g))
  }

  ghost predicate Short(p: Part, most: int) {
    |Chunk(p)| <= most
  }

  ghost predicate StateShort(st: State, most: int) {
    (forall p | p in st.done :: Short(p, most)) && Short(Part(st.open, st.body, st.tags), most)
  }

  lemma StepShort(st: State, line: string, limit: int, g: nat)
    requires StateShort(st, limit + g)
    requires |Prefix(st.tags)| + |line| + |Closers(st.tags)| <= limit
    requires |Closers(Update(line, st.tags))| <= |Closers(st.tags)| + g
    ensures StateShort(Step(st, line, limit), limit + g)
  {
    hide Update, Prefix, Closers;
  }

  lemma {:induction false} RunShort(st: State, lines: seq<string>, limit: int, g: nat)
    requires StateShort(st, limit + g) && Fits(lines, st.tags, limit, g)
    ensures StateShort(Run(st, lines, limit), limit + g)
    decreases |lines|
  {
    hide Update, Prefix, Closers, StateShort, MustFlush;
    if lines != [] {
      StepShort(st, lines[0], limit, g);
      RunShort(Step(st, lines[0], limit), lines[1..], limit, g);
    }
  }

  /** A chunk exceeds the limit by at most the largest growth of the closers in one line. */
  lemma ChunksAlmostFit(text: string, limit: int, g: nat)
    requires Fits(Split(text), [], limit, g)
    ensures forall c | c in Chunks(Parts(text, limit)) :: |c| <= limit + g
  {
    hide Split, Run, Update, Chunks, Chunk, Fits, Flush, Length;
    PrefixOfNothing();
    LimitNotNegative(Split(text), limit, g);
    StartShort(limit + g, text);
    RunShort(EMPTY, Split(text), limit, g);
    var st := Run(EMPTY, Split(text), limit);
    FlushShort(st, limit + g);
    forall c | c in Chunks(Parts(text, limit)) ensures |c| <= limit + g {
      var k :| 0 <= k < |Chunks(Parts(text, limit))| && Chunks(Parts(text, limit))[k] == c;
      assert Short(Parts(text, limit)[k], limit + g);
    }
  }

  lemma LimitNotNegative(lines: seq<string>, limit: int, g: nat)
    requires lines != [] && Fits(lines, [], limit, g)
    ensures limit >= 0
  {
  }

  lemma StartShort(most: int, text: string)
    requires most >= 0
    ensures StateShort(EMPTY, most) && (|text| <= most ==> Short(Part([], text, []), most))
  {
  }

  lemma FlushShort(st: State, most: int)
    requires StateShort(st, most)
    ensures forall p | p in Flush(st).done :: Short(p, most)
  {
    hide Short;
  }

  // ---------------------------------------------------------------- the bound is met

  lemma {:induction false} SplitFirst(line: string, rest: string)
    requires '\n' !in line
    ensures Split(line) == [line] && Split(line + ['\n'] + rest) == [line] + Split(rest)
  {
    var s := line + ['\n'] + rest;
    if line == "" {
      assert s[1..] == rest;
    } else {
      SplitFirst(line[1..], rest);
      assert s[1..] == line[1..] + ['\n'] + rest;
      assert line == [line[0]] + line[1..];
    }
  }

  /** Line one plain, line two opens an element, line three closes it. */
  function OpeningLine(b: string): string {
    Opener(b) + "x"
  }

  lemma SimpleStored(b: string)
    requires IsSimple(b)
    ensures Stored(b) && FirstField(b) == b && AllStored([b])
  {
    hide IsSimple, FirstField;
    SimpleIsSmall(b);
    SmallIsItsName(b);
    SmallIsItsField(b);
  }

  lemma ElementLines(b: string)
    requires IsSimple(b)
    ensures Tags(OpeningLine(b)) == [b] && Closed(OpeningLine(b))
    ensures Tags(Closer(b)) == ["/" + b] && Closed(Closer(b))
    ensures Nest(b, []) == Some([b]) && Nest("/" + b, [b]) == Some([])
    ensures Apply(b, []) == [b] && Apply("/" + b, [b]) == []
  {
    hide Tags, Closed, Stored, IsSimple, FirstField, Nest, Apply, Closer;
    SimpleStored(b);
    StoredShape(b);
    OneTag(b);
    PlainText("x");
    TagsConcat(Opener(b), "x");
    assert [b] + [] == [b] && [] + [b] == [b];
    StoredReopens(b, []);
    CloserCloses(b, []);
    NestIsApplyCloser(b);
  }

  lemma NestIsApplyCloser(b: string)
    requires Stored(b) && FirstField(b) == b && Nest("/" + b, [b]) == Some([]) && AllStored([b])
    ensures Apply("/" + b, [b]) == []
  {
    hide IsSimple, FirstField, Nest, Apply, Tags, Closed, Lower, Stored;
    StoredShape(b);
    CloserTrimmed(b);
    NestIsApply("/" + b, [b]);
  }

  lemma CloserTrimmed(b: string)
    requires Stored(b)
    ensures Trimmed("/" + b) && '>' !in "/" + b
  {
    hide IsSimple, NameOf;
  }

  lemma OneApply(c: string, open: seq<string>)
    ensures ApplyAll([c], open) == Apply(c, open)
  {
    hide Apply;
  }

  lemma ElementUpdates(w: string, b: string)
    requires '<' !in w && IsSimple(b)
    ensures Update(w, []) == [] && Update(OpeningLine(b), []) == [b] && Update(Closer(b), [b]) == []
  {
    hide Tags, Apply, Nest, Closer, OpeningLine, IsSimple;
    PlainText(w);
    ElementLines(b);
    OneApply(b, []);
    OneApply("/" + b, [b]);
  }

  lemma ElementBalanced(w: string, b: string, text: string, lines: seq<string>)
    requires '<' !in w && IsSimple(b) && lines == [w] + ([OpeningLine(b)] + [Closer(b)]) && Split(text) == lines
    ensures Balanced(text)
  {
    hide Tags, NestAll, Closed, Split, Nest, Apply, Closer, OpeningLine, IsSimple;
    PlainText(w);
    ElementLines(b);
    SplitJoin(text);
    TagsOfLines(lines);
    ThreeLines(w, OpeningLine(b), Closer(b));
    NestOne(b, []);
    NestOne("/" + b, [b]);
    NestConcat([b], ["/" + b], []);
    assert [] + ([b] + ["/" + b]) == [b] + ["/" + b];
  }

  lemma ThreeLines(x: string, y: string, z: string)
    ensures LineTags([x] + ([y] + [z])) == Tags(x) + (Tags(y) + Tags(z))
  {
    hide Tags;
    assert ([x] + ([y] + [z]))[1..] == [y] + [z] && ([y] + [z])[1..] == [z] && [z][1..] == [];
    assert LineTags([z]) == Tags(z) + LineTags([]) == Tags(z);
    assert LineTags([y] + [z]) == Tags(y) + LineTags([z]);
  }

  lemma ElementTexts(b: string)
    requires IsSimple(b)
    ensures Prefix([b]) == Opener(b) && Closers([b]) == Closer(b) && |Closer(b)| == |b| + 3
    ensures '\n' !in OpeningLine(b) && '\n' !in Closer(b)
  {
    hide Lower, IsSimple, FirstField;
    SimpleIsSmall(b);
    SimpleStored(b);
    assert [b][1..] == [];
    assert Prefix([b]) == Opener(b) + "" && Closers([b]) == "" + Closer(b);
    assert '\n' !in b;
  }

  /**
   Though every line fits, the first chunk here is longer than the limit by all that its last line adds to the closers.
   */
  lemma LimitExceeded(w: string, b: string, limit: int)
    requires IsSimple(b) && |w| >= 2 * |b| + 4 && limit == |w| + |b| + 4 && '<' !in w && '\n' !in w
    ensures var text := w + ['\n'] + (OpeningLine(b) + ['\n'] + Closer(b));
            var first := Part([], w + "\n" + OpeningLine(b), [b]);
            && Balanced(text) && Fits(Split(text), [], limit, |b| + 3)
            && Parts(text, limit) == [first] + [Part([b], Closer(b), [])]
            && |Chunk(first)| == limit + |b| + 3
  {
    hide Split, Tags, NestAll, Update, Closed, IsSimple, Closer, Step, Length, Closers, Prefix;
    var text := w + ['\n'] + (OpeningLine(b) + ['\n'] + Closer(b));
    var lines := [w] + ([OpeningLine(b)] + [Closer(b)]);
    ElementTexts(b);
    SplitFirst(w, OpeningLine(b) + ['\n'] + Closer(b));
    SplitFirst(OpeningLine(b), Closer(b));
    SplitFirst(Closer(b), "");
    assert Split(text) == lines;
    ElementBalanced(w, b, text, lines);
    ElementFits(w, b, limit);
    ElementRun(w, b, limit);
    PrefixOfNothing();
    assert Length(Run(EMPTY, lines, limit)) > 0 by { ElementLength(b); }
  }

  lemma ElementLength(b: string)
    requires IsSimple(b)
    ensures forall done :: Length(State(done, [b], Closer(b), [])) > 0
  {
    hide IsSimple;
    ElementTexts(b);
  }

  lemma ElementFits(w: string, b: string, limit: int)
    requires IsSimple(b) && |w| >= 2 * |b| + 4 && limit == |w| + |b| + 4 && '<' !in w
    ensures Fits([w] + ([OpeningLine(b)] + [Closer(b)]), [], limit, |b| + 3)
  {
    hide Update, IsSimple, Closer, Prefix, Closers;
    ElementTexts(b);
    ElementUpdates(w, b);
    PrefixOfNothing();
    var two := [OpeningLine(b)] + [Closer(b)];
    assert two[1..] == [Closer(b)] && ([w] + two)[1..] == two && [Closer(b)][1..] == [];
    assert Fits([], [], limit, |b| + 3);
    assert Fits([Closer(b)], [b], limit, |b| + 3);
    assert Fits(two, [], limit, |b| + 3);
  }

  lemma ElementRun(w: string, b: string, limit: int)
    requires IsSimple(b) && |w| >= 2 * |b| + 4 && limit == |w| + |b| + 4 && '<' !in w
    ensures Run(EMPTY, [w] + ([OpeningLine(b)] + [Closer(b)]), limit)
         == State([Part([], w + "\n" + OpeningLine(b), [b])], [b], Closer(b), [])
  {
    hide Update, IsSimple, Closer, Prefix, Closers, Step;
    var two := [OpeningLine(b)] + [Closer(b)];
    assert two[1..] == [Closer(b)] && ([w] + two)[1..] == two && [Closer(b)][1..] == [];
    ElementSteps(w, b, limit);
    var body := w + "\n" + OpeningLine(b);
    assert Run(State([], [], body, [b]), [Closer(b)], limit) == State([Part([], body, [b])], [b], Closer(b), []);
    assert Run(State([], [], w, []), two, limit) == Run(State([], [], body, [b]), [Closer(b)], limit);
  }

  lemma ElementSteps(w: string, b: string, limit: int)
    requires IsSimple(b) && |w| >= 2 * |b| + 4 && limit == |w| + |b| + 4 && '<' !in w
    ensures var body := w + "\n" + OpeningLine(b);
            && Step(EMPTY, w, limit) == State([], [], w, [])
            && Step(State([], [], w, []), OpeningLine(b), limit) == State([], [], body, [b])
            && Step(State([], [], body, [b]), Closer(b), limit) == State([Part([], body, [b])], [b], Closer(b), [])
  {
    hide Update, IsSimple, Closer, Prefix, Closers;
    ElementTexts(b);
    ElementUpdates(w, b);
    PrefixOfNothing();
    assert "" + "" + w == w && "" + "" + Closer(b) == Closer(b);
    var s0, s1, s2 := EMPTY, State([], [], w, []), State([], [], w + "\n" + OpeningLine(b), [b]);
    assert !MustFlush(s0, w, limit) && Append(s0, w) == s1;
    assert !MustFlush(s1, OpeningLine(b), limit) && Append(s1, OpeningLine(b)) == s2;
    assert MustFlush(s2, Closer(b), limit);
    var s3 := Flush(s2);
    assert Length(s3) == |Prefix(s3.tags)|;
    assert [] + [Part([], s2.body, [b])] == [Part([], s2.body, [b])];
  }

  // ---------------------------------------------------------------- what growth the limit can bear

  lemma {:induction false} FitsMore(lines: seq<string>, tags: seq<string>, limit: int, g: nat, g': nat)
    requires Fits(lines, tags, limit, g) && g <= g'
    ensures Fits(lines, tags, limit, g')
    decreases |lines|
  {
    hide Update, Prefix, Closers;
    if lines != [] { FitsMore(lines[1..], Update(lines[0], tags), limit, g, g'); }
  }

  /** A closer is at least four bytes long. */
  lemma ShortClosers(open: seq<string>)
    requires (forall t | t in open :: FirstField(t) != "") && |Closers(open)| < 4
    ensures open == []
  {
    hide FirstField;
  }

  /** With less than that to gain, no line can leave a tag open. */
  lemma {:induction false} NoGrowth(lines: seq<string>, limit: int, g: nat)
    requires Fits(lines, [], limit, g) && g < 4
    ensures Fits(lines, [], limit, 0)
    decreases |lines|
  {
    hide Update, Prefix, FirstField, Closers;
    if lines != [] {
      PrefixOfNothing();
      NamesStay(lines[0], []);
      ShortClosers(Update(lines[0], []));
      NoGrowth(lines[1..], limit, g);
    }
  }

  function Filler(n: nat): (w: string)
    ensures |w| == n && '<' !in w && '\n' !in w
  {
    if n == 0 then "" else Filler(n - 1) + ['x']
  }

  /** For a growth allowance g, no text whose lines fit within it gets a chunk over the limit. */
  ghost predicate LimitKept(limit: int, g: nat) {
    forall text, i | Fits(Split(text), [], limit, g) && 0 <= i < |Chunks(Parts(text, limit))| ::
        |Chunks(Parts(text, limit))[i]| <= limit
  }

  /**
   That is so if and only if a line may add less than one closer, which is to say no tag may stay open over a line's
   end.
   */
  lemma LimitKeptIff(limit: int, g: nat)
    requires limit >= 11
    ensures LimitKept(limit, g) <==> g < 4
  {
    hide Split, Fits, Parts, Chunks;
    if g < 4 {
      forall text, i | Fits(Split(text), [], limit, g) && 0 <= i < |Chunks(Parts(text, limit))|
        ensures |Chunks(Parts(text, limit))[i]| <= limit
      {
        NoGrowth(Split(text), limit, g);
        ChunksAlmostFit(text, limit, 0);
        assert Chunks(Parts(text, limit))[i] in Chunks(Parts(text, limit));
      }
    } else {
      var text := TooLong(limit, "b");
      FitsMore(Split(text), [], limit, 4, g);
      assert |Chunks(Parts(text, limit))[0]| > limit;
    }
  }

  lemma TooLong(limit: int, b: string) returns (text: string)
    requires limit >= 11 && b == "b"
    ensures Fits(Split(text), [], limit, 4) && |Chunks(Parts(text, limit))| > 0
              && |Chunks(Parts(text, limit))[0]| > limit
  {
    hide Split, Fits, Parts, Chunk, Filler;
    var w := Filler(limit - 5);
    assert IsSimple(b);
    LimitExceeded(w, b, limit);
    text := w + ['\n'] + (OpeningLine(b) + ['\n'] + Closer(b));
  }

  // ---------------------------------------------------------------- which elements are followed

  const FOLLOWED: set<string> := {"b", "strong", "i", "em", "u", "ins", "s", "strike", "del", "code", "pre",
      "tg-spoiler", "blockquote", "a"}

  lemma KnownIsFollowed(name: string)
    ensures Known(name) <==> name in FOLLOWED
  {
  }

  /** Of the elements named in small letters, exactly these fourteen are opened, and closed again. */
  lemma ElementsFollowed(name: string, open: seq<string>)
    requires SmallLetters(name) && AllStored(open)
    ensures Update("<" + name + ">", open) == if name in FOLLOWED then open + [name] else open
    ensures Update("<" + name + "></" + name + ">", open) == open
  {
    hide Tags, Closed, Apply, IsSimple, FOLLOWED, RemoveLast, SmallLetters;
    SmallIsItsName(name);
    SmallIsItsField(name);
    KnownIsFollowed(name);
    CloserIsTrimmed(name);
    OneTag(name);
    OneTag("/" + name);
    var a, b := "<" + name + ">", "<" + ("/" + name) + ">";
    TagsConcat(a, b);
    assert a + b == "<" + name + "></" + name + ">";
    OpensFollowed(name, open);
    ClosesFollowed(name, open);
    OneApply(name, open);
    TwoApply(name, "/" + name, open);
  }

  lemma TwoApply(c: string, d: string, open: seq<string>)
    ensures ApplyAll([c] + [d], open) == Apply(d, Apply(c, open))
  {
    hide Apply;
    assert ([c] + [d])[1..] == [d];
    OneApply(d, Apply(c, open));
  }

  lemma CloserIsTrimmed(name: string)
    requires SmallLetters(name)
    ensures Trimmed("/" + name) && '>' !in "/" + name
  {
    VisibleEnds("/" + name);
    hide SpaceAhead, SpaceBehind;
  }

  lemma OpensFollowed(name: string, open: seq<string>)
    requires SmallLetters(name)
    ensures Apply(name, open) == if Known(name) then open + [name] else open
  {
    hide NameOf, FirstField, IsSimple, Lower;
    SmallIsItsName(name);
    SmallIsItsField(name);
  }

  lemma ClosesFollowed(name: string, open: seq<string>)
    requires SmallLetters(name) && AllStored(open)
    ensures Apply("/" + name, if Known(name) then open + [name] else open) == open
  {
    hide NameOf, FirstField, IsSimple, Stored;
    SmallIsItsName(name);
    SmallLowered(name);
    assert ("/" + name)[1..] == name;
    if Known(name) {
      assert (open + [name])[..|open|] == open;
    } else {
      NoneToRemove(name, open);
    }
  }

  lemma SmallLowered(name: string)
    requires SmallLetters(name)
    ensures Lower(name) == name
  {
  }

  lemma {:induction false} NoneToRemove(name: string, open: seq<string>)
    requires !Known(name) && AllStored(open)
    ensures RemoveLast(open, name) == open
  {
    hide NameOf, IsSimple, Trimmed;
    if open != [] {
      NoneToRemove(name, open[..|open| - 1]);
      assert Stored(open[|open| - 1]);
    }
  }

  // ---------------------------------------------------------------- one tag

  /** What stands between the brackets of one tag, white space around it aside. */
  lemma TagContent(raw: string)
    requires '>' !in raw
    ensures Tags("<" + raw + ">") == [Trim(raw)] && Tags("<" + raw) == []
  {
    hide IndexOf, Trim;
    var s, i := "<" + raw + ">", |raw| + 1;
    IndexOfFirst("<" + raw, '>', "");
    assert s == "<" + raw + ['>'] + "" && s[1..i] == raw && s[i + 1..] == "";
    assert "<" + raw != "" && ("<" + raw)[0] == '<';
  }

  /** The innermost open tag of that name is at k. */
  ghost predicate InnermostAt(open: seq<string>, name: string, k: nat) {
    k < |open| && NameOf(open[k]) == name && forall j | k < j < |open| :: NameOf(open[j]) != name
  }

  lemma {:induction false} RemovesNothing(open: seq<string>, name: string)
    requires forall k | 0 <= k < |open| :: NameOf(open[k]) != name
    ensures RemoveLast(open, name) == open
  {
    hide NameOf;
    if open != [] { RemovesNothing(open[..|open| - 1], name); }
  }

  lemma {:induction false} RemovesInnermost(open: seq<string>, name: string, k: nat)
    requires InnermostAt(open, name, k)
    ensures RemoveLast(open, name) == open[..k] + open[k + 1..]
  {
    hide NameOf;
    var n := |open| - 1;
    if k < n {
      RemovesInnermost(open[..n], name, k);
      assert open[..n][..k] == open[..k] && open[..n][k + 1..] + [open[n]] == open[k + 1..];
    }
  }

  lemma RemoveLastMeans(open: seq<string>, name: string)
    ensures (forall k | 0 <= k < |open| :: NameOf(open[k]) != name) ==> RemoveLast(open, name) == open
    ensures forall k: nat | InnermostAt(open, name, k) :: RemoveLast(open, name) == open[..k] + open[k + 1..]
  {
    hide NameOf, RemoveLast;
    if forall k | 0 <= k < |open| :: NameOf(open[k]) != name { RemovesNothing(open, name); }
    forall k: nat | InnermostAt(open, name, k)
      ensures k < |open| && RemoveLast(open, name) == open[..k] + open[k + 1..]
    {
      RemovesInnermost(open, name, k);
    }
  }

  /**
   What one tag does, whatever stands in it. A closing tag takes out the innermost open tag of its name, if there is
   one. Any other that does not end in a slash opens its element, if it is one of the fourteen: a link as it stands,
   with its address, every other by its name alone.
   */
  lemma TagMeans(raw: string, open: seq<string>)
    requires '>' !in raw
    ensures var content := Trim(raw);
            var after, name := Update("<" + raw + ">", open), Lower(FirstField(content));
            && (content == "" ==> after == open)
            && (content != "" && content[0] == '/' ==>
                  && ((forall k | 0 <= k < |open| :: NameOf(open[k]) != Lower(content[1..])) ==> after == open)
                  && forall k: nat | InnermostAt(open, Lower(content[1..]), k) :: after == open[..k] + open[k + 1..])
            && (content != "" && content[0] != '/' ==>
                  after == if content[|content| - 1] == '/' then open
                           else if name == "a" then open + [content]
                           else if name in FOLLOWED then open + [name]
                           else open)
  {
    hide Trim, Tags, FirstField, Lower, IsSimple, RemoveLast, FOLLOWED, InnermostAt;
    var content := Trim(raw);
    TagContent(raw);
    OneApply(content, open);
    KnownIsFollowed(NameOf(content));
    LinkIsNotSimple();
    if content != "" {
      RemoveLastMeans(open, Lower(content[1..]));
      NamedContent(content);
    }
  }

  lemma LinkIsNotSimple()
    ensures !IsSimple("a")
  {
  }

  lemma NamedContent(content: string)
    requires Trimmed(content) && content != ""
    ensures FirstField(content) != ""
  {
  }

  // ---------------------------------------------------------------- cuts are needed

  /** The body holds the lines from a to b - 1, up to newlines. */
  ghost predicate Covers(body: string, lines: seq<string>, a: nat, b: nat) {
    a <= b <= |lines| && NoNewlines(body) == NoNewlines(JoinLines(lines[a..b]))
  }

  /** With one more line, and the newline before it, the chunk would exceed the limit. */
  predicate Full(p: Part, line: string, limit: int) {
    |Chunk(p)| + 1 + |line| > limit
  }

  /** Part number i covers the lines up to the next one's first, which it has no room for. */
  ghost predicate PartAt(p: Part, lines: seq<string>, starts: seq<nat>, i: nat, limit: int) {
    && i + 1 < |starts| && Covers(p.body, lines, starts[i], starts[i + 1])
    && starts[i + 1] < |lines| && Full(p, lines[starts[i + 1]], limit)
  }

  ghost predicate CutAt(done: seq<Part>, lines: seq<string>, starts: seq<nat>, limit: int) {
    && |starts| == |done| + 1 && starts[0] == 0
    && forall i | 0 <= i < |done| :: PartAt(done[i], lines, starts, i, limit)
  }

  lemma {:induction false} JoinSnoc(s: seq<string>, x: string)
    ensures NoNewlines(JoinLines(s + [x])) == NoNewlines(JoinLines(s)) + NoNewlines(x)
  {
    hide JoinLines, NoNewlines;
    NoNewlinesOfLines(s + [x]);
    if s == [] {
      assert s + [x] == [x] && [x][1..] == [];
      NothingJoined(x);
    } else {
      assert (s + [x])[1..] == s[1..] + [x] && (s + [x])[0] == s[0];
      JoinSnoc(s[1..], x);
      NoNewlinesOfLines(s);
      assert NoNewlines(s[0]) + (NoNewlines(JoinLines(s[1..])) + NoNewlines(x))
          == (NoNewlines(s[0]) + NoNewlines(JoinLines(s[1..]))) + NoNewlines(x);
    }
  }

  lemma NothingJoined(x: string)
    ensures NoNewlines(JoinLines([])) == "" && NoNewlines(x) + "" == NoNewlines(x) == "" + NoNewlines(x)
  {
  }

  lemma AppendCovers(st: State, lines: seq<string>, a: nat, n: nat)
    requires n < |lines| && Covers(st.body, lines, a, n)
    ensures Covers(Append(st, lines[n]).body, lines, a, n + 1)
  {
    hide Update, Prefix, JoinLines, NoNewlines;
    var newline := if Length(st) > 0 && Length(st) != |Prefix(st.tags)| then "\n" else "";
    NewlineGone(newline);
    NoNewlinesConcat(st.body, newline);
    NoNewlinesConcat(st.body + newline, lines[n]);
    assert NoNewlines(st.body) + "" == NoNewlines(st.body);
    JoinSnoc(lines[a..n], lines[n]);
    assert lines[a..n + 1] == lines[a..n] + [lines[n]];
  }

  lemma NewlineGone(newline: string)
    requires newline == "" || newline == "\n"
    ensures NoNewlines(newline) == ""
  {
  }

  lemma NothingCovers(lines: seq<string>, n: nat)
    requires n <= |lines|
    ensures Covers("", lines, n, n)
  {
  }

  lemma PartAdded(st: State, lines: seq<string>, starts: seq<nat>, n: nat, limit: int)
    requires n < |lines| && CutAt(st.done, lines, starts, limit) && Covers(st.body, lines, starts[|st.done|], n)
    requires Full(Part(st.open, st.body, st.tags), lines[n], limit)
    ensures CutAt(Flush(st).done, lines, starts + [n], limit)
  {
    hide Covers, Full;
    var done, begun := Flush(st).done, starts + [n];
    forall i | 0 <= i < |done| ensures PartAt(done[i], lines, begun, i, limit) {
      if i < |st.done| { assert PartAt(st.done[i], lines, starts, i, limit); }
    }
  }

  lemma {:induction false} RunCuts(st: State, lines: seq<string>, n: nat, limit: int, starts: seq<nat>)
        returns (ends: seq<nat>)
    requires n <= |lines| && CutAt(st.done, lines, starts, limit) && Covers(st.body, lines, starts[|st.done|], n)
    ensures var r := Run(st, lines[n..], limit);
            CutAt(r.done, lines, ends, limit) && Covers(r.body, lines, ends[|r.done|], |lines|)
    decreases |lines| - n
  {
    hide Append, Covers, Full, Prefix, Closers;
    if n == |lines| {
      ends := starts;
    } else {
      assert lines[n..][0] == lines[n] && lines[n..][1..] == lines[n + 1..];
      var mid, begun := st, starts;
      if MustFlush(st, lines[n], limit) {
        mid, begun := Flush(st), starts + [n];
        FullAtCut(st, lines[n], limit);
        NothingCovers(lines, n);
        PartAdded(st, lines, starts, n, limit);
      }
      AppendCovers(mid, lines, begun[|mid.done|], n);
      AppendKeepsDone(mid, lines[n]);
      ends := RunCuts(Append(mid, lines[n]), lines, n + 1, limit, begun);
    }
  }

  lemma AppendKeepsDone(st: State, line: string)
    ensures Append(st, line).done == st.done
  {
    hide Update, Prefix;
  }

  lemma FullAtCut(st: State, line: string, limit: int)
    requires MustFlush(st, line, limit)
    ensures Full(Part(st.open, st.body, st.tags), line, limit)
  {
    hide Prefix, Closers;
  }

  /**
   Chunks are as few as the rule allows: each holds whole lines up to where the next begins, and that line would have
   taken it over the limit. What is left behind the last is empty lines.
   */
  lemma CutsAreNeeded(text: string, limit: int) returns (starts: seq<nat>)
    ensures var parts, lines := Parts(text, limit), Split(text);
            && |starts| == |parts| + 1 && starts[0] == 0
            && (forall i | 0 <= i < |parts| - 1 :: PartAt(parts[i], lines, starts, i, limit))
            && (parts != [] ==> Covers(parts[|parts| - 1].body, lines, starts[|parts| - 1], starts[|parts|]))
            && Covers("", lines, starts[|parts|], |lines|)
  {
    hide Run, Split, Covers, Full;
    var lines := Split(text);
    NothingCovers(lines, |lines|);
    if |text| <= limit {
      starts := [0, |lines|];
      WholeCovers(text);
    } else {
      assert lines[0..] == lines;
      NothingCovers(lines, 0);
      var begun := RunCuts(EMPTY, lines, 0, limit, [0]);
      starts := LastPart(Run(EMPTY, lines, limit), lines, begun, limit);
    }
  }

  lemma LastPart(st: State, lines: seq<string>, begun: seq<nat>, limit: int) returns (starts: seq<nat>)
    requires CutAt(st.done, lines, begun, limit) && Covers(st.body, lines, begun[|st.done|], |lines|)
    requires Covers("", lines, |lines|, |lines|)
    ensures var parts := if Length(st) > 0 then Flush(st).done else st.done;
            && |starts| == |parts| + 1 && starts[0] == 0
            && (forall i | 0 <= i < |parts| - 1 :: PartAt(parts[i], lines, starts, i, limit))
            && (parts != [] ==> Covers(parts[|parts| - 1].body, lines, starts[|parts| - 1], starts[|parts|]))
            && Covers("", lines, starts[|parts|], |lines|)
  {
    hide Covers, Full, Prefix;
    if Length(st) > 0 {
      starts := begun + [|lines|];
      var parts := Flush(st).done;
      forall i | 0 <= i < |parts| - 1 ensures PartAt(parts[i], lines, starts, i, limit) {
        assert PartAt(st.done[i], lines, begun, i, limit);
      }
    } else {
      starts := begun;
      assert st.body == "";
    }
  }

  lemma WholeCovers(text: string)
    ensures Covers(text, Split(text), 0, |Split(text)|)
  {
    hide Split, JoinLines;
    SplitJoin(text);
    assert Split(text)[0..|Split(text)|] == Split(text);
  }

  // ---------------------------------------------------------------- newlines of plain text

  ghost predicate PlainLines(lines: seq<string>) {
    forall i | 0 <= i < |lines| :: lines[i] != "" && '<' !in lines[i]
  }

  function BodiesOf(parts: seq<Part>): seq<string> {
    if parts == [] then [] else BodiesOf(parts[..|parts| - 1]) + [parts[|parts| - 1].body]
  }

  lemma {:induction false} JoinConcat(a: seq<string>, b: seq<string>)
    ensures JoinLines(a + b)
         == if a == [] then JoinLines(b) else if b == [] then JoinLines(a) else JoinLines(a) + ['\n'] + JoinLines(b)
  {
    if a == [] {
      assert a + b == b;
    } else if b == [] {
      assert a + b == a;
    } else {
      assert (a + b)[1..] == a[1..] + b && (a + b)[0] == a[0];
      JoinConcat(a[1..], b);
      if |a| > 1 {
        assert JoinLines(a + b) == a[0] + ['\n'] + (JoinLines(a[1..]) + ['\n'] + JoinLines(b));
      }
    }
  }

  /** The bodies so far, the one being filled included. */
  function SoFar(st: State): seq<string> {
    BodiesOf(st.done) + if st.body == "" then [] else [st.body]
  }

  ghost predicate PlainState(st: State) {
    st.open == [] && st.tags == [] && (st.done != [] ==> st.body != "")
  }

  lemma JoinPair(init: seq<string>, x: string, y: string)
    ensures JoinLines(init + [x + "\n" + y]) == JoinLines(init + [x] + [y])
  {
    hide JoinLines;
    JoinConcat(init, [x + "\n" + y]);
    JoinConcat(init, [x] + [y]);
    JoinConcat([x], [y]);
    JoinOne(x);
    JoinOne(y);
    JoinOne(x + "\n" + y);
    assert init + [x] + [y] == init + ([x] + [y]);
  }

  lemma JoinOne(x: string)
    ensures JoinLines([x]) == x
  {
  }

  lemma StepPlain(st: State, line: string, limit: int)
    requires PlainState(st) && line != "" && '<' !in line
    ensures var r := Step(st, line, limit);
            PlainState(r) && r.body != "" && JoinLines(SoFar(r)) == JoinLines(SoFar(st) + [line])
  {
    hide JoinLines;
    PlainText(line);
    assert Update(line, []) == [];
    assert Prefix([]) == "";
    if MustFlush(st, line, limit) {
      FlushPlain(st, line);
    } else if st.body == "" {
      assert "" + "" + line == line;
      assert Append(st, line).body == line;
    } else {
      assert Append(st, line).body == st.body + "\n" + line;
      JoinPair(BodiesOf(st.done), st.body, line);
    }
  }

  lemma FlushPlain(st: State, line: string)
    requires PlainState(st) && line != "" && Length(st) > 0 && Update(line, []) == []
    ensures var r := Append(Flush(st), line);
            PlainState(r) && r.body == line && SoFar(r) == SoFar(st) + [line]
  {
    hide Update;
    assert Prefix([]) == "";
    assert Flush(st).done[..|st.done|] == st.done;
    assert "" + "" + line == line;
  }

  lemma {:induction false} RunPlain(st: State, lines: seq<string>, limit: int)
    requires PlainState(st) && PlainLines(lines)
    ensures JoinLines(SoFar(Run(st, lines, limit))) == JoinLines(SoFar(st) + lines)
    ensures PlainState(Run(st, lines, limit)) && (lines != [] ==> Run(st, lines, limit).body != "")
    decreases |lines|
  {
    hide Step, JoinLines, SoFar;
    if lines == [] {
      assert SoFar(st) + lines == SoFar(st);
    } else {
      var next := Step(st, lines[0], limit);
      StepPlain(st, lines[0], limit);
      RunPlain(next, lines[1..], limit);
      JoinConcat(SoFar(next), lines[1..]);
      JoinConcat(SoFar(st) + [lines[0]], lines[1..]);
      assert SoFar(st) + [lines[0]] + lines[1..] == SoFar(st) + lines;
      SomethingSoFar(next);
    }
  }

  lemma SomethingSoFar(st: State)
    ensures st.body != "" ==> SoFar(st) != []
  {
  }

  /** Of text without tags and without empty lines not even a newline is lost: between two chunks there was one. */
  lemma PlainTextKept(text: string, limit: int)
    requires PlainLines(Split(text))
    ensures JoinLines(BodiesOf(Parts(text, limit))) == text
  {
    hide Run, Split, JoinLines, PlainLines;
    if |text| <= limit {
      OneBody(text);
    } else {
      RunPlain(EMPTY, Split(text), limit);
      SplitJoin(text);
      var st := Run(EMPTY, Split(text), limit);
      assert SoFar(EMPTY) + Split(text) == Split(text);
      assert Flush(st).done[..|st.done|] == st.done;
      assert Prefix([]) == "";
    }
  }

  lemma OneBody(text: string)
    ensures JoinLines(BodiesOf([Part([], text, [])])) == text
  {
    assert [Part([], text, [])][..0] == [];
    assert BodiesOf([Part([], text, [])]) == [text];
  }
}
