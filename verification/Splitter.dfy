/**
 Cutting a long HTML message into chunks: the tags a line opens and closes, the loop that cuts between lines,
 and for each the function it computes.
 */
module Splitter {
  import opened Text

  // ---------------------------------------------------------------- tags in a text

  /** The trimmed contents of the tags of a text, up to a `<` that nothing closes. */
  function Tags(text: string): (r: seq<string>)
    ensures forall c | c in r :: Trimmed(c) && '>' !in c
  {
    hide Trim, IndexOf;
    if text == "" then []
    else if text[0] != '<' then Tags(text[1..])
    else
      var end := IndexOf(text, '>');
      if end == -1 then []
      else
        assert forall c | c in text[1..end] :: c in text[..end];
        [Trim(text[1..end])] + Tags(text[end + 1..])
  }

  /** Every `<` of the text is closed within it. */
  predicate Closed(text: string) {
    if text == "" then true
    else if text[0] != '<' then Closed(text[1..])
    else
      var end := IndexOf(text, '>');
      end != -1 && Closed(text[end + 1..])
  }

  /** Up to the first white space. */
  function Word(s: string): (r: string)
    ensures |r| <= |s| && r == s[..|r|]
    ensures r == "" <==> s == "" || SpaceAhead(s) > 0
    ensures forall i | 0 <= i < |r| :: SpaceAhead(s[i..]) == 0
    ensures |r| < |s| ==> SpaceAhead(s[|r|..]) > 0
  {
    hide SpaceAhead;
    assert s[0..] == s;
    if s == "" || SpaceAhead(s) > 0 then ""
    else
      assert s == [s[0]] + s[1..] && s[0..] == s;
      assert forall i | 1 <= i < |s| :: s[i..] == s[1..][i - 1..];
      [s[0]] + Word(s[1..])
  }

  /** strings.Fields(s)[0], "" where there are no fields. */
  function FirstField(s: string): (r: string)
    ensures forall c | c in r :: c in s
    ensures Trimmed(s) ==> (r == "" <==> s == "")
  {
    hide SpaceAhead, SpaceBehind;
    var t := TrimLeft(s);
    TrimLeftOfTrimmed(s);
    Word(t)
  }

  /** No white space inside a field, hence none at its end, even behind other text. */
  lemma FieldBehind(a: string, f: string)
    requires f != "" && forall i | 0 <= i < |f| :: SpaceAhead(f[i..]) == 0
    requires a != "" && '!' <= a[|a| - 1] <= '~'
    ensures SpaceBehind(a + f) == 0
  {
    hide SpaceAhead, SpaceBehind, AsciiSpace, TwoByteSpace, ThreeByteSpace;
    var s, z := a + f, |a + f|;
    EndOf(a, f, 1);
    assert s[z - 1] == s[z - 1..][0];
    VisibleParts(a[|a| - 1]);
    NoneAhead(f[|f| - 1..]);
    if |f| >= 2 {
      EndOf(a, f, 2);
      assert s[z - 2] == s[z - 2..][0] && s[z - 1] == s[z - 2..][1];
      NoneAhead(f[|f| - 2..]);
    }
    if |f| >= 3 {
      EndOf(a, f, 3);
      assert s[z - 3] == s[z - 3..][0] && s[z - 2] == s[z - 3..][1] && s[z - 1] == s[z - 3..][2];
      NoneAhead(f[|f| - 3..]);
    }
    assert s[|a| - 1] == a[|a| - 1];
    NoneBehind(s);
  }

  lemma EndOf(a: string, f: string, k: nat)
    requires k <= |f|
    ensures (a + f)[|a + f| - k..] == f[|f| - k..]
  {
  }

  lemma VisibleParts(v: char)
    requires '!' <= v <= '~'
    ensures forall b :: !TwoByteSpace(v, b)
    ensures forall b, c :: !ThreeByteSpace(v, b, c) && !ThreeByteSpace(b, v, c)
  {
  }

  lemma NoneAhead(s: string)
    requires SpaceAhead(s) == 0
    ensures |s| >= 1 ==> !AsciiSpace(s[0])
    ensures |s| >= 2 ==> !TwoByteSpace(s[0], s[1])
    ensures |s| >= 3 ==> !ThreeByteSpace(s[0], s[1], s[2])
  {
    hide AsciiSpace, TwoByteSpace, ThreeByteSpace;
  }

  lemma NoneBehind(s: string)
    requires |s| >= 1 ==> !AsciiSpace(s[|s| - 1])
    requires |s| >= 2 ==> !TwoByteSpace(s[|s| - 2], s[|s| - 1])
    requires |s| >= 3 ==> !ThreeByteSpace(s[|s| - 3], s[|s| - 2], s[|s| - 1])
    ensures SpaceBehind(s) == 0
  {
    hide AsciiSpace, TwoByteSpace, ThreeByteSpace;
  }

  lemma FieldCloserTrimmed(t: string)
    requires FirstField(t) != ""
    ensures Trimmed("/" + FirstField(t))
  {
    hide SpaceAhead, SpaceBehind, Word, TrimLeft;
    var s, f := TrimLeft(t), FirstField(t);
    forall i | 0 <= i < |f| ensures SpaceAhead(f[i..]) == 0 {
      SpaceInPrefix(s[i..], |f| - i);
      assert f[i..] == s[i..][..|f| - i];
    }
    FieldBehind("/", f);
    VisibleEnds("/" + FirstField(t));
  }

  lemma TrimLeftOfTrimmed(s: string)
    ensures SpaceAhead(s) == 0 ==> TrimLeft(s) == s
  {
  }

  function NameOf(tag: string): string {
    Lower(FirstField(tag))
  }

  /** Elements that carry no attributes. */
  predicate IsSimple(name: string) {
    || name == "b" || name == "strong" || name == "i" || name == "em" || name == "u" || name == "ins" || name == "s"
    || name == "strike" || name == "del" || name == "code" || name == "pre" || name == "tg-spoiler"
    || name == "blockquote"
  }

  /** Without the innermost open tag of that name, if there is one. */
  function RemoveLast(open: seq<string>, name: string): (r: seq<string>)
    ensures forall t | t in r :: t in open
    ensures |r| <= |open|
  {
    if open == [] then []
    else if NameOf(open[|open| - 1]) == name then open[..|open| - 1]
    else RemoveLast(open[..|open| - 1], name) + [open[|open| - 1]]
  }

  /** One tag's effect on the open tags. */
  function Apply(content: string, open: seq<string>): seq<string> {
    if content != "" && content[0] == '/' then RemoveLast(open, Lower(content[1..]))
    else if content == "" || content[|content| - 1] == '/' || FirstField(content) == "" then open
    else if IsSimple(NameOf(content)) then open + [NameOf(content)]
    else if NameOf(content) == "a" then open + [content]
    else open
  }

  function ApplyAll(contents: seq<string>, open: seq<string>): seq<string> {
    if contents == [] then open else ApplyAll(contents[1..], Apply(contents[0], open))
  }

  function Update(text: string, open: seq<string>): seq<string> {
    ApplyAll(Tags(text), open)
  }

  method UpdateOpenTags(text: string, before: seq<string>) returns (open: seq<string>)
    requires forall t | t in before :: FirstField(t) != ""
    ensures open == Update(text, before)
  {
    hide Trim, FirstField, NameOf, Lower, IsSimple, IndexOf, Apply;
    open := before;
    var i := 0;
    while i < |text|
      invariant i <= |text| && Update(text[i..], open) == Update(text, before)
    {
      if text[i] == '<' {
        var end := IndexOf(text[i..], '>');
        if end == -1 { assert Tags(text[i..]) == []; break; }
        var content := Trim(text[i + 1..i + end]);
        assert text[i..][1..end] == text[i + 1..i + end] && text[i..][end + 1..] == text[i + end + 1..];
        open := ApplyTag(content, open);
        i := i + end + 1;
      } else {
        assert text[i..][1..] == text[i + 1..];
        i := i + 1;
      }
    }
  }

  method ApplyTag(content: string, before: seq<string>) returns (open: seq<string>)
    ensures open == Apply(content, before)
  {
    hide FirstField, Lower, IsSimple, RemoveLast;
    open := before;
    if content != "" && content[0] == '/' {
      open := CloseTag(Lower(content[1..]), before);
    } else if !(content != "" && content[|content| - 1] == '/') {
      if FirstField(content) != "" && content != "" {
        var name := NameOf(content);
        if IsSimple(name) {
          open := open + [name];
        } else if name == "a" {
          open := open + [content];
        }
      }
    }
  }

  /** The loop that looks for the innermost open tag of a name. */
  method CloseTag(name: string, before: seq<string>) returns (open: seq<string>)
    ensures open == RemoveLast(before, name)
  {
    hide NameOf;
    var j := |before| - 1;
    assert before[..|before|] == before && before[0..] == before;
    while j >= 0
      invariant -1 <= j < |before|
      invariant RemoveLast(before, name) == RemoveLast(before[..j + 1], name) + before[j + 1..]
    {
      assert before[..j + 1][..j] == before[..j];
      if NameOf(before[j]) == name { return before[..j] + before[j + 1..]; }
      assert before[j..] == [before[j]] + before[j + 1..];
      assert RemoveLast(before[..j], name) + [before[j]] + before[j + 1..]
          == RemoveLast(before[..j], name) + before[j..];
      j := j - 1;
    }
    return before;
  }

  // ---------------------------------------------------------------- closers and prefixes

  function Closer(tag: string): string {
    "</" + FirstField(tag) + ">"
  }

  function Closers(open: seq<string>): string {
    if open == [] then "" else Closers(open[1..]) + Closer(open[0])
  }

  function Opener(tag: string): string {
    "<" + tag + ">"
  }

  function Prefix(open: seq<string>): string {
    if open == [] then "" else Opener(open[0]) + Prefix(open[1..])
  }

  method CloseTags(open: seq<string>) returns (s: string)
    requires forall t | t in open :: FirstField(t) != ""
    ensures s == Closers(open)
  {
    hide Closer;
    s := "";
    var i := |open| - 1;
    while i >= 0
      invariant -1 <= i < |open| && s == Closers(open[i + 1..])
    {
      assert open[i..][1..] == open[i + 1..];
      s := s + Closer(open[i]);
      i := i - 1;
    }
  }

  method OpenTagsPrefix(open: seq<string>) returns (s: string)
    ensures s == Prefix(open)
  {
    hide Opener;
    s := "";
    for i := 0 to |open|
      invariant s + Prefix(open[i..]) == Prefix(open)
    {
      assert open[i..][1..] == open[i + 1..];
      s := s + Opener(open[i]);
    }
  }

  // ---------------------------------------------------------------- escaping

  function EscapeChar(c: char): string {
    if c == '&' then "&amp;" else if c == '<' then "&lt;" else if c == '>' then "&gt;" else [c]
  }

  function EscapeHTML(s: string): string {
    if s == "" then "" else EscapeChar(s[0]) + EscapeHTML(s[1..])
  }

  // ---------------------------------------------------------------- lines and chunks

  function Split(text: string): (lines: seq<string>)
    ensures |lines| > 0
  {
    if text == "" then [""]
    else if text[0] == '\n' then [""] + Split(text[1..])
    else
      var rest := Split(text[1..]);
      [[text[0]] + rest[0]] + rest[1..]
  }

  function JoinLines(lines: seq<string>): string {
    if lines == [] then "" else if |lines| == 1 then lines[0] else lines[0] + ['\n'] + JoinLines(lines[1..])
  }

  /** A chunk: the tags it reopens, its share of the text, and the tags it closes. */
  datatype Part = Part(open: seq<string>, body: string, close: seq<string>)

  function Chunk(p: Part): string {
    Prefix(p.open) + p.body + Closers(p.close)
  }

  /** The chunks finished so far, and the one being filled. */
  datatype State = State(done: seq<Part>, open: seq<string>, body: string, tags: seq<string>)

  function Length(st: State): nat {
    |Prefix(st.open)| + |st.body|
  }

  function Flush(st: State): State {
    State(st.done + [Part(st.open, st.body, st.tags)], st.tags, "", st.tags)
  }

  function Append(st: State, line: string): State {
    var newline := if Length(st) > 0 && Length(st) != |Prefix(st.tags)| then "\n" else "";
    st.(body := st.body + newline + line, tags := Update(line, st.tags))
  }

  predicate MustFlush(st: State, line: string, limit: int) {
    Length(st) > 0 && Length(st) + |line| + 1 + |Closers(st.tags)| > limit
  }

  function Step(st: State, line: string, limit: int): State {
    Append(if MustFlush(st, line, limit) then Flush(st) else st, line)
  }

  function Run(st: State, lines: seq<string>, limit: int): State
    decreases |lines|
  {
    if lines == [] then st else Run(Step(st, lines[0], limit), lines[1..], limit)
  }

  const EMPTY := State([], [], "", [])

  function Parts(text: string, limit: int): seq<Part> {
    if |text| <= limit then [Part([], text, [])]
    else
      var st := Run(EMPTY, Split(text), limit);
      if Length(st) > 0 then Flush(st).done else st.done
  }

  function Chunks(parts: seq<Part>): (r: seq<string>)
    ensures |r| == |parts| && forall i | 0 <= i < |r| :: r[i] == Chunk(parts[i])
  {
    if parts == [] then [] else [Chunk(parts[0])] + Chunks(parts[1..])
  }

  /** The variables of the loop hold what the state says. */
  ghost predicate Holds(st: State, chunks: seq<string>, cur: string, openTags: seq<string>) {
    && chunks == Chunks(st.done) && cur == Prefix(st.open) + st.body && openTags == st.tags
    && forall t | t in openTags :: FirstField(t) != ""
  }

  method SplitMessage(text: string, limit: int) returns (chunks: seq<string>)
    ensures chunks == Chunks(Parts(text, limit))
  {
    hide Prefix, Closers, Split, Chunks, FirstField, Step, Holds;
    if |text| <= limit {
      WholeText(text);
      return [text];
    }
    var lines := Split(text);
    var cur, openTags: seq<string>;
    chunks, cur, openTags := [], "", [];
    ghost var st := EMPTY;
    Start();
    for k := 0 to |lines|
      invariant Run(st, lines[k..], limit) == Run(EMPTY, lines, limit)
      invariant Holds(st, chunks, cur, openTags)
    {
      assert lines[k..][1..] == lines[k + 1..];
      chunks, cur, openTags := AddLine(chunks, cur, openTags, lines[k], limit, st);
      st := Step(st, lines[k], limit);
    }
    HoldsLength(st, chunks, cur, openTags);
    if |cur| > 0 { chunks := FinishChunk(chunks, cur, openTags, st); }
  }

  method FinishChunk(chunks: seq<string>, cur: string, openTags: seq<string>, ghost st: State)
        returns (more: seq<string>)
    requires Holds(st, chunks, cur, openTags)
    ensures more == Chunks(Flush(st).done)
  {
    hide FirstField, Prefix, Closers, Chunks;
    var closing := CloseTags(openTags);
    ChunkAdded(st);
    more := chunks + [cur + closing];
  }

  method AddLine(chunks: seq<string>, cur: string, openTags: seq<string>, line: string, limit: int, ghost st: State)
      returns (chunks': seq<string>, cur': string, openTags': seq<string>)
    requires Holds(st, chunks, cur, openTags)
    ensures Holds(Step(st, line, limit), chunks', cur', openTags')
  {
    hide FirstField, Prefix, Closers, Chunks, Update;
    chunks', cur', openTags' := chunks, cur, openTags;
    ghost var now := st;
    var closing := CloseTags(openTags');
    if |cur'| > 0 && |cur'| + |line| + 1 + |closing| > limit {
      chunks' := FinishChunk(chunks', cur', openTags', st);
      cur' := OpenTagsPrefix(openTags');
      now := Flush(st);
    }
    var prefix := OpenTagsPrefix(openTags');
    if |cur'| > 0 && |cur'| != |prefix| { cur' := cur' + "\n"; }
    cur' := cur' + line;
    NamesStay(line, openTags');
    openTags' := UpdateOpenTags(line, openTags');
    assert Append(now, line) == Step(st, line, limit);
  }

  lemma Start()
    ensures Holds(EMPTY, [], "", [])
  {
  }

  lemma HoldsLength(st: State, chunks: seq<string>, cur: string, openTags: seq<string>)
    requires Holds(st, chunks, cur, openTags)
    ensures |cur| == Length(st) && chunks == Chunks(st.done)
  {
    hide FirstField, Prefix, Chunks;
  }

  lemma PrefixOfNothing()
    ensures Prefix([]) == "" && Chunks([]) == [] && Closers([]) == ""
  {
  }

  lemma WholeText(text: string)
    ensures Chunks([Part([], text, [])]) == [text]
  {
    PrefixOfNothing();
    assert Chunk(Part([], text, [])) == text;
  }

  lemma ChunkAdded(st: State)
    ensures Chunks(Flush(st).done) == Chunks(st.done) + [Prefix(st.open) + st.body + Closers(st.tags)]
  {
    hide Prefix, Closers;
  }

  lemma ApplyNames(c: string, open: seq<string>)
    requires (forall t | t in open :: FirstField(t) != "") && Trimmed(c)
    ensures forall t | t in Apply(c, open) :: FirstField(t) != ""
  {
    hide FirstField, Lower;
    if IsSimple(NameOf(c)) { SimpleHasField(NameOf(c)); }
  }

  lemma SimpleHasField(name: string)
    requires IsSimple(name)
    ensures FirstField(name) != ""
  {
    SimpleStart(name);
    VisibleEnds(name);
    TrimLeftOfTrimmed(name);
    hide IsSimple, SpaceAhead, TrimLeft;
  }

  lemma SimpleStart(name: string)
    requires IsSimple(name)
    ensures name != "" && 'a' <= name[0] <= 'z'
  {
  }

  lemma {:induction false} NamesStayAll(contents: seq<string>, open: seq<string>)
    requires (forall t | t in open :: FirstField(t) != "") && forall c | c in contents :: Trimmed(c)
    ensures forall t | t in ApplyAll(contents, open) :: FirstField(t) != ""
  {
    hide Apply, FirstField;
    if contents != [] {
      ApplyNames(contents[0], open);
      NamesStayAll(contents[1..], Apply(contents[0], open));
    }
  }

  lemma NamesStay(line: string, open: seq<string>)
    requires forall t | t in open :: FirstField(t) != ""
    ensures forall t | t in Update(line, open) :: FirstField(t) != ""
  {
    hide FirstField;
    NamesStayAll(Tags(line), open);
  }
}
