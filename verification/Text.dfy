/**
 Byte-string helpers: decimal rendering, first index, trimming, case and the canonical sorted list of a set.
 A string is what it is in Go, a sequence of bytes: one char below 256 for each byte, so that U+00A0 is the two
 chars C2 A0. Lengths and orders are those of bytes, and text need not be valid UTF-8.
 */
module Text {

  // ---------------------------------------------------------------- decimal rendering

  predicate IsDigit(c: char) {
    '0' <= c <= '9'
  }

  predicate AllDigits(s: string) {
    forall i | 0 <= i < |s| :: IsDigit(s[i])
  }

  function Utoa(n: nat): (s: string)
    ensures s != "" && AllDigits(s)
  {
    var last := [('0' as int + n % 10) as char];
    if n < 10 then last else Utoa(n / 10) + last
  }

  /** strconv.Itoa and the %d verb. */
  function Itoa(n: int): (s: string)
    ensures s != "" && (s[0] == '-' || IsDigit(s[0])) && AllDigits(s[1..])
  {
    if n < 0 then "-" + Utoa(-n) else Utoa(n)
  }

  /** The number a digit string denotes. */
  function Value(s: string): nat
    requires AllDigits(s)
  {
    if s == "" then 0 else Value(s[..|s| - 1]) * 10 + (s[|s| - 1] as int - '0' as int)
  }

  lemma {:induction false} ValueOfUtoa(n: nat)
    ensures Value(Utoa(n)) == n
  {
    var s := Utoa(n);
    if n >= 10 {
      ValueOfUtoa(n / 10);
      assert s[..|s| - 1] == Utoa(n / 10);
    } else {
      assert s[..|s| - 1] == "";
    }
  }

  lemma ItoaInjective(m: int, n: int)
    requires Itoa(m) == Itoa(n)
    ensures m == n
  {
    assert m < 0 <==> Itoa(m)[0] == '-';
    assert n < 0 <==> Itoa(n)[0] == '-';
    if m < 0 {
      assert Utoa(-m) == Itoa(m)[1..] == Itoa(n)[1..] == Utoa(-n);
      ValueOfUtoa(-m);
      ValueOfUtoa(-n);
    } else {
      ValueOfUtoa(m);
      ValueOfUtoa(n);
    }
  }

  lemma ItoaHasNo(n: int, c: char)
    requires c != '-' && !IsDigit(c)
    ensures c !in Itoa(n)
  {
    var s := Itoa(n);
    forall i | 0 <= i < |s| ensures s[i] != c {
      assert i == 0 || s[i] == s[1..][i - 1];
    }
  }

  // ---------------------------------------------------------------- cutting at a separator

  /** a + sep + b splits in only one way when neither tail contains sep (the last separator is found). */
  lemma LastSeparatorUnique(a: string, b: string, a': string, b': string, sep: char)
    requires a + [sep] + b == a' + [sep] + b'
    requires sep !in b && sep !in b'
    ensures a == a' && b == b'
  {
    var s, s' := a + [sep] + b, a' + [sep] + b';
    assert s[|a|] == sep && s'[|a'|] == sep;
    assert forall k | |a| < k < |s| :: s[k] == b[k - |a| - 1];
    assert forall k | |a'| < k < |s'| :: s'[k] == b'[k - |a'| - 1];
    assert |a| == |a'|;
    assert a == s[..|a|] && a' == s'[..|a'|];
    assert b == s[|a| + 1..] && b' == s'[|a'| + 1..];
  }

  /** Likewise when neither head contains sep (the first separator is found). */
  lemma FirstSeparatorUnique(a: string, b: string, a': string, b': string, sep: char)
    requires a + [sep] + b == a' + [sep] + b'
    requires sep !in a && sep !in a'
    ensures a == a' && b == b'
  {
    var s, s' := a + [sep] + b, a' + [sep] + b';
    assert s[|a|] == sep && s'[|a'|] == sep;
    assert forall k | 0 <= k < |a| :: s[k] == a[k];
    assert forall k | 0 <= k < |a'| :: s'[k] == a'[k];
    assert |a| == |a'|;
    assert a == s[..|a|] && a' == s'[..|a'|];
    assert b == s[|a| + 1..] && b' == s'[|a'| + 1..];
  }

  // ---------------------------------------------------------------- first index

  /** strings.IndexByte: the first position of c, or -1. */
  function IndexOf(s: string, c: char): (r: int)
    ensures -1 <= r < |s|
    ensures r == -1 <==> c !in s
    ensures r >= 0 ==> s[r] == c && c !in s[..r]
  {
    if s == "" then -1
    else if s[0] == c then 0
    else
      var t := IndexOf(s[1..], c);
      assert s == [s[0]] + s[1..];
      assert t >= 0 ==> s[..t + 1] == [s[0]] + s[1..][..t];
      if t == -1 then -1 else t + 1
  }

  lemma IndexOfFirst(a: string, c: char, b: string)
    requires c !in a
    ensures IndexOf(a + [c] + b, c) == |a|
  {
    hide IndexOf;
    var s, r := a + [c] + b, IndexOf(a + [c] + b, c);
    assert s[|a|] == c;
    assert forall i | 0 <= i < |a| :: s[i] == a[i];
    forall k | 0 <= k < r ensures s[k] != c { assert s[..r][k] == s[k]; }
  }

  predicate OccursAt(s: string, part: string, i: nat) {
    i + |part| <= |s| && s[i..i + |part|] == part
  }

  predicate Occurs(s: string, part: string) {
    exists i | 0 <= i <= |s| :: OccursAt(s, part, i)
  }

  /** strings.Index: the first position of a part, or -1. */
  function Find(s: string, part: string): (r: int)
    ensures r == -1 <==> !Occurs(s, part)
    ensures r != -1 ==> 0 <= r <= |s| && OccursAt(s, part, r) && forall i | 0 <= i < r :: !OccursAt(s, part, i)
  {
    FindFrom(s, part, 0)
  }

  function FindFrom(s: string, part: string, k: nat): (r: int)
    requires k <= |s|
    ensures r == -1 ==> forall i | k <= i <= |s| :: !OccursAt(s, part, i)
    ensures r != -1 ==> k <= r <= |s| && OccursAt(s, part, r) && forall i | k <= i < r :: !OccursAt(s, part, i)
    decreases |s| - k
  {
    if OccursAt(s, part, k) then k else if k == |s| then -1 else FindFrom(s, part, k + 1)
  }

  // ---------------------------------------------------------------- trimming

  predicate AsciiSpace(c: char) {
    c == ' ' || '\t' <= c <= '\r'
  }

  /** U+0085 and U+00A0 in UTF-8. */
  predicate TwoByteSpace(a: char, b: char) {
    a == '\U{C2}' && (b == '\U{85}' || b == '\U{A0}')
  }

  /** U+1680, U+2000 to U+200A, U+2028, U+2029, U+202F, U+205F and U+3000 in UTF-8. */
  predicate ThreeByteSpace(a: char, b: char, c: char) {
    || (a == '\U{E1}' && b == '\U{9A}' && c == '\U{80}')
    || (a == '\U{E2}' && b == '\U{80}'
        && ('\U{80}' <= c <= '\U{8A}' || c == '\U{A8}' || c == '\U{A9}' || c == '\U{AF}'))
    || (a == '\U{E2}' && b == '\U{81}' && c == '\U{9F}')
    || (a == '\U{E3}' && b == '\U{80}' && c == '\U{80}')
  }

  /** The length of the white space character a string starts with, 0 if it starts with none. */
  function SpaceAhead(s: string): (n: nat)
    ensures n <= |s|
  {
    if |s| >= 1 && AsciiSpace(s[0]) then 1
    else if |s| >= 2 && TwoByteSpace(s[0], s[1]) then 2
    else if |s| >= 3 && ThreeByteSpace(s[0], s[1], s[2]) then 3
    else 0
  }

  /** The length of the white space character a string ends with, 0 if it ends with none. */
  function SpaceBehind(s: string): (n: nat)
    ensures n <= |s|
  {
    var z := |s|;
    if z >= 1 && AsciiSpace(s[z - 1]) then 1
    else if z >= 2 && TwoByteSpace(s[z - 2], s[z - 1]) then 2
    else if z >= 3 && ThreeByteSpace(s[z - 3], s[z - 2], s[z - 1]) then 3
    else 0
  }

  /** Visible ASCII belongs to no white space. */
  lemma VisibleEnds(s: string)
    ensures s != "" && '!' <= s[0] <= '~' ==> SpaceAhead(s) == 0
    ensures s != "" && '!' <= s[|s| - 1] <= '~' ==> SpaceBehind(s) == 0
  {
  }

  predicate Trimmed(s: string) {
    SpaceAhead(s) == 0 && SpaceBehind(s) == 0
  }

  function TrimLeft(s: string): (r: string)
    ensures SpaceAhead(r) == 0
    ensures |r| <= |s| && r == s[|s| - |r|..]
  {
    var n := SpaceAhead(s);
    if n > 0 then TrimLeft(s[n..]) else s
  }

  function TrimRight(s: string): (r: string)
    ensures SpaceBehind(r) == 0
    ensures |r| <= |s| && r == s[..|r|]
  {
    var n := SpaceBehind(s);
    if n > 0 then TrimRight(s[..|s| - n]) else s
  }

  lemma SpaceInPrefix(s: string, n: nat)
    requires n <= |s| && SpaceAhead(s) == 0
    ensures SpaceAhead(s[..n]) == 0
  {
  }

  /** strings.TrimSpace, all of Unicode's white space included. */
  function Trim(s: string): (r: string)
    ensures Trimmed(r)
    ensures Trimmed(s) ==> r == s
    ensures forall c | c in r :: c in s
  {
    hide SpaceAhead, SpaceBehind;
    var t := TrimLeft(s);
    SpaceInPrefix(t, |TrimRight(t)|);
    TrimRight(t)
  }

  // ---------------------------------------------------------------- UTF-8

  predicate Continuation(c: char) {
    '\U{80}' <= c <= '\U{BF}'
  }

  /**
   The bytes that may follow a lead byte of three, or of four: no overlong forms, no surrogates, nothing above U+10FFFF.
   */
  predicate Second(lead: char, c: char) {
    && Continuation(c)
    && (lead == '\U{E0}' ==> '\U{A0}' <= c)
    && (lead == '\U{ED}' ==> c <= '\U{9F}')
    && (lead == '\U{F0}' ==> '\U{90}' <= c)
    && (lead == '\U{F4}' ==> c <= '\U{8F}')
  }

  /** The length of the well-formed character a string starts with, 0 if it starts with none. */
  function RuneLen(s: string): (n: nat)
    ensures n <= |s| && n <= 4
  {
    if s == "" then 0
    else if s[0] < '\U{80}' then 1
    else if '\U{C2}' <= s[0] <= '\U{DF}' && |s| >= 2 && Continuation(s[1]) then 2
    else if '\U{E0}' <= s[0] <= '\U{EF}' && |s| >= 3 && Second(s[0], s[1]) && Continuation(s[2]) then 3
    else if '\U{F0}' <= s[0] <= '\U{F4}' && |s| >= 4 && Second(s[0], s[1]) && Continuation(s[2])
        && Continuation(s[3]) then 4
    else 0
  }

  /** utf8.ValidString. */
  predicate ValidUtf8(s: string) {
    s == "" || (RuneLen(s) > 0 && ValidUtf8(s[RuneLen(s)..]))
  }

  /** U+FFFD. */
  const REPLACEMENT: string := ['\U{EF}', '\U{BF}', '\U{BD}']

  /** The first character of a string, or U+FFFD for its first byte if it starts with none. */
  function FirstRune(s: string): string {
    if RuneLen(s) == 0 then REPLACEMENT else s[..RuneLen(s)]
  }

  function AfterRune(s: string): (r: string)
    requires s != ""
    ensures |r| < |s|
  {
    s[if RuneLen(s) == 0 then 1 else RuneLen(s)..]
  }

  /** What a JSON encoder makes of a string, once decoded again: each byte of no character becomes U+FFFD. */
  function Coerced(s: string): string {
    if s == "" then "" else FirstRune(s) + Coerced(AfterRune(s))
  }

  /** Valid text, and no other, comes through unchanged. */
  lemma {:induction false} CoercedMeans(s: string)
    ensures |Coerced(s)| >= |s| && (Coerced(s) == s <==> ValidUtf8(s)) && (|Coerced(s)| == |s| <==> ValidUtf8(s))
  {
    hide RuneLen;
    if s != "" {
      CoercedMeans(AfterRune(s));
      assert s == s[..RuneLen(s)] + s[RuneLen(s)..];
    }
  }

  lemma {:induction false} CoercedValid(s: string)
    ensures ValidUtf8(Coerced(s))
  {
    if s != "" {
      CoercedValid(AfterRune(s));
      FirstIsRune(s, Coerced(AfterRune(s)));
      assert Coerced(s)[|FirstRune(s)|..] == Coerced(AfterRune(s));
    }
  }

  /** A character is one whatever follows it. */
  lemma FirstIsRune(s: string, more: string)
    requires s != ""
    ensures RuneLen(FirstRune(s) + more) == |FirstRune(s)| > 0
  {
    var t := FirstRune(s) + more;
    assert forall i | 0 <= i < |FirstRune(s)| :: t[i] == FirstRune(s)[i];
  }

  /** Text that does not start inside a character does not change what comes before it. */
  lemma RuneLenBefore(a: string, b: string)
    requires a != "" && (b == "" || !Continuation(b[0]))
    ensures RuneLen(a + b) == RuneLen(a)
  {
    var s := a + b;
    assert forall i | 0 <= i < |a| :: s[i] == a[i];
    assert b != "" ==> s[|a|] == b[0];
  }

  lemma FirstBefore(a: string, b: string)
    requires a != "" && (b == "" || !Continuation(b[0]))
    ensures FirstRune(a + b) == FirstRune(a) && AfterRune(a + b) == AfterRune(a) + b
  {
    hide RuneLen;
    RuneLenBefore(a, b);
    var n := RuneLen(a);
    assert (a + b)[..n] == a[..n];
    assert n == 0 ==> (a + b)[1..] == a[1..] + b;
    assert (a + b)[n..] == a[n..] + b;
  }

  lemma {:induction false} ValidConcat(a: string, b: string)
    requires b == "" || !Continuation(b[0])
    ensures ValidUtf8(a + b) <==> ValidUtf8(a) && ValidUtf8(b)
  {
    hide RuneLen;
    if a == "" {
      assert a + b == b;
    } else {
      RuneLenBefore(a, b);
      var n := RuneLen(a);
      assert (a + b)[n..] == a[n..] + b;
      if n > 0 { ValidConcat(a[n..], b); }
    }
  }

  lemma {:induction false} CoercedConcat(a: string, b: string)
    requires b == "" || !Continuation(b[0])
    ensures Coerced(a + b) == Coerced(a) + Coerced(b)
    decreases |a|
  {
    hide FirstRune, AfterRune, Continuation;
    if a == "" {
      assert a + b == b && "" + Coerced(b) == Coerced(b);
    } else {
      FirstBefore(a, b);
      CoercedConcat(AfterRune(a), b);
      Concat3(FirstRune(a), Coerced(AfterRune(a)), Coerced(b));
    }
  }

  lemma Concat3(x: string, y: string, z: string)
    ensures (x + y) + z == x + (y + z)
  {
  }

  lemma {:induction false} AsciiValid(s: string)
    requires forall i | 0 <= i < |s| :: s[i] < '\U{80}'
    ensures ValidUtf8(s) && Coerced(s) == s
  {
    CoercedMeans(s);
    if s != "" {
      AsciiValid(s[1..]);
    }
  }

  /** Trimming valid text leaves valid text. */
  lemma {:induction false} TrimLeftValid(s: string)
    requires ValidUtf8(s)
    ensures ValidUtf8(TrimLeft(s))
  {
    if SpaceAhead(s) > 0 {
      SpaceIsRune(s);
      assert ValidUtf8(s[RuneLen(s)..]);
      TrimLeftValid(s[SpaceAhead(s)..]);
    }
  }

  lemma SpaceIsRune(s: string)
    requires SpaceAhead(s) > 0
    ensures RuneLen(s) == SpaceAhead(s)
  {
  }

  lemma {:induction false} TrimRightValid(s: string)
    requires ValidUtf8(s)
    ensures ValidUtf8(TrimRight(s))
    decreases |s|
  {
    hide RuneLen;
    var n := SpaceBehind(s);
    if n > 0 {
      var t := s[..|s| - n];
      assert s == t + s[|s| - n..];
      SpaceLeads(s);
      ValidConcat(t, s[|s| - n..]);
      TrimRightValid(t);
    }
  }

  lemma SpaceLeads(s: string)
    requires SpaceBehind(s) > 0
    ensures !Continuation(s[|s| - SpaceBehind(s)])
  {
  }

  lemma TrimValid(s: string)
    requires ValidUtf8(s)
    ensures ValidUtf8(Trim(s))
  {
    hide ValidUtf8, TrimLeft, TrimRight;
    TrimLeftValid(s);
    TrimRightValid(TrimLeft(s));
  }

  // ---------------------------------------------------------------- case

  function LowerChar(c: char): char {
    if 'A' <= c <= 'Z' then (c as int + 32) as char else c
  }

  /**
   strings.ToLower, as far as a comparison with ASCII text can tell: U+0130 and U+212A are the only characters
   outside ASCII that lower into it.
   */
  function Lower(s: string): (r: string)
    ensures (forall i | 0 <= i < |s| :: s[i] < '\U{80}') ==> |r| == |s| && forall i | 0 <= i < |s| ::
              r[i] == LowerChar(s[i])
  {
    if s == "" then ""
    else if |s| >= 2 && s[0] == '\U{C4}' && s[1] == '\U{B0}' then "i" + Lower(s[2..])
    else if |s| >= 3 && s[0] == '\U{E2}' && s[1] == '\U{84}' && s[2] == '\U{AA}' then "k" + Lower(s[3..])
    else [LowerChar(s[0])] + Lower(s[1..])
  }

  // ---------------------------------------------------------------- ordering

  /** Byte-wise lexicographic order, Go's <= on strings. */
  predicate Leq(a: string, b: string) {
    a == "" || (b != "" && (a[0] < b[0] || (a[0] == b[0] && Leq(a[1..], b[1..]))))
  }

  lemma {:induction false} LeqTotal(a: string, b: string)
    ensures Leq(a, b) || Leq(b, a)
  {
    if a != "" && b != "" { LeqTotal(a[1..], b[1..]); }
  }

  lemma {:induction false} LeqAntisymmetric(a: string, b: string)
    requires Leq(a, b) && Leq(b, a)
    ensures a == b
  {
    if a != "" && b != "" {
      LeqAntisymmetric(a[1..], b[1..]);
      assert a == [a[0]] + a[1..] && b == [b[0]] + b[1..];
    }
  }

  lemma {:induction false} LeqTransitive(a: string, b: string, c: string)
    requires Leq(a, b) && Leq(b, c)
    ensures Leq(a, c)
  {
    if a != "" && a[0] == b[0] == c[0] { LeqTransitive(a[1..], b[1..], c[1..]); }
  }

  ghost predicate IsLeast(x: string, s: set<string>) {
    x in s && forall y | y in s :: Leq(x, y)
  }

  lemma {:induction false} LeastExists(s: set<string>)
    requires s != {}
    ensures exists x :: IsLeast(x, s)
  {
    var x :| x in s;
    LeqTotal(x, x);
    if s == {x} {
      assert IsLeast(x, s);
    } else {
      LeastExists(s - {x});
      var m :| IsLeast(m, s - {x});
      LeqTotal(m, x);
      if Leq(m, x) {
        assert IsLeast(m, s);
      } else {
        forall y | y in s ensures Leq(x, y) {
          if y != x { LeqTransitive(x, m, y); }
        }
        assert IsLeast(x, s);
      }
    }
  }

  function Least(s: set<string>): (x: string)
    requires s != {}
    ensures x in s && forall y | y in s :: Leq(x, y)
  {
    LeastExists(s);
    assert exists x :: x in s && forall y | y in s :: Leq(x, y) by {
      var x :| IsLeast(x, s);
    }
    assert forall x, y | x in s && y in s && Leq(x, y) && Leq(y, x) :: x == y by {
      forall x, y | x in s && y in s && Leq(x, y) && Leq(y, x) ensures x == y { LeqAntisymmetric(x, y); }
    }
    var x :| x in s && forall y | y in s :: Leq(x, y);
    x
  }

  predicate NoDuplicates<T(==)>(s: seq<T>) {
    forall i, j | 0 <= i < j < |s| :: s[i] != s[j]
  }

  predicate Ascending(s: seq<string>) {
    forall i, j | 0 <= i < j < |s| :: Leq(s[i], s[j])
  }

  /** sort.Strings applied to the members of a set, whatever order the set was enumerated in. */
  function SortedList(s: set<string>): (r: seq<string>)
    ensures forall x :: x in r <==> x in s
    ensures NoDuplicates(r)
  {
    if s == {} then []
    else
      var x := Least(s);
      [x] + SortedList(s - {x})
  }

  lemma {:induction false} SortedListAscends(s: set<string>)
    ensures Ascending(SortedList(s))
  {
    if s != {} { SortedListAscends(s - {Least(s)}); }
  }
}
