/** The byte-level tests of Text against Unicode: what starts with a character, and what white space is. */
module CodePoints {
  import opened Text

  /** The numbers that are characters: no surrogates, nothing above U+10FFFF. */
  predicate Scalar(cp: int) {
    0 <= cp < 0xD800 || 0xE000 <= cp <= 0x10FFFF
  }

  function Byte(n: int): char
    requires 0 <= n < 256
  {
    n as char
  }

  /** The last k six-bit groups of a code point, each behind the continuation mark. */
  function Sextet(cp: int, unit: int): char
    requires unit > 0
  {
    Byte(0x80 + cp / unit % 64)
  }

  /** RFC 3629. */
  function Utf8(cp: int): (s: string)
    requires Scalar(cp)
    ensures |s| == if cp < 0x80 then 1 else if cp < 0x800 then 2 else if cp < 0x10000 then 3 else 4
  {
    if cp < 0x80 then [Byte(cp)]
    else if cp < 0x800 then [Byte(0xC0 + cp / 64), Sextet(cp, 1)]
    else if cp < 0x10000 then [Byte(0xE0 + cp / 4096), Sextet(cp, 64), Sextet(cp, 1)]
    else [Byte(0xF0 + cp / 262144), Sextet(cp, 4096), Sextet(cp, 64), Sextet(cp, 1)]
  }

  /** The text starts with this character. */
  predicate Starts(s: string, cp: int) {
    Scalar(cp) && Utf8(cp) <= s
  }

  lemma TwoBytes(cp: int)
    requires 0x80 <= cp < 0x800
    ensures RuneLen(Utf8(cp)) == 2
  {
  }

  lemma ThreeBytes(cp: int)
    requires 0x800 <= cp < 0x10000 && Scalar(cp)
    ensures RuneLen(Utf8(cp)) == 3
  {
    var a, b := cp / 4096, cp / 64 % 64;
    assert cp == a * 4096 + b * 64 + cp % 64;
  }

  lemma FourBytes(cp: int)
    requires 0x10000 <= cp <= 0x10FFFF
    ensures RuneLen(Utf8(cp)) == 4
  {
    var a, b := cp / 262144, cp / 4096 % 64;
    assert cp == a * 262144 + b * 4096 + cp % 4096;
  }

  lemma CharacterLength(cp: int)
    requires Scalar(cp)
    ensures RuneLen(Utf8(cp)) == |Utf8(cp)|
  {
    hide RuneLen;
    if cp < 0x80 { OneByte(cp); }
    else if cp < 0x800 { TwoBytes(cp); }
    else if cp < 0x10000 { ThreeBytes(cp); }
    else { FourBytes(cp); }
  }

  lemma OneByte(cp: int)
    requires 0 <= cp < 0x80
    ensures RuneLen(Utf8(cp)) == 1
  {
  }

  lemma LongerKeepsRune(s: string, t: string)
    requires s <= t && RuneLen(s) > 0
    ensures RuneLen(t) == RuneLen(s)
  {
    assert forall i | 0 <= i < |s| :: s[i] == t[i];
  }

  function ValueOf(c: char, mark: int): int {
    c as int - mark
  }

  /** The character a text starts with. */
  function Decoded(s: string): int
    requires RuneLen(s) > 0
  {
    var n := RuneLen(s);
    if n == 1 then s[0] as int
    else if n == 2 then ValueOf(s[0], 0xC0) * 64 + ValueOf(s[1], 0x80)
    else if n == 3 then ValueOf(s[0], 0xE0) * 4096 + ValueOf(s[1], 0x80) * 64 + ValueOf(s[2], 0x80)
    else ValueOf(s[0], 0xF0) * 262144 + ValueOf(s[1], 0x80) * 4096 + ValueOf(s[2], 0x80) * 64 + ValueOf(s[3], 0x80)
  }

  lemma Digits(a: int, b: int, c: int, d: int)
    requires a >= 0 && 0 <= b < 64 && 0 <= c < 64 && 0 <= d < 64
    ensures (a * 64 + b) / 64 == a && (a * 64 + b) % 64 == b
    ensures var n := a * 4096 + b * 64 + c; n / 4096 == a && n / 64 % 64 == b && n % 64 == c
    ensures var n := a * 262144 + b * 4096 + c * 64 + d;
            n / 262144 == a && n / 4096 % 64 == b && n / 64 % 64 == c && n % 64 == d
  {
    var n := a * 262144 + b * 4096 + c * 64 + d;
    assert n / 64 == a * 4096 + b * 64 + c;
    assert n / 4096 == a * 64 + b;
  }

  lemma DecodedTwo(x: char, y: char)
    requires '\U{C2}' <= x <= '\U{DF}' && Continuation(y)
    ensures var cp := ValueOf(x, 0xC0) * 64 + ValueOf(y, 0x80); Scalar(cp) && Utf8(cp) == [x, y]
  {
    Digits(ValueOf(x, 0xC0), ValueOf(y, 0x80), 0, 0);
  }

  lemma DecodedThree(x: char, y: char, z: char)
    requires '\U{E0}' <= x <= '\U{EF}' && Second(x, y) && Continuation(z)
    ensures var cp := ValueOf(x, 0xE0) * 4096 + ValueOf(y, 0x80) * 64 + ValueOf(z, 0x80);
            Scalar(cp) && Utf8(cp) == [x, y, z]
  {
    var a, b, c := ValueOf(x, 0xE0), ValueOf(y, 0x80), ValueOf(z, 0x80);
    Digits(a, b, c, 0);
    var cp := a * 4096 + b * 64 + c;
    assert 0x800 <= cp < 0x10000;
    assert a < 13 ==> cp < 0xD000;
    assert Scalar(cp);
  }

  lemma DecodedFour(w: char, x: char, y: char, z: char)
    requires '\U{F0}' <= w <= '\U{F4}' && Second(w, x) && Continuation(y) && Continuation(z)
    ensures var cp := ValueOf(w, 0xF0) * 262144 + ValueOf(x, 0x80) * 4096 + ValueOf(y, 0x80) * 64 + ValueOf(z, 0x80);
            Scalar(cp) && Utf8(cp) == [w, x, y, z]
  {
    var a, b, c, d := ValueOf(w, 0xF0), ValueOf(x, 0x80), ValueOf(y, 0x80), ValueOf(z, 0x80);
    Digits(a, b, c, d);
    var cp := a * 262144 + b * 4096 + c * 64 + d;
    assert 0x10000 <= cp <= 0x10FFFF;
  }

  lemma DecodedStarts(s: string)
    requires RuneLen(s) > 0
    ensures Starts(s, Decoded(s)) && |Utf8(Decoded(s))| == RuneLen(s)
  {
    hide Utf8, Second, Continuation;
    var n := RuneLen(s);
    if n == 1 {
      assert s[..1] == [s[0]];
      AsciiForm(s[0]);
    } else if n == 2 {
      DecodedTwo(s[0], s[1]);
    } else if n == 3 {
      DecodedThree(s[0], s[1], s[2]);
    } else {
      DecodedFour(s[0], s[1], s[2], s[3]);
    }
    assert s[..n] <= s;
  }

  lemma AsciiForm(c: char)
    requires c < '\U{80}'
    ensures Scalar(c as int) && Utf8(c as int) == [c]
  {
  }

  /** A text starts with n bytes that are a character exactly if they are the UTF-8 form of one. */
  lemma RuneLenMeans(s: string, n: nat)
    requires n > 0
    ensures RuneLen(s) == n <==> exists cp :: Starts(s, cp) && |Utf8(cp)| == n
  {
    hide RuneLen, Utf8, Decoded;
    if RuneLen(s) == n { DecodedStarts(s); }
    if cp :| Starts(s, cp) && |Utf8(cp)| == n {
      CharacterLength(cp);
      LongerKeepsRune(Utf8(cp), s);
    }
  }

  // ---------------------------------------------------------------- white space

  /** Unicode's White_Space property. */
  predicate WhiteSpace(cp: int) {
    || 0x09 <= cp <= 0x0D || cp == 0x20 || cp == 0x85 || cp == 0xA0 || cp == 0x1680 || 0x2000 <= cp <= 0x200A
    || cp == 0x2028 || cp == 0x2029 || cp == 0x202F || cp == 0x205F || cp == 0x3000
  }

  lemma SpaceBytes(cp: int)
    requires WhiteSpace(cp)
    ensures Scalar(cp)
    ensures var u := Utf8(cp);
            if cp < 0x80 then AsciiSpace(u[0])
            else if cp < 0x800 then !AsciiSpace(u[0]) && !AsciiSpace(u[1]) && TwoByteSpace(u[0], u[1])
            else && !AsciiSpace(u[0]) && !AsciiSpace(u[2]) && !TwoByteSpace(u[0], u[1]) && !TwoByteSpace(u[1], u[2])
                 && ThreeByteSpace(u[0], u[1], u[2])
  {
  }

  lemma OneSpace(x: char)
    requires AsciiSpace(x)
    ensures WhiteSpace(x as int) && Scalar(x as int) && Utf8(x as int) == [x]
  {
  }

  lemma TwoSpace(x: char, y: char)
    requires TwoByteSpace(x, y)
    ensures var cp := ValueOf(x, 0xC0) * 64 + ValueOf(y, 0x80); WhiteSpace(cp) && Scalar(cp) && Utf8(cp) == [x, y]
  {
  }

  lemma ThreeSpace(x: char, y: char, z: char)
    requires ThreeByteSpace(x, y, z)
    ensures var cp := ValueOf(x, 0xE0) * 4096 + ValueOf(y, 0x80) * 64 + ValueOf(z, 0x80);
            WhiteSpace(cp) && Scalar(cp) && Utf8(cp) == [x, y, z]
  {
    Digits(ValueOf(x, 0xE0), ValueOf(y, 0x80), ValueOf(z, 0x80), 0);
  }

  /** The code point behind such bytes. */
  lemma SpaceOfBytes(u: string)
    requires || (|u| == 1 && AsciiSpace(u[0])) || (|u| == 2 && TwoByteSpace(u[0], u[1]))
             || (|u| == 3 && ThreeByteSpace(u[0], u[1], u[2]))
    ensures exists cp :: WhiteSpace(cp) && Scalar(cp) && Utf8(cp) == u
  {
    hide AsciiSpace, TwoByteSpace, ThreeByteSpace, WhiteSpace, Scalar, Utf8;
    if |u| == 1 {
      OneSpace(u[0]);
      assert u == [u[0]];
    } else if |u| == 2 {
      TwoSpace(u[0], u[1]);
      assert u == [u[0], u[1]];
    } else {
      ThreeSpace(u[0], u[1], u[2]);
      assert u == [u[0], u[1], u[2]];
    }
  }

  ghost predicate IsSpace(u: string) {
    exists cp :: WhiteSpace(cp) && Scalar(cp) && Utf8(cp) == u
  }

  /** A text starts with white space, of this many bytes, exactly if its first bytes are such a character. */
  lemma SpaceAheadMeans(s: string, n: nat)
    requires 0 < n <= |s|
    ensures SpaceAhead(s) == n <==> IsSpace(s[..n])
  {
    hide AsciiSpace, TwoByteSpace, ThreeByteSpace, Utf8;
    if SpaceAhead(s) == n { SpaceOfBytes(s[..n]); }
    if cp :| WhiteSpace(cp) && Scalar(cp) && Utf8(cp) == s[..n] {
      SpaceBytes(cp);
      assert forall i | 0 <= i < n :: Utf8(cp)[i] == s[i];
    }
  }

  /** It ends with white space exactly if its last bytes are. */
  lemma SpaceBehindMeans(s: string, n: nat)
    requires 0 < n <= |s|
    ensures SpaceBehind(s) == n <==> IsSpace(s[|s| - n..])
  {
    hide AsciiSpace, TwoByteSpace, ThreeByteSpace, Utf8;
    if SpaceBehind(s) == n { SpaceOfBytes(s[|s| - n..]); }
    if cp :| WhiteSpace(cp) && Scalar(cp) && Utf8(cp) == s[|s| - n..] {
      SpaceBytes(cp);
      assert forall i | 0 <= i < n :: Utf8(cp)[i] == s[|s| - n + i];
    }
  }

  /** White space characters and nothing else. */
  ghost predicate AllSpace(s: string)
    decreases |s|
  {
    s == "" || exists k | 0 < k <= |s| :: IsSpace(s[..k]) && AllSpace(s[k..])
  }

  lemma {:induction false} SpaceThenSpace(a: string, b: string)
    requires AllSpace(a) && IsSpace(b) && b != ""
    ensures AllSpace(a + b)
    decreases |a|
  {
    hide IsSpace;
    if a == "" {
      assert a + b == b && b[..|b|] == b && AllSpace(b[|b|..]);
    } else {
      var k :| 0 < k <= |a| && IsSpace(a[..k]) && AllSpace(a[k..]);
      SpaceThenSpace(a[k..], b);
      assert (a + b)[..k] == a[..k] && (a + b)[k..] == a[k..] + b;
    }
  }

  lemma {:induction false} TrimLeftMeans(s: string)
    ensures AllSpace(s[..|s| - |TrimLeft(s)|])
    decreases |s|
  {
    hide SpaceAhead, IsSpace;
    var n := SpaceAhead(s);
    if n > 0 {
      SpaceAheadMeans(s, n);
      TrimLeftMeans(s[n..]);
      var cut := s[..|s| - |TrimLeft(s)|];
      assert cut[..n] == s[..n] && cut[n..] == s[n..][..|s[n..]| - |TrimLeft(s[n..])|];
    }
  }

  lemma {:induction false} TrimRightMeans(s: string)
    ensures AllSpace(s[|TrimRight(s)|..])
    decreases |s|
  {
    hide SpaceBehind, IsSpace;
    var n := SpaceBehind(s);
    if n > 0 {
      SpaceBehindMeans(s, n);
      var t := s[..|s| - n];
      TrimRightMeans(t);
      SpaceThenSpace(t[|TrimRight(t)|..], s[|s| - n..]);
      assert s[|TrimRight(s)|..] == t[|TrimRight(t)|..] + s[|s| - n..];
    }
  }

  /** r is s without the white space a before it and b behind it. */
  ghost predicate CutOff(s: string, a: string, r: string, b: string) {
    s == a + r + b && AllSpace(a) && AllSpace(b)
  }

  lemma TrimCuts(s: string)
    ensures exists a, b :: CutOff(s, a, Trim(s), b)
  {
    hide SpaceAhead, SpaceBehind, IsSpace, TrimLeft, TrimRight, AllSpace;
    var t := TrimLeft(s);
    var r := TrimRight(t);
    TrimLeftMeans(s);
    TrimRightMeans(t);
    CutBoth(s, t, r);
    assert CutOff(s, s[..|s| - |t|], Trim(s), t[|r|..]);
  }

  lemma CutBoth(s: string, t: string, r: string)
    requires |t| <= |s| && t == s[|s| - |t|..] && |r| <= |t| && r == t[..|r|]
    requires AllSpace(s[..|s| - |t|]) && AllSpace(t[|r|..])
    ensures CutOff(s, s[..|s| - |t|], r, t[|r|..])
  {
    hide AllSpace;
    assert r + t[|r|..] == t;
  }

  lemma TrimmedEnds(r: string)
    requires Trimmed(r)
    ensures forall n | 0 < n <= |r| :: !IsSpace(r[..n]) && !IsSpace(r[|r| - n..])
  {
    hide SpaceAhead, SpaceBehind, IsSpace;
    forall n | 0 < n <= |r| ensures !IsSpace(r[..n]) && !IsSpace(r[|r| - n..]) {
      SpaceAheadMeans(r, n);
      SpaceBehindMeans(r, n);
    }
  }

  /** TrimSpace cuts off white space characters at both ends, all of them and nothing else. */
  lemma TrimMeans(s: string)
    ensures exists a, b :: CutOff(s, a, Trim(s), b)
    ensures var r := Trim(s); forall n | 0 < n <= |r| :: !IsSpace(r[..n]) && !IsSpace(r[|r| - n..])
  {
    hide Trim, Trimmed, IsSpace, CutOff;
    TrimCuts(s);
    TrimmedEnds(Trim(s));
  }
}
