/**
  What the stored text holds: its layout member by member, and that each encoded value can be read
  back: hash, body, strings, numbers and times.
*/
module RecordCodecs {
  import opened Records
  import opened RecordJson

  // ---- hexadecimal digits ----

  function HexValue(c: char): (n: nat)
    ensures n < 16
  {
    if '0' <= c <= '9' then c as int - '0' as int
    else if 'a' <= c <= 'f' then c as int - 'a' as int + 10
    else 0
  }

  lemma HexDigitValue(n: nat)
    requires n < 16
    ensures HexValue(HexDigit(n)) == n
    ensures n < 10 ==> '0' <= HexDigit(n) <= '9'
  {
  }

  function HexByte(a: char, b: char): Byte {
    HexValue(a) * 16 + HexValue(b)
  }

  function UnHex(t: string): seq<Byte> {
    if |t| < 2 then [] else UnHex(t[..|t| - 2]) + [HexByte(t[|t| - 2], t[|t| - 1])]
  }

  lemma UnHexSnoc(t: string, a: char, b: char)
    ensures UnHex(t + [a, b]) == UnHex(t) + [HexByte(a, b)]
  {
    assert (t + [a, b])[..|t|] == t;
  }

  lemma HexByteIsRead(x: Byte)
    ensures HexByte(HexDigit(x / 16), HexDigit(x % 16)) == x
  {
    HexDigitValue(x / 16);
    HexDigitValue(x % 16);
  }

  lemma HexTextSnoc(front: seq<Byte>, x: Byte)
    ensures HexText(front + [x]) == HexText(front) + [HexDigit(x / 16), HexDigit(x % 16)]
  {
    assert (front + [x])[..|front|] == front;
  }

  lemma HexStep(front: seq<Byte>, x: Byte)
    requires |HexText(front)| == 2 * |front| && UnHex(HexText(front)) == front
    ensures |HexText(front + [x])| == 2 * |front| + 2 && UnHex(HexText(front + [x])) == front + [x]
  {
    HexTextSnoc(front, x);
    UnHexSnoc(HexText(front), HexDigit(x / 16), HexDigit(x % 16));
    HexByteIsRead(x);
  }

  lemma LastSplitsOff(b: seq<Byte>, n: nat)
    requires 0 < n <= |b|
    ensures b[..n] == b[..n - 1] + [b[n - 1]]
  {
  }

  lemma {:induction false} HexPrefix(b: seq<Byte>, n: nat)
    requires n <= |b|
    ensures |HexText(b[..n])| == 2 * n && UnHex(HexText(b[..n])) == b[..n]
  {
    if n > 0 {
      HexPrefix(b, n - 1);
      HexStep(b[..n - 1], b[n - 1]);
      LastSplitsOff(b, n);
    }
  }

  /** The hash can be read back from its text. */
  lemma HexRoundTrip(b: seq<Byte>)
    ensures |HexText(b)| == 2 * |b| && UnHex(HexText(b)) == b
  {
    HexPrefix(b, |b|);
    assert b[..|b|] == b;
  }

  // ---- base64 ----

  function Value64(c: char): (n: nat)
    ensures n < 64
  {
    if 'A' <= c <= 'Z' then c as int - 'A' as int
    else if 'a' <= c <= 'z' then c as int - 'a' as int + 26
    else if '0' <= c <= '9' then c as int - '0' as int + 52
    else if c == '+' then 62
    else if c == '/' then 63
    else 0
  }

  lemma Base64CharValue(n: nat)
    requires n < 64
    ensures Value64(Base64Char(n)) == n && Base64Char(n) != '='
  {
  }

  /** The bytes in which four values of six bits lie. */
  function FirstByte(a: nat, b: nat): Byte
    requires a < 64 && b < 64
  {
    a * 4 + b / 16
  }

  function SecondByte(b: nat, c: nat): Byte
    requires b < 64 && c < 64
  {
    b % 16 * 16 + c / 4
  }

  function ThirdByte(c: nat, d: nat): Byte
    requires c < 64 && d < 64
  {
    c % 4 * 64 + d
  }

  /** Decoding, with padding (section 4 of RFC 4648). */
  function UnBase64(t: string): seq<Byte> {
    if |t| < 4 then []
    else
      var a, b, c, d := Value64(t[0]), Value64(t[1]), Value64(t[2]), Value64(t[3]);
      if t[2] == '=' then [FirstByte(a, b)]
      else if t[3] == '=' then [FirstByte(a, b), SecondByte(b, c)]
      else [FirstByte(a, b), SecondByte(b, c), ThirdByte(c, d)] + UnBase64(t[4..])
  }

  lemma BytesAreRead(x: Byte, y: Byte, z: Byte)
    ensures FirstByte(x / 4, x % 4 * 16 + y / 16) == x
    ensures SecondByte(x % 4 * 16 + y / 16, y % 16 * 4 + z / 64) == y
    ensures ThirdByte(y % 16 * 4 + z / 64, z % 64) == z
  {
  }

  /** Four characters without padding, and what follows them. */
  lemma GroupIsRead(a: nat, b: nat, c: nat, d: nat, rest: string)
    requires a < 64 && b < 64 && c < 64 && d < 64
    ensures UnBase64([Base64Char(a), Base64Char(b), Base64Char(c), Base64Char(d)] + rest) ==
      [FirstByte(a, b), SecondByte(b, c), ThirdByte(c, d)] + UnBase64(rest)
  {
    var g := [Base64Char(a), Base64Char(b), Base64Char(c), Base64Char(d)];
    Base64CharValue(a);
    Base64CharValue(b);
    Base64CharValue(c);
    Base64CharValue(d);
    assert (g + rest)[4..] == rest;
  }

  lemma PaddedIsRead(a: nat, b: nat, c: nat)
    requires a < 64 && b < 64 && c < 64
    ensures UnBase64([Base64Char(a), Base64Char(b), '=', '=']) == [FirstByte(a, b)]
    ensures UnBase64([Base64Char(a), Base64Char(b), Base64Char(c), '=']) == [FirstByte(a, b), SecondByte(b, c)]
  {
    Base64CharValue(a);
    Base64CharValue(b);
    Base64CharValue(c);
  }

  lemma Base64Short(x: Byte, y: Byte)
    ensures Base64([x]) == [Base64Char(x / 4), Base64Char(x % 4 * 16), '=', '=']
    ensures Base64([x, y]) == [Base64Char(x / 4), Base64Char(x % 4 * 16 + y / 16), Base64Char(y % 16 * 4), '=']
  {
  }

  lemma OneByte(x: Byte)
    ensures UnBase64(Base64([x])) == [x]
  {
    Base64Short(x, 0);
    PaddedIsRead(x / 4, x % 4 * 16, 0);
    BytesAreRead(x, 0, 0);
  }

  lemma TwoBytes(x: Byte, y: Byte)
    ensures UnBase64(Base64([x, y])) == [x, y]
  {
    Base64Short(x, y);
    PaddedIsRead(x / 4, x % 4 * 16 + y / 16, y % 16 * 4);
    BytesAreRead(x, y, 0);
  }

  lemma Base64Cons(x: Byte, y: Byte, z: Byte, rest: seq<Byte>)
    ensures Base64([x, y, z] + rest) ==
      [Base64Char(x / 4), Base64Char(x % 4 * 16 + y / 16), Base64Char(y % 16 * 4 + z / 64), Base64Char(z % 64)] + Base64(rest)
  {
    assert ([x, y, z] + rest)[3..] == rest;
  }

  lemma Base64Step(x: Byte, y: Byte, z: Byte, rest: seq<Byte>)
    requires UnBase64(Base64(rest)) == rest
    ensures UnBase64(Base64([x, y, z] + rest)) == [x, y, z] + rest
  {
    Base64Cons(x, y, z, rest);
    GroupIsRead(x / 4, x % 4 * 16 + y / 16, y % 16 * 4 + z / 64, z % 64, Base64(rest));
    BytesAreRead(x, y, z);
  }

  /** The body can be read back from its text. */
  lemma {:induction false} Base64RoundTrip(b: seq<Byte>)
    ensures UnBase64(Base64(b)) == b
  {
    if |b| == 1 {
      OneByte(b[0]);
      assert b == [b[0]];
    } else if |b| == 2 {
      TwoBytes(b[0], b[1]);
      assert b == [b[0], b[1]];
    } else if |b| > 2 {
      Base64RoundTrip(b[3..]);
      Base64Step(b[0], b[1], b[2], b[3..]);
      assert b == [b[0], b[1], b[2]] + b[3..];
    }
  }

  // ---- strings ----

  /** Which characters are escaped, and how; every other one is written as it stands. */
  lemma EscapesAre(c: char)
    ensures c == '"' ==> EscapeChar(c) == ['\\', '"']
    ensures c == '\\' ==> EscapeChar(c) == ['\\', '\\']
    ensures c == '\n' ==> EscapeChar(c) == ['\\', 'n']
    ensures c == '\r' ==> EscapeChar(c) == ['\\', 'r']
    ensures c == '\t' ==> EscapeChar(c) == ['\\', 't']
    ensures c as int == 8 ==> EscapeChar(c) == ['\\', 'b']
    ensures c as int == 12 ==> EscapeChar(c) == ['\\', 'f']
    ensures c == '<' ==> EscapeChar(c) == ['\\', 'u', '0', '0', '3', 'c']
    ensures c == '>' ==> EscapeChar(c) == ['\\', 'u', '0', '0', '3', 'e']
    ensures c == '&' ==> EscapeChar(c) == ['\\', 'u', '0', '0', '2', '6']
    ensures c as int == 0x2028 ==> EscapeChar(c) == ['\\', 'u', '2', '0', '2', '8']
    ensures c as int == 0x2029 ==> EscapeChar(c) == ['\\', 'u', '2', '0', '2', '9']
    ensures c as int >= 32 && c !in {'"', '\\', '<', '>', '&'} && c as int != 0x2028 && c as int != 0x2029 ==>
      EscapeChar(c) == [c]
  {
  }

  /** A two-character escape. */
  function Simple(c: char): char {
    if c == 'n' then '\n' else if c == 'r' then '\r' else if c == 't' then '\t'
    else if c == 'b' then 8 as char else if c == 'f' then 12 as char else c
  }

  function Code(a: char, b: char, c: char, d: char): char {
    var n := HexValue(a) * 4096 + HexValue(b) * 256 + HexValue(c) * 16 + HexValue(d);
    if n < 0xD800 then n as char else '?'
  }

  /** Decoding the inside of a JSON string (section 7 of RFC 8259). */
  function Unescape(t: string): string {
    if |t| == 0 then []
    else if t[0] != '\\' then [t[0]] + Unescape(t[1..])
    else if |t| < 2 then []
    else if t[1] != 'u' then [Simple(t[1])] + Unescape(t[2..])
    else if |t| < 6 then []
    else [Code(t[2], t[3], t[4], t[5])] + Unescape(t[6..])
  }

  lemma PlainIsRead(c: char, rest: string)
    requires c != '\\'
    ensures Unescape([c] + rest) == [c] + Unescape(rest)
  {
    assert ([c] + rest)[1..] == rest;
  }

  lemma SimpleIsRead(x: char, rest: string)
    requires x != 'u'
    ensures Unescape(['\\', x] + rest) == [Simple(x)] + Unescape(rest)
  {
    assert (['\\', x] + rest)[2..] == rest;
  }

  lemma CodeIsRead(a: char, b: char, c: char, d: char, rest: string)
    ensures Unescape(['\\', 'u', a, b, c, d] + rest) == [Code(a, b, c, d)] + Unescape(rest)
  {
    assert (['\\', 'u', a, b, c, d] + rest)[6..] == rest;
  }

  /** The character an escape sequence stands for. */
  function Meaning(e: string): char
    requires |e| > 0
  {
    if |e| == 6 then Code(e[2], e[3], e[4], e[5]) else if |e| == 2 then Simple(e[1]) else e[0]
  }

  lemma EscapeShape(c: char)
    ensures var e := EscapeChar(c);
      && ((e == [c] && c != '\\') || (|e| == 2 && e[0] == '\\' && e[1] != 'u') || (|e| == 6 && e[0] == '\\' && e[1] == 'u'))
      && Meaning(e) == c
  {
    if c as int < 32 {
      HexDigitValue(c as int / 16);
      HexDigitValue(c as int % 16);
    }
  }

  lemma EscapedIsRead(c: char, rest: string)
    ensures Unescape(EscapeChar(c) + rest) == [c] + Unescape(rest)
  {
    var e := EscapeChar(c);
    EscapeShape(c);
    if |e| == 1 {
      PlainIsRead(c, rest);
    } else if |e| == 2 {
      assert e == ['\\', e[1]];
      SimpleIsRead(e[1], rest);
    } else {
      assert e == ['\\', 'u', e[2], e[3], e[4], e[5]];
      CodeIsRead(e[2], e[3], e[4], e[5], rest);
    }
  }

  lemma EncodeSnoc(f: char -> string, s: string, c: char)
    ensures Encode(f, s + [c]) == Encode(f, s) + f(c)
  {
    assert (s + [c])[..|s|] == s;
  }

  lemma MoveLast(c: char, s: string, n: nat)
    requires 0 < n <= |s|
    ensures s[..n] == s[..n - 1] + [s[n - 1]]
    ensures [c] + s[..n] == ([c] + s[..n - 1]) + [s[n - 1]]
  {
  }

  lemma Associates(a: string, b: string, c: string)
    ensures a + b + c == a + (b + c)
  {
  }

  lemma {:induction false} EncodePrefix(f: char -> string, c: char, s: string, n: nat)
    requires n <= |s|
    ensures Encode(f, [c] + s[..n]) == f(c) + Encode(f, s[..n])
  {
    if n == 0 {
      EncodeSnoc(f, [], c);
      assert [] + [c] == [c] + s[..0];
    } else {
      EncodePrefix(f, c, s, n - 1);
      MoveLast(c, s, n);
      EncodeSnoc(f, [c] + s[..n - 1], s[n - 1]);
      EncodeSnoc(f, s[..n - 1], s[n - 1]);
      Associates(f(c), Encode(f, s[..n - 1]), f(s[n - 1]));
    }
  }

  lemma EncodeCons(f: char -> string, c: char, s: string)
    ensures Encode(f, [c] + s) == f(c) + Encode(f, s)
  {
    EncodePrefix(f, c, s, |s|);
    assert s[..|s|] == s;
  }

  /** Every header name and value can be read back from its text. */
  lemma {:induction false} StringRoundTrip(s: string)
    ensures Unescape(Encode(EscapeChar, s)) == s
  {
    if |s| > 0 {
      assert s == [s[0]] + s[1..];
      EncodeCons(EscapeChar, s[0], s[1..]);
      EscapedIsRead(s[0], Encode(EscapeChar, s[1..]));
      StringRoundTrip(s[1..]);
    }
  }

  // ---- numbers and times ----

  /** The number a row of decimal digits stands for. */
  function Value(t: string): nat {
    if |t| == 0 then 0 else Value(t[..|t| - 1]) * 10 + HexValue(t[|t| - 1])
  }

  lemma ValueSnoc(t: string, n: nat)
    requires n < 10
    ensures Value(t + [HexDigit(n)]) == Value(t) * 10 + n
  {
    HexDigitValue(n);
    assert (t + [HexDigit(n)])[..|t|] == t;
  }

  /** The status code can be read back. */
  lemma {:induction false} DigitsRoundTrip(n: nat)
    ensures |Digits(n)| > 0 && Value(Digits(n)) == n
  {
    if n < 10 {
      ValueSnoc([], n);
      assert [] + [HexDigit(n)] == [HexDigit(n)];
    } else {
      DigitsRoundTrip(n / 10);
      ValueSnoc(Digits(n / 10), n % 10);
    }
  }

  function Power10(k: nat): nat {
    if k == 0 then 1 else 10 * Power10(k - 1)
  }

  lemma {:induction false} PadRoundTrip(n: nat, width: nat)
    requires width > 0
    ensures Value(Pad(n, width)) == n
    ensures n < Power10(width) ==> |Pad(n, width)| == width
    decreases width
  {
    if width == 1 {
      DigitsRoundTrip(n);
      assert Power10(1) == 10 * Power10(0) == 10;
    } else {
      PadRoundTrip(n / 10, width - 1);
      ValueSnoc(Pad(n / 10, width - 1), n % 10);
    }
  }

  lemma TimesTen(v: nat, p: nat)
    ensures v * (10 * p) == 10 * (v * p)
  {
  }

  /** A fraction holds the number to its last digit that is not 0; none is written for 0. */
  lemma {:induction false} FractionRoundTrip(n: nat, width: nat)
    requires 0 < width && n < Power10(width)
    ensures n == 0 ==> Fraction(n, width) == ""
    ensures n > 0 ==>
      var t := Fraction(n, width);
      1 < |t| <= width + 1 && t[0] == '.' && Value(t[1..]) * Power10(width + 1 - |t|) == n
    decreases width
  {
    if n > 0 && n % 10 == 0 && width > 1 {
      var t := Fraction(n / 10, width - 1);
      FractionRoundTrip(n / 10, width - 1);
      TimesTen(Value(t[1..]), Power10(width - |t|));
    } else if n > 0 {
      FractionEnds(n, width);
    }
  }

  lemma FractionEnds(n: nat, width: nat)
    requires 0 < width && 0 < n < Power10(width) && (n % 10 != 0 || width == 1)
    ensures var t := Fraction(n, width); |t| == width + 1 && t[0] == '.' && Value(t[1..]) * Power10(0) == n
  {
    PadRoundTrip(n, width);
    assert Fraction(n, width) == "." + Pad(n, width);
    assert ("." + Pad(n, width))[1..] == Pad(n, width);
  }

  /** A calendar time as Go's clock yields it. */
  predicate IsTime(t: Stamp) {
    t.year < 10000 && t.month < 100 && t.day < 100 && t.hour < 100 && t.minute < 100 && t.second < 100
  }

  /** A time's text is year-month-dayThour:minute:second in 4 and 2 digits each, then the fraction and Z. */
  lemma StampFields(t: Stamp)
    requires IsTime(t)
    ensures var text := StampText(t);
      && |text| == 20 + |Fraction(t.nano, 9)|
      && text[4] == '-' && text[7] == '-' && text[10] == 'T' && text[13] == ':' && text[16] == ':' && text[|text| - 1] == 'Z'
      && Value(text[..4]) == t.year && Value(text[5..7]) == t.month && Value(text[8..10]) == t.day
      && Value(text[11..13]) == t.hour && Value(text[14..16]) == t.minute && Value(text[17..19]) == t.second
      && text[19..|text| - 1] == Fraction(t.nano, 9)
  {
    assert Power10(1) == 10 && Power10(2) == 100 && Power10(3) == 1000 && Power10(4) == 10000;
    var y, mo, d := Pad(t.year, 4), Pad(t.month, 2), Pad(t.day, 2);
    var h, mi, s, f := Pad(t.hour, 2), Pad(t.minute, 2), Pad(t.second, 2), Fraction(t.nano, 9);
    PadRoundTrip(t.year, 4);
    PadRoundTrip(t.month, 2);
    PadRoundTrip(t.day, 2);
    PadRoundTrip(t.hour, 2);
    PadRoundTrip(t.minute, 2);
    PadRoundTrip(t.second, 2);
    Fields(y, mo, d, h, mi, s, f);
  }

  /** `text` begins with `a`, then `c`, then `b`. */
  predicate Begins(text: string, a: string, c: char, b: string) {
    && |a| + 1 + |b| <= |text| && text[..|a| + 1 + |b|] == a + [c] + b
  }

  lemma BeginsWith(text: string, a: string, c: char, b: string)
    requires Begins(text, a, c, b)
    ensures text[..|a|] == a && text[|a|] == c && text[|a| + 1..|a| + 1 + |b|] == b
  {
    var t := a + [c] + b;
    assert t[..|a|] == a && t[|a|] == c && t[|a| + 1..] == b;
    assert text[..|a|] == text[..|t|][..|a|];
    assert text[|a|] == text[..|t|][|a|];
    assert text[|a| + 1..|t|] == text[..|t|][|a| + 1..];
  }

  lemma Fields(y: string, mo: string, d: string, h: string, mi: string, s: string, f: string)
    requires |y| == 4 && |mo| == |d| == |h| == |mi| == |s| == 2
    ensures var text := y + "-" + mo + "-" + d + "T" + h + ":" + mi + ":" + s + f + "Z";
      && |text| == 20 + |f|
      && text[4] == '-' && text[7] == '-' && text[10] == 'T' && text[13] == ':' && text[16] == ':' && text[|text| - 1] == 'Z'
      && text[..4] == y && text[5..7] == mo && text[8..10] == d && text[11..13] == h && text[14..16] == mi
      && text[17..19] == s && text[19..|text| - 1] == f
  {
    var a := y + "-" + mo;
    var b := a + "-" + d;
    var c := b + "T" + h;
    var e := c + ":" + mi;
    var g := e + ":" + s;
    var text := g + f + "Z";
    assert text[..19] == g && text[19..|text| - 1] == f && text[|text| - 1] == 'Z';
    BeginsWith(text, e, ':', s);
    BeginsWith(text, c, ':', mi);
    BeginsWith(text, b, 'T', h);
    BeginsWith(text, a, '-', d);
    BeginsWith(text, y, '-', mo);
  }

  // ---- the layout of the text ----

  /** `"name":"value"` */
  function Pair(name: string, value: string): string {
    ['"'] + name + ['"', ':', '"'] + value + ['"']
  }

  predicate PlainChar(c: char) {
    'a' <= c <= 'z' || 'A' <= c <= 'Z' || '-' <= c <= ':' || c == '+' || c == '=' || c == '_'
  }

  predicate IsPlain(s: string) {
    forall i | 0 <= i < |s| :: PlainChar(s[i])
  }

  lemma PlainCharAsIs(c: char)
    requires PlainChar(c)
    ensures EscapeChar(c) == [c]
  {
  }

  lemma {:induction false} PlainIsWrittenAsIs(s: string)
    requires IsPlain(s)
    ensures Encode(EscapeChar, s) == s
  {
    if |s| > 0 {
      PlainIsWrittenAsIs(s[..|s| - 1]);
      PlainCharAsIs(s[|s| - 1]);
    }
  }

  lemma PlainOn(a: string, b: string)
    requires IsPlain(a) && IsPlain(b)
    ensures IsPlain(a + b)
  {
  }

  lemma {:induction false} DigitsArePlain(n: nat)
    ensures IsPlain(Digits(n))
  {
    HexDigitValue(n % 10);
    if n >= 10 {
      DigitsArePlain(n / 10);
    }
  }

  lemma {:induction false} PadIsPlain(n: nat, width: nat)
    ensures IsPlain(Pad(n, width))
  {
    DigitsArePlain(n);
    HexDigitValue(n % 10);
    if width > 1 {
      PadIsPlain(n / 10, width - 1);
    }
  }

  lemma {:induction false} FractionIsPlain(n: nat, width: nat)
    ensures IsPlain(Fraction(n, width))
  {
    PadIsPlain(n, width);
    if n != 0 && n % 10 == 0 && width > 1 {
      FractionIsPlain(n / 10, width - 1);
    }
  }

  lemma StampIsPlain(t: Stamp)
    ensures IsPlain(StampText(t))
  {
    PadIsPlain(t.year, 4);
    PadIsPlain(t.month, 2);
    PadIsPlain(t.day, 2);
    PadIsPlain(t.hour, 2);
    PadIsPlain(t.minute, 2);
    PadIsPlain(t.second, 2);
    FractionIsPlain(t.nano, 9);
    TimeIsPlain(Pad(t.year, 4), Pad(t.month, 2), Pad(t.day, 2), Pad(t.hour, 2), Pad(t.minute, 2), Pad(t.second, 2),
                Fraction(t.nano, 9));
  }

  lemma SeparatedIsPlain(a: string, c: char, b: string)
    requires IsPlain(a) && PlainChar(c) && IsPlain(b)
    ensures IsPlain(a + [c] + b)
  {
  }

  lemma TimeIsPlain(y: string, mo: string, d: string, h: string, mi: string, s: string, f: string)
    requires IsPlain(y) && IsPlain(mo) && IsPlain(d) && IsPlain(h) && IsPlain(mi) && IsPlain(s) && IsPlain(f)
    ensures IsPlain(y + "-" + mo + "-" + d + "T" + h + ":" + mi + ":" + s + f + "Z")
  {
    var a := y + "-" + mo;
    SeparatedIsPlain(y, '-', mo);
    var b := a + "-" + d;
    SeparatedIsPlain(a, '-', d);
    var c := b + "T" + h;
    SeparatedIsPlain(b, 'T', h);
    var e := c + ":" + mi;
    SeparatedIsPlain(c, ':', mi);
    var g := e + ":" + s;
    SeparatedIsPlain(e, ':', s);
    PlainOn(g, f);
    SeparatedIsPlain(g + f, 'Z', []);
    assert g + f + ['Z'] + [] == g + f + "Z";
  }

  lemma {:induction false} HexIsPlain(b: seq<Byte>)
    ensures IsPlain(HexText(b))
  {
    if |b| > 0 {
      HexIsPlain(b[..|b| - 1]);
      HexDigitIsPlain(b[|b| - 1] / 16);
      HexDigitIsPlain(b[|b| - 1] % 16);
    }
  }

  lemma HexDigitIsPlain(n: nat)
    requires n < 16
    ensures PlainChar(HexDigit(n))
  {
  }

  lemma Base64CharIsPlain(n: nat)
    requires n < 64
    ensures PlainChar(Base64Char(n))
  {
  }

  lemma {:induction false} Base64IsPlain(b: seq<Byte>)
    ensures IsPlain(Base64(b))
  {
    forall n: nat | n < 64
      ensures PlainChar(Base64Char(n))
    {
      Base64CharIsPlain(n);
    }
    if |b| > 2 {
      Base64IsPlain(b[3..]);
    }
  }

  // ---- rendering ----

  lemma RenderOne(f: char -> string, p: Piece)
    ensures Render(f, [p]) == PieceText(f, p)
  {
    assert [p][1..] == [];
  }

  lemma {:induction false} RenderOn(f: char -> string, a: seq<Piece>, b: seq<Piece>)
    ensures Render(f, a + b) == Render(f, a) + Render(f, b)
  {
    if |a| == 0 {
      assert a + b == b;
    } else {
      assert (a + b)[1..] == a[1..] + b;
      RenderOn(f, a[1..], b);
    }
  }

  lemma TwoPieces(f: char -> string, name: string, after: string)
    ensures Render(f, [Quoted(name), Punct(after)]) == InQuotes(Encode(f, name)) + after
  {
    var n, a := Quoted(name), Punct(after);
    assert [n, a] == [n] + [a];
    RenderOn(f, [n], [a]);
    RenderOne(f, n);
    RenderOne(f, a);
  }

  lemma PairText(n: string, v: string, after: string)
    ensures InQuotes(n) + ":" + (InQuotes(v) + after) == Pair(n, v) + after
  {
  }

  lemma MemberText(name: string, value: string, after: string)
    ensures Render(EscapeChar, Member(name, value, after)) == Pair(Encode(EscapeChar, name), Encode(EscapeChar, value)) + after
  {
    assert Member(name, value, after) == [Quoted(name), Punct(":")] + [Quoted(value), Punct(after)];
    RenderOn(EscapeChar, [Quoted(name), Punct(":")], [Quoted(value), Punct(after)]);
    TwoPieces(EscapeChar, name, ":");
    TwoPieces(EscapeChar, value, after);
    PairText(Encode(EscapeChar, name), Encode(EscapeChar, value), after);
  }

  /** The header object's members, in the given order. */
  function HeadersText(headers: map<string, string>, order: seq<string>): string
    requires forall k | k in order :: k in headers
  {
    if |order| == 0 then ""
    else
      Pair(Encode(EscapeChar, order[0]), Encode(EscapeChar, headers[order[0]]))
      + (if |order| == 1 then "}" else ",") + HeadersText(headers, order[1..])
  }

  lemma {:induction false} HeaderPiecesText(headers: map<string, string>, order: seq<string>)
    requires forall k | k in order :: k in headers
    ensures Render(EscapeChar, HeaderPieces(headers, order)) == HeadersText(headers, order)
  {
    if |order| > 0 {
      var after := if |order| == 1 then "}" else ",";
      MemberText(order[0], headers[order[0]], after);
      HeaderPiecesText(headers, order[1..]);
      RenderOn(EscapeChar, Member(order[0], headers[order[0]], after), HeaderPieces(headers, order[1..]));
    }
  }

  lemma NamesArePlain()
    ensures IsPlain("state") && IsPlain("IN_FLIGHT") && IsPlain("COMPLETED") && IsPlain("request_hash")
    ensures IsPlain("status_code") && IsPlain("headers") && IsPlain("body")
    ensures IsPlain("created_at") && IsPlain("expires_at")
  {
  }

  lemma PlainMemberText(name: string, value: string, after: string)
    requires IsPlain(name) && IsPlain(value)
    ensures Render(EscapeChar, Member(name, value, after)) == Pair(name, value) + after
  {
    MemberText(name, value, after);
    PlainIsWrittenAsIs(name);
    PlainIsWrittenAsIs(value);
  }

  lemma HeadText(rec: Record)
    ensures Render(EscapeChar, FixedHead(rec)) ==
      "{" + (Pair("state", if rec.state == InFlight then "IN_FLIGHT" else "COMPLETED") + ","
             + (Pair("request_hash", HexText(rec.requestHash)) + ","))
  {
    var a, b := Member("state", StateText(rec.state), ","), Member("request_hash", HexText(rec.requestHash), ",");
    NamesArePlain();
    HexIsPlain(rec.requestHash);
    PlainMemberText("state", StateText(rec.state), ",");
    PlainMemberText("request_hash", HexText(rec.requestHash), ",");
    RenderOn(EscapeChar, [Punct("{")], a + b);
    RenderOn(EscapeChar, a, b);
    RenderOne(EscapeChar, Punct("{"));
  }

  lemma StatusText(rec: Record)
    ensures Render(EscapeChar, StatusPieces(rec)) ==
      if rec.statusCode == 0 then "" else InQuotes("status_code") + (":" + Digits(rec.statusCode) + ",")
  {
    var after := ":" + Digits(rec.statusCode) + ",";
    NamesArePlain();
    PlainIsWrittenAsIs("status_code");
    TwoPieces(EscapeChar, "status_code", after);
  }

  lemma HeadersMemberText(rec: Record, order: seq<string>)
    requires forall k | k in order :: k in rec.headers
    ensures Render(EscapeChar, HeadersMember(rec, order)) ==
      if |order| == 0 then "" else InQuotes("headers") + ":{" + HeadersText(rec.headers, order) + ","
  {
    if |order| > 0 {
      var open, ps := [Quoted("headers"), Punct(":{")], HeaderPieces(rec.headers, order);
      NamesArePlain();
      PlainIsWrittenAsIs("headers");
      TwoPieces(EscapeChar, "headers", ":{");
      HeaderPiecesText(rec.headers, order);
      RenderOn(EscapeChar, open, ps);
      RenderOn(EscapeChar, open + ps, [Punct(",")]);
      RenderOne(EscapeChar, Punct(","));
    }
  }

  lemma BodyText(rec: Record)
    ensures Render(EscapeChar, BodyPieces(rec)) == if |rec.body| == 0 then "" else Pair("body", Base64(rec.body)) + ","
  {
    NamesArePlain();
    Base64IsPlain(rec.body);
    PlainMemberText("body", Base64(rec.body), ",");
  }

  lemma TailText(rec: Record)
    ensures Render(EscapeChar, FixedTail(rec)) ==
      Pair("created_at", StampText(rec.createdAt)) + "," + (Pair("expires_at", StampText(rec.expiresAt)) + "}")
  {
    var a, b := Member("created_at", StampText(rec.createdAt), ","), Member("expires_at", StampText(rec.expiresAt), "}");
    NamesArePlain();
    StampIsPlain(rec.createdAt);
    StampIsPlain(rec.expiresAt);
    PlainMemberText("created_at", StampText(rec.createdAt), ",");
    PlainMemberText("expires_at", StampText(rec.expiresAt), "}");
    RenderOn(EscapeChar, a, b);
  }

  /** The stored text, member by member: empty status, headers and body are left out. */
  lemma MarshalLayout(rec: Record, order: seq<string>)
    requires forall k | k in order :: k in rec.headers
    ensures Marshal(rec, order) ==
      "{" + (Pair("state", if rec.state == InFlight then "IN_FLIGHT" else "COMPLETED") + ","
             + (Pair("request_hash", HexText(rec.requestHash)) + ","))
      + (if rec.statusCode == 0 then "" else InQuotes("status_code") + (":" + Digits(rec.statusCode) + ","))
      + (if |order| == 0 then "" else InQuotes("headers") + ":{" + HeadersText(rec.headers, order) + ",")
      + (if |rec.body| == 0 then "" else Pair("body", Base64(rec.body)) + ",")
      + (Pair("created_at", StampText(rec.createdAt)) + "," + (Pair("expires_at", StampText(rec.expiresAt)) + "}"))
  {
    var f, h, s, hs, b, t := EscapeChar, FixedHead(rec), StatusPieces(rec), HeadersMember(rec, order), BodyPieces(rec), FixedTail(rec);
    RenderOn(f, h + s + hs + b, t);
    RenderOn(f, h + s + hs, b);
    RenderOn(f, h + s, hs);
    RenderOn(f, h, s);
    HeadText(rec);
    StatusText(rec);
    HeadersMemberText(rec, order);
    BodyText(rec);
    TailText(rec);
  }
}
