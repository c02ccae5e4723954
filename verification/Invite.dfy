/** Invite links (client/frontend/src/components/HelloWorld.vue): a server and a room name written
    into a link and read back. Percent-encoding as in section 2.1 of RFC 3986, form parsing as in
    section 5.1 of the WHATWG URL Standard, UTF-8 decoding as in the WHATWG Encoding Standard. Texts
    are sequences of Unicode scalar values. */
module Invite {
  import opened Frames
  import opened Options

  // ---------------------------------------------------------------- UTF-8

  function Utf8Char(c: char): seq<byte> {
    var n := c as int;
    if n < 0x80 then [n]
    else if n < 0x800 then [0xC0 + n / 0x40, 0x80 + n % 0x40]
    else if n < 0x1_0000 then [0xE0 + n / 0x1000, 0x80 + n / 0x40 % 0x40, 0x80 + n % 0x40]
    else [0xF0 + n / 0x4_0000, 0x80 + n / 0x1000 % 0x40, 0x80 + n / 0x40 % 0x40, 0x80 + n % 0x40]
  }

  function Utf8(s: string): seq<byte> {
    if |s| == 0 then [] else Utf8Char(s[0]) + Utf8(s[1..])
  }

  lemma Assoc<T>(a: seq<T>, b: seq<T>, c: seq<T>)
    ensures a + b + c == a + (b + c)
  {
  }

  lemma Utf8Cons(c: char, s: string)
    ensures Utf8([c] + s) == Utf8Char(c) + Utf8(s)
  {
    assert ([c] + s)[1..] == s;
  }

  lemma {:induction false} Utf8Append(a: string, b: string)
    ensures Utf8(a + b) == Utf8(a) + Utf8(b)
    decreases |a|
  {
    if |a| == 0 {
      assert a + b == b;
    } else {
      var c, rest := a[0], a[1..];
      Utf8Append(rest, b);
      assert a + b == [c] + (rest + b);
      Utf8Cons(c, rest + b);
      Assoc(Utf8Char(c), Utf8(rest), Utf8(b));
    }
  }

  const REPLACEMENT: char := '\U{FFFD}'

  function Scalar(n: int): char {
    if 0 <= n < 0xD800 || 0xE000 <= n < 0x11_0000 then n as char else REPLACEMENT
  }

  /** The decoder between two bytes: how many are still needed, the bits so far, and the range the
      next byte must be in. */
  datatype Decoder = Decoder(needed: nat, bits: int, lower: byte, upper: byte)

  const IDLE := Decoder(0, 0, 0x80, 0xBF)

  function Lead(b: byte): Option<Decoder> {
    if 0xC2 <= b <= 0xDF then Some(Decoder(1, b - 0xC0, 0x80, 0xBF))
    else if 0xE0 <= b <= 0xEF then
      Some(Decoder(2, b - 0xE0, if b == 0xE0 then 0xA0 else 0x80, if b == 0xED then 0x9F else 0xBF))
    else if 0xF0 <= b <= 0xF4 then
      Some(Decoder(3, b - 0xF0, if b == 0xF0 then 0x90 else 0x80, if b == 0xF4 then 0x8F else 0xBF))
    else None
  }

  /** Six more bits. */
  function Bits(bits: int, b: int): int {
    bits * 0x40 + b - 0x80
  }

  /** The standard's decoder, with errors replaced and the byte that broke a sequence read again. */
  function Utf8Decode(b: seq<byte>, d: Decoder): string
    decreases |b|, d.needed
  {
    if |b| == 0 then if d.needed == 0 then "" else [REPLACEMENT]
    else if d.needed == 0 then
      if b[0] < 0x80 then [b[0] as char] + Utf8Decode(b[1..], IDLE)
      else match Lead(b[0])
        case None => [REPLACEMENT] + Utf8Decode(b[1..], IDLE)
        case Some(next) => Utf8Decode(b[1..], next)
    else if !(d.lower <= b[0] <= d.upper) then [REPLACEMENT] + Utf8Decode(b, IDLE)
    else
      var bits := Bits(d.bits, b[0]);
      if d.needed == 1 then [Scalar(bits)] + Utf8Decode(b[1..], IDLE)
      else Utf8Decode(b[1..], Decoder(d.needed - 1, bits, 0x80, 0xBF))
  }

  lemma LeadStep(x: byte, rest: seq<byte>)
    requires x >= 0x80 && Lead(x).Some?
    ensures Utf8Decode([x] + rest, IDLE) == Utf8Decode(rest, Lead(x).value)
  {
    assert ([x] + rest)[1..] == rest;
  }

  lemma NextStep(x: byte, rest: seq<byte>, d: Decoder)
    requires d.needed > 0 && d.lower <= x <= d.upper
    ensures Utf8Decode([x] + rest, d) ==
            if d.needed == 1 then [Scalar(Bits(d.bits, x))] + Utf8Decode(rest, IDLE)
            else Utf8Decode(rest, Decoder(d.needed - 1, Bits(d.bits, x), 0x80, 0xBF))
  {
    assert ([x] + rest)[1..] == rest;
  }

  lemma OneByOne<T>(a: T, b: T, c: T, d: T, rest: seq<T>)
    ensures [a, b, c, d] + rest == [a] + ([b] + ([c] + ([d] + rest)))
    ensures [a, b, c] + rest == [a] + ([b] + ([c] + rest))
    ensures [a, b] + rest == [a] + ([b] + rest)
  {
  }

  lemma LastTwo(y: byte, z: byte, rest: seq<byte>, d: Decoder)
    requires d.needed == 2 && d.lower <= y <= d.upper && 0x80 <= z <= 0xBF
    ensures Utf8Decode([y] + ([z] + rest), d) == [Scalar(Bits(Bits(d.bits, y), z))] + Utf8Decode(rest, IDLE)
  {
    NextStep(y, [z] + rest, d);
    NextStep(z, rest, Decoder(1, Bits(d.bits, y), 0x80, 0xBF));
  }

  lemma LastThree(x: byte, y: byte, z: byte, rest: seq<byte>, d: Decoder)
    requires d.needed == 3 && d.lower <= x <= d.upper && 0x80 <= y <= 0xBF && 0x80 <= z <= 0xBF
    ensures Utf8Decode([x] + ([y] + ([z] + rest)), d)
         == [Scalar(Bits(Bits(Bits(d.bits, x), y), z))] + Utf8Decode(rest, IDLE)
  {
    NextStep(x, [y] + ([z] + rest), d);
    LastTwo(y, z, rest, Decoder(2, Bits(d.bits, x), 0x80, 0xBF));
  }

  lemma DecodeTwo(x: int, y: int, rest: seq<byte>)
    requires 2 <= x < 0x20 && 0 <= y < 0x40
    ensures Utf8Decode([0xC0 + x, 0x80 + y] + rest, IDLE) == [(0x40 * x + y) as char] + Utf8Decode(rest, IDLE)
  {
    OneByOne(0xC0 + x, 0x80 + y, 0, 0, rest);
    LeadStep(0xC0 + x, [0x80 + y] + rest);
    NextStep(0x80 + y, rest, Lead(0xC0 + x).value);
  }

  lemma DecodeThree(x: int, y: int, z: int, rest: seq<byte>)
    requires 0 <= x < 0x10 && 0 <= y < 0x40 && 0 <= z < 0x40
    requires (x == 0 ==> y >= 0x20) && (x == 0xD ==> y < 0x20)
    ensures Utf8Decode([0xE0 + x, 0x80 + y, 0x80 + z] + rest, IDLE)
         == [(0x1000 * x + 0x40 * y + z) as char] + Utf8Decode(rest, IDLE)
  {
    OneByOne(0xE0 + x, 0x80 + y, 0x80 + z, 0, rest);
    LeadStep(0xE0 + x, [0x80 + y] + ([0x80 + z] + rest));
    LeadOfThree(x, y);
    LastTwo(0x80 + y, 0x80 + z, rest, Lead(0xE0 + x).value);
    ThreeBits(x, y, z);
  }

  lemma LeadOfThree(x: int, y: int)
    requires 0 <= x < 0x10 && 0 <= y < 0x40 && (x == 0 ==> y >= 0x20) && (x == 0xD ==> y < 0x20)
    ensures Lead(0xE0 + x).Some?
    ensures var d := Lead(0xE0 + x).value; d.needed == 2 && d.bits == x && d.lower <= 0x80 + y <= d.upper
  {
  }

  lemma ThreeBits(x: int, y: int, z: int)
    requires 0 <= x < 0x10 && 0 <= y < 0x40 && 0 <= z < 0x40 && (x == 0xD ==> y < 0x20)
    ensures Scalar(Bits(Bits(x, 0x80 + y), 0x80 + z)) == (0x1000 * x + 0x40 * y + z) as char
  {
  }

  lemma DecodeFour(w: int, x: int, y: int, z: int, rest: seq<byte>)
    requires 0 <= w < 5 && 0 <= x < 0x40 && 0 <= y < 0x40 && 0 <= z < 0x40
    requires (w == 0 ==> x >= 0x10) && (w == 4 ==> x < 0x10)
    ensures Utf8Decode([0xF0 + w, 0x80 + x, 0x80 + y, 0x80 + z] + rest, IDLE)
         == [(0x4_0000 * w + 0x1000 * x + 0x40 * y + z) as char] + Utf8Decode(rest, IDLE)
  {
    OneByOne(0xF0 + w, 0x80 + x, 0x80 + y, 0x80 + z, rest);
    LeadStep(0xF0 + w, [0x80 + x] + ([0x80 + y] + ([0x80 + z] + rest)));
    LastThree(0x80 + x, 0x80 + y, 0x80 + z, rest, Lead(0xF0 + w).value);
  }

  lemma Sextets(n: int)
    requires 0x800 <= n < 0xD800 || 0xE000 <= n < 0x11_0000
    ensures var v, w, x, y, z := n / 0x4_0000, n / 0x1000, n / 0x1000 % 0x40, n / 0x40 % 0x40, n % 0x40;
            && n == 0x1000 * w + 0x40 * y + z == 0x4_0000 * v + 0x1000 * x + 0x40 * y + z
            && (n < 0x1_0000 ==> w < 0x10 && (w == 0 ==> y >= 0x20) && (w == 0xD ==> y < 0x20))
            && (n >= 0x1_0000 ==> v < 5 && (v == 0 ==> x >= 0x10) && (v == 4 ==> x < 0x10))
  {
    var w, m := n / 0x1000, n / 0x40;
    assert m / 0x40 == w && w / 0x40 == n / 0x4_0000;
  }

  lemma DecodeChar(c: char, rest: seq<byte>)
    ensures Utf8Decode(Utf8Char(c) + rest, IDLE) == [c] + Utf8Decode(rest, IDLE)
  {
    var n := c as int;
    if n < 0x80 {
      assert ([n] + rest)[1..] == rest;
    } else if n < 0x800 {
      DecodeTwo(n / 0x40, n % 0x40, rest);
    } else {
      Sextets(n);
      if n < 0x1_0000 {
        DecodeThree(n / 0x1000, n / 0x40 % 0x40, n % 0x40, rest);
      } else {
        DecodeFour(n / 0x4_0000, n / 0x1000 % 0x40, n / 0x40 % 0x40, n % 0x40, rest);
      }
    }
  }

  /** Decoding undoes encoding, for every text. */
  lemma {:induction false} Utf8RoundTrip(s: string)
    ensures Utf8Decode(Utf8(s), IDLE) == s
    decreases |s|
  {
    if |s| > 0 {
      DecodeChar(s[0], Utf8(s[1..]));
      Utf8RoundTrip(s[1..]);
    }
  }

  // ---------------------------------------------------------------- percent-encoding

  predicate Unreserved(c: char) {
    'A' <= c <= 'Z' || 'a' <= c <= 'z' || '0' <= c <= '9' || c in "-_.!~*'()"
  }

  function HexDigit(n: int): char
    requires 0 <= n < 16
  {
    if n < 10 then ('0' as int + n) as char else ('A' as int + n - 10) as char
  }

  function Percented(b: seq<byte>): string {
    if |b| == 0 then "" else ['%', HexDigit(b[0] / 16), HexDigit(b[0] % 16)] + Percented(b[1..])
  }

  /** encodeURIComponent. */
  function EncodeComponent(s: string): string {
    if |s| == 0 then ""
    else (if Unreserved(s[0]) then [s[0]] else Percented(Utf8Char(s[0]))) + EncodeComponent(s[1..])
  }

  const PERCENT: byte := 0x25
  const AMPERSAND: byte := 0x26
  const PLUS: byte := 0x2B
  const EQUALS: byte := 0x3D
  const SPACE: byte := 0x20

  function HexValue(b: byte): Option<int> {
    if 0x30 <= b <= 0x39 then Some(b - 0x30)
    else if 0x41 <= b <= 0x46 then Some(b - 0x41 + 10)
    else if 0x61 <= b <= 0x66 then Some(b - 0x61 + 10)
    else None
  }

  function PercentDecode(b: seq<byte>): seq<byte> {
    if |b| == 0 then []
    else if b[0] == PERCENT && |b| >= 3 && HexValue(b[1]).Some? && HexValue(b[2]).Some? then
      [16 * HexValue(b[1]).value + HexValue(b[2]).value] + PercentDecode(b[3..])
    else [b[0]] + PercentDecode(b[1..])
  }

  /** Printable, and no separator of a form. */
  predicate Safe(c: char) {
    '!' <= c <= '~' && c != '&' && c != '=' && c != '+'
  }

  predicate SafeText(s: string) {
    forall i :: 0 <= i < |s| ==> Safe(s[i])
  }

  // ---------------------------------------------------------------- the encoded text itself

  lemma {:induction false} EncodedInParts(s: string, tail: string)
    ensures EncodeComponent(s + tail) == EncodeComponent(s) + EncodeComponent(tail)
    decreases |s|
  {
    if |s| == 0 {
      assert s + tail == tail;
    } else {
      assert (s + tail)[0] == s[0] && (s + tail)[1..] == s[1..] + tail;
      EncodedInParts(s[1..], tail);
    }
  }

  lemma {:induction false} PercentedText(b: seq<byte>, i: nat)
    requires i < |b|
    ensures |Percented(b)| == 3 * |b| && Percented(b)[3 * i] == '%'
    ensures Percented(b)[3 * i + 1] == "0123456789ABCDEF"[b[i] / 16]
    ensures Percented(b)[3 * i + 2] == "0123456789ABCDEF"[b[i] % 16]
    decreases |b|
  {
    if i > 0 {
      PercentedText(b[1..], i - 1);
    } else if |b| > 1 {
      PercentedText(b[1..], 0);
    }
  }

  /** A text is encoded character by character (EncodedInParts); letters, digits and -_.!~*'() stay, and each
      byte of any other character's UTF-8 becomes a percent sign and two upper-case hexadecimal digits. */
  lemma EncodedText(c: char, i: nat)
    ensures var kept := 'A' <= c <= 'Z' || 'a' <= c <= 'z' || '0' <= c <= '9' || c in "-_.!~*'()";
            && (kept ==> EncodeComponent([c]) == [c])
            && (!kept ==> |EncodeComponent([c])| == 3 * |Utf8Char(c)|)
            && (!kept && i < |Utf8Char(c)| ==>
                  && EncodeComponent([c])[3 * i] == '%'
                  && EncodeComponent([c])[3 * i + 1] == "0123456789ABCDEF"[Utf8Char(c)[i] / 16]
                  && EncodeComponent([c])[3 * i + 2] == "0123456789ABCDEF"[Utf8Char(c)[i] % 16])
  {
    assert EncodeComponent([c]) == (if Unreserved(c) then [c] else Percented(Utf8Char(c))) + "" by {
      assert [c][1..] == "";
    }
    PercentedText(Utf8Char(c), if i < |Utf8Char(c)| then i else 0);
  }

  lemma {:induction false} PercentedSafe(b: seq<byte>)
    ensures SafeText(Percented(b))
    decreases |b|
  {
    if |b| > 0 {
      PercentedSafe(b[1..]);
    }
  }

  lemma {:induction false} EncodedSafe(s: string)
    ensures SafeText(EncodeComponent(s))
    ensures |EncodeComponent(s)| == 0 <==> |s| == 0
    decreases |s|
  {
    if |s| > 0 {
      PercentedSafe(Utf8Char(s[0]));
      EncodedSafe(s[1..]);
    }
  }

  lemma HexReads(n: int)
    requires 0 <= n < 16
    ensures HexDigit(n) < '\U{80}' && HexValue(HexDigit(n) as int) == Some(n)
  {
  }

  lemma TripleBytes(hi: char, lo: char, tail: string)
    requires hi < '\U{80}' && lo < '\U{80}'
    ensures Utf8(['%', hi, lo] + tail) == [PERCENT, hi as int, lo as int] + Utf8(tail)
  {
    OneByOne('%', hi, lo, lo, tail);
    Utf8Cons('%', [hi] + ([lo] + tail));
    Utf8Cons(hi, [lo] + tail);
    Utf8Cons(lo, tail);
    OneByOne(PERCENT, hi as int, lo as int, 0, Utf8(tail));
  }

  lemma PercentStep(x: byte, rest: seq<byte>)
    ensures PercentDecode([PERCENT, HexDigit(x / 16) as int, HexDigit(x % 16) as int] + rest)
         == [x] + PercentDecode(rest)
  {
    HexReads(x / 16);
    HexReads(x % 16);
    var b := [PERCENT, HexDigit(x / 16) as int, HexDigit(x % 16) as int] + rest;
    assert b[3..] == rest;
  }

  /** Escapes are read in either case; a percent sign that begins none stands for itself. */
  lemma EitherCase(x: byte, y: byte, rest: seq<byte>)
    ensures var hex := "0123456789abcdef";
            PercentDecode([PERCENT, hex[x / 16] as int, hex[x % 16] as int] + rest) == [x] + PercentDecode(rest)
    ensures HexValue(y).Some? <==>
            '0' as int <= y <= '9' as int || 'A' as int <= y <= 'F' as int || 'a' as int <= y <= 'f' as int
    ensures HexValue(y) == None ==> PercentDecode(['%' as int, y] + rest) == ['%' as int] + PercentDecode([y] + rest)
  {
    var hi, lo := "0123456789abcdef"[x / 16], "0123456789abcdef"[x % 16];
    var b := [PERCENT, hi as int, lo as int] + rest;
    assert b[3..] == rest;
    assert HexValue(hi as int) == Some(x / 16) && HexValue(lo as int) == Some(x % 16);
    assert (['%' as int, y] + rest)[1..] == [y] + rest;
  }

  lemma {:induction false} PercentedDecodes(b: seq<byte>, rest: seq<byte>)
    ensures PercentDecode(Utf8(Percented(b)) + rest) == b + PercentDecode(rest)
    decreases |b|
  {
    if |b| == 0 {
      assert [] + rest == rest;
    } else {
      var hi, lo, tail := HexDigit(b[0] / 16), HexDigit(b[0] % 16), Percented(b[1..]);
      HexReads(b[0] / 16);
      HexReads(b[0] % 16);
      TripleBytes(hi, lo, tail);
      Assoc([PERCENT, hi as int, lo as int], Utf8(tail), rest);
      PercentStep(b[0], Utf8(tail) + rest);
      PercentedDecodes(b[1..], rest);
      Assoc([b[0]], b[1..], PercentDecode(rest));
      assert [b[0]] + b[1..] == b;
    }
  }

  lemma UnreservedStep(c: char, tail: string)
    requires Unreserved(c)
    ensures PercentDecode(Utf8([c] + tail)) == Utf8Char(c) + PercentDecode(Utf8(tail))
  {
    Utf8Cons(c, tail);
    assert c != '%' && Utf8Char(c) == [c as int];
    assert ([c as int] + Utf8(tail))[1..] == Utf8(tail);
  }

  /** Percent-decoding an encoded text gives its UTF-8 bytes. */
  lemma {:induction false} ComponentDecodes(s: string)
    ensures PercentDecode(Utf8(EncodeComponent(s))) == Utf8(s)
    decreases |s|
  {
    if |s| > 0 {
      var tail := EncodeComponent(s[1..]);
      ComponentDecodes(s[1..]);
      if Unreserved(s[0]) {
        UnreservedStep(s[0], tail);
      } else {
        Utf8Append(Percented(Utf8Char(s[0])), tail);
        PercentedDecodes(Utf8Char(s[0]), Utf8(tail));
      }
    }
  }

  // ---------------------------------------------------------------- form parsing

  /** The first position of x, or the length. */
  function Find(b: seq<byte>, x: byte): (i: nat)
    ensures i <= |b| && x !in b[..i] && (i < |b| ==> b[i] == x)
  {
    if |b| == 0 || b[0] == x then 0 else 1 + Find(b[1..], x)
  }

  function Spaces(b: seq<byte>): (r: seq<byte>)
    ensures |r| == |b| && forall i :: 0 <= i < |r| ==> r[i] == if b[i] == '+' as int then ' ' as int else b[i]
  {
    if |b| == 0 then [] else [if b[0] == PLUS then SPACE else b[0]] + Spaces(b[1..])
  }

  function DecodeField(b: seq<byte>): string {
    Utf8Decode(PercentDecode(Spaces(b)), IDLE)
  }

  /** One name=value field; a field without '=' has an empty value. */
  function Field(b: seq<byte>): (string, string) {
    var i := Find(b, EQUALS);
    (DecodeField(b[..i]), if i < |b| then DecodeField(b[i + 1..]) else "")
  }

  /** The application/x-www-form-urlencoded parser. */
  function ParseForm(b: seq<byte>): seq<(string, string)> {
    if |b| == 0 then []
    else
      var i := Find(b, AMPERSAND);
      (if i == 0 then [] else [Field(b[..i])]) + if i < |b| then ParseForm(b[i + 1..]) else []
  }

  /** URLSearchParams.get: the value of the first pair with the name. */
  function GetParam(pairs: seq<(string, string)>, name: string): Option<string> {
    if |pairs| == 0 then None
    else if pairs[0].0 == name then Some(pairs[0].1)
    else GetParam(pairs[1..], name)
  }

  function SearchParams(query: string): seq<(string, string)> {
    ParseForm(Utf8(if |query| > 0 && query[0] == '?' then query[1..] else query))
  }

  // ---------------------------------------------------------------- links

  const PREFIX := "netbridge://join?"

  function BuildInvite(server: string, room: string): string {
    PREFIX + "s=" + EncodeComponent(server) + "&r=" + EncodeComponent(room)
  }

  predicate LineTerminator(c: char) {
    c in "\n\r" || c == '\U{2028}' || c == '\U{2029}'
  }

  /** What trim removes (sections 12.2 and 12.3 of ECMA-262). */
  predicate Blank(c: char) {
    LineTerminator(c) || c in "\t\U{B}\U{C} " || c == '\U{A0}' || c == '\U{FEFF}' || c == '\U{1680}'
    || '\U{2000}' <= c <= '\U{200A}' || c == '\U{202F}' || c == '\U{205F}' || c == '\U{3000}'
  }

  function TrimStart(s: string): string {
    if |s| > 0 && Blank(s[0]) then TrimStart(s[1..]) else s
  }

  function TrimEnd(s: string): string {
    if |s| > 0 && Blank(s[|s| - 1]) then TrimEnd(s[..|s| - 1]) else s
  }

  datatype Target = Target(server: string, room: string)

  /** Trim, match the prefix and one line of anything, parse it as a form, and want both names. */
  function ParseInvite(text: string): Option<Target> {
    var t := TrimEnd(TrimStart(text));
    if !(PREFIX <= t) || exists i :: |PREFIX| <= i < |t| && LineTerminator(t[i]) then None
    else
      var params := SearchParams(t[|PREFIX|..]);
      var server, room := GetParam(params, "s"), GetParam(params, "r");
      if server == None || room == None || server.value == "" || room.value == "" then None
      else Some(Target(server.value, room.value))
  }

  // ---------------------------------------------------------------- the round trip

  lemma {:induction false} SafeBytes(s: string)
    requires SafeText(s)
    ensures |Utf8(s)| == |s| && forall i :: 0 <= i < |s| ==> Utf8(s)[i] == s[i] as int
    decreases |s|
  {
    if |s| > 0 {
      SafeBytes(s[1..]);
    }
  }

  lemma FindIs(b: seq<byte>, x: byte, i: nat)
    requires i <= |b| && x !in b[..i] && (i < |b| ==> b[i] == x)
    ensures Find(b, x) == i
  {
    var j := Find(b, x);
    assert forall k :: 0 <= k < j ==> b[..j][k] == b[k];
    assert forall k :: 0 <= k < i ==> b[..i][k] == b[k];
  }

  /** A field written with an encoded value reads as the name and the value. */
  lemma FieldReads(name: char, value: string)
    requires Safe(name) && name != '%'
    ensures Field([name as int, EQUALS] + Utf8(EncodeComponent(value))) == ([name], value)
  {
    var v := Utf8(EncodeComponent(value));
    var b := [name as int, EQUALS] + v;
    EncodedSafe(value);
    SafeBytes(EncodeComponent(value));
    FindIs(b, EQUALS, 1);
    assert b[..1] == [name as int] && b[2..] == v;
    assert Spaces(v) == v;
    assert Spaces([name as int]) == [name as int];
    ComponentDecodes(value);
    Utf8RoundTrip(value);
    assert PercentDecode([name as int]) == [name as int] by { assert [name as int][1..] == []; }
    assert Utf8Decode([name as int], IDLE) == [name] by { assert [name as int][1..] == []; }
  }

  lemma TwoFields(first: seq<byte>, second: seq<byte>)
    requires |first| > 0 && |second| > 0 && AMPERSAND !in first && AMPERSAND !in second
    ensures ParseForm(first + [AMPERSAND] + second) == [Field(first), Field(second)]
  {
    var b := first + [AMPERSAND] + second;
    assert b[..|first|] == first && b[|first| + 1..] == second;
    FindIs(b, AMPERSAND, |first|);
    assert second[..|second|] == second;
    FindIs(second, AMPERSAND, |second|);
  }

  lemma ValueBytes(name: char, value: string)
    requires Safe(name)
    ensures AMPERSAND !in [name as int, EQUALS] + Utf8(EncodeComponent(value))
  {
    EncodedSafe(value);
    SafeBytes(EncodeComponent(value));
  }

  lemma FormReads(server: string, room: string)
    ensures SearchParams("s=" + EncodeComponent(server) + "&r=" + EncodeComponent(room)) == [("s", server), ("r", room)]
  {
    QueryBytes(EncodeComponent(server), EncodeComponent(room));
    ValueBytes('s', server);
    ValueBytes('r', room);
    TwoFields(['s' as int, EQUALS] + Utf8(EncodeComponent(server)), ['r' as int, EQUALS] + Utf8(EncodeComponent(room)));
    FieldReads('s', server);
    FieldReads('r', room);
    assert ("s=" + EncodeComponent(server) + "&r=" + EncodeComponent(room))[0] == 's';
  }

  lemma QueryBytes(server: string, room: string)
    ensures Utf8("s=" + server + "&r=" + room)
         == (['s' as int, EQUALS] + Utf8(server)) + [AMPERSAND] + (['r' as int, EQUALS] + Utf8(room))
  {
    Utf8Append("s=" + server + "&r=", room);
    Utf8Append("s=" + server, "&r=");
    Utf8Append("s=", server);
    NameBytes();
    var first, name: seq<byte> := ['s' as int, EQUALS] + Utf8(server), ['r' as int, EQUALS];
    Assoc(first, [AMPERSAND], name);
    Assoc(first + [AMPERSAND], name, Utf8(room));
  }

  lemma NameBytes()
    ensures Utf8("s=") == ['s' as int, EQUALS]
    ensures Utf8("&r=") == [AMPERSAND] + ['r' as int, EQUALS]
  {
    assert "s="[1..] == "=" && "="[1..] == "";
    assert "&r="[1..] == "r=" && "r="[1..] == "=";
  }

  lemma {:induction false} TrimStartStops(blanks: string, s: string)
    requires (forall i :: 0 <= i < |blanks| ==> Blank(blanks[i])) && |s| > 0 && !Blank(s[0])
    ensures TrimStart(blanks + s) == s
    decreases |blanks|
  {
    if |blanks| == 0 {
      assert blanks + s == s;
    } else {
      assert (blanks + s)[1..] == blanks[1..] + s;
      TrimStartStops(blanks[1..], s);
    }
  }

  lemma {:induction false} TrimEndStops(s: string, blanks: string)
    requires (forall i :: 0 <= i < |blanks| ==> Blank(blanks[i])) && |s| > 0 && !Blank(s[|s| - 1])
    ensures TrimEnd(s + blanks) == s
    decreases |blanks|
  {
    if |blanks| == 0 {
      assert s + blanks == s;
    } else {
      assert (s + blanks)[..|s + blanks| - 1] == s + blanks[..|blanks| - 1];
      TrimEndStops(s, blanks[..|blanks| - 1]);
    }
  }

  predicate Visible(s: string) {
    forall i :: 0 <= i < |s| ==> '!' <= s[i] <= '~'
  }

  lemma VisibleParts(a: string, x: string, b: string, y: string)
    requires Visible(a) && Visible(x) && Visible(b) && Visible(y)
    ensures Visible(a + x + b + y)
  {
  }

  lemma InviteVisible(server: string, room: string)
    ensures Visible(BuildInvite(server, room))
  {
    EncodedSafe(server);
    EncodedSafe(room);
    FixedVisible();
    VisibleParts(PREFIX + "s=", EncodeComponent(server), "&r=", EncodeComponent(room));
  }

  lemma FixedVisible()
    ensures Visible(PREFIX + "s=") && Visible("&r=")
  {
  }

  lemma InviteParts(server: string, room: string)
    ensures var t := BuildInvite(server, room);
            PREFIX <= t && t[|PREFIX|..] == "s=" + EncodeComponent(server) + "&r=" + EncodeComponent(room)
  {
    var query := "s=" + EncodeComponent(server) + "&r=" + EncodeComponent(room);
    assert BuildInvite(server, room) == PREFIX + query;
  }

  lemma VisibleNotBlank(s: string, i: nat)
    requires Visible(s) && i < |s|
    ensures !Blank(s[i]) && !LineTerminator(s[i])
  {
  }

  // The code points that trim removes: tabs, line ends, spaces of all widths, the byte order mark.
  predicate White(n: int) {
    || 0x09 <= n <= 0x0D || n == 0x20 || n == 0xA0 || n == 0x1680 || 0x2000 <= n <= 0x200A
    || n in {0x2028, 0x2029, 0x202F, 0x205F, 0x3000, 0xFEFF}
  }

  lemma WhiteIsBlank(c: char)
    ensures White(c as int) <==> Blank(c)
  {
  }

  lemma {:induction false} TrimmedStart(s: string) returns (n: nat)
    ensures n <= |s| && TrimStart(s) == s[n..] && forall i :: 0 <= i < n ==> White(s[i] as int)
    decreases |s|
  {
    if |s| > 0 && Blank(s[0]) {
      var m := TrimmedStart(s[1..]);
      n := m + 1;
      forall i | 0 <= i < n ensures White(s[i] as int) {
        if i == 0 { WhiteIsBlank(s[0]); } else { assert s[1..][i - 1] == s[i]; }
      }
    } else {
      n := 0;
    }
  }

  lemma {:induction false} TrimmedEnd(s: string) returns (n: nat)
    ensures n <= |s| && TrimEnd(s) == s[..n] && forall i :: n <= i < |s| ==> White(s[i] as int)
    decreases |s|
  {
    if |s| > 0 && Blank(s[|s| - 1]) {
      n := TrimmedEnd(s[..|s| - 1]);
      WhiteIsBlank(s[|s| - 1]);
    } else {
      n := |s|;
    }
  }

  predicate AllWhite(s: string) {
    forall i :: 0 <= i < |s| ==> White(s[i] as int)
  }

  lemma TrimmedParts(text: string) returns (before: string, after: string)
    ensures text == before + TrimEnd(TrimStart(text)) + after && AllWhite(before) && AllWhite(after)
  {
    var n := TrimmedStart(text);
    var rest := text[n..];
    var k := TrimmedEnd(rest);
    before, after := text[..n], rest[k..];
    assert rest == rest[..k] + after && text == before + rest;
  }

  /** Only links are read: blanks, the scheme, one line of parameters with both names non-empty, blanks. */
  lemma ParsedParts(text: string) returns (before: string, query: string, after: string)
    requires ParseInvite(text).Some?
    ensures text == before + ("netbridge://join?" + query) + after && AllWhite(before) && AllWhite(after)
    ensures forall i :: 0 <= i < |query| ==> query[i] as int !in {0x0A, 0x0D, 0x2028, 0x2029}
    ensures ParseInvite(text).value.server != "" && ParseInvite(text).value.room != ""
    ensures GetParam(SearchParams(query), "s") == Some(ParseInvite(text).value.server)
    ensures GetParam(SearchParams(query), "r") == Some(ParseInvite(text).value.room)
  {
    before, after := TrimmedParts(text);
    var t := TrimEnd(TrimStart(text));
    query := t[|PREFIX|..];
    assert t == PREFIX + query;
    forall i | 0 <= i < |query| ensures !LineTerminator(query[i]) {
      assert query[i] == t[|PREFIX| + i];
    }
  }

  /** Whatever the texts, separators, percent signs, blanks and line breaks included, and with any
      blanks pasted around the link: what was built is read back, exactly when neither is empty. */
  lemma InviteRoundTrip(server: string, room: string, before: string, after: string)
    requires forall i :: 0 <= i < |before| ==> White(before[i] as int)
    requires forall i :: 0 <= i < |after| ==> White(after[i] as int)
    ensures ParseInvite(before + BuildInvite(server, room) + after)
         == if server == "" || room == "" then None else Some(Target(server, room))
  {
    var t := BuildInvite(server, room);
    InviteVisible(server, room);
    InviteParts(server, room);
    forall c ensures White(c as int) <==> Blank(c) {
      WhiteIsBlank(c);
    }
    forall i | 0 <= i < |t| ensures !Blank(t[i]) && !LineTerminator(t[i]) {
      VisibleNotBlank(t, i);
    }
    assert before + t + after == before + (t + after);
    TrimStartStops(before, t + after);
    TrimEndStops(t, after);
    FormReads(server, room);
    TwoParams(server, room);
  }

  lemma TwoParams(server: string, room: string)
    ensures var params := [("s", server), ("r", room)];
            GetParam(params, "s") == Some(server) && GetParam(params, "r") == Some(room)
  {
    assert [("s", server), ("r", room)][1..] == [("r", room)];
  }

  /** Different pairs of non-empty texts have different links. */
  lemma InviteInjective(server: string, room: string, server': string, room': string)
    requires server != "" && room != "" && BuildInvite(server, room) == BuildInvite(server', room')
    ensures server == server' && room == room'
  {
    InviteRoundTrip(server, room, "", "");
    InviteRoundTrip(server', room', "", "");
    assert "" + BuildInvite(server, room) + "" == BuildInvite(server, room);
    assert "" + BuildInvite(server', room') + "" == BuildInvite(server', room');
  }
}
