/**
 The text encodings a request passes through: UTF-8, the application/x-www-form-urlencoded serializer
 and parser (sections 5.1 and 5.2 of the WHATWG URL Standard), percent-encoding of a URI component
 (section 2.1 of RFC 3986) and base64 (section 4 of RFC 4648). A string is a sequence of Unicode scalar
 values.
 */
module Text {
  import opened Wrappers

  type Byte = n: int | 0 <= n < 256

  // ---- UTF-8 ------------------------------------------------------------------------------

  function Utf8Char(c: char): seq<Byte> {
    var n := c as int;
    if n < 0x80 then [n]
    else if n < 0x800 then [0xC0 + n / 64, 0x80 + n % 64]
    else if n < 0x10000 then [0xE0 + n / 4096, 0x80 + n / 64 % 64, 0x80 + n % 64]
    else [0xF0 + n / 262144, 0x80 + n / 4096 % 64, 0x80 + n / 64 % 64, 0x80 + n % 64]
  }

  function Utf8(s: string): seq<Byte> {
    if s == "" then [] else Utf8Char(s[0]) + Utf8(s[1..])
  }

  predicate IsTail(b: seq<Byte>, i: nat) {
    i < |b| && 0x80 <= b[i] < 0xC0
  }

  function Payload(b: seq<Byte>, i: nat): int
    requires IsTail(b, i)
  {
    var n: int := b[i];
    n - 0x80
  }

  /** The scalar value a well-formed sequence at the front encodes, and its length. */
  function DecodeOne(b: seq<Byte>): Option<(char, nat)>
    requires b != []
    ensures DecodeOne(b).Some? ==> 1 <= DecodeOne(b).value.1 <= |b|
  {
    var lead: int := b[0];
    if lead < 0x80 then Some((lead as char, 1))
    else if 0xC2 <= lead < 0xE0 && IsTail(b, 1) then
      Some((((lead - 0xC0) * 64 + Payload(b, 1)) as char, 2))
    else if 0xE0 <= lead < 0xF0 && IsTail(b, 1) && IsTail(b, 2) then
      var n := (lead - 0xE0) * 4096 + Payload(b, 1) * 64 + Payload(b, 2);
      if 0x800 <= n && !(0xD800 <= n < 0xE000) then Some((n as char, 3)) else None
    else if 0xF0 <= lead < 0xF8 && IsTail(b, 1) && IsTail(b, 2) && IsTail(b, 3) then
      var n := (lead - 0xF0) * 262144 + Payload(b, 1) * 4096 + Payload(b, 2) * 64 + Payload(b, 3);
      if 0x10000 <= n < 0x110000 then Some((n as char, 4)) else None
    else None
  }

  const REPLACEMENT := '\U{FFFD}'

  /** Decoding with replacement: an ill-formed byte stands as U+FFFD. */
  function Utf8Decode(b: seq<Byte>): string {
    if b == [] then ""
    else
      match DecodeOne(b)
      case Some((c, n)) => [c] + Utf8Decode(b[n..])
      case None => [REPLACEMENT] + Utf8Decode(b[1..])
  }

  /** Strict decoding accepts exactly what encoding produces. */
  function Utf8DecodeStrict(b: seq<Byte>): Option<string> {
    if Utf8(Utf8Decode(b)) == b then Some(Utf8Decode(b)) else None
  }

  lemma Digits64(n: int)
    requires 0 <= n < 0x110000
    ensures n / 64 * 64 + n % 64 == n
    ensures n / 4096 * 4096 + n / 64 % 64 * 64 + n % 64 == n
    ensures n / 262144 * 262144 + n / 4096 % 64 * 4096 + n / 64 % 64 * 64 + n % 64 == n
  {
    var q := n / 64;
    var r := q / 64;
    assert n == 64 * q + n % 64;
    assert q == 64 * r + q % 64;
    assert r == 64 * (r / 64) + r % 64;
    assert n / 4096 == r;
    assert n / 262144 == r / 64;
  }

  lemma DecodesFirst(c: char, rest: seq<Byte>)
    ensures DecodeOne(Utf8Char(c) + rest) == Some((c, |Utf8Char(c)|))
  {
    var b := Utf8Char(c) + rest;
    Digits64(c as int);
    assert forall i :: 0 <= i < |Utf8Char(c)| ==> b[i] == Utf8Char(c)[i];
  }

  lemma {:induction false} Utf8RoundTrip(s: string)
    ensures Utf8Decode(Utf8(s)) == s
    ensures Utf8DecodeStrict(Utf8(s)) == Some(s)
  {
    if s != "" {
      Utf8RoundTrip(s[1..]);
      DecodesFirst(s[0], Utf8(s[1..]));
      assert Utf8(s)[|Utf8Char(s[0])|..] == Utf8(s[1..]);
      assert Utf8(s) != [];
    }
  }

  lemma Utf8Injective(s: string, t: string)
    requires Utf8(s) == Utf8(t)
    ensures s == t
  {
    Utf8RoundTrip(s);
    Utf8RoundTrip(t);
  }

  // ---- percent-encoding -------------------------------------------------------------------

  const HEX := "0123456789ABCDEF"

  predicate IsAlnum(c: char) {
    '0' <= c <= '9' || 'A' <= c <= 'Z' || 'a' <= c <= 'z'
  }

  /** Which bytes each of the two encoders leaves as they are. */
  predicate FormKeeps(b: Byte) {
    b < 0x80 && (IsAlnum(b as char) || b as char in "*-._")
  }

  predicate ComponentKeeps(b: Byte) {
    b < 0x80 && (IsAlnum(b as char) || b as char in "-_.!~*'()")
  }

  function Percent(b: Byte): string {
    ['%', HEX[b / 16], HEX[b % 16]]
  }

  function FormByte(b: Byte): string {
    if b == 0x20 then "+" else if FormKeeps(b) then [b as char] else Percent(b)
  }

  function ComponentByte(b: Byte): string {
    if ComponentKeeps(b) then [b as char] else Percent(b)
  }

  function FormBytes(b: seq<Byte>): string {
    if b == [] then "" else FormByte(b[0]) + FormBytes(b[1..])
  }

  function ComponentBytes(b: seq<Byte>): string {
    if b == [] then "" else ComponentByte(b[0]) + ComponentBytes(b[1..])
  }

  function FormEncode(s: string): string {
    FormBytes(Utf8(s))
  }

  function EncodeURIComponent(s: string): string {
    ComponentBytes(Utf8(s))
  }

  function HexValue(c: char): Option<int> {
    if '0' <= c <= '9' then Some(c as int - '0' as int)
    else if 'A' <= c <= 'F' then Some(c as int - 'A' as int + 10)
    else if 'a' <= c <= 'f' then Some(c as int - 'a' as int + 10)
    else None
  }

  /** A percent triplet at the front. */
  function Triplet(s: string): Option<Byte> {
    if |s| >= 3 && s[0] == '%' && HexValue(s[1]).Some? && HexValue(s[2]).Some?
    then Some(HexValue(s[1]).value * 16 + HexValue(s[2]).value) else None
  }

  /** Percent-decoding to bytes; a stray percent sign stands for itself. */
  function PercentDecode(s: string, plusIsSpace: bool): seq<Byte> {
    if s == "" then []
    else if Triplet(s).Some? then [Triplet(s).value] + PercentDecode(s[3..], plusIsSpace)
    else (if plusIsSpace && s[0] == '+' then [0x20] else Utf8Char(s[0])) + PercentDecode(s[1..], plusIsSpace)
  }

  /** Every percent sign starts a triplet. */
  predicate WellEscaped(s: string) {
    if s == "" then true
    else if s[0] == '%' then Triplet(s).Some? && WellEscaped(s[3..])
    else WellEscaped(s[1..])
  }

  function FormDecode(s: string): string {
    Utf8Decode(PercentDecode(s, true))
  }

  /** None is the URIError of a malformed escape or of bytes that are not UTF-8. */
  function DecodeURIComponent(s: string): Option<string> {
    if WellEscaped(s) then Utf8DecodeStrict(PercentDecode(s, false)) else None
  }

  lemma TripletOfPercent(b: Byte, rest: string)
    ensures Triplet(Percent(b) + rest) == Some(b)
    ensures (Percent(b) + rest)[3..] == rest
  {
    assert HexValue(HEX[b / 16]) == Some(b / 16) && HexValue(HEX[b % 16]) == Some(b % 16);
  }

  lemma FormByteStep(b: Byte, rest: string)
    ensures PercentDecode(FormByte(b) + rest, true) == [b] + PercentDecode(rest, true)
  {
    if FormByte(b) == Percent(b) {
      TripletOfPercent(b, rest);
    } else {
      assert (FormByte(b) + rest)[1..] == rest;
      assert Utf8Char(FormByte(b)[0]) == [FormByte(b)[0] as int];
    }
  }

  lemma ComponentByteStep(b: Byte, rest: string)
    ensures PercentDecode(ComponentByte(b) + rest, false) == [b] + PercentDecode(rest, false)
    ensures WellEscaped(ComponentByte(b) + rest) == WellEscaped(rest)
  {
    if ComponentByte(b) == Percent(b) {
      TripletOfPercent(b, rest);
    } else {
      assert (ComponentByte(b) + rest)[1..] == rest;
      assert Utf8Char(ComponentByte(b)[0]) == [ComponentByte(b)[0] as int];
    }
  }

  lemma {:induction false} FormBytesRoundTrip(b: seq<Byte>)
    ensures PercentDecode(FormBytes(b), true) == b
  {
    if b != [] {
      FormBytesRoundTrip(b[1..]);
      FormByteStep(b[0], FormBytes(b[1..]));
    }
  }

  lemma {:induction false} ComponentBytesRoundTrip(b: seq<Byte>)
    ensures PercentDecode(ComponentBytes(b), false) == b && WellEscaped(ComponentBytes(b))
  {
    if b != [] {
      ComponentBytesRoundTrip(b[1..]);
      ComponentByteStep(b[0], ComponentBytes(b[1..]));
    }
  }

  lemma FormRoundTrip(s: string)
    ensures FormDecode(FormEncode(s)) == s
  {
    FormBytesRoundTrip(Utf8(s));
    Utf8RoundTrip(s);
  }

  lemma ComponentRoundTrip(s: string)
    ensures DecodeURIComponent(EncodeURIComponent(s)) == Some(s)
  {
    ComponentBytesRoundTrip(Utf8(s));
    Utf8RoundTrip(s);
  }

  // ---- the standards' own letters ---------------------------------------------------------

  predicate IsPlain(c: char) {
    'A' <= c <= 'Z' || 'a' <= c <= 'z' || '0' <= c <= '9'
  }

  /** Form encoding, byte by byte (section 5.2 of the WHATWG URL Standard). */
  lemma FormBytesExactly(b: Byte)
    ensures FormByte(b) == if b == 0x20 then "+"
                           else if IsPlain(b as char) || b as char in "*-._" then [b as char]
                           else ['%', HEX[b / 16], HEX[b % 16]]
  {
  }

  /** Component encoding, byte by byte: the marks that ECMAScript leaves alone. */
  lemma ComponentBytesExactly(b: Byte)
    ensures ComponentByte(b) == if IsPlain(b as char) || b as char in "-_.!~*'()" then [b as char]
                                else ['%', HEX[b / 16], HEX[b % 16]]
  {
  }

  /** UTF-8, character by character, by length and lead byte (RFC 3629). */
  lemma Utf8Exactly(c: char)
    ensures var n, b := c as int, Utf8Char(c);
            && (n < 0x80 ==> b == [n])
            && (0x80 <= n < 0x800 ==> b == [0xC0 + n / 0x40, 0x80 + n % 0x40])
            && (0x800 <= n < 0x10000 ==> b == [0xE0 + n / 0x1000, 0x80 + n / 0x40 % 0x40, 0x80 + n % 0x40])
            && (0x10000 <= n ==>
                  b == [0xF0 + n / 0x40000, 0x80 + n / 0x1000 % 0x40, 0x80 + n / 0x40 % 0x40, 0x80 + n % 0x40])
  {
  }

  /** Hex digits of either case. */
  lemma HexExactly(c: char)
    ensures '0' <= c <= '9' ==> HexValue(c) == Some(c as int - 0x30)
    ensures c in "abcdef" ==> HexValue(c) == Some(c as int - 0x61 + 10)
    ensures c in "ABCDEF" ==> HexValue(c) == Some(c as int - 0x41 + 10)
    ensures !('0' <= c <= '9') && c !in "abcdefABCDEF" ==> HexValue(c).None?
  {
  }

  /** Percent decoding at the front of any text, malformed escapes included. */
  lemma DecodesExactly(s: string, plus: bool)
    requires s != ""
    ensures var rest := PercentDecode(s[1..], plus);
            PercentDecode(s, plus)
            == if IsEscape(s) then [16 * HexValue(s[1]).value + HexValue(s[2]).value] + PercentDecode(s[3..], plus)
               else if s[0] == '+' && plus then [0x20] + rest
               else Utf8Char(s[0]) + rest
    ensures PercentDecode("", plus) == []
  {
    hide Utf8Char;
    hide HexValue;
  }

  predicate IsEscape(s: string) {
    |s| >= 3 && s[0] == '%' && HexValue(s[1]).Some? && HexValue(s[2]).Some?
  }

  lemma EscapesExactly(s: string)
    ensures WellEscaped(s) <==>
              s == "" || (s[0] != '%' && WellEscaped(s[1..])) || (IsEscape(s) && WellEscaped(s[3..]))
  {
    hide HexValue;
  }

  lemma SixBits(x: int, y: int)
    requires 0 <= y < 64
    ensures (x * 64 + y) / 64 == x && (x * 64 + y) % 64 == y
  {
  }

  /** The digits of a number written in base 64. */
  lemma Recomposed(x: int, y: int, z: int, t: int)
    requires 0 <= x && 0 <= y < 64 && 0 <= z < 64 && 0 <= t < 64
    ensures var n := x * 4096 + y * 64 + z; n / 4096 == x && n / 64 % 64 == y && n % 64 == z
    ensures var n := x * 262144 + y * 4096 + z * 64 + t;
            n / 262144 == x && n / 4096 % 64 == y && n / 64 % 64 == z && n % 64 == t
  {
    SixBits(x, y);
    SixBits(x * 64 + y, z);
    SixBits((x * 64 + y) * 64 + z, t);
  }

  lemma TwoBytes(b: seq<Byte>)
    requires |b| >= 2 && 0xC2 <= b[0] < 0xE0 && IsTail(b, 1)
    ensures var c := ((b[0] as int - 0xC0) * 64 + Payload(b, 1)) as char; b[..2] == Utf8Char(c)
  {
    SixBits(b[0] as int - 0xC0, Payload(b, 1));
  }

  lemma ThreeBytes(b: seq<Byte>, n: int)
    requires |b| >= 3 && 0xE0 <= b[0] < 0xF0 && IsTail(b, 1) && IsTail(b, 2)
    requires n == (b[0] as int - 0xE0) * 4096 + Payload(b, 1) * 64 + Payload(b, 2)
    requires 0x800 <= n && !(0xD800 <= n < 0xE000)
    ensures b[..3] == Utf8Char(n as char)
  {
    Recomposed(b[0] as int - 0xE0, Payload(b, 1), Payload(b, 2), 0);
  }

  lemma FourBytes(b: seq<Byte>, n: int)
    requires |b| >= 4 && 0xF0 <= b[0] < 0xF8 && IsTail(b, 1) && IsTail(b, 2) && IsTail(b, 3)
    requires n == (b[0] as int - 0xF0) * 262144 + Payload(b, 1) * 4096 + Payload(b, 2) * 64 + Payload(b, 3)
    requires 0x10000 <= n < 0x110000
    ensures b[..4] == Utf8Char(n as char)
  {
    Recomposed(b[0] as int - 0xF0, Payload(b, 1), Payload(b, 2), Payload(b, 3));
  }

  /** One decoded character is one encoded character: neither overlong forms nor surrogates pass. */
  lemma DecodesOnlyEncodings(b: seq<Byte>)
    requires b != [] && DecodeOne(b).Some?
    ensures var (c, n) := DecodeOne(b).value; b[..n] == Utf8Char(c)
  {
    var (c, n) := DecodeOne(b).value;
    if n == 2 {
      TwoBytes(b);
    } else if n == 3 {
      ThreeBytes(b, c as int);
    } else if n == 4 {
      FourBytes(b, c as int);
    } else {
      assert c as int == b[0] && b[..1] == [b[0]];
    }
    hide Utf8Char;
  }

  /** A component decodes to a text exactly when its escapes are well formed and their bytes are that text's. */
  lemma ComponentDecodesExactly(s: string, t: string)
    ensures DecodeURIComponent(s) == Some(t) <==> WellEscaped(s) && PercentDecode(s, false) == Utf8(t)
  {
    hide PercentDecode;
    hide WellEscaped;
    hide Utf8Decode;
    Utf8RoundTrip(t);
    hide Utf8;
  }
}
