/**
 Lists of name-value pairs as `application/x-www-form-urlencoded` text: serializing and parsing them,
 and base64 for the one value that is a byte string.
 */
module UrlForm {
  import opened Wrappers
  import opened Text

  type Pairs = seq<(string, string)>

  // ---- splitting --------------------------------------------------------------------------

  /** The first index of c, or the length when there is none. */
  function IndexOf(s: string, c: char): (i: nat)
    ensures i <= |s|
    ensures i < |s| ==> s[i] == c
    ensures forall k :: 0 <= k < i ==> s[k] != c
  {
    if s == "" then 0
    else if s[0] == c then 0
    else 1 + IndexOf(s[1..], c)
  }

  lemma IndexOfFirst(a: string, c: char, rest: string)
    requires c !in a
    ensures IndexOf(a, c) == |a|
    ensures IndexOf(a + [c] + rest, c) == |a|
  {
    var s := a + [c] + rest;
    assert s[|a|] == c;
    assert forall k :: 0 <= k < |a| ==> s[k] == a[k];
  }

  /** Pieces joined by ampersands, and the non-empty pieces between them. */
  function Join(pieces: seq<string>): string {
    if pieces == [] then ""
    else if |pieces| == 1 then pieces[0]
    else pieces[0] + "&" + Join(pieces[1..])
  }

  function Split(s: string): seq<string>
    decreases |s|
  {
    var i := IndexOf(s, '&');
    (if i == 0 then [] else [s[..i]]) + if i < |s| then Split(s[i + 1..]) else []
  }

  predicate Piece(s: string) {
    s != "" && '&' !in s
  }

  lemma SplitFirst(piece: string, rest: string)
    requires Piece(piece)
    ensures Split(piece + "&" + rest) == [piece] + Split(rest)
    ensures Split(piece) == [piece]
  {
    IndexOfFirst(piece, '&', rest);
    assert (piece + "&" + rest)[..|piece|] == piece && (piece + "&" + rest)[|piece| + 1..] == rest;
    assert piece[..|piece|] == piece;
  }

  lemma SplitStep(piece: string, tail: string, more: string)
    requires Piece(piece)
    ensures Split(piece + "&" + tail) == [piece] + Split(tail)
    ensures Split((piece + "&" + tail) + "&" + more) == [piece] + Split(tail + "&" + more)
  {
    hide Split;
    hide IndexOf;
    SplitFirst(piece, tail);
    SplitFirst(piece, tail + "&" + more);
    assert (piece + "&" + tail) + "&" + more == piece + "&" + (tail + "&" + more);
  }

  lemma {:induction false} SplitJoin(pieces: seq<string>, more: string)
    requires pieces != [] && forall i :: 0 <= i < |pieces| ==> Piece(pieces[i])
    ensures Split(Join(pieces)) == pieces
    ensures Split(Join(pieces) + "&" + more) == pieces + Split(more)
  {
    hide Split;
    hide IndexOf;
    if |pieces| == 1 {
      SplitFirst(pieces[0], more);
      assert pieces == [pieces[0]];
    } else {
      SplitJoin(pieces[1..], more);
      SplitStep(pieces[0], Join(pieces[1..]), more);
      assert pieces == [pieces[0]] + pieces[1..];
      assert [pieces[0]] + (pieces[1..] + Split(more)) == pieces + Split(more);
    }
  }

  lemma SplitEmpty(rest: string)
    ensures Split("&" + rest) == Split(rest) && Split("") == []
  {
    var s := "&" + rest;
    assert IndexOf(s, '&') == 0 && s[1..] == rest;
    hide IndexOf;
  }

  /** A first piece, empty or not, is split off at its ampersand. */
  lemma SplitOff(first: string, rest: string)
    requires '&' !in first
    ensures Split(first + "&" + rest) == (if first == "" then [] else [first]) + Split(rest)
    ensures Split(first) == if first == "" then [] else [first]
  {
    hide Split;
    hide IndexOf;
    if first == "" {
      SplitEmpty(rest);
      assert first + "&" + rest == "&" + rest && [] + Split(rest) == Split(rest);
    } else {
      SplitFirst(first, rest);
    }
  }

  /** Splitting at an ampersand splits both sides on their own. */
  lemma {:induction false} SplitAt(a: string, b: string)
    ensures Split(a + "&" + b) == Split(a) + Split(b)
    decreases |a|
  {
    hide Split;
    hide IndexOf;
    var i := IndexOf(a, '&');
    if i == |a| {
      SplitOff(a, b);
    } else {
      var first, rest := a[..i], a[i + 1..];
      var piece := if first == "" then [] else [first];
      assert a == first + "&" + rest && a + "&" + b == first + "&" + (rest + "&" + b);
      SplitAt(rest, b);
      SplitOff(first, rest);
      SplitOff(first, rest + "&" + b);
      assert piece + (Split(rest) + Split(b)) == (piece + Split(rest)) + Split(b);
    }
  }

  // ---- serializing and parsing ------------------------------------------------------------

  function SerializePair(p: (string, string)): string {
    FormEncode(p.0) + "=" + FormEncode(p.1)
  }

  function SerializeAll(ps: Pairs): seq<string> {
    seq(|ps|, i requires 0 <= i < |ps| => SerializePair(ps[i]))
  }

  function Serialize(ps: Pairs): string {
    Join(SerializeAll(ps))
  }

  function ParsePair(s: string): (string, string) {
    var i := IndexOf(s, '=');
    (FormDecode(s[..i]), if i < |s| then FormDecode(s[i + 1..]) else "")
  }

  function ParseAll(pieces: seq<string>): Pairs {
    seq(|pieces|, i requires 0 <= i < |pieces| => ParsePair(pieces[i]))
  }

  function Parse(s: string): Pairs {
    ParseAll(Split(s))
  }

  /** The first value of a name, as `URLSearchParams.get`. */
  function Get(ps: Pairs, name: string): Option<string> {
    if ps == [] then None
    else if ps[0].0 == name then Some(ps[0].1)
    else Get(ps[1..], name)
  }

  // ---- what encoded text looks like -------------------------------------------------------

  predicate FormChar(c: char) {
    IsAlnum(c) || c in "*-._+%"
  }

  /** The characters base64 text leaves behind once it is a URI component. */
  predicate ComponentChar(c: char) {
    IsAlnum(c) || c in "-_.!~*'()%"
  }

  lemma PercentChars(b: Byte, c: char)
    requires c in Percent(b)
    ensures FormChar(c) && ComponentChar(c)
  {
  }

  lemma {:induction false} FormBytesChars(b: seq<Byte>, c: char)
    requires c in FormBytes(b)
    ensures FormChar(c)
  {
    if c in FormByte(b[0]) {
      if FormByte(b[0]) == Percent(b[0]) {
        PercentChars(b[0], c);
      }
    } else {
      FormBytesChars(b[1..], c);
    }
  }

  lemma {:induction false} ComponentBytesChars(b: seq<Byte>, c: char)
    requires c in ComponentBytes(b)
    ensures ComponentChar(c)
  {
    if c in ComponentByte(b[0]) {
      if ComponentByte(b[0]) == Percent(b[0]) {
        PercentChars(b[0], c);
      }
    } else {
      ComponentBytesChars(b[1..], c);
    }
  }

  lemma FormEncodeChars(s: string)
    ensures forall c :: c in FormEncode(s) ==> FormChar(c)
  {
    forall c | c in FormEncode(s)
      ensures FormChar(c)
    {
      FormBytesChars(Utf8(s), c);
    }
  }

  lemma ComponentChars(s: string)
    ensures forall c :: c in EncodeURIComponent(s) ==> ComponentChar(c)
  {
    forall c | c in EncodeURIComponent(s)
      ensures ComponentChar(c)
    {
      ComponentBytesChars(Utf8(s), c);
    }
  }

  lemma {:induction false} JoinChars(pieces: seq<string>, c: char)
    requires c in Join(pieces)
    ensures c == '&' || exists i :: 0 <= i < |pieces| && c in pieces[i]
  {
    if |pieces| > 1 && c != '&' && c !in pieces[0] {
      JoinChars(pieces[1..], c);
      var i :| 0 <= i < |pieces[1..]| && c in pieces[1..][i];
      assert c in pieces[i + 1];
    }
  }

  lemma PairChars(p: (string, string))
    ensures Piece(SerializePair(p))
    ensures forall c :: c in SerializePair(p) ==> FormChar(c) || c == '='
  {
    FormEncodeChars(p.0);
    FormEncodeChars(p.1);
    assert SerializePair(p)[|FormEncode(p.0)|] == '=';
  }

  lemma SerializeChars(ps: Pairs)
    ensures forall c :: c in Serialize(ps) ==> FormChar(c) || c == '=' || c == '&'
  {
    forall c | c in Serialize(ps) && c != '&'
      ensures FormChar(c) || c == '='
    {
      JoinChars(SerializeAll(ps), c);
      var i :| 0 <= i < |ps| && c in SerializeAll(ps)[i];
      PairChars(ps[i]);
    }
  }

  // ---- the round trip ---------------------------------------------------------------------

  lemma PairRoundTrip(p: (string, string))
    ensures ParsePair(SerializePair(p)) == p
  {
    FormEncodeChars(p.0);
    FormRoundTrip(p.0);
    FormRoundTrip(p.1);
    CutAt(FormEncode(p.0), '=', FormEncode(p.1));
  }

  lemma CutAt(a: string, c: char, rest: string)
    requires c !in a
    ensures IndexOf(a + [c] + rest, c) == |a|
    ensures (a + [c] + rest)[..|a|] == a
    ensures (a + [c] + rest)[|a| + 1..] == rest
  {
    IndexOfFirst(a, c, rest);
  }

  lemma AllRoundTrip(ps: Pairs)
    ensures ParseAll(SerializeAll(ps)) == ps
    ensures forall i :: 0 <= i < |SerializeAll(ps)| ==> Piece(SerializeAll(ps)[i])
  {
    forall i | 0 <= i < |ps|
      ensures ParsePair(SerializeAll(ps)[i]) == ps[i] && Piece(SerializeAll(ps)[i])
    {
      PairRoundTrip(ps[i]);
      PairChars(ps[i]);
    }
  }

  lemma ParseAllConcat(a: seq<string>, b: seq<string>)
    ensures ParseAll(a + b) == ParseAll(a) + ParseAll(b)
  {
    hide ParsePair;
    var all, parts := ParseAll(a + b), ParseAll(a) + ParseAll(b);
    forall i | 0 <= i < |all|
      ensures all[i] == parts[i]
    {
      assert all[i] == ParsePair((a + b)[i]);
    }
  }

  /** Parsing the serialization of any list of pairs gives the list back, also with further text behind it. */
  lemma ParseSerialize(ps: Pairs, more: string)
    ensures Parse(Serialize(ps)) == ps
    ensures ps != [] ==> Parse(Serialize(ps) + "&" + more) == ps + Parse(more)
  {
    AllRoundTrip(ps);
    if ps != [] {
      SplitJoin(SerializeAll(ps), more);
    }
    ParseAllConcat(SerializeAll(ps), Split(more));
  }

  // ---- base64 -----------------------------------------------------------------------------

  type Sixth = n: int | 0 <= n < 64

  function Letter(v: Sixth): char {
    if v < 26 then ('A' as int + v) as char
    else if v < 52 then ('a' as int + (v - 26)) as char
    else if v < 62 then ('0' as int + (v - 52)) as char
    else if v == 62 then '+' else '/'
  }

  /** The bits of the bytes in groups of six, zeros filling up the last group. */
  function Sextets(b: seq<Byte>): seq<Sixth> {
    if b == [] then []
    else
      var x: int := b[0];
      if |b| == 1 then [x / 4, x % 4 * 16]
      else
        var y: int := b[1];
        if |b| == 2 then [x / 4, x % 4 * 16 + y / 16, y % 16 * 4]
        else
          var z: int := b[2];
          [x / 4, x % 4 * 16 + y / 16, y % 16 * 4 + z / 64, z % 64] + Sextets(b[3..])
  }

  function Letters(v: seq<Sixth>): string {
    if v == [] then "" else [Letter(v[0])] + Letters(v[1..])
  }

  function Base64(b: seq<Byte>): string {
    var v := Sextets(b);
    Letters(v) + match |b| % 3 case 0 => "" case 1 => "==" case _ => "="
  }

  function Sextet(c: char): Option<int> {
    if 'A' <= c <= 'Z' then Some(c as int - 'A' as int)
    else if 'a' <= c <= 'z' then Some(c as int - 'a' as int + 26)
    else if '0' <= c <= '9' then Some(c as int - '0' as int + 52)
    else if c == '+' || c == '-' then Some(62)
    else if c == '/' || c == '_' then Some(63)
    else None
  }

  /** Reading ends at the padding; either alphabet is read, and any other character is passed over. */
  function Values(s: string): seq<Sixth> {
    if s == "" || s[0] == '=' then []
    else (if Sextet(s[0]).Some? then [Sextet(s[0]).value] else []) + Values(s[1..])
  }

  function JoinBits(v: seq<Sixth>): seq<Byte> {
    if |v| < 2 then []
    else
      var p: int, q: int := v[0], v[1];
      if |v| == 2 then [p * 4 + q / 16]
      else
        var r: int := v[2];
        if |v| == 3 then [p * 4 + q / 16, q % 16 * 16 + r / 4]
        else
          var t: int := v[3];
          [p * 4 + q / 16, q % 16 * 16 + r / 4, r % 4 * 64 + t] + JoinBits(v[4..])
  }

  function Base64Decode(s: string): seq<Byte> {
    JoinBits(Values(s))
  }

  lemma SextetOfLetter(v: Sixth)
    ensures Sextet(Letter(v)) == Some(v)
    ensures Letter(v) != '=' && (IsAlnum(Letter(v)) || Letter(v) in "+/")
  {
  }

  lemma Regrouped(x: int, y: int, z: int)
    requires 0 <= x < 256 && 0 <= y < 256 && 0 <= z < 256
    ensures var p, q, r, t := x / 4, x % 4 * 16 + y / 16, y % 16 * 4 + z / 64, z % 64;
            && 0 <= p < 64 && 0 <= q < 64 && 0 <= r < 64
            && p * 4 + q / 16 == x && q % 16 * 16 + r / 4 == y && r % 4 * 64 + t == z
  {
  }

  lemma {:induction false} JoinSextets(b: seq<Byte>)
    ensures JoinBits(Sextets(b)) == b
  {
    if b != [] {
      var x: int := b[0];
      var y: int := if |b| > 1 then b[1] else 0;
      var z: int := if |b| > 2 then b[2] else 0;
      Regrouped(x, y, z);
      if |b| >= 3 {
        JoinSextets(b[3..]);
        assert Sextets(b)[4..] == Sextets(b[3..]);
      }
    }
  }

  lemma ReadOne(v: Sixth, rest: string)
    ensures Values([Letter(v)] + rest) == [v] + Values(rest)
  {
    SextetOfLetter(v);
    assert ([Letter(v)] + rest)[1..] == rest;
  }

  lemma PaddingEnds(pad: string)
    requires pad == "" || pad[0] == '='
    ensures Values(pad) == []
  {
  }

  lemma {:induction false} ReadLetters(v: seq<Sixth>, pad: string)
    requires pad == "" || pad[0] == '='
    ensures Values(Letters(v) + pad) == v
  {
    hide Values;
    hide Letter;
    hide Sextet;
    if v == [] {
      assert Letters(v) + pad == pad;
      PaddingEnds(pad);
    } else {
      ReadLetters(v[1..], pad);
      ReadOne(v[0], Letters(v[1..]) + pad);
      assert Letters(v) + pad == [Letter(v[0])] + (Letters(v[1..]) + pad);
      assert v == [v[0]] + v[1..];
    }
  }

  lemma Base64RoundTrip(b: seq<Byte>)
    ensures Base64Decode(Base64(b)) == b
  {
    ReadLetters(Sextets(b), match |b| % 3 case 0 => "" case 1 => "==" case _ => "=");
    JoinSextets(b);
  }

  /** The alphabet of table 1 in section 4 of RFC 4648. */
  lemma LettersExactly(v: Sixth)
    ensures v < 26 ==> Letter(v) as int == 'A' as int + v
    ensures 26 <= v < 52 ==> Letter(v) as int == 'a' as int + v - 26
    ensures 52 <= v < 62 ==> Letter(v) as int == '0' as int + v - 52
    ensures v == 62 ==> Letter(v) == '+'
    ensures v == 63 ==> Letter(v) == '/'
  {
  }

  /** Test vectors of section 10 of RFC 4648; longer inputs are encoded three bytes at a time. */
  lemma Base64Examples()
    ensures Base64([]) == ""
    ensures Base64([0x66]) == "Zg=="
    ensures Base64([0x66, 0x6F]) == "Zm8="
    ensures Base64([0x66, 0x6F, 0x6F]) == "Zm9v"
  {
  }

  lemma Base64Extends(b: seq<Byte>)
    requires |b| >= 3
    ensures Base64(b) == Base64(b[..3]) + Base64(b[3..])
  {
    assert b[..3][3..] == [];
    assert Sextets(b) == Sextets(b[..3]) + Sextets(b[3..]);
    LettersConcat(Sextets(b[..3]), Sextets(b[3..]));
  }

  lemma {:induction false} LettersConcat(a: seq<Sixth>, b: seq<Sixth>)
    ensures Letters(a + b) == Letters(a) + Letters(b)
  {
    if a == [] {
      assert a + b == b;
    } else {
      assert (a + b)[1..] == a[1..] + b;
      LettersConcat(a[1..], b);
    }
  }

  /** The reader takes both alphabets, passes over other characters and ends at the padding. */
  lemma ValuesExactly(c: char, rest: string)
    ensures c == '=' ==> Values([c] + rest) == []
    ensures c == '-' ==> Values([c] + rest) == [62] + Values(rest)
    ensures c == '_' ==> Values([c] + rest) == [63] + Values(rest)
    ensures !IsAlnum(c) && c !in "+/-_=" ==> Values([c] + rest) == Values(rest)
  {
    assert ([c] + rest)[1..] == rest;
    assert [] + Values(rest) == Values(rest);
  }

  /** A piece without an equals sign is a name with an empty value. */
  lemma ValuelessPair(name: string)
    requires '=' !in name
    ensures ParsePair(name) == (FormDecode(name), "")
  {
    IndexOfFirst(name, '=', "");
    assert name[..|name|] == name;
  }
}
