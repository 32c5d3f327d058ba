/**
 SEP-7 `tx` requests: emitting and signing them, parsing and verifying them, and carrying one inside
 the link of a hosted page. What the code asks of its platform (which envelope a text decodes to, which
 address it reads as, is it a URL, is it a key, sign, verify) is a parameter.
 */
module Sep7 {
  import opened Wrappers
  import opened Text
  import opened UrlForm
  import Relayer
  import Sponsorship
  import StellarLedger

  datatype Platform = Platform(
    decode: (string, string) -> Option<Sponsorship.Envelope>,
    address: string -> StellarLedger.Address,
    httpUrl: string -> bool,
    accountKey: string -> bool,
    sign: (string, seq<Byte>) -> seq<Byte>,
    verify: (string, seq<Byte>, seq<Byte>) -> bool)

  const MSG_MAX := 300
  const SCHEME := "web+stellar:"
  const SIGNATURE := "&signature="

  /** JavaScript string length counts UTF-16 code units. */
  function Utf16Length(s: string): nat {
    if s == "" then 0 else (if s[0] as int >= 0x10000 then 2 else 1) + Utf16Length(s[1..])
  }

  function NonEmpty(s: Option<string>): Option<string> {
    if s == Some("") then None else s
  }

  predicate StartsWith(s: string, prefix: string) {
    prefix <= s
  }

  // ---- domains ----------------------------------------------------------------------------

  predicate IsLetter(c: char) {
    'a' <= c <= 'z' || 'A' <= c <= 'Z'
  }

  predicate IsLabel(s: string) {
    1 <= |s| <= 63 && IsAlnum(s[0]) && IsAlnum(s[|s| - 1]) && forall c :: c in s ==> IsAlnum(c) || c == '-'
  }

  /** Dot-terminated labels and then a top-level domain of letters. */
  predicate IsDomainTail(s: string)
    decreases |s|
  {
    var i := IndexOf(s, '.');
    if i == |s| then 2 <= |s| <= 63 && forall c :: c in s ==> IsLetter(c)
    else IsLabel(s[..i]) && IsDomainTail(s[i + 1..])
  }

  predicate IsDomain(s: string) {
    |s| <= 253 && IndexOf(s, '.') < |s| && IsDomainTail(s)
  }

  function LowerChar(c: char): char {
    if 'A' <= c <= 'Z' then (c as int + 32) as char else c
  }

  function Lower(s: string): string {
    seq(|s|, i requires 0 <= i < |s| => LowerChar(s[i]))
  }

  // ---- emitting ---------------------------------------------------------------------------

  /** The key to name as expected signer: by default the user, on request none or another. */
  datatype PubkeyOption = TheUser | NoPubkey | Named(key: string)

  datatype Options = Options(
    xdr: string, passphrase: string, user: string, callback: Option<string>, pubkey: PubkeyOption,
    msg: Option<string>, originDomain: Option<string>, signer: Option<string>)

  datatype EmitError = MsgTooLong | SignerWithoutDomain | NotAnEnvelopeToEmit | IncompleteHandoff

  function PubkeyOf(p: Platform, o: Options): Option<string> {
    var key := match o.pubkey case TheUser => o.user case NoPubkey => "" case Named(k) => k;
    if key != "" && p.accountKey(key) then Some(key) else None
  }

  function CallbackParam(o: Options): Option<string> {
    match NonEmpty(o.callback)
    case None => None
    case Some(c) => Some(if StartsWith(c, "url:") then c else "url:" + c)
  }

  function Param(name: string, value: Option<string>): Pairs {
    if value.Some? then [(name, value.value)] else []
  }

  function Params(p: Platform, o: Options): Pairs {
    [("xdr", o.xdr), ("network_passphrase", o.passphrase)]
    + Param("pubkey", PubkeyOf(p, o))
    + Param("callback", CallbackParam(o))
    + Param("msg", NonEmpty(o.msg))
    + Param("origin_domain", NonEmpty(o.originDomain))
  }

  function UnsignedUri(p: Platform, o: Options): string {
    SCHEME + "tx?" + Serialize(Params(p, o))
  }

  /** What is signed: 35 zero bytes, a 4, and the fixed text run on directly by the URI. */
  function SigningPayload(uri: string): seq<Byte> {
    seq(35, i => 0) + [4] + Utf8("stellar.sep.7 - URI Scheme" + uri)
  }

  function SignatureText(p: Platform, key: string, uri: string): string {
    Base64(p.sign(key, SigningPayload(uri)))
  }

  function RequestUri(p: Platform, o: Options): string {
    var uri := UnsignedUri(p, o);
    if o.signer.Some? then uri + SIGNATURE + EncodeURIComponent(SignatureText(p, o.signer.value, uri)) else uri
  }

  /** The parameters set one by one, each only when it has a value. */
  method BuildParams(p: Platform, o: Options) returns (params: Pairs)
    ensures params == Params(p, o)
  {
    hide PubkeyOf;
    params := [];
    params := params + [("xdr", o.xdr)];
    params := params + [("network_passphrase", o.passphrase)];
    var pubkey := PubkeyOf(p, o);
    if pubkey.Some? {
      params := params + [("pubkey", pubkey.value)];
    }
    assert params == [("xdr", o.xdr), ("network_passphrase", o.passphrase)] + Param("pubkey", PubkeyOf(p, o));
    var callback := NonEmpty(o.callback);
    if callback.Some? {
      var value := if StartsWith(callback.value, "url:") then callback.value else "url:" + callback.value;
      params := params + [("callback", value)];
    }
    if o.msg.Some? && o.msg.value != "" {
      params := params + [("msg", o.msg.value)];
    }
    if o.originDomain.Some? && o.originDomain.value != "" {
      params := params + [("origin_domain", o.originDomain.value)];
    }
  }

  /** A wallet that adds the user's signature must leave the envelope complete, or send it to a callback. */
  predicate MayHandOff(p: Platform, o: Options) {
    var env := p.decode(o.xdr, o.passphrase);
    && (o.msg.Some? ==> Utf16Length(o.msg.value) <= MSG_MAX)
    && (o.signer.Some? ==> NonEmpty(o.originDomain).Some?)
    && env.Some?
    && (Relayer.CompleteWithUser(env.value, p.address(o.user)) || NonEmpty(o.callback).Some?)
  }

  method OnboardingRequest(p: Platform, o: Options) returns (r: Result<string, EmitError>)
    ensures r.Success? <==> MayHandOff(p, o)
    ensures r.Success? ==> r.value == RequestUri(p, o)
    ensures var tooLong := o.msg.Some? && Utf16Length(o.msg.value) > 300;
            var nameless := o.signer.Some? && (o.originDomain == None || o.originDomain == Some(""));
            var unreadable := p.decode(o.xdr, o.passphrase).None?;
            && (r == Failure(MsgTooLong) <==> tooLong)
            && (r == Failure(SignerWithoutDomain) <==> !tooLong && nameless)
            && (r == Failure(NotAnEnvelopeToEmit) <==> !tooLong && !nameless && unreadable)
  {
    if o.msg.Some? && Utf16Length(o.msg.value) > MSG_MAX {
      return Failure(MsgTooLong);
    }
    if o.signer.Some? && NonEmpty(o.originDomain).None? {
      return Failure(SignerWithoutDomain);
    }
    var env := p.decode(o.xdr, o.passphrase);
    if env.None? {
      return Failure(NotAnEnvelopeToEmit);
    }
    var others, alreadySigned := Relayer.CoSigners(env.value, p.address(o.user));
    if others != {} && !alreadySigned && NonEmpty(o.callback).None? {
      return Failure(IncompleteHandoff);
    }
    var params := BuildParams(p, o);
    var uri := SCHEME + "tx?" + Serialize(params);
    if o.signer.Some? {
      hide SigningPayload;
      hide Base64;
      hide EncodeURIComponent;
      hide Serialize;
      var sig := p.sign(o.signer.value, SigningPayload(uri));
      uri := uri + SIGNATURE + EncodeURIComponent(Base64(sig));
    }
    r := Success(uri);
  }

  /** Of what the relayer emits, only a contract holder's router call needs the callback to be handed out at all. */
  lemma EmittedMayBeHandedOff(p: Platform, o: Options, cfg: Relayer.Config, asset: Relayer.OfficialAsset,
                              create: bool, fee: int, auth: seq<Sponsorship.AuthEntry>)
    requires o.msg.Some? ==> Utf16Length(o.msg.value) <= MSG_MAX
    requires o.signer.Some? ==> NonEmpty(o.originDomain).Some?
    requires cfg.router.Some? && p.address(o.user) != StellarLedger.Account(cfg.relayer)
    requires var holder := p.address(o.user);
             var env := p.decode(o.xdr, o.passphrase);
             || env == Some(Sponsorship.Plain(Relayer.EmitOnboard(cfg, asset, holder, fee, auth)))
             || (holder.Account?
                 && env == Some(Sponsorship.Plain(Relayer.EmitSponsored(cfg, asset, holder.key, create))))
    ensures MayHandOff(p, o) <==> p.address(o.user).Account? || NonEmpty(o.callback).Some?
  {
    Relayer.EmittedHandoff(cfg, asset, p.address(o.user), create, fee, auth);
    hide Relayer.CompleteWithUser;
    hide Relayer.EmitSponsored;
    hide Relayer.EmitOnboard;
  }

  // ---- parsing ----------------------------------------------------------------------------

  datatype Request = Request(
    xdr: string, networkPassphrase: Option<string>, callback: Option<string>, pubkey: Option<string>,
    msg: Option<string>, originDomain: Option<string>, signature: Option<string>, uri: string)

  datatype ParseError =
    | NotSep7 | OtherOperation | NoXdr | OtherNetwork | NotAnEnvelope | BadCallback | BadPubkey
    | BadMsg | BadDomain | SignedWithoutDomain

  predicate IsSpace(c: char) {
    var n := c as int;
    9 <= n <= 13 || n == 32 || n == 0xA0 || n == 0x1680 || 0x2000 <= n <= 0x200A || n == 0x2028 || n == 0x2029
    || n == 0x202F || n == 0x205F || n == 0x3000 || n == 0xFEFF
  }

  predicate IsLineBreak(c: char) {
    c == '\n' || c == '\r' || c as int == 0x2028 || c as int == 0x2029
  }

  function TrimStart(s: string): string {
    if s != "" && IsSpace(s[0]) then TrimStart(s[1..]) else s
  }

  function TrimEnd(s: string): string {
    if s != "" && IsSpace(s[|s| - 1]) then TrimEnd(s[..|s| - 1]) else s
  }

  function Trim(s: string): string {
    TrimEnd(TrimStart(s))
  }

  function LettersLength(s: string): (n: nat)
    ensures n <= |s|
    ensures forall k :: 0 <= k < n ==> IsLetter(s[k])
    ensures n < |s| ==> !IsLetter(s[n])
  {
    if s != "" && IsLetter(s[0]) then 1 + LettersLength(s[1..]) else 0
  }

  predicate HasScheme(s: string) {
    |s| >= |SCHEME| && Lower(s[..|SCHEME|]) == SCHEME
  }

  /** Where the operation name starts: after the scheme and, if they are there, two slashes. */
  function NameStart(s: string): (n: nat)
    requires HasScheme(s)
    ensures n <= |s|
  {
    if StartsWith(s[|SCHEME|..], "//") then |SCHEME| + 2 else |SCHEME|
  }

  /** An operation name of letters, a question mark, and the query on the same line. */
  function Operation(s: string): Option<(string, string)> {
    var n := LettersLength(s);
    if n == 0 || n == |s| || s[n] != '?' then None
    else if exists c :: c in s[n + 1..] && IsLineBreak(c) then None
    else Some((Lower(s[..n]), s[n + 1..]))
  }

  /** The operation name and the query of a request, the scheme being read in any case. */
  function Head(s: string): Option<(string, string)> {
    if HasScheme(s) then Operation(s[NameStart(s)..]) else None
  }

  /** A `url:` value naming an http(s) URL, or nothing; None is a refusal. */
  function ParseCallback(p: Platform, value: Option<string>): Option<Option<string>> {
    match NonEmpty(value)
    case None => Some(None)
    case Some(c) => if StartsWith(c, "url:") && p.httpUrl(c[4..]) then Some(Some(c[4..])) else None
  }

  /** The parameters of a query text, one leading question mark ignored. */
  function ReadQuery(query: string): Pairs {
    Parse(if query != "" && query[0] == '?' then query[1..] else query)
  }

  function ParseRequest(p: Platform, uri: string, want: Option<string>): Result<Request, ParseError> {
    var trimmed := Trim(uri);
    match Head(trimmed)
    case None => Failure(NotSep7)
    case Some((op, query)) =>
      if op != "tx" then Failure(OtherOperation) else ParseParams(p, ReadQuery(query), want, trimmed)
  }

  /** The parameters as they are looked up. */
  datatype Fields = Fields(
    xdr: Option<string>, passphrase: Option<string>, callback: Option<string>, pubkey: Option<string>,
    msg: Option<string>, domain: Option<string>, signature: Option<string>)

  function FieldsOf(params: Pairs): Fields {
    Fields(NonEmpty(Get(params, "xdr")), Get(params, "network_passphrase"), Get(params, "callback"),
           NonEmpty(Get(params, "pubkey")), NonEmpty(Get(params, "msg")), NonEmpty(Get(params, "origin_domain")),
           NonEmpty(Get(params, "signature")))
  }

  function ParseFields(p: Platform, f: Fields, want: Option<string>, uri: string): Result<Request, ParseError> {
    var callback := ParseCallback(p, f.callback);
    if f.xdr.None? then Failure(NoXdr)
    else if NonEmpty(want).Some? && NonEmpty(f.passphrase).Some? && f.passphrase != want then Failure(OtherNetwork)
    else if p.decode(f.xdr.value, want.GetOr(f.passphrase.GetOr(""))).None? then Failure(NotAnEnvelope)
    else if callback.None? then Failure(BadCallback)
    else if f.pubkey.Some? && !p.accountKey(f.pubkey.value) then Failure(BadPubkey)
    else if f.msg.Some? && Utf16Length(f.msg.value) > MSG_MAX then Failure(BadMsg)
    else if f.domain.Some? && !IsDomain(f.domain.value) then Failure(BadDomain)
    else if f.signature.Some? && f.domain.None? then Failure(SignedWithoutDomain)
    else
      Success(Request(f.xdr.value, NonEmpty(f.passphrase), callback.value, f.pubkey, f.msg,
                      if f.domain.Some? then Some(Lower(f.domain.value)) else None, f.signature, uri))
  }

  function ParseParams(p: Platform, params: Pairs, want: Option<string>, uri: string): Result<Request, ParseError> {
    ParseFields(p, FieldsOf(params), want, uri)
  }

  // ---- the round trip ---------------------------------------------------------------------

  /** The inputs a request is promised for: each part valid on its own. */
  predicate ValidOptions(p: Platform, o: Options, want: Option<string>) {
    && o.xdr != ""
    && (NonEmpty(want).Some? && o.passphrase != "" ==> want.value == o.passphrase)
    && p.decode(o.xdr, want.GetOr(o.passphrase)).Some?
    && (CallbackParam(o).Some? ==> p.httpUrl(CallbackParam(o).value[4..]))
    && (o.msg.Some? ==> Utf16Length(o.msg.value) <= MSG_MAX)
    && (NonEmpty(o.originDomain).Some? ==> IsDomain(o.originDomain.value))
    && (o.signer.Some? ==>
          NonEmpty(o.originDomain).Some? && p.sign(o.signer.value, SigningPayload(UnsignedUri(p, o))) != [])
  }

  /** What the wallet must read back. */
  function Expected(p: Platform, o: Options): Request {
    Request(o.xdr, NonEmpty(Some(o.passphrase)),
            if CallbackParam(o).Some? then Some(CallbackParam(o).value[4..]) else None,
            PubkeyOf(p, o), NonEmpty(o.msg),
            if NonEmpty(o.originDomain).Some? then Some(Lower(o.originDomain.value)) else None,
            if o.signer.Some? then Some(SignatureText(p, o.signer.value, UnsignedUri(p, o))) else None,
            RequestUri(p, o))
  }

  lemma {:induction false} GetConcat(a: Pairs, b: Pairs, name: string)
    ensures Get(a + b, name) == if Get(a, name).Some? then Get(a, name) else Get(b, name)
  {
    if a == [] {
      assert a + b == b;
    } else {
      assert (a + b)[1..] == a[1..] + b;
      GetConcat(a[1..], b, name);
    }
  }

  lemma GetOne(name: string, value: Option<string>, wanted: string)
    ensures Get(Param(name, value), wanted) == if name == wanted then value else None
  {
  }

  function SignatureParam(p: Platform, o: Options): Option<string> {
    if o.signer.Some? then Some(SignatureText(p, o.signer.value, UnsignedUri(p, o))) else None
  }

  function AllParams(p: Platform, o: Options): Pairs {
    Params(p, o) + Param("signature", SignatureParam(p, o))
  }

  lemma NamesDiffer()
    ensures |"xdr"| == |"msg"| == 3 && "xdr"[0] != "msg"[0]
    ensures |"pubkey"| == 6 && |"callback"| == 8 && |"signature"| == 9
    ensures |"origin_domain"| == 13 && |"network_passphrase"| == 18
  {
  }

  /** A lookup among parameters of distinct names that may each be missing. */
  lemma Lookup(p: Platform, o: Options, name: string)
    ensures Get(AllParams(p, o), name) ==
              if name == "xdr" then Some(o.xdr)
              else if name == "network_passphrase" then Some(o.passphrase)
              else if name == "pubkey" then PubkeyOf(p, o)
              else if name == "callback" then CallbackParam(o)
              else if name == "msg" then NonEmpty(o.msg)
              else if name == "origin_domain" then NonEmpty(o.originDomain)
              else if name == "signature" then SignatureParam(p, o)
              else None
  {
    hide PubkeyOf;
    hide CallbackParam;
    hide SignatureParam;
    var first: Pairs := [("xdr", o.xdr), ("network_passphrase", o.passphrase)];
    var a := Param("pubkey", PubkeyOf(p, o));
    var b := Param("callback", CallbackParam(o));
    var c := Param("msg", NonEmpty(o.msg));
    var d := Param("origin_domain", NonEmpty(o.originDomain));
    var e := Param("signature", SignatureParam(p, o));
    GetConcat(first + a + b + c + d, e, name);
    GetConcat(first + a + b + c, d, name);
    GetConcat(first + a + b, c, name);
    GetConcat(first + a, b, name);
    GetConcat(first, a, name);
    GetOne("pubkey", PubkeyOf(p, o), name);
    GetOne("callback", CallbackParam(o), name);
    GetOne("msg", NonEmpty(o.msg), name);
    GetOne("origin_domain", NonEmpty(o.originDomain), name);
    GetOne("signature", SignatureParam(p, o), name);
    assert first[1..] == [("network_passphrase", o.passphrase)];
    NamesDiffer();
    hide Param;
    hide NonEmpty;
    assert AllParams(p, o) == first + a + b + c + d + e;
  }

  lemma {:induction false} AlnumIsPlain(s: string)
    requires forall c :: c in s ==> IsAlnum(c) || c == '_'
    ensures FormDecode(s) == s
  {
    AlnumEncodes(s);
    FormRoundTrip(s);
  }

  lemma AlnumFirst(c: char, rest: seq<Byte>)
    requires IsAlnum(c) || c == '_'
    ensures Utf8Char(c) == [c as int] && FormBytes([c as int] + rest) == [c] + FormBytes(rest)
  {
    assert ([c as int] + rest)[1..] == rest;
  }

  lemma {:induction false} AlnumEncodes(s: string)
    requires forall c :: c in s ==> IsAlnum(c) || c == '_'
    ensures FormEncode(s) == s
  {
    if s != "" {
      AlnumEncodes(s[1..]);
      AlnumFirst(s[0], Utf8(s[1..]));
      hide FormBytes;
      hide Utf8Char;
      assert Utf8(s) == [s[0] as int] + Utf8(s[1..]);
      assert s == [s[0]] + s[1..];
    }
  }

  lemma {:induction false} PlusOrNot(s: string)
    requires '+' !in s
    ensures PercentDecode(s, true) == PercentDecode(s, false)
  {
    if s != "" {
      if Triplet(s).Some? {
        PlusOrNot(s[3..]);
      } else {
        PlusOrNot(s[1..]);
        assert s[0] in s;
      }
    }
  }

  /** A form parser reads a URI-component value as it was, since such a value has no plus sign. */
  lemma ComponentInForm(value: string)
    ensures FormDecode(EncodeURIComponent(value)) == value
  {
    ComponentChars(value);
    PlusOrNot(EncodeURIComponent(value));
    ComponentBytesRoundTrip(Utf8(value));
    Utf8RoundTrip(value);
  }

  lemma PlainPair(name: string, value: string)
    requires '=' !in name
    ensures ParsePair(name + ['='] + value) == (FormDecode(name), FormDecode(value))
  {
    CutAt(name, '=', value);
    hide IndexOf;
    hide FormDecode;
  }

  lemma SignaturePiece(value: string)
    ensures Parse("signature=" + EncodeURIComponent(value)) == [("signature", value)]
  {
    hide Split;
    hide IndexOf;
    hide EncodeURIComponent;
    hide FormDecode;
    var e := EncodeURIComponent(value);
    var piece := "signature=" + e;
    ComponentChars(value);
    SplitFirst(piece, "");
    assert piece == "signature" + ['='] + e;
    PlainPair("signature", e);
    AlnumIsPlain("signature");
    ComponentInForm(value);
    hide ParsePair;
    assert ParseAll([piece]) == [ParsePair(piece)];
  }

  function Query(p: Platform, o: Options): string {
    var q := Serialize(Params(p, o));
    if o.signer.Some? then q + SIGNATURE + EncodeURIComponent(SignatureParam(p, o).value) else q
  }

  lemma QueryReadsBack(p: Platform, o: Options)
    ensures ReadQuery(Query(p, o)) == AllParams(p, o)
  {
    QueryParses(p, o);
    QueryChars(p, o);
    hide Query;
    hide Parse;
    assert Query(p, o)[0] in Query(p, o);
  }

  lemma QueryParses(p: Platform, o: Options)
    ensures Parse(Query(p, o)) == AllParams(p, o)
  {
    hide Parse;
    hide Params;
    hide EncodeURIComponent;
    hide Serialize;
    hide SignatureText;
    hide UnsignedUri;
    var ps := Params(p, o);
    ParseSerialize(ps, "");
    if o.signer.Some? {
      var value := SignatureParam(p, o).value;
      var piece := "signature=" + EncodeURIComponent(value);
      ParseSerialize(ps, piece);
      SignaturePiece(value);
      assert Query(p, o) == Serialize(ps) + "&" + piece;
      assert ps != [] by {
        ParamsNonEmpty(p, o);
      }
    }
  }

  lemma ParamsNonEmpty(p: Platform, o: Options)
    ensures Params(p, o) != []
  {
  }

  lemma UriIsHeadAndQuery(p: Platform, o: Options)
    ensures RequestUri(p, o) == SCHEME + "tx?" + Query(p, o)
  {
    hide Params;
    hide EncodeURIComponent;
    hide Serialize;
    hide SignatureText;
    var q := Serialize(Params(p, o));
    if o.signer.Some? {
      var e := EncodeURIComponent(SignatureParam(p, o).value);
      assert (SCHEME + "tx?" + q) + SIGNATURE + e == SCHEME + "tx?" + (q + SIGNATURE + e);
    }
  }

  /** The characters of an emitted query: none is white space, a line break, a question mark or a hash. */
  predicate QueryChar(c: char) {
    FormChar(c) || ComponentChar(c) || c == '=' || c == '&'
  }

  lemma QueryCharIsPlain(c: char)
    requires QueryChar(c)
    ensures !IsSpace(c) && !IsLineBreak(c)
  {
  }

  lemma QueryChars(p: Platform, o: Options)
    ensures Query(p, o) != ""
    ensures forall c :: c in Query(p, o) ==> QueryChar(c)
  {
    hide Params;
    hide Serialize;
    hide EncodeURIComponent;
    hide SignatureText;
    hide FormChar;
    hide ComponentChar;
    SerializeChars(Params(p, o));
    ParamsNonEmpty(p, o);
    SerializeNonEmpty(Params(p, o));
    if o.signer.Some? {
      var e := EncodeURIComponent(SignatureParam(p, o).value);
      ComponentChars(SignatureParam(p, o).value);
      assert Query(p, o) == Serialize(Params(p, o)) + SIGNATURE + e;
      SignatureNameChars();
    }
  }

  lemma SignatureNameChars()
    ensures forall c :: c in SIGNATURE ==> QueryChar(c)
  {
  }

  lemma SerializeNonEmpty(ps: Pairs)
    requires ps != []
    ensures Serialize(ps) != ""
  {
    PairChars(ps[0]);
    assert SerializeAll(ps)[0] == SerializePair(ps[0]);
  }

  lemma LowerStands(s: string)
    requires forall i :: 0 <= i < |s| ==> !('A' <= s[i] <= 'Z')
    ensures Lower(s) == s
  {
  }

  lemma OperationName(query: string)
    ensures var rest := "tx?" + query;
            LettersLength(rest) == 2 && rest[..2] == "tx" && rest[2] == '?' && rest[3..] == query
  {
    hide LettersLength;
    var rest := "tx?" + query;
    assert rest[0] == 't' && rest[1] == 'x' && rest[2] == '?';
  }

  lemma HeadOf(query: string)
    requires forall c :: c in query ==> !IsLineBreak(c)
    ensures Head(SCHEME + "tx?" + query) == Some(("tx", query))
  {
    hide LettersLength;
    hide Lower;
    hide IsLineBreak;
    var s := SCHEME + "tx?" + query;
    var rest := "tx?" + query;
    assert s[..|SCHEME|] == SCHEME && s[|SCHEME|..] == rest;
    assert rest[0] == 't';
    LowerStands(SCHEME);
    LowerStands("tx");
    OperationName(query);
  }

  lemma NothingToTrim(s: string)
    requires s != "" && !IsSpace(s[0]) && !IsSpace(s[|s| - 1])
    ensures Trim(s) == s
  {
  }

  lemma UriReadsBack(p: Platform, o: Options)
    ensures Trim(RequestUri(p, o)) == RequestUri(p, o)
    ensures Head(RequestUri(p, o)) == Some(("tx", Query(p, o)))
  {
    UriIsHeadAndQuery(p, o);
    QueryChars(p, o);
    var uri, q := RequestUri(p, o), Query(p, o);
    forall c | c in q
      ensures !IsSpace(c) && !IsLineBreak(c)
    {
      QueryCharIsPlain(c);
    }
    HeadOf(q);
    hide Query;
    hide RequestUri;
    hide Trim;
    hide Head;
    assert uri[|uri| - 1] == q[|q| - 1] && q[|q| - 1] in q && uri[0] == 'w';
    NothingToTrim(uri);
  }

  lemma ParamsGiveRequest(p: Platform, o: Options, want: Option<string>)
    requires ValidOptions(p, o, want)
    ensures ParseParams(p, AllParams(p, o), want, RequestUri(p, o)) == Success(Expected(p, o))
  {
    Lookup(p, o, "xdr");
    Lookup(p, o, "network_passphrase");
    Lookup(p, o, "pubkey");
    Lookup(p, o, "callback");
    Lookup(p, o, "msg");
    Lookup(p, o, "origin_domain");
    Lookup(p, o, "signature");
    NamesDiffer();
    hide Get;
    hide AllParams;
    hide IsDomain;
    hide Lower;
    hide RequestUri;
    hide UnsignedUri;
    hide SigningPayload;
    assert SignatureParam(p, o).Some? ==> SignatureParam(p, o).value != "";
  }

  /**
   A request read back by the wallet has every field the integrator put in, for all texts, with the
   callback's `url:` stripped and the domain in lower case.
   */
  lemma RequestRoundTrip(p: Platform, o: Options, want: Option<string>)
    requires ValidOptions(p, o, want)
    ensures ParseRequest(p, RequestUri(p, o), want) == Success(Expected(p, o))
  {
    UriReadsBack(p, o);
    QueryReadsBack(p, o);
    ParamsGiveRequest(p, o, want);
    hide ParseParams;
    hide ValidOptions;
    hide RequestUri;
    hide Query;
    hide AllParams;
    hide Trim;
    hide Head;
    hide ReadQuery;
    hide Expected;
  }

  /** The fields read back, one by one, as the integrator gave them. */
  lemma FieldsReadBack(p: Platform, o: Options, want: Option<string>, u: string)
    requires ValidOptions(p, o, want) && u != "" && !StartsWith(u, "url:")
    ensures ParseRequest(p, RequestUri(p, o), want).Success?
    ensures var r := ParseRequest(p, RequestUri(p, o), want).value;
            && r.xdr == o.xdr && (o.passphrase != "" ==> r.networkPassphrase == Some(o.passphrase))
            && (o.callback == Some(u) || o.callback == Some("url:" + u) ==> r.callback == Some(u))
            && (o.callback == None || o.callback == Some("") ==> r.callback.None?)
            && (o.pubkey.TheUser? && o.user != "" && p.accountKey(o.user) ==> r.pubkey == Some(o.user))
            && (o.pubkey.TheUser? && !p.accountKey(o.user) ==> r.pubkey.None?)
            && (o.pubkey.NoPubkey? ==> r.pubkey.None?)
            && (o.pubkey.Named? && o.pubkey.key != "" && p.accountKey(o.pubkey.key) ==> r.pubkey == Some(o.pubkey.key))
            && (o.pubkey.Named? && !p.accountKey(o.pubkey.key) ==> r.pubkey.None?)
            && (o.msg.Some? && o.msg.value != "" ==> r.msg == o.msg)
            && (o.msg == None || o.msg == Some("") ==> r.msg.None?)
            && (o.originDomain.Some? && o.originDomain.value != "" ==>
                  r.originDomain == Some(Lower(o.originDomain.value)))
            && (o.originDomain == None || o.originDomain == Some("") ==> r.originDomain.None?)
            && (r.signature.Some? <==> o.signer.Some?)
            && (o.signer.Some? ==>
                  r.signature == Some(Base64(p.sign(o.signer.value, SigningPayload(UnsignedUri(p, o))))))
  {
    RequestRoundTrip(p, o, want);
    hide ParseRequest;
    hide RequestUri;
    hide UnsignedUri;
    hide SigningPayload;
    hide Base64;
    hide Lower;
    hide IsDomain;
    assert ("url:" + u)[4..] == u && StartsWith("url:" + u, "url:");
  }

  /** What the emitter hands out a wallet can read, once callback, domain and network are what they claim to be. */
  lemma HandedOffIsReadable(p: Platform, o: Options)
    requires MayHandOff(p, o) && o.xdr != ""
    requires CallbackParam(o).Some? ==> p.httpUrl(CallbackParam(o).value[4..])
    requires NonEmpty(o.originDomain).Some? ==> IsDomain(o.originDomain.value)
    requires o.signer.Some? ==> p.sign(o.signer.value, SigningPayload(UnsignedUri(p, o))) != []
    ensures ParseRequest(p, RequestUri(p, o), None) == Success(Expected(p, o))
  {
    hide Relayer.CompleteWithUser;
    hide SigningPayload;
    hide UnsignedUri;
    hide IsDomain;
    assert ValidOptions(p, o, None);
    RequestRoundTrip(p, o, None);
  }

  // ---- the text that is printed -----------------------------------------------------------

  /** One more parameter at the end of a query, when it has a value. */
  function Part(name: string, value: Option<string>): string {
    if value.Some? then "&" + (name + "=" + FormEncode(value.value)) else ""
  }

  lemma {:induction false} JoinOneMore(pieces: seq<string>, last: string)
    requires pieces != []
    ensures Join(pieces + [last]) == Join(pieces) + ("&" + last)
  {
    if |pieces| > 1 {
      assert (pieces + [last])[1..] == pieces[1..] + [last];
      JoinOneMore(pieces[1..], last);
    } else {
      assert (pieces + [last])[1..] == [last];
    }
  }

  lemma AllOneMore(ps: Pairs, p: (string, string))
    ensures |SerializeAll(ps)| == |ps|
    ensures SerializeAll(ps + [p]) == SerializeAll(ps) + [FormEncode(p.0) + "=" + FormEncode(p.1)]
  {
    hide FormEncode;
  }

  lemma SerializeOneMore(ps: Pairs, name: string, value: Option<string>)
    requires ps != [] && forall c :: c in name ==> IsAlnum(c) || c == '_'
    ensures ps + Param(name, value) != []
    ensures Serialize(ps + Param(name, value)) == Serialize(ps) + Part(name, value)
  {
    hide Join;
    if value.Some? {
      AlnumEncodes(name);
      hide FormEncode;
      var piece := name + "=" + FormEncode(value.value);
      AllOneMore(ps, (name, value.value));
      hide SerializeAll;
      hide SerializePair;
      JoinOneMore(SerializeAll(ps), piece);
    } else {
      assert ps + Param(name, value) == ps;
    }
  }

  /** The request as text: every parameter in its place, absent ones left out, the signature last. */
  lemma UriExactly(p: Platform, o: Options)
    ensures UnsignedUri(p, o)
            == "web+stellar:tx?"
               + ("xdr=" + FormEncode(o.xdr) + Part("network_passphrase", Some(o.passphrase))
                  + Part("pubkey", PubkeyOf(p, o)) + Part("callback", CallbackParam(o))
                  + Part("msg", NonEmpty(o.msg)) + Part("origin_domain", NonEmpty(o.originDomain)))
    ensures var uri := UnsignedUri(p, o);
            RequestUri(p, o) == if o.signer.None? then uri
                                else uri + "&signature="
                                     + EncodeURIComponent(Base64(p.sign(o.signer.value, SigningPayload(uri))))
  {
    hide PubkeyOf;
    hide CallbackParam;
    hide EncodeURIComponent;
    hide Base64;
    hide SigningPayload;
    hide Part;
    hide Serialize;
    hide NonEmpty;
    hide Param;
    hide FormEncode;
    SerializeParts(o.xdr, o.passphrase, PubkeyOf(p, o), CallbackParam(o), NonEmpty(o.msg), NonEmpty(o.originDomain));
  }

  lemma SerializeParts(xdr: string, passphrase: string, pubkey: Option<string>, callback: Option<string>,
                       msg: Option<string>, domain: Option<string>)
    ensures Serialize([("xdr", xdr), ("network_passphrase", passphrase)] + Param("pubkey", pubkey)
                      + Param("callback", callback) + Param("msg", msg) + Param("origin_domain", domain))
            == "xdr=" + FormEncode(xdr) + Part("network_passphrase", Some(passphrase)) + Part("pubkey", pubkey)
               + Part("callback", callback) + Part("msg", msg) + Part("origin_domain", domain)
  {
    var a: Pairs := [("xdr", xdr)];
    FirstPart(xdr);
    PassphraseParam(passphrase);
    hide Serialize;
    hide Param;
    hide Part;
    hide FormEncode;
    var b := a + Param("network_passphrase", Some(passphrase));
    var c := b + Param("pubkey", pubkey);
    var d := c + Param("callback", callback);
    SerializeOneMore(a, "network_passphrase", Some(passphrase));
    SerializeOneMore(b, "pubkey", pubkey);
    SerializeOneMore(c, "callback", callback);
    SerializeOneMore(d, "msg", msg);
    SerializeOneMore(d + Param("msg", msg), "origin_domain", domain);
    assert b == [("xdr", xdr), ("network_passphrase", passphrase)];
  }

  lemma PassphraseParam(passphrase: string)
    ensures Param("network_passphrase", Some(passphrase)) == [("network_passphrase", passphrase)]
  {
  }

  lemma FirstPart(xdr: string)
    ensures Serialize([("xdr", xdr)]) == "xdr=" + FormEncode(xdr)
  {
    AlnumEncodes("xdr");
    hide FormEncode;
    assert SerializeAll([("xdr", xdr)]) == ["xdr" + "=" + FormEncode(xdr)];
  }

  // ---- what parses and what is refused ----------------------------------------------------

  /** The verdict on the looked-up fields: the first thing wrong, in this order, or every field as it stands. */
  lemma FieldsVerdict(p: Platform, f: Fields, want: Option<string>, uri: string)
    ensures var r := ParseFields(p, f, want, uri);
            var network := f.passphrase.GetOr("") != "" && want.GetOr("") != "" ==> f.passphrase == want;
            var decodes := f.xdr.Some? && p.decode(f.xdr.value, want.GetOr(f.passphrase.GetOr(""))).Some?;
            var called := f.callback.GetOr("") != "" ==>
                            "url:" <= f.callback.value && p.httpUrl(f.callback.value[4..]);
            var keyed := f.pubkey.Some? ==> p.accountKey(f.pubkey.value);
            var brief := f.msg.Some? ==> Utf16Length(f.msg.value) <= 300;
            var named := f.domain.Some? ==> IsDomain(f.domain.value);
            var provided := f.signature.Some? ==> f.domain.Some?;
            && (r == Failure(NoXdr) <==> f.xdr.None?)
            && (r == Failure(OtherNetwork) <==> f.xdr.Some? && !network)
            && (r == Failure(NotAnEnvelope) <==> f.xdr.Some? && network && !decodes)
            && (r == Failure(BadCallback) <==> network && decodes && !called)
            && (r == Failure(BadPubkey) <==> network && decodes && called && !keyed)
            && (r == Failure(BadMsg) <==> network && decodes && called && keyed && !brief)
            && (r == Failure(BadDomain) <==> network && decodes && called && keyed && brief && !named)
            && (r == Failure(SignedWithoutDomain) <==>
                  network && decodes && called && keyed && brief && named && !provided)
            && (r.Success? <==> network && decodes && called && keyed && brief && named && provided)
            && (r.Success? ==>
                  && r.value.xdr == f.xdr.value && r.value.uri == uri
                  && r.value.pubkey == f.pubkey && r.value.msg == f.msg && r.value.signature == f.signature
                  && (r.value.networkPassphrase.Some? <==> f.passphrase.GetOr("") != "")
                  && (r.value.networkPassphrase.Some? ==> r.value.networkPassphrase == f.passphrase)
                  && (r.value.callback.Some? <==> f.callback.GetOr("") != "")
                  && (r.value.callback.Some? ==> f.callback == Some("url:" + r.value.callback.value))
                  && (r.value.originDomain.Some? <==> f.domain.Some?)
                  && (r.value.originDomain.Some? ==> r.value.originDomain.value == Lower(f.domain.value)))
  {
    hide IsDomain;
    hide Lower;
    hide Utf16Length;
    if f.callback.Some? && StartsWith(f.callback.value, "url:") {
      assert f.callback.value == "url:" + f.callback.value[4..];
    }
  }

  /** What a parameter list is looked up as: the first value of each name, an empty one counting as absent. */
  lemma FieldsExactly(params: Pairs)
    ensures var f := FieldsOf(params);
            && f.passphrase == Get(params, "network_passphrase") && f.callback == Get(params, "callback")
            && (f.xdr == if Get(params, "xdr") == Some("") then None else Get(params, "xdr"))
            && (f.pubkey == if Get(params, "pubkey") == Some("") then None else Get(params, "pubkey"))
            && (f.msg == if Get(params, "msg") == Some("") then None else Get(params, "msg"))
            && (f.domain == if Get(params, "origin_domain") == Some("") then None else Get(params, "origin_domain"))
            && (f.signature == if Get(params, "signature") == Some("") then None else Get(params, "signature"))
  {
    hide Get;
  }

  /** Only a SEP-7 text with the operation `tx`, in whatever case, gets as far as its parameters. */
  lemma OnlyTxParses(p: Platform, uri: string, want: Option<string>)
    ensures var head := Head(Trim(uri));
            && (ParseRequest(p, uri, want) == Failure(NotSep7) <==> head.None?)
            && (ParseRequest(p, uri, want) == Failure(OtherOperation) <==> head.Some? && head.value.0 != "tx")
            && (head.Some? && head.value.0 == "tx" ==>
                  ParseRequest(p, uri, want) == ParseFields(p, FieldsOf(ReadQuery(head.value.1)), want, Trim(uri)))
  {
    hide Head;
    hide Trim;
    hide ReadQuery;
    hide FieldsOf;
    hide IsDomain;
    hide Lower;
  }

  /** The parts of a request text. */
  predicate Written(s: string, scheme: string, slashes: string, name: string, query: string) {
    && s == scheme + slashes + name + "?" + query
    && Lower(scheme) == "web+stellar:" && (slashes == "" || slashes == "//")
    && name != "" && (forall c :: c in name ==> IsLetter(c))
    && (forall c :: c in query ==> !IsLineBreak(c))
  }

  /** A text has a head exactly when it is written so, in any case, with or without slashes. */
  lemma HeadExactly(s: string, name: string, query: string)
    ensures Head(s) == Some((name, query))
            <==> exists scheme, slashes, word :: Written(s, scheme, slashes, word, query) && Lower(word) == name
  {
    if Head(s) == Some((name, query)) {
      HeadIsWritten(s);
    }
    forall scheme, slashes, word | Written(s, scheme, slashes, word, query) && Lower(word) == name
      ensures Head(s) == Some((name, query))
    {
      WrittenHead(s, scheme, slashes, word, query);
    }
  }

  lemma WordIsLetters(rest: string)
    ensures forall c :: c in rest[..LettersLength(rest)] ==> IsLetter(c)
  {
    hide IsLetter;
    var n := LettersLength(rest);
    hide LettersLength;
    var word := rest[..n];
    assert forall i :: 0 <= i < n ==> word[i] == rest[i];
  }

  lemma CutOut(s: string, n: nat, mark: char)
    requires n < |s| && s[n] == mark
    ensures s == s[..n] + ([mark] + s[n + 1..])
  {
  }

  lemma OperationParts(rest: string)
    requires Operation(rest).Some?
    ensures var n := LettersLength(rest);
            && 0 < n < |rest| && rest[n] == '?' && Operation(rest).value == (Lower(rest[..n]), rest[n + 1..])
            && forall c :: c in rest[n + 1..] ==> !IsLineBreak(c)
  {
    hide LettersLength;
    hide Lower;
    hide IsLineBreak;
    hide IsLetter;
  }

  lemma OperationIsWritten(rest: string)
    requires Operation(rest).Some?
    ensures var n, query := LettersLength(rest), Operation(rest).value.1;
            && 0 < n < |rest| && rest == rest[..n] + (['?'] + query) && Operation(rest).value.0 == Lower(rest[..n])
            && (forall c :: c in rest[..n] ==> IsLetter(c)) && (forall c :: c in query ==> !IsLineBreak(c))
  {
    OperationParts(rest);
    WordIsLetters(rest);
    CutOut(rest, LettersLength(rest), '?');
    hide Operation;
    hide LettersLength;
    hide Lower;
    hide IsLineBreak;
    hide IsLetter;
  }

  lemma StartIsWritten(s: string)
    requires HasScheme(s)
    ensures var k, start := |SCHEME|, NameStart(s);
            && k <= start && (s[k..start] == "" || s[k..start] == "//") && Lower(s[..k]) == "web+stellar:"
  {
    hide Lower;
    var k, start := |SCHEME|, NameStart(s);
    assert start == k + 2 ==> s[k..start] == s[k..][..2];
  }

  lemma HeadIsWritten(s: string)
    requires Head(s).Some?
    ensures exists scheme, slashes, word ::
              Written(s, scheme, slashes, word, Head(s).value.1) && Lower(word) == Head(s).value.0
  {
    hide LettersLength;
    hide Lower;
    hide IsLineBreak;
    hide IsLetter;
    StartIsWritten(s);
    hide HasScheme;
    hide NameStart;
    var k, start := |SCHEME|, NameStart(s);
    var rest := s[start..];
    OperationIsWritten(rest);
    hide Operation;
    var n, query := LettersLength(rest), Operation(rest).value.1;
    var scheme, slashes, word := s[..k], s[k..start], rest[..n];
    assert ['?'] + query == "?" + query;
    assert scheme + slashes == s[..start];
    assert s == scheme + slashes + rest;
    Regroup(scheme + slashes, word, "?" + query);
    Regroup(scheme + slashes + word, "?", query);
    assert Written(s, scheme, slashes, word, query);
  }

  lemma LettersOfWord(word: string, rest: string)
    requires forall c :: c in word ==> IsLetter(c)
    requires rest != "" && !IsLetter(rest[0])
    ensures LettersLength(word + rest) == |word|
  {
    hide LettersLength;
    hide IsLetter;
    var s := word + rest;
    assert s[|word|] == rest[0];
    assert forall i :: 0 <= i < |word| ==> s[i] == word[i] && word[i] in word;
  }

  lemma WrittenStart(s: string, scheme: string, slashes: string, rest: string)
    requires s == scheme + slashes + rest && Lower(scheme) == SCHEME
    requires (slashes == "" && rest != "" && rest[0] != '/') || slashes == "//"
    ensures HasScheme(s) && s[NameStart(s)..] == rest
  {
    LowerLength(scheme);
    hide Lower;
    var k := |SCHEME|;
    assert s[..k] == scheme && s[k..] == slashes + rest;
    if slashes == "" {
      assert s[k..] == rest;
    } else {
      assert (slashes + rest)[..2] == "//";
      assert s[k + 2..] == rest;
    }
  }

  lemma WrittenOperation(word: string, query: string)
    requires word != "" && forall c :: c in word ==> IsLetter(c)
    requires forall c :: c in query ==> !IsLineBreak(c)
    ensures Operation(word + ("?" + query)) == Some((Lower(word), query))
  {
    var rest := word + ("?" + query);
    LettersOfWord(word, "?" + query);
    hide LettersLength;
    hide Lower;
    hide IsLineBreak;
    hide IsLetter;
    assert rest[..|word|] == word && rest[|word|] == '?' && rest[|word| + 1..] == query;
  }

  lemma WrittenHead(s: string, scheme: string, slashes: string, word: string, query: string)
    requires Written(s, scheme, slashes, word, query)
    ensures Head(s) == Some((Lower(word), query))
  {
    var rest := word + ("?" + query);
    assert s == scheme + slashes + rest;
    assert word[0] in word && rest[0] == word[0] && IsLetter(word[0]) && rest[0] != '/';
    hide Lower;
    hide HasScheme;
    hide NameStart;
    hide Operation;
    hide IsLineBreak;
    hide IsLetter;
    WrittenStart(s, scheme, slashes, rest);
    WrittenOperation(word, query);
  }

  predicate Blank(s: string) {
    forall c :: c in s ==> IsSpace(c)
  }

  lemma {:induction false} TrimStartExactly(s: string)
    ensures exists front :: s == front + TrimStart(s) && Blank(front)
    ensures TrimStart(s) == "" || !IsSpace(TrimStart(s)[0])
  {
    hide IsSpace;
    if s != "" && IsSpace(s[0]) {
      TrimStartExactly(s[1..]);
      var front :| s[1..] == front + TrimStart(s[1..]) && Blank(front);
      assert s == ([s[0]] + front) + TrimStart(s) && Blank([s[0]] + front);
    } else {
      assert s == "" + TrimStart(s) && Blank("");
    }
  }

  lemma {:induction false} TrimEndExactly(s: string)
    ensures exists back :: s == TrimEnd(s) + back && Blank(back)
    ensures TrimEnd(s) <= s && (TrimEnd(s) == "" || !IsSpace(TrimEnd(s)[|TrimEnd(s)| - 1]))
  {
    hide IsSpace;
    if s != "" && IsSpace(s[|s| - 1]) {
      var init := s[..|s| - 1];
      TrimEndExactly(init);
      var back :| init == TrimEnd(init) + back && Blank(back);
      assert s == TrimEnd(s) + (back + [s[|s| - 1]]) && Blank(back + [s[|s| - 1]]);
    } else {
      assert s == TrimEnd(s) + "" && Blank("");
    }
  }

  /** Trimming takes the blanks off both ends, all of them and nothing else. */
  lemma TrimExactly(s: string)
    ensures exists front, back :: s == front + Trim(s) + back && Blank(front) && Blank(back)
    ensures Trim(s) == "" || (!IsSpace(Trim(s)[0]) && !IsSpace(Trim(s)[|Trim(s)| - 1]))
  {
    var t := TrimStart(s);
    TrimStartExactly(s);
    TrimEndExactly(t);
    hide IsSpace;
    hide TrimStart;
    hide TrimEnd;
    hide Blank;
    var front :| s == front + t && Blank(front);
    var back :| t == TrimEnd(t) + back && Blank(back);
    assert s == front + Trim(s) + back;
    assert Trim(s) != "" ==> Trim(s)[0] == t[0];
  }

  /** White space and line ends as ECMAScript lists them. */
  lemma SpacesExactly(c: char)
    ensures IsLineBreak(c) <==> c in "\n\r\U{2028}\U{2029}"
    ensures IsSpace(c) <==> c in "\t\n\U{B}\U{C}\r \U{A0}\U{1680}\U{2000}\U{2001}\U{2002}\U{2003}\U{2004}\U{2005}"
                                  + "\U{2006}\U{2007}\U{2008}\U{2009}\U{200A}\U{2028}\U{2029}\U{202F}\U{205F}\U{3000}"
                                  + "\U{FEFF}"
  {
  }

  /** Lower case, letter by letter. */
  lemma LowerExactly(s: string, i: nat)
    requires i < |s|
    ensures |Lower(s)| == |s|
    ensures IsLetter(s[i]) <==> IsLetter(Lower(s)[i])
    ensures 'a' <= s[i] <= 'z' ==> Lower(s)[i] == s[i]
    ensures 'A' <= s[i] <= 'Z' ==> 'a' <= Lower(s)[i] <= 'z' && Lower(s)[i] as int - s[i] as int == 32
    ensures !IsLetter(s[i]) ==> Lower(s)[i] == s[i]
  {
  }

  // ---- domains and lengths ----------------------------------------------------------------

  lemma LabelsExactly(s: string)
    ensures IsLabel(s) <==>
              && 1 <= |s| <= 63 && s[0] != '-' && s[|s| - 1] != '-'
              && forall c :: c in s ==> 'a' <= c <= 'z' || 'A' <= c <= 'Z' || '0' <= c <= '9' || c == '-'
  {
    if s != "" {
      assert s[0] in s && s[|s| - 1] in s;
    }
  }

  /** A domain's tail is labels, each ended by a dot, and a top level of 2 to 63 letters. */
  lemma {:induction false} TailOfLabels(first: string, rest: string)
    requires '.' !in first
    ensures IsDomainTail(first + "." + rest) <==> IsLabel(first) && IsDomainTail(rest)
    ensures IsDomainTail(first) <==> 2 <= |first| <= 63 && forall c :: c in first ==> 'a' <= c <= 'z' || 'A' <= c <= 'Z'
  {
    IndexOfFirst(first, '.', rest);
    assert (first + ['.'] + rest)[..|first|] == first && (first + ['.'] + rest)[|first| + 1..] == rest;
    hide IndexOf;
    hide IsLabel;
  }

  lemma DomainsExactly(s: string)
    ensures IsDomain(s) <==> |s| <= 253 && '.' in s && IsDomainTail(s)
  {
    hide IsDomainTail;
    if '.' in s {
      var i :| 0 <= i < |s| && s[i] == '.';
      assert IndexOf(s, '.') <= i;
    }
  }

  /** Length in UTF-16 code units: two for a character beyond the basic plane, one for any other. */
  lemma {:induction false} Utf16Exactly(a: string, c: char)
    ensures Utf16Length(a + [c]) == Utf16Length(a) + if c as int <= 0xFFFF then 1 else 2
  {
    if a == "" {
      assert a + [c] == [c];
    } else {
      assert (a + [c])[1..] == a[1..] + [c];
      Utf16Exactly(a[1..], c);
    }
  }

  // ---- whatever parses can be re-emitted --------------------------------------------------

  lemma {:induction false} LowerKeepsDot(s: string)
    ensures IndexOf(Lower(s), '.') == IndexOf(s, '.')
  {
    if s != "" {
      assert Lower(s)[0] == LowerChar(s[0]);
      assert Lower(s)[1..] == Lower(s[1..]);
      LowerKeepsDot(s[1..]);
    }
  }

  lemma LowerKeepsChars(s: string)
    ensures (forall c :: c in s ==> IsLetter(c)) ==> forall c :: c in Lower(s) ==> IsLetter(c)
    ensures IsLabel(s) ==> IsLabel(Lower(s))
  {
    forall c | c in Lower(s)
      ensures exists d :: d in s && c == LowerChar(d)
    {
      var k :| 0 <= k < |Lower(s)| && Lower(s)[k] == c;
      assert s[k] in s && c == LowerChar(s[k]);
    }
  }

  lemma LowerSlices(s: string, i: nat)
    requires i < |s|
    ensures Lower(s)[..i] == Lower(s[..i]) && Lower(s)[i + 1..] == Lower(s[i + 1..])
  {
  }

  lemma LowerLength(s: string)
    ensures |Lower(s)| == |s|
  {
  }

  lemma LowerLabels(s: string, i: nat)
    requires i == IndexOf(s, '.') < |s| && IsLabel(s[..i]) && IsDomainTail(Lower(s[i + 1..]))
    ensures IsDomainTail(Lower(s))
  {
    LowerKeepsDot(s);
    LowerKeepsChars(s[..i]);
    LowerLength(s);
    LowerSlices(s, i);
    hide IndexOf;
    hide IsLabel;
    hide Lower;
  }

  lemma LowerTop(s: string)
    requires IndexOf(s, '.') == |s| && 2 <= |s| <= 63 && forall c :: c in s ==> IsLetter(c)
    ensures IsDomainTail(Lower(s))
  {
    LowerKeepsDot(s);
    LowerKeepsChars(s);
    LowerLength(s);
    hide IndexOf;
    hide IsLetter;
    hide Lower;
  }

  lemma {:induction false} LowerKeepsTail(s: string)
    requires IsDomainTail(s)
    ensures IsDomainTail(Lower(s))
    decreases |s|
  {
    hide IndexOf;
    hide IsLabel;
    hide IsLetter;
    hide Lower;
    var i := IndexOf(s, '.');
    if i == |s| {
      LowerTop(s);
    } else {
      LowerKeepsTail(s[i + 1..]);
      LowerLabels(s, i);
    }
  }

  /** The lower-case form of a domain is a domain and its own lower-case form. */
  lemma LowerDomain(s: string)
    requires IsDomain(s)
    ensures IsDomain(Lower(s)) && Lower(Lower(s)) == Lower(s)
  {
    LowerKeepsDot(s);
    LowerKeepsTail(s);
  }

  function Reemit(r: Request): Options {
    Options(r.xdr, r.networkPassphrase.GetOr(""), "",
            if r.callback.Some? then Some("url:" + r.callback.value) else None,
            if r.pubkey.Some? then Named(r.pubkey.value) else NoPubkey,
            r.msg, r.originDomain, None)
  }

  /** Every request that parses at all, from any text, is one the emitter could have been asked for. */
  lemma ParsedIsEmittable(p: Platform, uri: string, want: Option<string>)
    requires ParseRequest(p, uri, want).Success?
    ensures ValidOptions(p, Reemit(ParseRequest(p, uri, want).value), want)
  {
    hide Head;
    hide ReadQuery;
    hide IsDomain;
    hide Utf16Length;
    var query := Head(Trim(uri)).value.1;
    var domain := NonEmpty(Get(ReadQuery(query), "origin_domain"));
    if domain.Some? {
      LowerDomain(domain.value);
    }
    hide Get;
    var r := ParseRequest(p, uri, want).value;
    assert r.callback.Some? ==> ("url:" + r.callback.value)[4..] == r.callback.value;
  }

  /** Parsing is a normal form: emitting what was read and reading it again changes nothing but the signature. */
  lemma ReemitIsStable(p: Platform, uri: string, want: Option<string>)
    requires ParseRequest(p, uri, want).Success?
    ensures var r := ParseRequest(p, uri, want).value;
            ParseRequest(p, RequestUri(p, Reemit(r)), want)
            == Success(r.(signature := None, uri := RequestUri(p, Reemit(r))))
  {
    var r := ParseRequest(p, uri, want).value;
    ParsedIsEmittable(p, uri, want);
    RequestRoundTrip(p, Reemit(r), want);
    ReemitReads(p, uri, want);
  }

  lemma ReemitReads(p: Platform, uri: string, want: Option<string>)
    requires ParseRequest(p, uri, want).Success?
    ensures var r := ParseRequest(p, uri, want).value;
            Expected(p, Reemit(r)) == r.(signature := None, uri := RequestUri(p, Reemit(r)))
  {
    hide Head;
    hide ReadQuery;
    hide IsDomain;
    hide Utf16Length;
    hide RequestUri;
    var query := Head(Trim(uri)).value.1;
    var domain := NonEmpty(Get(ReadQuery(query), "origin_domain"));
    if domain.Some? {
      LowerDomain(domain.value);
    }
    hide Get;
    var r := ParseRequest(p, uri, want).value;
    assert r.callback.Some? ==> ("url:" + r.callback.value)[4..] == r.callback.value;
  }

  // ---- signing and verifying --------------------------------------------------------------

  function LastIndexOf(s: string, c: char): (i: int)
    ensures -1 <= i < |s|
    ensures i >= 0 ==> s[i] == c
    ensures forall k :: i < k < |s| ==> s[k] != c
  {
    if s == "" then -1
    else if s[|s| - 1] == c then |s| - 1
    else LastIndexOf(s[..|s| - 1], c)
  }

  /** A trailing signature parameter: its start, when the last parameter is one. */
  function SignatureAt(uri: string): Option<nat> {
    var i := LastIndexOf(uri, '&');
    if i >= 0 && StartsWith(uri[i..], SIGNATURE) then Some(i) else None
  }

  function WithoutSignature(uri: string): string {
    if SignatureAt(uri).Some? then uri[..SignatureAt(uri).value] else uri
  }

  /** False for a missing, malformed or mismatching signature. */
  predicate VerifySignature(p: Platform, uri: string, key: string) {
    var trimmed := Trim(uri);
    var at := SignatureAt(trimmed);
    && at.Some? && p.accountKey(key)
    && var text := DecodeURIComponent(trimmed[at.value + |SIGNATURE|..]);
       && text.Some?
       && var sig := Base64Decode(text.value);
          |sig| == 64 && p.verify(key, SigningPayload(WithoutSignature(trimmed)), sig)
  }

  lemma {:induction false} LastAmpersand(a: string, b: string)
    requires '&' !in b
    ensures LastIndexOf(a + "&" + b, '&') == |a|
  {
    var s := a + "&" + b;
    if b == "" {
      assert s[|s| - 1] == '&';
    } else {
      var front := b[..|b| - 1];
      assert s[..|s| - 1] == a + "&" + front;
      assert s[|s| - 1] == b[|b| - 1];
      LastAmpersand(a, front);
    }
  }

  lemma SignatureFound(uri: string, value: string)
    ensures var signed := uri + SIGNATURE + EncodeURIComponent(value);
            && SignatureAt(signed) == Some(|uri|)
            && WithoutSignature(signed) == uri
            && signed[|uri| + |SIGNATURE|..] == EncodeURIComponent(value)
  {
    hide LastIndexOf;
    hide EncodeURIComponent;
    var e := EncodeURIComponent(value);
    ComponentChars(value);
    var signed := uri + SIGNATURE + e;
    assert signed == uri + "&" + ("signature=" + e);
    LastAmpersand(uri, "signature=" + e);
    assert signed[|uri|..] == SIGNATURE + e;
  }

  /** Stripping the signature of an emitted request gives exactly the text that was signed. */
  lemma StripGivesSigned(p: Platform, o: Options)
    requires o.signer.Some?
    ensures WithoutSignature(RequestUri(p, o)) == UnsignedUri(p, o)
  {
    SignatureFound(UnsignedUri(p, o), SignatureText(p, o.signer.value, UnsignedUri(p, o)));
  }

  /** Every signed emitted request verifies under the key that signed it. */
  lemma SignedRequestVerifies(p: Platform, o: Options)
    requires o.signer.Some? && p.accountKey(o.signer.value)
    requires var m := SigningPayload(UnsignedUri(p, o));
             |p.sign(o.signer.value, m)| == 64 && p.verify(o.signer.value, m, p.sign(o.signer.value, m))
    ensures VerifySignature(p, RequestUri(p, o), o.signer.value)
  {
    hide SigningPayload;
    hide UnsignedUri;
    hide Base64;
    hide Base64Decode;
    hide DecodeURIComponent;
    hide EncodeURIComponent;
    hide SignatureAt;
    hide Trim;
    var uri := UnsignedUri(p, o);
    UriReadsBack(p, o);
    StripGivesSigned(p, o);
    SignatureFound(uri, SignatureText(p, o.signer.value, uri));
    ComponentRoundTrip(SignatureText(p, o.signer.value, uri));
    Base64RoundTrip(p.sign(o.signer.value, SigningPayload(uri)));
  }

  // what a signature on a received text covers

  lemma LettersOfPrefix(s: string, m: nat)
    requires LettersLength(s) < m <= |s|
    ensures LettersLength(s[..m]) == LettersLength(s)
  {
    hide LettersLength;
  }

  lemma OperationOfPrefix(s: string, m: nat)
    requires Operation(s).Some? && m < |s| && s[m] == '&'
    ensures |s| - m <= |Operation(s).value.1|
    ensures var (name, query) := Operation(s).value;
            Operation(s[..m]) == Some((name, query[..|query| - (|s| - m)]))
    ensures |Operation(s).value.1| <= |s| && s[|s| - |Operation(s).value.1|..] == Operation(s).value.1
  {
    hide LettersLength;
    hide IsLineBreak;
    var n, query := LettersLength(s), s[LettersLength(s) + 1..];
    assert m > n;
    LettersOfPrefix(s, m);
    var cut := |query| - (|s| - m);
    assert s[..m][..n] == s[..n] && s[..m][n + 1..] == query[..cut];
    assert forall c :: c in query[..cut] ==> c in query;
    hide Lower;
  }

  /** Neither the scheme nor the slashes hold an ampersand. */
  lemma SchemeOfPrefix(t: string, m: nat)
    requires HasScheme(t) && m < |t| && t[m] == '&'
    ensures HasScheme(t[..m]) && NameStart(t) <= m && NameStart(t[..m]) == NameStart(t)
  {
    var k := |SCHEME|;
    assert forall j :: 0 <= j < k ==> SCHEME[j] != '&';
    assert m < k ==> Lower(t[..k])[m] == LowerChar(t[m]);
    assert t[..m][..k] == t[..k];
    assert |t| > k && t[k] == t[k..][0];
    assert |t| > k + 1 ==> t[k + 1] == t[k..][1];
    assert t[..m][k..] == t[k..][..m - k];
  }

  /** Cutting a request text at an ampersand cuts its query there and leaves the operation. */
  lemma HeadOfPrefix(t: string, m: nat)
    requires Head(t).Some? && m < |t| && t[m] == '&'
    ensures |t| - m <= |Head(t).value.1|
    ensures Head(t[..m]) == Some((Head(t).value.0, Head(t).value.1[..|Head(t).value.1| - (|t| - m)]))
    ensures |Head(t).value.1| <= |t| && t[|t| - |Head(t).value.1|..] == Head(t).value.1
  {
    SchemeOfPrefix(t, m);
    hide HasScheme;
    hide NameStart;
    var start := NameStart(t);
    var rest := t[start..];
    assert rest[m - start] == '&' && t[..m][start..] == rest[..m - start];
    OperationOfPrefix(rest, m - start);
    hide Operation;
    var q := Operation(rest).value.1;
    assert t[|t| - |q|..] == rest[|rest| - |q|..];
  }

  lemma ParseTail(q: string, v: string)
    requires '&' !in v
    ensures Parse(q + "&" + ("signature=" + v)) == Parse(q) + [("signature", FormDecode(v))]
  {
    hide Split;
    hide IndexOf;
    hide FormDecode;
    hide ParsePair;
    var piece := "signature=" + v;
    SplitAt(q, piece);
    SplitFirst(piece, "");
    assert piece == "signature" + ['='] + v;
    PlainPair("signature", v);
    AlnumIsPlain("signature");
    ParseAllConcat(Split(q), [piece]);
    assert ParseAll([piece]) == [ParsePair(piece)];
  }

  lemma QueryWithTail(query: string, v: string)
    requires '&' !in v
    ensures ReadQuery(query + SIGNATURE + v) == ReadQuery(query) + [("signature", FormDecode(v))]
  {
    hide Parse;
    hide FormDecode;
    var all, tail := query + SIGNATURE + v, "signature=" + v;
    assert all == query + "&" + tail;
    if query != "" && query[0] == '?' {
      assert all[0] == '?' && all[1..] == query[1..] + "&" + tail;
      ParseTail(query[1..], v);
    } else {
      assert all[0] == if query == "" then '&' else query[0];
      ParseTail(query, v);
    }
  }

  /** A trailing signature parameter adds nothing to the other names of a query. */
  lemma SignatureAddsNothing(query: string, v: string, name: string)
    requires '&' !in v && name != "signature"
    ensures Get(ReadQuery(query + SIGNATURE + v), name) == Get(ReadQuery(query), name)
  {
    QueryWithTail(query, v);
    hide ReadQuery;
    GetConcat(ReadQuery(query), [("signature", FormDecode(v))], name);
  }

  /** What a received text asks for apart from its signature, read off a part of that text. */
  function ReadSigned(p: Platform, signed: string, want: Option<string>): Result<Request, ParseError> {
    match Head(signed)
    case None => Failure(NotSep7)
    case Some((op, query)) =>
      if op != "tx" then Failure(OtherOperation) else ParseParams(p, ReadQuery(query), want, signed)
  }

  lemma TrimmedParts(t: string)
    requires SignatureAt(t).Some?
    ensures var i := SignatureAt(t).value;
            && t[i] == '&' && t[..i] == WithoutSignature(t)
            && t[i..] == SIGNATURE + t[i + |SIGNATURE|..]
            && '&' !in t[i + |SIGNATURE|..]
  {
    hide LastIndexOf;
    var i := SignatureAt(t).value;
    assert t[i..][..|SIGNATURE|] == SIGNATURE;
    assert t[i..] == SIGNATURE + t[i + |SIGNATURE|..];
    assert t[i..][0] == '&';
    var tail := t[i + |SIGNATURE|..];
    forall k | 0 <= k < |tail|
      ensures tail[k] != '&'
    {
      assert tail[k] == t[i + |SIGNATURE| + k];
    }
  }

  lemma CutSuffix(t: string, q: string, i: nat)
    requires i <= |t| && |t| - i <= |q| <= |t| && t[|t| - |q|..] == q
    ensures q == q[..|q| - (|t| - i)] + t[i..]
  {
    assert q[|q| - (|t| - i)..] == t[i..];
  }

  lemma Regroup(a: string, b: string, c: string)
    ensures a + (b + c) == a + b + c
  {
  }

  lemma QueryWithoutSignature(t: string)
    requires Head(t).Some? && SignatureAt(t).Some?
    ensures Head(WithoutSignature(t)).Some? && Head(WithoutSignature(t)).value.0 == Head(t).value.0
    ensures var i := SignatureAt(t).value;
            Head(t).value.1 == Head(WithoutSignature(t)).value.1 + SIGNATURE + t[i + |SIGNATURE|..]
  {
    TrimmedParts(t);
    hide SignatureAt;
    hide WithoutSignature;
    hide Head;
    var i := SignatureAt(t).value;
    HeadOfPrefix(t, i);
    var q := Head(t).value.1;
    CutSuffix(t, q, i);
    Regroup(q[..|q| - (|t| - i)], SIGNATURE, t[i + |SIGNATURE|..]);
  }

  /**
   Of any received text that verifies, the signature covers everything but itself: the text that was signed
   asks for the same envelope, network, callback, signer, message and domain as the whole text does.
   */
  lemma VerifiedIsSigned(p: Platform, uri: string, want: Option<string>, key: string)
    requires ParseRequest(p, uri, want).Success? && VerifySignature(p, uri, key)
    ensures var signed := WithoutSignature(Trim(uri));
            && (exists sig: seq<Byte> :: |sig| == 64 && p.verify(key, SigningPayload(signed), sig))
            && var r, read := ParseRequest(p, uri, want).value, ReadSigned(p, signed, want);
               read.Success? && r == read.value.(signature := r.signature, uri := r.uri)
  {
    var t := Trim(uri);
    var signed := WithoutSignature(t);
    var text := DecodeURIComponent(t[SignatureAt(t).value + |SIGNATURE|..]).value;
    assert p.verify(key, SigningPayload(signed), Base64Decode(text));
    QueryWithoutSignature(t);
    TrimmedParts(t);
    var v := t[SignatureAt(t).value + |SIGNATURE|..];
    hide Head;
    hide SignatureAt;
    hide WithoutSignature;
    hide VerifySignature;
    hide SigningPayload;
    SameFields(p, Head(signed).value.1, v, want, t, signed);
    hide ParseParams;
  }

  lemma SameFields(p: Platform, query: string, v: string, want: Option<string>, t: string, signed: string)
    requires '&' !in v && ParseParams(p, ReadQuery(query + SIGNATURE + v), want, t).Success?
    ensures var r := ParseParams(p, ReadQuery(query + SIGNATURE + v), want, t).value;
            var read := ParseParams(p, ReadQuery(query), want, signed);
            read.Success? && r == read.value.(signature := r.signature, uri := t)
  {
    hide FieldsOf;
    hide ReadQuery;
    hide ParseFields;
    FieldsWithTail(query, v);
    OtherSignature(p, FieldsOf(ReadQuery(query)), FieldsOf(ReadQuery(query + SIGNATURE + v)), want, t, signed);
  }

  /** Fields that parse still parse with the signature taken away or exchanged for an earlier one. */
  lemma OtherSignature(p: Platform, f: Fields, f': Fields, want: Option<string>, t: string, signed: string)
    requires f' == f.(signature := f'.signature) && (f.signature.Some? ==> f'.signature.Some?)
    requires ParseFields(p, f', want, t).Success?
    ensures ParseFields(p, f, want, signed).Success?
    ensures ParseFields(p, f', want, t).value
            == ParseFields(p, f, want, signed).value.(signature := f'.signature, uri := t)
  {
    hide IsDomain;
    hide Lower;
    hide Utf16Length;
    hide ParseCallback;
  }

  lemma FieldsWithTail(query: string, v: string)
    requires '&' !in v
    ensures var f, f' := FieldsOf(ReadQuery(query)), FieldsOf(ReadQuery(query + SIGNATURE + v));
            f' == f.(signature := f'.signature) && (f.signature.Some? ==> f'.signature.Some?)
  {
    hide Get;
    hide ReadQuery;
    SignatureAddsNothing(query, v, "xdr");
    SignatureAddsNothing(query, v, "network_passphrase");
    SignatureAddsNothing(query, v, "callback");
    SignatureAddsNothing(query, v, "pubkey");
    SignatureAddsNothing(query, v, "msg");
    SignatureAddsNothing(query, v, "origin_domain");
    FirstSignature(query, v);
  }

  /** A signature named earlier in the query is read first. */
  lemma FirstSignature(query: string, v: string)
    requires '&' !in v
    ensures Get(ReadQuery(query + SIGNATURE + v), "signature")
            == var first := Get(ReadQuery(query), "signature");
               if first.Some? then first else Some(FormDecode(v))
  {
    QueryWithTail(query, v);
    hide ReadQuery;
    GetConcat(ReadQuery(query), [("signature", FormDecode(v))], "signature");
  }

  /** The payload of the standard: thirty-five zeros, a four, and the fixed text run on by the request. */
  lemma PayloadExactly(uri: string)
    ensures var payload := SigningPayload(uri);
            && |payload| >= 36 && payload[35] == 4 && (forall i :: 0 <= i < 35 ==> payload[i] == 0)
            && payload[36..] == Utf8("stellar.sep.7 - URI Scheme") + Utf8(uri)
  {
    Utf8Concat("stellar.sep.7 - URI Scheme", uri);
    hide Utf8;
  }

  lemma {:induction false} Utf8Concat(a: string, b: string)
    ensures Utf8(a + b) == Utf8(a) + Utf8(b)
  {
    hide Utf8Char;
    if a == "" {
      assert a + b == b;
    } else {
      assert (a + b)[1..] == a[1..] + b;
      Utf8Concat(a[1..], b);
    }
  }

  /** A text ends in a signature exactly when its last parameter is one. */
  lemma SignatureExactly(t: string, i: nat)
    ensures SignatureAt(t) == Some(i) <==>
              && i + 11 <= |t| && t[i..i + 11] == "&signature=" && '&' !in t[i + 11..]
  {
    hide LastIndexOf;
    if SignatureAt(t) == Some(i) {
      TrimmedParts(t);
      assert t[i..][..11] == t[i..i + 11];
    }
    if i + 11 <= |t| && t[i..i + 11] == "&signature=" && '&' !in t[i + 11..] {
      assert t[i..] == SIGNATURE + t[i + 11..];
      assert t[i] == t[i..][0] == '&';
      assert t == t[..i] + "&" + t[i + 1..];
      assert SIGNATURE[1..] == "signature=" && SIGNATURE + t[i + 11..] == ['&'] + (SIGNATURE[1..] + t[i + 11..]);
      assert t[i + 1..] == t[i..][1..] == "signature=" + t[i + 11..];
      LastAmpersand(t[..i], t[i + 1..]);
    }
  }

  /** Exactly when a text verifies: its last parameter is a signature that decodes to 64 bytes which the key made. */
  lemma VerifiesExactly(p: Platform, uri: string, key: string)
    ensures VerifySignature(p, uri, key) <==>
              var t := Trim(uri);
              && SignatureAt(t).Some? && p.accountKey(key)
              && var i := SignatureAt(t).value;
                 var text := DecodeURIComponent(t[i + 11..]);
                 && text.Some? && |Base64Decode(text.value)| == 64
                 && p.verify(key, SigningPayload(t[..i]), Base64Decode(text.value))
  {
    hide SigningPayload;
    hide Base64Decode;
    hide DecodeURIComponent;
    hide SignatureAt;
    hide Trim;
  }

  /** Two requests with the same payload are the same request. */
  lemma PayloadInjective(uri: string, uri': string)
    requires SigningPayload(uri) == SigningPayload(uri')
    ensures uri == uri'
  {
    var text := "stellar.sep.7 - URI Scheme";
    assert SigningPayload(uri)[36..] == Utf8(text + uri) && SigningPayload(uri')[36..] == Utf8(text + uri');
    Utf8Injective(text + uri, text + uri');
    assert (text + uri)[|text|..] == uri && (text + uri')[|text|..] == uri';
  }

  // ---- the hosted page --------------------------------------------------------------------

  /** The index of the first query or fragment mark, or the length. */
  function CutPoint(base: string): (i: nat)
    ensures i <= |base|
    ensures i < |base| ==> base[i] == '?' || base[i] == '#'
    ensures forall k :: 0 <= k < i ==> base[k] != '?' && base[k] != '#'
  {
    if base == "" || base[0] == '?' || base[0] == '#' then 0 else 1 + CutPoint(base[1..])
  }

  /** For a base without line breaks, everything from its first query or fragment mark is dropped. */
  function HandlerUrl(base: string, uri: string): string {
    base[..CutPoint(base)] + "?sep7=" + EncodeURIComponent(uri)
  }

  /** The query part of a link: from the question mark up to a fragment. */
  function Search(url: string): string {
    var i := CutPoint(url);
    if i == |url| || url[i] == '#' then "" else url[i..][..IndexOf(url[i..], '#')]
  }

  function ValueEnd(s: string): (n: nat)
    ensures n <= |s|
    ensures n < |s| ==> s[n] == '&' || s[n] == '#'
    ensures forall k :: 0 <= k < n ==> s[k] != '&' && s[k] != '#'
  {
    if s == "" || s[0] == '&' || s[0] == '#' then 0 else 1 + ValueEnd(s[1..])
  }

  /** The raw value of the first `sep7` parameter of a query. */
  function RawSep7(search: string): Option<string> {
    if search == "" then None
    else if (search[0] == '?' || search[0] == '&') && StartsWith(search[1..], "sep7=") then
      Some(search[6..][..ValueEnd(search[6..])])
    else RawSep7(search[1..])
  }

  /** What the page parses: the decoded value, or the raw one when it does not decode. */
  function PageRequest(search: string): Option<string> {
    match RawSep7(search)
    case None => None
    case Some(raw) => Some(DecodeURIComponent(raw).GetOr(raw))
  }

  lemma SearchOfHandler(base: string, e: string)
    requires '#' !in e
    requires forall c :: c in base ==> c != '?' && c != '#'
    ensures Search(base + "?sep7=" + e) == "?sep7=" + e
  {
    var url := base + "?sep7=" + e;
    assert url[|base|] == '?';
    assert forall k :: 0 <= k < |base| ==> url[k] == base[k] && base[k] in base;
    CutPointAt(url, |base|);
    hide CutPoint;
    var q := "?sep7=" + e;
    assert url[|base|..] == q;
    assert '#' !in q;
    assert IndexOf(q, '#') == |q| && q[..|q|] == q;
  }

  lemma RawOfHandler(e: string)
    requires '#' !in e && '&' !in e
    ensures RawSep7("?sep7=" + e) == Some(e)
  {
    var q := "?sep7=" + e;
    assert q[1..] == "sep7=" + e && q[6..] == e;
    assert StartsWith(q[1..], "sep7=");
    assert ValueEnd(e) == |e| && e[..|e|] == e;
  }

  lemma {:induction false} CutPointAt(s: string, n: nat)
    requires n < |s| && (s[n] == '?' || s[n] == '#')
    requires forall k :: 0 <= k < n ==> s[k] != '?' && s[k] != '#'
    ensures CutPoint(s) == n
  {
    if n > 0 {
      CutPointAt(s[1..], n - 1);
    }
  }

  /** The link: the base up to its first query or fragment mark, and the encoded request. */
  lemma HandlerExactly(base: string, rest: string, uri: string)
    requires '?' !in base && '#' !in base && (rest == "" || rest[0] == '?' || rest[0] == '#')
    ensures HandlerUrl(base + rest, uri) == base + "?sep7=" + EncodeURIComponent(uri)
    ensures rest != "" && rest[0] == '?' && '#' !in rest ==> Search(base + rest) == rest
    ensures rest == "" || rest[0] == '#' ==> Search(base + rest) == ""
  {
    hide EncodeURIComponent;
    var url, n := base + rest, |base|;
    assert url[..n] == base && url[n..] == rest;
    assert forall k :: 0 <= k < n ==> url[k] == base[k] && base[k] in base;
    if rest == "" {
      assert CutPoint(url) == n;
    } else {
      CutPointAt(url, n);
    }
    assert '#' !in rest ==> IndexOf(rest, '#') == |rest| && rest[..|rest|] == rest;
    hide CutPoint;
  }

  /** The hosted page recovers the very request its link was made for, whatever the request's text. */
  lemma HandlerRoundTrip(base: string, uri: string)
    ensures PageRequest(Search(HandlerUrl(base, uri))) == Some(uri)
  {
    hide EncodeURIComponent;
    hide DecodeURIComponent;
    hide RawSep7;
    hide Search;
    hide CutPoint;
    ComponentChars(uri);
    ComponentRoundTrip(uri);
    var b := base[..CutPoint(base)];
    assert forall c :: c in b ==> c != '?' && c != '#';
    SearchOfHandler(b, EncodeURIComponent(uri));
    RawOfHandler(EncodeURIComponent(uri));
  }

  lemma {:induction false} SkipPlain(plain: string, rest: string)
    requires '?' !in plain && '&' !in plain
    ensures RawSep7(plain + rest) == RawSep7(rest)
  {
    hide ValueEnd;
    if plain == "" {
      assert plain + rest == rest;
    } else {
      assert plain[0] in plain && (plain + rest)[1..] == plain[1..] + rest;
      SkipPlain(plain[1..], rest);
    }
  }

  lemma {:induction false} ValueEndAt(s: string, n: nat)
    requires n <= |s| && (n < |s| ==> s[n] == '&' || s[n] == '#')
    requires '&' !in s[..n] && '#' !in s[..n]
    ensures ValueEnd(s) == n
  {
    assert forall k :: 0 <= k < n ==> s[..n][k] == s[k];
  }

  lemma RawHere(mark: char, e: string, after: string)
    requires mark == '?' || mark == '&'
    requires '&' !in e && '#' !in e
    requires after == "" || after[0] == '&' || after[0] == '#'
    ensures RawSep7([mark] + "sep7=" + e + after) == Some(e)
  {
    hide ValueEnd;
    var value := e + after;
    assert value[..|e|] == e;
    ValueEndAt(value, |e|);
    var s := [mark] + "sep7=" + e + after;
    assert s[1..] == "sep7=" + value && s[6..] == value;
  }

  lemma SkipMark(before: string, rest: string)
    requires !StartsWith(before, "sep7=") && (rest == "" || rest[0] == '&') && '&' !in before
    ensures RawSep7("?" + before + rest) == RawSep7(before + rest)
  {
    hide ValueEnd;
    var s, q, name := "?" + before + rest, before + rest, "sep7=";
    assert name <= q ==> forall i :: 0 <= i < 5 ==> q[i] == name[i];
    assert s[1..] == q;
    assert |before| < 5 && rest != "" ==> q[|before|] == '&';
    assert |before| >= 5 ==> q[..5] == before[..5];
    assert forall i :: 0 <= i < 5 ==> name[i] != '&';
    assert |before| < 5 && rest == "" ==> q == before;
    assert !StartsWith(q, name);
    hide StartsWith;
  }

  /** A query part without the parameter holds none. */
  lemma PageFindsNone(before: string)
    requires '?' !in before && '&' !in before && !StartsWith(before, "sep7=")
    ensures RawSep7("?" + before) == None
  {
    assert RawSep7("") == None;
    hide RawSep7;
    SkipPlain(before, "");
    SkipMark(before, "");
    assert "?" + before + "" == "?" + before && before + "" == before;
  }

  /** The page takes the `sep7` parameter wherever it stands, up to the next parameter or a fragment. */
  lemma PageReads(before: string, e: string, after: string)
    requires '?' !in before && '&' !in before && !StartsWith(before, "sep7=")
    requires '&' !in e && '#' !in e
    requires after == "" || after[0] == '&' || after[0] == '#'
    ensures RawSep7("?" + before + ("&sep7=" + e + after)) == Some(e)
  {
    hide RawSep7;
    hide StartsWith;
    var found := "&sep7=" + e + after;
    assert found == ['&'] + "sep7=" + e + after && found[0] == '&';
    RawHere('&', e, after);
    SkipPlain(before, found);
    SkipMark(before, found);
  }

  /** What does not decode is parsed as it stands. */
  lemma PageKeepsRaw(search: string)
    requires RawSep7(search).Some?
    ensures var raw := RawSep7(search).value;
            PageRequest(search) == if DecodeURIComponent(raw).Some? then DecodeURIComponent(raw) else Some(raw)
  {
    hide RawSep7;
    hide DecodeURIComponent;
  }

  /** End to end: integrator to link to page to parsed request. */
  lemma HostedRequestRoundTrip(p: Platform, o: Options, base: string, want: Option<string>)
    requires ValidOptions(p, o, want)
    ensures PageRequest(Search(HandlerUrl(base, RequestUri(p, o)))) == Some(RequestUri(p, o))
    ensures ParseRequest(p, PageRequest(Search(HandlerUrl(base, RequestUri(p, o)))).GetOr(""), want)
            == Success(Expected(p, o))
  {
    HandlerRoundTrip(base, RequestUri(p, o));
    RequestRoundTrip(p, o, want);
    hide *;
  }
}
