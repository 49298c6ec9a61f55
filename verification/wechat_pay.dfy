/** The WeChat Pay v3 wire helpers of `src/lib/wechat-pay.ts`: the
    configuration gate, the canonical signing message and `Authorization`
    header, the notification verification message and its (stub) verifier,
    the split of the encrypted notification resource, and the two gateway
    calls with their result classification.

    RSA-SHA256 signing, AES-256-GCM decryption, `JSON.stringify` and `fetch`
    are parameters: the model reasons only about what is signed, what is sent
    and how the reply is classified. */
module WechatPay {
  import opened Common
  import opened Text
  import Base64

  /** The merchant configuration read from the environment (all default to
      the empty string when unset). */
  datatype Config = Config(
    appId: string,
    mchId: string,
    apiV3Key: string,
    privateKey: string,
    serialNo: string)

  /** `isWechatPayConfigured`: merchant id, API v3 key, private key and
      certificate serial must be set; the app id is not checked. */
  predicate IsConfigured(c: Config) {
    |c.mchId| > 0 && |c.apiV3Key| > 0 && |c.privateKey| > 0 && |c.serialNo| > 0
  }

  // ---------------------------------------------------------------------------
  // The private key as read from the environment
  // ---------------------------------------------------------------------------

  /** `WECHAT_PRIVATE_KEY.replace(/\\n/g, '\n')`: every two-character escape
      `\` `n` becomes a newline, scanning left to right. */
  function UnescapeNewlines(s: string): (r: string)
    ensures !Includes(r, ['\\', 'n'])
    ensures |r| <= |s|
    // nothing but the escapes changes: writing each newline back as an
    // escape gives the input again, when it held no newline of its own
    ensures '\n' !in s ==> Escape(r) == s
  {
    var r := UnescapeFrom(s);
    NoEscapeLeft(r);
    assert '\n' !in s ==> Escape(r) == s by {
      if '\n' !in s { EscapeUnescape(s); }
    }
    r
  }

  /** Every newline written as the two-character escape `\` `n`; every
      other character kept. */
  function Escape(r: string): (e: string)
    ensures '\n' !in e
  {
    if |r| == 0 then ""
    else (if r[0] == '\n' then ['\\', 'n'] else [r[0]]) + Escape(r[1..])
  }

  lemma {:induction false} EscapeUnescape(s: string)
    requires '\n' !in s
    ensures Escape(UnescapeFrom(s)) == s
    decreases |s|
  {
    if |s| >= 2 && s[0] == '\\' && s[1] == 'n' {
      assert s[2..] == s[1..][1..];
      EscapeUnescape(s[2..]);
      var t := ['\n'] + UnescapeFrom(s[2..]);
      assert t[1..] == UnescapeFrom(s[2..]);
      assert s == ['\\', 'n'] + s[2..];
    } else if |s| > 0 {
      assert s[0] in s;
      EscapeUnescape(s[1..]);
      var t := [s[0]] + UnescapeFrom(s[1..]);
      assert t[1..] == UnescapeFrom(s[1..]);
      assert s == [s[0]] + s[1..];
    }
  }

  function UnescapeFrom(s: string): (r: string)
    ensures |r| <= |s|
    ensures forall k :: 0 <= k < |r| - 1 ==> !(r[k] == '\\' && r[k + 1] == 'n')
    ensures |r| > 0 && r[0] == 'n' ==> |s| > 0 && s[0] == 'n'
  {
    if |s| >= 2 && s[0] == '\\' && s[1] == 'n' then ['\n'] + UnescapeFrom(s[2..])
    else if |s| == 0 then []
    else [s[0]] + UnescapeFrom(s[1..])
  }

  lemma NoEscapeLeft(r: string)
    requires forall k :: 0 <= k < |r| - 1 ==> !(r[k] == '\\' && r[k + 1] == 'n')
    ensures !Includes(r, ['\\', 'n'])
  {
    var pat := ['\\', 'n'];
    forall i ensures !OccursAt(r, pat, i) {
      if 0 <= i && i + 2 <= |r| {
        assert !(r[i] == '\\' && r[i + 1] == 'n');
        assert !SameChar(r[i + 0], pat[0], false) || !SameChar(r[i + 1], pat[1], false);
      }
    }
    IncludesIff(r, pat);
  }

  // ---------------------------------------------------------------------------
  // Request signing
  // ---------------------------------------------------------------------------

  /** Each field followed by exactly one newline, in order. */
  function JoinLines(fields: seq<string>): string {
    if |fields| == 0 then "" else fields[0] + "\n" + JoinLines(fields[1..])
  }

  /** The canonical message `generateSignature` signs: method, URL path,
      timestamp, nonce and body, each followed by one newline. */
  function SigningMessage(verb: string, url: string, timestamp: string, nonce: string, body: string): string {
    JoinLines([verb, url, timestamp, nonce, body])
  }

  /** The message a notification's signature covers: timestamp, nonce and the
      raw body, each followed by one newline. */
  function VerificationMessage(timestamp: string, nonce: string, body: string): string {
    JoinLines([timestamp, nonce, body])
  }

  lemma {:induction false} JoinLinesAppend(a: seq<string>, b: seq<string>)
    ensures JoinLines(a + b) == JoinLines(a) + JoinLines(b)
  {
    if |a| == 0 {
      assert a + b == b;
    } else {
      assert (a + b)[1..] == a[1..] + b;
      JoinLinesAppend(a[1..], b);
    }
  }

  /** The notification message is the tail of the request-signing message:
      both schemes share the timestamp/nonce/body layout. */
  lemma SigningMessageExtendsVerification(verb: string, url: string, timestamp: string, nonce: string, body: string)
    ensures SigningMessage(verb, url, timestamp, nonce, body) ==
      verb + "\n" + url + "\n" + VerificationMessage(timestamp, nonce, body)
  {
    assert [verb, url, timestamp, nonce, body] == [verb, url] + [timestamp, nonce, body];
    JoinLinesAppend([verb, url], [timestamp, nonce, body]);
    assert JoinLines([verb, url]) == verb + "\n" + (url + "\n" + "");
  }

  predicate NoNewline(s: string) {
    forall k :: 0 <= k < |s| ==> s[k] != '\n'
  }

  /** Index of the first newline, or `|s|` when there is none. */
  function NewlineIndex(s: string): (i: nat)
    ensures i <= |s|
    ensures NoNewline(s[..i])
    ensures i < |s| ==> s[i] == '\n'
  {
    if |s| == 0 || s[0] == '\n' then 0
    else
      var j := NewlineIndex(s[1..]);
      assert s[..j + 1] == [s[0]] + s[1..][..j];
      j + 1
  }

  /** The newline-terminated lines of a text, as a verifier splits the
      canonical message back into its fields. */
  function Lines(s: string): seq<string>
    decreases |s|
  {
    if |s| == 0 then []
    else
      var i := NewlineIndex(s);
      if i == |s| then [s] else [s[..i]] + Lines(s[i + 1..])
  }

  lemma LinesCons(line: string, rest: string)
    requires NoNewline(line)
    ensures Lines(line + "\n" + rest) == [line] + Lines(rest)
  {
    var s := line + "\n" + rest;
    var i := NewlineIndex(s);
    assert s[|line|] == '\n';
    assert s[..|line|] == line;
    assert i == |line|;
    assert s[i + 1..] == rest;
  }

  /** The canonical layout is unambiguous: for newline-free fields, splitting
      the joined text at newlines gives back exactly the fields, in order. */
  lemma {:induction false} LinesJoinLines(fields: seq<string>)
    requires forall j :: 0 <= j < |fields| ==> NoNewline(fields[j])
    ensures Lines(JoinLines(fields)) == fields
  {
    if |fields| > 0 {
      LinesCons(fields[0], JoinLines(fields[1..]));
      LinesJoinLines(fields[1..]);
    }
  }

  /** In particular the five signed fields are recovered from the message. */
  lemma SigningMessageFields(verb: string, url: string, timestamp: string, nonce: string, body: string)
    requires NoNewline(verb) && NoNewline(url) && NoNewline(timestamp) && NoNewline(nonce) && NoNewline(body)
    ensures Lines(SigningMessage(verb, url, timestamp, nonce, body)) == [verb, url, timestamp, nonce, body]
  {
    LinesJoinLines([verb, url, timestamp, nonce, body]);
  }

  /** The five fields of the `Authorization` header. */
  datatype AuthFields = AuthFields(
    mchid: string,
    nonceStr: string,
    signature: string,
    timestamp: string,
    serialNo: string)

  const AuthPrefix: string := "WECHATPAY2-SHA256-RSA2048 mchid=\""

  /** A field value followed by its closing quote and the rest of the header. */
  function Q(value: string, rest: string): string {
    value + ("\"" + rest)
  }

  /** The header layout of `generateAuthHeader`. */
  function RenderAuth(h: AuthFields): string {
    AuthPrefix + Q(h.mchid, ",nonce_str=\"" + Q(h.nonceStr, ",signature=\"" + Q(h.signature,
      ",timestamp=\"" + Q(h.timestamp, ",serial_no=\"" + Q(h.serialNo, "")))))
  }

  function Expect(s: string, p: string): Option<string> {
    if StartsWith(s, p) then Some(s[|p|..]) else None
  }

  /** The text up to the next double quote, and what follows that quote. */
  function Quoted(s: string): Option<(string, string)> {
    var i := QuoteIndex(s);
    if i < |s| then Some((s[..i], s[i + 1..])) else None
  }

  predicate NoQuote(s: string) {
    forall k :: 0 <= k < |s| ==> s[k] != '"'
  }

  function QuoteIndex(s: string): (i: nat)
    ensures i <= |s|
    ensures NoQuote(s[..i])
    ensures i < |s| ==> s[i] == '"'
  {
    if |s| == 0 || s[0] == '"' then 0
    else
      var j := QuoteIndex(s[1..]);
      assert s[..j + 1] == [s[0]] + s[1..][..j];
      j + 1
  }

  /** Reads an `Authorization` header of the layout above back into fields. */
  function ParseAuth(s: string): Option<AuthFields> {
    var s0 :- Expect(s, AuthPrefix);
    var (mchid, s1) :- Quoted(s0);
    var s2 :- Expect(s1, ",nonce_str=\"");
    var (nonce, s3) :- Quoted(s2);
    var s4 :- Expect(s3, ",signature=\"");
    var (signature, s5) :- Quoted(s4);
    var s6 :- Expect(s5, ",timestamp=\"");
    var (timestamp, s7) :- Quoted(s6);
    var s8 :- Expect(s7, ",serial_no=\"");
    var (serial, s9) :- Quoted(s8);
    if s9 == [] then Some(AuthFields(mchid, nonce, signature, timestamp, serial)) else None
  }

  lemma ExpectPrefix(p: string, rest: string)
    ensures Expect(p + rest, p) == Some(rest)
  {
    assert (p + rest)[..|p|] == p;
  }

  lemma QuotedValue(v: string, rest: string)
    requires NoQuote(v)
    ensures Quoted(Q(v, rest)) == Some((v, rest))
  {
    var s := Q(v, rest);
    var i := QuoteIndex(s);
    assert s[|v|] == '"';
    assert s[..|v|] == v;
    assert i == |v|;
    assert s[i + 1..] == rest;
  }

  /** The header layout is unambiguous: a header rendered from quote-free
      fields parses back to exactly those fields. */
  lemma ParseRenderAuth(h: AuthFields)
    requires NoQuote(h.mchid) && NoQuote(h.nonceStr) && NoQuote(h.signature)
    requires NoQuote(h.timestamp) && NoQuote(h.serialNo)
    ensures ParseAuth(RenderAuth(h)) == Some(h)
  {
    var t8 := Q(h.serialNo, "");
    var t6 := Q(h.timestamp, ",serial_no=\"" + t8);
    var t4 := Q(h.signature, ",timestamp=\"" + t6);
    var t2 := Q(h.nonceStr, ",signature=\"" + t4);
    var t0 := Q(h.mchid, ",nonce_str=\"" + t2);
    ExpectPrefix(AuthPrefix, t0);
    QuotedValue(h.mchid, ",nonce_str=\"" + t2);
    ExpectPrefix(",nonce_str=\"", t2);
    QuotedValue(h.nonceStr, ",signature=\"" + t4);
    ExpectPrefix(",signature=\"", t4);
    QuotedValue(h.signature, ",timestamp=\"" + t6);
    ExpectPrefix(",timestamp=\"", t6);
    QuotedValue(h.timestamp, ",serial_no=\"" + t8);
    ExpectPrefix(",serial_no=\"", t8);
    QuotedValue(h.serialNo, "");
  }

  /** The fields `generateAuthHeader` puts in the header, given the clock
      (`Date.now()`, milliseconds), the 16 random nonce bytes and the signer
      (private key, message) -> base64 signature. */
  function AuthFieldsFor(cfg: Config, verb: string, url: string, body: string,
                         nowMs: nat, random: seq<byte>, sign: (string, string) -> string): (h: AuthFields)
    ensures h.mchid == cfg.mchId && h.serialNo == cfg.serialNo
    ensures h.signature == sign(cfg.privateKey, SigningMessage(verb, url, h.timestamp, h.nonceStr, body))
    ensures |random| == 16 ==> |h.nonceStr| == 32
    ensures forall k :: 0 <= k < |h.nonceStr| ==> IsLowerHex(h.nonceStr[k])
    ensures forall k :: 0 <= k < |h.timestamp| ==> IsDigit(h.timestamp[k])
    ensures DecimalValue(h.timestamp) == nowMs / 1000
  {
    var timestamp := Decimal(nowMs / 1000);
    DecimalRoundTrip(nowMs / 1000);
    var nonceStr := Hex(random);
    AuthFields(cfg.mchId, nonceStr, sign(cfg.privateKey, SigningMessage(verb, url, timestamp, nonceStr, body)),
               timestamp, cfg.serialNo)
  }

  /** `generateAuthHeader`: a header whose fields read back as the signed
      timestamp and nonce, provided the configured ids and the signature
      contain no double quote (base64 never does). */
  function AuthHeader(cfg: Config, verb: string, url: string, body: string,
                      nowMs: nat, random: seq<byte>, sign: (string, string) -> string): (header: string)
    ensures NoQuote(cfg.mchId) && NoQuote(cfg.serialNo) &&
            NoQuote(sign(cfg.privateKey, SigningMessage(verb, url, Decimal(nowMs / 1000), Hex(random), body))) ==>
      ParseAuth(header) == Some(AuthFieldsFor(cfg, verb, url, body, nowMs, random, sign))
  {
    var h := AuthFieldsFor(cfg, verb, url, body, nowMs, random, sign);
    assert NoQuote(h.mchid) && NoQuote(h.serialNo) && NoQuote(h.signature) ==>
      ParseAuth(RenderAuth(h)) == Some(h) by {
      if NoQuote(h.mchid) && NoQuote(h.serialNo) && NoQuote(h.signature) {
        NoQuoteDigits(h.timestamp);
        NoQuoteHex(h.nonceStr);
        ParseRenderAuth(h);
      }
    }
    RenderAuth(h)
  }

  lemma NoQuoteDigits(s: string)
    requires forall k :: 0 <= k < |s| ==> IsDigit(s[k])
    ensures NoQuote(s)
  {
  }

  lemma NoQuoteHex(s: string)
    requires forall k :: 0 <= k < |s| ==> IsLowerHex(s[k])
    ensures NoQuote(s)
  {
  }

  // ---------------------------------------------------------------------------
  // Notification verification and decryption
  // ---------------------------------------------------------------------------

  /** `verifyWebhookSignature` as written: it builds the verification message
      but never checks the signature, so every notification is accepted. */
  function VerifyWebhookSignature(timestamp: string, nonce: string, body: string,
                                  signature: string, serial: string): (accepted: bool)
    ensures accepted
  {
    var _ := VerificationMessage(timestamp, nonce, body);
    true
  }

  /** `ciphertext.slice(0, -24)` and `ciphertext.slice(-24)` as written: the
      last 24 characters (all of them when shorter) are taken as the tag. */
  function SliceCiphertext(ciphertext: string): (parts: (string, string))
    ensures parts.0 + parts.1 == ciphertext
    ensures |ciphertext| >= 24 ==> |parts.1| == 24
    ensures |ciphertext| < 24 ==> parts.0 == [] && parts.1 == ciphertext
  {
    var cut := if |ciphertext| >= 24 then |ciphertext| - 24 else 0;
    assert ciphertext[..cut] + ciphertext[cut..] == ciphertext;
    (ciphertext[..cut], ciphertext[cut..])
  }

  /** When the encrypted body is a whole number of 3-octet groups, the slices
      decode to the body and to the 16-octet tag, as the source's comment
      says. */
  lemma SliceCiphertextAligned(body: seq<byte>, tag: seq<byte>)
    requires |tag| == 16 && |body| % 3 == 0
    ensures var parts := SliceCiphertext(Base64.Encode(body + tag));
      Base64.Decode(parts.0) == Some(body) && Base64.Decode(parts.1) == Some(tag)
  {
    Base64.EncodeAppend(body, tag);
    Base64.TagLength(tag);
    var c := Base64.Encode(body + tag);
    assert c[..|c| - 24] == Base64.Encode(body);
    assert c[|c| - 24..] == Base64.Encode(tag);
    Base64.DecodeEncode(body);
    Base64.DecodeEncode(tag);
  }

  /** Otherwise the slices miss: the last one or two body octets share
      base64 groups with the tag, so the tag slice decodes to those octets
      followed by the tag (17 or 18 octets) and the body slice to the body
      without them. */
  lemma SliceCiphertextMisaligned(body: seq<byte>, tag: seq<byte>)
    requires |tag| == 16 && |body| % 3 != 0
    ensures var parts := SliceCiphertext(Base64.Encode(body + tag));
      var cut := |body| - |body| % 3;
      && Base64.Decode(parts.0) == Some(body[..cut])
      && Base64.Decode(parts.1) == Some(body[cut..] + tag)
      && 17 <= |body[cut..] + tag| <= 18
  {
    var cut := |body| - |body| % 3;
    var head, rest := body[..cut], body[cut..] + tag;
    assert body + tag == head + rest;
    DecodeSlices(head, rest);
  }

  /** The slices of whole groups followed by a 17- or 18-octet tail decode
      to those groups and that tail. */
  lemma DecodeSlices(head: seq<byte>, rest: seq<byte>)
    requires |head| % 3 == 0 && 17 <= |rest| <= 18
    ensures var parts := SliceCiphertext(Base64.Encode(head + rest));
      Base64.Decode(parts.0) == Some(head) && Base64.Decode(parts.1) == Some(rest)
  {
    GroupTail(rest);
    SliceAtGroup(head, rest);
    Base64.DecodeEncode(head);
    Base64.DecodeEncode(rest);
  }

  /** 17 or 18 octets fill exactly six base64 groups. */
  lemma GroupTail(rest: seq<byte>)
    requires 17 <= |rest| <= 18
    ensures |Base64.Encode(rest)| == 24
  {
  }

  /** Slicing off 24 characters cuts at a group boundary when the tail
      encodes to 24 characters. */
  lemma SliceAtGroup(head: seq<byte>, rest: seq<byte>)
    requires |head| % 3 == 0 && |Base64.Encode(rest)| == 24
    ensures SliceCiphertext(Base64.Encode(head + rest)) == (Base64.Encode(head), Base64.Encode(rest))
  {
    Base64.EncodeAppend(head, rest);
    var c := Base64.Encode(head + rest);
    assert c[..|c| - 24] == Base64.Encode(head);
    assert c[|c| - 24..] == Base64.Encode(rest);
  }

  /** `decryptResource` as written: decode the two slices and hand them to
      AES-256-GCM (key, IV, tag, associated data, encrypted body) -> plaintext,
      a parameter that fails on a bad tag. A slice that is not base64 gives no
      plaintext. */
  function DecryptResource(cfg: Config, ciphertext: string, nonce: string, associatedData: string,
                           decipher: (string, string, seq<byte>, string, seq<byte>) -> Option<string>): (r: Option<string>)
    ensures Base64.Decode(SliceCiphertext(ciphertext).0).None? ==> r.None?
    ensures Base64.Decode(SliceCiphertext(ciphertext).1).None? ==> r.None?
  {
    var (dataText, tagText) := SliceCiphertext(ciphertext);
    var data :- Base64.Decode(dataText);
    var tag :- Base64.Decode(tagText);
    decipher(cfg.apiV3Key, nonce, tag, associatedData, data)
  }

  /** For a body that is a whole number of 3-octet groups the decipher gets
      exactly the body and the tag. */
  lemma DecryptResourceAligned(cfg: Config, body: seq<byte>, tag: seq<byte>, nonce: string, associatedData: string,
                               decipher: (string, string, seq<byte>, string, seq<byte>) -> Option<string>)
    requires |tag| == 16 && |body| % 3 == 0
    ensures DecryptResource(cfg, Base64.Encode(body + tag), nonce, associatedData, decipher) ==
            decipher(cfg.apiV3Key, nonce, tag, associatedData, body)
  {
    SliceCiphertextAligned(body, tag);
    DecryptSlices(cfg, Base64.Encode(body + tag), body, tag, nonce, associatedData, decipher);
  }

  /** For any other body the decipher gets a 17- or 18-octet tag that is not
      the real one, and a body missing its last octets. */
  lemma DecryptResourceMisaligned(cfg: Config, body: seq<byte>, tag: seq<byte>, nonce: string, associatedData: string,
                                  decipher: (string, string, seq<byte>, string, seq<byte>) -> Option<string>)
    requires |tag| == 16 && |body| % 3 != 0
    ensures var cut := |body| - |body| % 3;
      && DecryptResource(cfg, Base64.Encode(body + tag), nonce, associatedData, decipher) ==
         decipher(cfg.apiV3Key, nonce, body[cut..] + tag, associatedData, body[..cut])
      && 17 <= |body[cut..] + tag| <= 18 && |body[..cut]| < |body|
  {
    var cut := |body| - |body| % 3;
    var head, rest := body[..cut], body[cut..] + tag;
    assert body + tag == head + rest;
    DecodeSlices(head, rest);
    DecryptSlices(cfg, Base64.Encode(head + rest), head, rest, nonce, associatedData, decipher);
  }

  /** The decipher gets whatever the two slices decode to. */
  lemma DecryptSlices(cfg: Config, ciphertext: string, data: seq<byte>, tag: seq<byte>, nonce: string,
                      associatedData: string,
                      decipher: (string, string, seq<byte>, string, seq<byte>) -> Option<string>)
    requires Base64.Decode(SliceCiphertext(ciphertext).0) == Some(data)
    requires Base64.Decode(SliceCiphertext(ciphertext).1) == Some(tag)
    ensures DecryptResource(cfg, ciphertext, nonce, associatedData, decipher) ==
            decipher(cfg.apiV3Key, nonce, tag, associatedData, data)
  {
  }

  /** The split the source's comment intends: decode the whole ciphertext and
      take its last 16 octets as the GCM tag. */
  function SplitAuthTag(ciphertext: string): (r: Option<(seq<byte>, seq<byte>)>)
    ensures r.Some? ==> |r.value.1| == 16
    ensures r.Some? ==> Base64.Decode(ciphertext) == Some(r.value.0 + r.value.1)
  {
    match Base64.Decode(ciphertext)
    case None => None
    case Some(bytes) =>
      if |bytes| < 16 then None
      else
        assert bytes[..|bytes| - 16] + bytes[|bytes| - 16..] == bytes;
        Some((bytes[..|bytes| - 16], bytes[|bytes| - 16..]))
  }

  /** The intended split recovers body and tag whatever the body's length. */
  lemma SplitAuthTagRecovers(body: seq<byte>, tag: seq<byte>)
    requires |tag| == 16
    ensures SplitAuthTag(Base64.Encode(body + tag)) == Some((body, tag))
  {
    Base64.DecodeEncode(body + tag);
    var b := body + tag;
    assert b[..|b| - 16] == body && b[|b| - 16..] == tag;
  }

  /** `decryptResource` with the intended split. */
  function DecryptResourceIntended(cfg: Config, ciphertext: string, nonce: string, associatedData: string,
                                   decipher: (string, string, seq<byte>, string, seq<byte>) -> Option<string>): (r: Option<string>)
    ensures SplitAuthTag(ciphertext).None? ==> r.None?
  {
    var (data, tag) :- SplitAuthTag(ciphertext);
    decipher(cfg.apiV3Key, nonce, tag, associatedData, data)
  }

  /** With the intended split the decipher gets exactly the body and the tag,
      for every body length. */
  lemma DecryptIntendedRecovers(cfg: Config, body: seq<byte>, tag: seq<byte>, nonce: string, associatedData: string,
                                decipher: (string, string, seq<byte>, string, seq<byte>) -> Option<string>)
    requires |tag| == 16
    ensures DecryptResourceIntended(cfg, Base64.Encode(body + tag), nonce, associatedData, decipher) ==
            decipher(cfg.apiV3Key, nonce, tag, associatedData, body)
  {
    SplitAuthTagRecovers(body, tag);
  }

  // ---------------------------------------------------------------------------
  // Gateway calls
  // ---------------------------------------------------------------------------

  const GatewayHost: string := "https://api.mch.weixin.qq.com"
  const NativePath: string := "/v3/pay/transactions/native"
  const NotConfigured: string := "WeChat Pay not configured"

  datatype OrderParams = OrderParams(description: string, outTradeNo: string, totalAmount: int, notifyUrl: string)

  datatype Amount = Amount(total: int, currency: string)

  /** The JSON body of a Native order, before `JSON.stringify`. */
  datatype NativeBody = NativeBody(
    appid: string,
    mchid: string,
    description: string,
    outTradeNo: string,
    notifyUrl: string,
    amount: Amount)

  /** An outbound request: verb, full URL, `Authorization` header, body text. */
  datatype HttpRequest = HttpRequest(verb: string, url: string, authorization: string, body: string)

  /** What `fetch` + `response.json()` produced: a thrown error, or a reply
      with its `ok` flag and the `code_url`/`message` fields (absent = None). */
  datatype NativeReply =
    | Threw(thrown: string)
    | Replied(ok: bool, codeUrl: Option<string>, message: Option<string>)

  datatype NativeResult = CodeUrl(url: string) | OrderError(message: string)

  /** What the RSA-SHA256 signer does with a private key and a message: it
      throws (a key that is not valid PEM) or yields the base64 signature. */
  datatype SignReply = SignThrew(message: string) | Signature(text: string)

  /** The signature text of a signer that did not throw. */
  function SignatureText(s: SignReply): string {
    match s
    case SignThrew(_) => ""
    case Signature(t) => t
  }

  /** The signer as the header functions see it, once it is known not to throw. */
  function Signer(sign: (string, string) -> SignReply): (string, string) -> string {
    (key, message) => SignatureText(sign(key, message))
  }

  /** The signer's answer for the message `generateAuthHeader` signs. */
  function SignAttempt(cfg: Config, verb: string, url: string, body: string, nowMs: nat, random: seq<byte>,
                       sign: (string, string) -> SignReply): SignReply {
    sign(cfg.privateKey, SigningMessage(verb, url, Decimal(nowMs / 1000), Hex(random), body))
  }

  /** The request actually sent (None: no request) and what the caller gets. */
  datatype Call<R> = Call(sent: Option<HttpRequest>, result: R)

  function NativeBodyFor(cfg: Config, p: OrderParams): NativeBody {
    NativeBody(cfg.appId, cfg.mchId, p.description, p.outTradeNo, p.notifyUrl, Amount(p.totalAmount, "CNY"))
  }

  /** `createNativeOrder`. */
  function CreateNativeOrder(cfg: Config, p: OrderParams, nowMs: nat, random: seq<byte>,
                             sign: (string, string) -> SignReply, stringify: NativeBody -> string,
                             send: HttpRequest -> NativeReply): (r: Call<NativeResult>)
    ensures !IsConfigured(cfg) ==> r.sent.None? && r.result == OrderError(NotConfigured)
    // the header is built inside the `try`: a throwing signer sends nothing
    // and its message is the error
    ensures IsConfigured(cfg) ==>
      (r.sent.Some? <==> SignAttempt(cfg, "POST", NativePath, stringify(NativeBodyFor(cfg, p)), nowMs, random, sign).Signature?)
    ensures IsConfigured(cfg) &&
            SignAttempt(cfg, "POST", NativePath, stringify(NativeBodyFor(cfg, p)), nowMs, random, sign).SignThrew? ==>
      r.result == OrderError(SignAttempt(cfg, "POST", NativePath, stringify(NativeBodyFor(cfg, p)), nowMs, random, sign).message)
    ensures r.sent.Some? ==>
      var req := r.sent.value;
      var b := NativeBodyFor(cfg, p);
      && req.verb == "POST" && req.url == GatewayHost + NativePath
      && b.outTradeNo == p.outTradeNo && b.amount == Amount(p.totalAmount, "CNY")
      && req.body == stringify(b)
      && req.authorization == AuthHeader(cfg, "POST", NativePath, req.body, nowMs, random, Signer(sign))
    ensures r.result.CodeUrl? <==>
      r.sent.Some? && send(r.sent.value).Replied? && send(r.sent.value).ok && Truthy(send(r.sent.value).codeUrl)
    ensures r.result.CodeUrl? ==> r.result.url == send(r.sent.value).codeUrl.value
    ensures r.sent.Some? && send(r.sent.value).Replied? && !r.result.CodeUrl? ==>
      r.result == OrderError(OrElse(send(r.sent.value).message, "Payment failed"))
    ensures r.sent.Some? && send(r.sent.value).Threw? ==> r.result == OrderError(send(r.sent.value).thrown)
  {
    if !IsConfigured(cfg) then Call(None, OrderError(NotConfigured))
    else
      var body := stringify(NativeBodyFor(cfg, p));
      var signed := SignAttempt(cfg, "POST", NativePath, body, nowMs, random, sign);
      if signed.SignThrew? then Call(None, OrderError(signed.message))
      else
        var req := HttpRequest("POST", GatewayHost + NativePath,
                               AuthHeader(cfg, "POST", NativePath, body, nowMs, random, Signer(sign)), body);
        var reply := send(req);
        var result :=
          match reply
          case Threw(m) => OrderError(m)
          case Replied(ok, codeUrl, message) =>
            if ok && Truthy(codeUrl) then CodeUrl(codeUrl.value)
            else OrderError(OrElse(message, "Payment failed"));
        Call(Some(req), result)
  }

  /** A sent order request carries, in its header, exactly the signature the
      signer produced for that request's body. */
  lemma SentOrderSigned(cfg: Config, p: OrderParams, nowMs: nat, random: seq<byte>,
                        sign: (string, string) -> SignReply, stringify: NativeBody -> string,
                        send: HttpRequest -> NativeReply)
    requires NoQuote(cfg.mchId) && NoQuote(cfg.serialNo)
    ensures var r := CreateNativeOrder(cfg, p, nowMs, random, sign, stringify, send);
      var signed := SignAttempt(cfg, "POST", NativePath, stringify(NativeBodyFor(cfg, p)), nowMs, random, sign);
      r.sent.Some? && NoQuote(SignatureText(signed)) ==>
        && signed.Signature?
        && ParseAuth(r.sent.value.authorization).Some?
        && ParseAuth(r.sent.value.authorization).value.signature == signed.text
  {
    var r := CreateNativeOrder(cfg, p, nowMs, random, sign, stringify, send);
    var body := stringify(NativeBodyFor(cfg, p));
    if r.sent.Some? {
      assert r.sent.value.body == body;
      assert Signer(sign)(cfg.privateKey, SigningMessage("POST", NativePath, Decimal(nowMs / 1000), Hex(random), body)) ==
             SignatureText(SignAttempt(cfg, "POST", NativePath, body, nowMs, random, sign));
    }
  }

  /** What a status query returns: the parsed reply body, whatever the HTTP
      status, or `{error}`. */
  datatype QueryReply<J> = QueryThrew(message: string) | QueryJson(body: J)
  datatype QueryResult<J> = Json(body: J) | QueryError(message: string)

  /** The query path `/v3/pay/transactions/out-trade-no/{no}?mchid={mchid}`. */
  function QueryPath(outTradeNo: string, mchId: string): string {
    "/v3/pay/transactions/out-trade-no/" + outTradeNo + "?mchid=" + mchId
  }

  /** `queryOrder`: a signed GET with an empty body. */
  function QueryOrder<J>(cfg: Config, outTradeNo: string, nowMs: nat, random: seq<byte>,
                         sign: (string, string) -> SignReply, send: HttpRequest -> QueryReply<J>): (r: Call<QueryResult<J>>)
    ensures !IsConfigured(cfg) ==> r.sent.None? && r.result == QueryError(NotConfigured)
    // a throwing signer sends nothing and its message is the error
    ensures IsConfigured(cfg) ==>
      (r.sent.Some? <==> SignAttempt(cfg, "GET", QueryPath(outTradeNo, cfg.mchId), "", nowMs, random, sign).Signature?)
    ensures IsConfigured(cfg) && SignAttempt(cfg, "GET", QueryPath(outTradeNo, cfg.mchId), "", nowMs, random, sign).SignThrew? ==>
      r.result == QueryError(SignAttempt(cfg, "GET", QueryPath(outTradeNo, cfg.mchId), "", nowMs, random, sign).message)
    ensures r.sent.Some? ==>
      var req := r.sent.value;
      && req.verb == "GET" && req.body == ""
      && req.url == GatewayHost + QueryPath(outTradeNo, cfg.mchId)
      && req.authorization == AuthHeader(cfg, "GET", QueryPath(outTradeNo, cfg.mchId), "", nowMs, random, Signer(sign))
      && (send(req).QueryJson? ==> r.result == Json(send(req).body))
      && (send(req).QueryThrew? ==> r.result == QueryError(send(req).message))
  {
    if !IsConfigured(cfg) then Call(None, QueryError(NotConfigured))
    else
      var path := QueryPath(outTradeNo, cfg.mchId);
      var signed := SignAttempt(cfg, "GET", path, "", nowMs, random, sign);
      if signed.SignThrew? then Call(None, QueryError(signed.message))
      else
        var req := HttpRequest("GET", GatewayHost + path, AuthHeader(cfg, "GET", path, "", nowMs, random, Signer(sign)), "");
        match send(req)
        case QueryThrew(m) => Call(Some(req), QueryError(m))
        case QueryJson(j) => Call(Some(req), Json(j))
  }
}
