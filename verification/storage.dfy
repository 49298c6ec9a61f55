/** Object storage (`src/lib/tos.ts`): the endpoint host, the configuration
    gate, and the pure parts of `uploadImageToTOS` — media type, file
    extension, the dated object key and the public URL. The storage client
    and its `putObject` are a collaborator whose answer is a parameter. */
module Storage {
  import opened Common
  import opened Text
  import DataUri

  // ---------------------------------------------------------------------------
  // Configuration
  // ---------------------------------------------------------------------------

  /** The environment variables read at load time; None when unset. */
  datatype Env = Env(accessKey: Option<string>, secretKey: Option<string>, region: Option<string>,
                     bucket: Option<string>, endpoint: Option<string>)

  datatype Config = Config(accessKey: string, secretKey: string, region: string,
                           bucket: string, endpointHost: string)

  const DefaultRegion: string := "cn-beijing"

  /** `TOS_ENDPOINT || 'tos-' + region + '.volces.com'`. */
  function RawEndpoint(env: Env): string {
    OrElse(env.endpoint, "tos-" + OrElse(env.region, DefaultRegion) + ".volces.com")
  }

  /** `raw.replace(/^https?:\/\//, '')`: one leading scheme removed. */
  function EndpointHost(raw: string): (host: string)
    ensures StartsWith(raw, "https://") ==> host == raw[8..]
    ensures StartsWith(raw, "http://") ==> host == raw[7..]
    ensures !StartsWith(raw, "https://") && !StartsWith(raw, "http://") ==> host == raw
  {
    assert StartsWith(raw, "https://") ==> !StartsWith(raw, "http://") by {
      if StartsWith(raw, "https://") { assert raw[..7][4] == 's'; }
    }
    if StartsWith(raw, "https://") then raw[8..]
    else if StartsWith(raw, "http://") then raw[7..]
    else raw
  }

  /** Stripping undoes prefixing a scheme, and only one scheme is stripped. */
  lemma EndpointHostStripsScheme(host: string)
    ensures EndpointHost("https://" + host) == host
    ensures EndpointHost("http://" + host) == host
  {
    assert ("https://" + host)[..8] == "https://";
    assert ("http://" + host)[..7] == "http://";
    assert ("http://" + host)[4] == ':';
  }

  function ConfigOf(env: Env): (c: Config)
    ensures Truthy(env.region) ==> c.region == env.region.value
    ensures !Truthy(env.region) ==> c.region == DefaultRegion
    ensures c.accessKey == OrElse(env.accessKey, "") && c.secretKey == OrElse(env.secretKey, "")
    ensures c.bucket == OrElse(env.bucket, "")
    // a set TOS_ENDPOINT has its scheme stripped; an unset or empty one
    // gives the regional default, which has no scheme to strip
    ensures Truthy(env.endpoint) ==> c.endpointHost == EndpointHost(env.endpoint.value)
    ensures !Truthy(env.endpoint) ==> c.endpointHost == "tos-" + c.region + ".volces.com"
  {
    var region := OrElse(env.region, DefaultRegion);
    assert !StartsWith("tos-" + region + ".volces.com", "https://") by {
      assert ("tos-" + region + ".volces.com")[0] == 't';
    }
    assert !StartsWith("tos-" + region + ".volces.com", "http://") by {
      assert ("tos-" + region + ".volces.com")[0] == 't';
    }
    Config(OrElse(env.accessKey, ""), OrElse(env.secretKey, ""), region,
           OrElse(env.bucket, ""), EndpointHost(RawEndpoint(env)))
  }

  /** `isTosConfigured()`. */
  predicate IsConfigured(c: Config) {
    |c.accessKey| > 0 && |c.secretKey| > 0 && |c.bucket| > 0
  }

  /** The settings handed to the storage SDK. */
  datatype Client = Client(accessKeyId: string, accessKeySecret: string, endpoint: string, region: string)

  /** `getTosClient()`: throws (None) exactly when the configuration is
      incomplete. The client is cached after the first success; since the
      configuration is fixed at load time the cached client equals a fresh one. */
  function GetClient(c: Config): (r: Option<Client>)
    ensures r.None? <==> !IsConfigured(c)
    ensures r.Some? ==> r.value == Client(c.accessKey, c.secretKey, c.endpointHost, c.region)
  {
    if !IsConfigured(c) then None
    else Some(Client(c.accessKey, c.secretKey, c.endpointHost, c.region))
  }

  // ---------------------------------------------------------------------------
  // Media type and extension
  // ---------------------------------------------------------------------------

  /** `match?.[1] || 'image/jpeg'`. */
  function MimeType(dataUri: string): (m: string)
    ensures forall sub, rest :: DataUri.IsDataUri(dataUri, sub, rest) ==> m == "image/" + sub
    ensures (forall sub, rest :: !DataUri.IsDataUri(dataUri, sub, rest)) ==> m == "image/jpeg"
  {
    DataUri.MediaType(dataUri)
  }

  function SlashIndex(s: string): (i: nat)
    requires '/' in s
    ensures i < |s| && s[i] == '/' && '/' !in s[..i]
  {
    if s[0] == '/' then 0
    else
      var j := SlashIndex(s[1..]);
      assert s[..j + 1] == [s[0]] + s[1..][..j];
      j + 1
  }

  /** `s.split('/')[1]`: the text between the first and second slash (or the
      end); undefined (None) when there is no slash. */
  function SecondSegment(s: string): (r: Option<string>)
    ensures r.None? <==> '/' !in s
    ensures r.Some? ==> '/' !in r.value
  {
    if '/' !in s then None
    else
      var rest := s[SlashIndex(s) + 1..];
      if '/' in rest then Some(rest[..SlashIndex(rest)]) else Some(rest)
  }

  /** The first slash of `a/t`, when `a` holds none, is the one after `a`. */
  lemma SlashAfter(a: string, t: string)
    requires '/' !in a
    ensures '/' in a + "/" + t
    ensures SlashIndex(a + "/" + t) == |a|
    ensures (a + "/" + t)[..|a|] == a && (a + "/" + t)[|a| + 1..] == t
  {
    var s := a + "/" + t;
    assert s[|a|] == '/';
    var i := SlashIndex(s);
  }

  lemma SecondSegmentOf(a: string, b: string, rest: string)
    requires '/' !in a && '/' !in b
    requires rest == [] || rest[0] == '/'
    ensures SecondSegment(a + "/" + b + rest) == Some(b)
  {
    assert a + "/" + b + rest == a + "/" + (b + rest);
    SlashAfter(a, b + rest);
    if rest != [] {
      assert b + rest == b + "/" + rest[1..];
      SlashAfter(b, rest[1..]);
    } else {
      assert b + rest == b;
    }
  }

  /** The extension of `uploadImageToTOS`: the media subtype, with `jpeg`
      written `jpg`; `jpg` when the subtype is missing or empty. */
  function Extension(mime: string): (ext: string)
    ensures |ext| > 0 && ext != "jpeg"
  {
    var seg := OrElse(SecondSegment(mime), "jpg");
    if seg == "jpeg" then "jpg" else seg
  }

  /** For an image data URI the extension is its subtype, `jpeg` becoming
      `jpg`; without the prefix it is `jpg`. */
  lemma ExtensionOfDataUri(dataUri: string, sub: string, rest: string)
    requires DataUri.IsDataUri(dataUri, sub, rest)
    ensures Extension(MimeType(dataUri)) == if sub == "jpeg" then "jpg" else sub
  {
    assert forall k :: 0 <= k < |sub| ==> sub[k] != '/';
    SecondSegmentOf("image", sub, "");
    assert "image/" + sub == "image" + "/" + sub + "";
  }

  lemma ExtensionDefault(dataUri: string)
    requires forall sub, rest :: !DataUri.IsDataUri(dataUri, sub, rest)
    ensures Extension(MimeType(dataUri)) == "jpg"
  {
    SecondSegmentOf("image", "jpeg", "");
    assert "image/jpeg" == "image" + "/" + "jpeg" + "";
  }

  // ---------------------------------------------------------------------------
  // Object key and URL
  // ---------------------------------------------------------------------------

  /** The local calendar date: `getFullYear()`, `getMonth()` (from 0),
      `getDate()`. */
  datatype Date = Date(year: nat, month0: nat, day: nat)

  predicate ValidDate(d: Date) {
    d.month0 < 12 && 1 <= d.day <= 31
  }

  function DatePath(d: Date): string {
    Decimal(d.year) + "/" + PadStart2(Decimal(d.month0 + 1)) + "/" + PadStart2(Decimal(d.day))
  }

  const KeyPrefix: string := "palm-readings/"

  /** `palm-readings/YYYY/MM/DD/<timestamp>-<random>.<ext>`. */
  function ObjectKey(d: Date, timestamp: nat, random: string, ext: string): string {
    KeyPrefix + DatePath(d) + "/" + Decimal(timestamp) + "-" + random + "." + ext
  }

  /** Month and day are written with two digits that read back as their values. */
  lemma DatePathFields(d: Date)
    requires ValidDate(d)
    ensures var mm := PadStart2(Decimal(d.month0 + 1));
            var dd := PadStart2(Decimal(d.day));
            |mm| == 2 && |dd| == 2 &&
            (forall k :: 0 <= k < 2 ==> IsDigit(mm[k]) && IsDigit(dd[k])) &&
            DecimalValue(mm) == d.month0 + 1 && DecimalValue(dd) == d.day
  {
    Pad2Value(d.month0 + 1);
    Pad2Value(d.day);
  }

  lemma Regroup(y: string, mm: string, dd: string, rest: string)
    ensures y + "/" + mm + "/" + dd + "/" + rest == y + "/" + (mm + "/" + (dd + "/" + rest))
  {
  }

  /** A numeral followed by a separator gives back the numeral and the rest. */
  lemma NumeralSplit(a: string, rest: string, a': string, rest': string, c: char)
    requires forall k :: 0 <= k < |a| ==> IsDigit(a[k])
    requires forall k :: 0 <= k < |a'| ==> IsDigit(a'[k])
    requires !IsDigit(c) && a + [c] + rest == a' + [c] + rest'
    ensures a == a' && rest == rest'
  {
    DigitsLack(a, c);
    DigitsLack(a', c);
    SplitAt(a, rest, a', rest', c);
  }

  /** Three fields without slashes, joined and followed by slashes, give
      back the fields and the rest. */
  lemma FieldsSplit(y: string, mm: string, dd: string, rest: string,
                    y': string, mm': string, dd': string, rest': string)
    requires '/' !in y && '/' !in y' && '/' !in mm && '/' !in mm' && '/' !in dd && '/' !in dd'
    requires y + "/" + mm + "/" + dd + "/" + rest == y' + "/" + mm' + "/" + dd' + "/" + rest'
    ensures y == y' && mm == mm' && dd == dd' && rest == rest'
  {
    Regroup(y, mm, dd, rest);
    Regroup(y', mm', dd', rest');
    SplitAt(y, mm + "/" + (dd + "/" + rest), y', mm' + "/" + (dd' + "/" + rest'), '/');
    SplitAt(mm, dd + "/" + rest, mm', dd' + "/" + rest', '/');
    SplitAt(dd, rest, dd', rest', '/');
  }

  /** Numerals, padded or not, hold no slash. */
  lemma NoSlash(n: nat)
    ensures '/' !in Decimal(n) && '/' !in PadStart2(Decimal(n))
  {
    DigitsLack(Decimal(n), '/');
    Pad2Value(n);
    DigitsLack(PadStart2(Decimal(n)), '/');
  }

  lemma PaddedInjective(m: nat, n: nat)
    requires PadStart2(Decimal(m)) == PadStart2(Decimal(n))
    ensures m == n
  {
    Pad2Value(m);
    Pad2Value(n);
  }

  /** A dated path followed by a slash gives back its fields and what follows. */
  lemma DatePathFieldsSplit(d: Date, rest: string, d': Date, rest': string)
    requires DatePath(d) + "/" + rest == DatePath(d') + "/" + rest'
    ensures Decimal(d.year) == Decimal(d'.year) && rest == rest'
    ensures PadStart2(Decimal(d.month0 + 1)) == PadStart2(Decimal(d'.month0 + 1))
    ensures PadStart2(Decimal(d.day)) == PadStart2(Decimal(d'.day))
  {
    NoSlash(d.year);
    NoSlash(d'.year);
    NoSlash(d.month0 + 1);
    NoSlash(d'.month0 + 1);
    NoSlash(d.day);
    NoSlash(d'.day);
    FieldsSplit(Decimal(d.year), PadStart2(Decimal(d.month0 + 1)), PadStart2(Decimal(d.day)), rest,
                Decimal(d'.year), PadStart2(Decimal(d'.month0 + 1)), PadStart2(Decimal(d'.day)), rest');
  }

  /** A dated path followed by a slash gives back its date and what follows. */
  lemma DatePathInjective(d: Date, rest: string, d': Date, rest': string)
    requires DatePath(d) + "/" + rest == DatePath(d') + "/" + rest'
    ensures d == d' && rest == rest'
  {
    DatePathFieldsSplit(d, rest, d', rest');
    DecimalInjective(d.year, d'.year);
    PaddedInjective(d.month0 + 1, d'.month0 + 1);
    PaddedInjective(d.day, d'.day);
  }

  /** `<timestamp>-<random>.<ext>` gives back its parts when the random part
      holds no dot. */
  lemma FileNameInjective(t: nat, r: string, e: string, t': nat, r': string, e': string)
    requires '.' !in r && '.' !in r'
    requires Decimal(t) + "-" + r + "." + e == Decimal(t') + "-" + r' + "." + e'
    ensures t == t' && r == r' && e == e'
  {
    assert Decimal(t) + "-" + r + "." + e == Decimal(t) + "-" + (r + "." + e);
    assert Decimal(t') + "-" + r' + "." + e' == Decimal(t') + "-" + (r' + "." + e');
    NumeralSplit(Decimal(t), r + "." + e, Decimal(t'), r' + "." + e', '-');
    SplitAt(r, e, r', e', '.');
    DecimalInjective(t, t');
  }

  /** Two uploads share a key only if they share the date, the timestamp, the
      random part and the extension — given a random part without a dot, as
      the base-36 digits of `Math.random()` are. */
  lemma ObjectKeyInjective(d: Date, t: nat, r: string, e: string, d': Date, t': nat, r': string, e': string)
    requires '.' !in r && '.' !in r'
    requires ObjectKey(d, t, r, e) == ObjectKey(d', t', r', e')
    ensures d == d' && t == t' && r == r' && e == e'
  {
    var name := Decimal(t) + "-" + r + "." + e;
    var name' := Decimal(t') + "-" + r' + "." + e';
    var path, path' := DatePath(d) + "/" + name, DatePath(d') + "/" + name';
    KeyShape(KeyPrefix, DatePath(d), Decimal(t), r, e);
    KeyShape(KeyPrefix, DatePath(d'), Decimal(t'), r', e');
    CancelPrefix(KeyPrefix, path, path');
    DatePathInjective(d, name, d', name');
    FileNameInjective(t, r, e, t', r', e');
  }

  lemma KeyShape(p: string, dp: string, ts: string, r: string, e: string)
    ensures p + dp + "/" + ts + "-" + r + "." + e == p + (dp + "/" + (ts + "-" + r + "." + e))
  {
  }

  lemma CancelPrefix(p: string, x: string, y: string)
    requires p + x == p + y
    ensures x == y
  {
    assert x == (p + x)[|p|..];
  }

  /** `https://<bucket>.<host>/<key>`. */
  function PublicUrl(c: Config, key: string): string {
    "https://" + c.bucket + "." + c.endpointHost + "/" + key
  }

  /** The URL gives the key back after its fixed prefix. */
  lemma PublicUrlKey(c: Config, key: string)
    ensures var prefix := "https://" + c.bucket + "." + c.endpointHost + "/";
            StartsWith(PublicUrl(c, key), prefix) && PublicUrl(c, key)[|prefix|..] == key
  {
    var prefix := "https://" + c.bucket + "." + c.endpointHost + "/";
    assert PublicUrl(c, key) == prefix + key;
  }

  // ---------------------------------------------------------------------------
  // uploadImageToTOS
  // ---------------------------------------------------------------------------

  /** The `putObject` request. The body is the base64 text after the prefix;
      its decoding into bytes by the runtime is not part of this model. */
  datatype PutObject = PutObject(bucket: string, key: string, payload: string, contentType: string)

  /** The outcome: the put request sent, if any, and the URL or a throw. */
  datatype Upload = Upload(sent: Option<PutObject>, url: Option<string>)

  /** `uploadImageToTOS(base64Data)`, with the clock (`d`, `timestamp`), the
      random part and the storage service's answer (`put`: false when it
      throws) as parameters. */
  function UploadImage(c: Config, dataUri: string, d: Date, timestamp: nat, random: string,
                       put: PutObject -> bool): (u: Upload)
    ensures !IsConfigured(c) ==> u == Upload(None, None)
    ensures IsConfigured(c) ==> u.sent.Some?
    ensures u.sent.Some? ==> (u.sent.value.bucket == c.bucket &&
      u.sent.value.contentType == MimeType(dataUri) &&
      u.sent.value.payload == DataUri.StripPrefix(dataUri) &&
      u.sent.value.key == ObjectKey(d, timestamp, random, Extension(MimeType(dataUri))))
    ensures u.url.Some? <==> u.sent.Some? && put(u.sent.value)
    ensures u.url.Some? ==> u.url.value == PublicUrl(c, u.sent.value.key)
  {
    match GetClient(c)
    case None => Upload(None, None)
    case Some(_) =>
      var mime := MimeType(dataUri);
      var key := ObjectKey(d, timestamp, random, Extension(mime));
      var req := PutObject(c.bucket, key, DataUri.StripPrefix(dataUri), mime);
      if put(req) then Upload(Some(req), Some(PublicUrl(c, key))) else Upload(Some(req), None)
  }
}
