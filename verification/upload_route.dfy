/** The presigned-upload route, `POST /api/upload`: check the storage
    configuration, pick an extension from the requested content type, build
    the dated object key, and return a presigned PUT URL with the public URL.
    The presigning SDK call is a collaborator whose answer is a parameter. */
module UploadRoute {
  import opened Common
  import opened Text
  import Storage
  import DataUri

  /** The `contentType` of the JSON body: absent (the default applies), a
      string, or another value whose `.includes` throws. */
  datatype ContentType = Absent | Text(value: string) | NotText

  /** `req.json()` threw or gave no object to destructure, or the body. */
  datatype RequestBody = Malformed | Json(contentType: ContentType)

  /** `const { contentType = 'image/jpeg' } = body`, when it is a string. */
  function ContentTypeOf(ct: ContentType): Option<string> {
    match ct
    case Absent => Some("image/jpeg")
    case Text(v) => Some(v)
    case NotText => None
  }

  /** `getPreSignedUrl({bucket, key, method, expires})`. */
  datatype Presign = Presign(bucket: string, key: string, verb: string, expires: nat)

  datatype Body =
    | Error(error: string)
    | Urls(uploadUrl: string, accessUrl: string, objectKey: string)

  datatype Response = Response(status: nat, body: Body, presigned: Option<Presign>)

  /** Ten minutes. */
  const Expiry: nat := 600

  /** The extension: the first of `png`, `webp`, `gif` the content type
      mentions, else `jpg`. */
  function Extension(contentType: string): (ext: string)
    ensures ext == "png" <==> Includes(contentType, "png")
    ensures ext == "webp" <==> !Includes(contentType, "png") && Includes(contentType, "webp")
    ensures ext == "gif" <==> !Includes(contentType, "png") && !Includes(contentType, "webp") &&
                              Includes(contentType, "gif")
    ensures ext == "jpg" <==> !Includes(contentType, "png") && !Includes(contentType, "webp") &&
                              !Includes(contentType, "gif")
  {
    if Includes(contentType, "png") then "png"
    else if Includes(contentType, "webp") then "webp"
    else if Includes(contentType, "gif") then "gif"
    else "jpg"
  }

  function Handle(c: Storage.Config, body: RequestBody, d: Storage.Date, timestamp: nat,
                  random: string, presign: Presign -> Option<string>): (r: Response)
    ensures !Storage.IsConfigured(c) ==> r == Response(500, Error("TOS not configured"), None)
    ensures r.presigned.Some? <==> Storage.IsConfigured(c) && body.Json? && !body.contentType.NotText?
    ensures r.status == 200 <==> r.presigned.Some? && presign(r.presigned.value).Some?
    ensures r.status != 200 ==> r.status == 500 && r.body.Error?
    ensures Storage.IsConfigured(c) && r.status != 200 ==> r.body == Error("Failed to generate upload URL")
    ensures r.presigned.Some? ==>
      var ct := ContentTypeOf(body.contentType).value;
      r.presigned.value == Presign(c.bucket, Storage.ObjectKey(d, timestamp, random, Extension(ct)), "PUT", Expiry)
    ensures r.status == 200 ==>
      r.body == Urls(presign(r.presigned.value).value, Storage.PublicUrl(c, r.presigned.value.key),
                     r.presigned.value.key)
  {
    if !Storage.IsConfigured(c) then Response(500, Error("TOS not configured"), None)
    else
      var failed := Error("Failed to generate upload URL");
      match body
      case Malformed => Response(500, failed, None)
      case Json(contentType) =>
        match ContentTypeOf(contentType)
        case None => Response(500, failed, None)
        case Some(ct) =>
          var key := Storage.ObjectKey(d, timestamp, random, Extension(ct));
          var req := Presign(c.bucket, key, "PUT", Expiry);
          match presign(req)
          case None => Response(500, failed, Some(req))
          case Some(url) => Response(200, Urls(url, Storage.PublicUrl(c, key), key), Some(req))
  }

  /** A text lacking one of the characters of `p` does not include `p`. */
  lemma MissingChar(s: string, p: string, k: nat)
    requires k < |p| && p[k] !in s
    ensures !Includes(s, p)
  {
    forall i ensures !OccursAt(s, p, i) {
      if 0 <= i && i + |p| <= |s| {
        assert s[i + k] in s;
        assert s[i + k] != p[k];
      }
    }
  }

  /** The two extension rules agree on the common image types … */
  lemma ExtensionsAgree(sub: string)
    requires sub in ["png", "webp", "gif", "jpeg"]
    ensures Extension("image/" + sub) == Storage.Extension("image/" + sub)
  {
    ServerExtension(sub);
    if sub == "png" { PngExtension(sub); }
    else if sub == "webp" { WebpExtension(sub); }
    else if sub == "gif" { GifExtension(sub); }
    else { JpegExtension(sub); }
  }

  lemma ServerExtension(sub: string)
    requires |sub| > 0 && '/' !in sub
    ensures Storage.Extension("image/" + sub) == if sub == "jpeg" then "jpg" else sub
  {
    Storage.SecondSegmentOf("image", sub, "");
    assert "image/" + sub == "image" + "/" + sub + "";
  }

  lemma PngExtension(sub: string)
    requires sub == "png"
    ensures Extension("image/" + sub) == "png"
  {
    IncludesWitness("image/" + sub, "png", 6);
  }

  lemma WebpExtension(sub: string)
    requires sub == "webp"
    ensures Extension("image/" + sub) == "webp"
  {
    MissingChar("image/" + sub, "png", 1);
    IncludesWitness("image/" + sub, "webp", 6);
  }

  lemma GifExtension(sub: string)
    requires sub == "gif"
    ensures Extension("image/" + sub) == "gif"
  {
    MissingChar("image/" + sub, "png", 0);
    MissingChar("image/" + sub, "webp", 0);
    IncludesWitness("image/" + sub, "gif", 6);
  }

  /** The default content type is named `.jpg`. */
  lemma JpegExtension(sub: string)
    requires sub == "jpeg"
    ensures Extension("image/" + sub) == "jpg"
  {
    MissingChar("image/" + sub, "png", 1);
    MissingChar("image/" + sub, "webp", 0);
    MissingChar("image/" + sub, "gif", 2);
  }

  /** … and differ on every other subtype that names none of `png`, `webp`
      and `gif`: the server-side upload keeps the subtype as extension, the
      presigned one falls back to `.jpg`. */
  lemma ExtensionsDiffer(sub: string)
    requires DataUri.IsSubtype(sub) && sub != "jpeg" && sub != "jpg"
    requires !Includes("image/" + sub, "png") && !Includes("image/" + sub, "webp") &&
             !Includes("image/" + sub, "gif")
    ensures Storage.Extension("image/" + sub) == sub
    ensures Extension("image/" + sub) == "jpg"
  {
    assert forall k :: 0 <= k < |sub| ==> sub[k] != '/';
    ServerExtension(sub);
  }

  /** An SVG image is such a subtype. */
  lemma SvgDiffers(sub: string)
    requires sub == "svg+xml"
    ensures Storage.Extension("image/" + sub) == "svg+xml"
    ensures Extension("image/" + sub) == "jpg"
  {
    MissingChar("image/" + sub, "png", 0);
    MissingChar("image/" + sub, "webp", 0);
    MissingChar("image/" + sub, "gif", 2);
    ExtensionsDiffer(sub);
  }
}
