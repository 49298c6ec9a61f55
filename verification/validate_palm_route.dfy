/** The photo check, `POST /api/validate-palm`: ask a vision model whether the
    image is a palm, extract the first `{...}` from its answer, and read the
    verdict from it. Every failure of the check itself lets the photo through
    (the handler fails open); only a missing image or an explicit negative
    verdict rejects.

    The model call and `JSON.parse` are collaborators whose answers are
    parameters. */
module ValidatePalmRoute {
  import opened Common

  /** The request body: `req.json()` threw, or its `image`. */
  datatype RequestBody = Malformed | Json(image: Option<string>)

  /** The model call: `fetch` or `res.json()` threw, a non-2xx reply, or the
      `choices[0].message.content` of a 2xx reply (None when missing). */
  datatype Upstream = UpstreamThrew | UpstreamNotOk | UpstreamOk(content: Option<string>)

  /** What `JSON.parse` of the snippet yields: the truthiness of `valid` and
      the `reason` field. None: the parse threw. */
  datatype Parsed = Parsed(validTruthy: bool, reason: Option<string>)

  /** `{valid}` or `{valid, reason}`. */
  datatype Verdict = Verdict(valid: bool, reason: Option<string>)

  datatype Response = Response(status: nat, verdict: Verdict)

  const Pass: Response := Response(200, Verdict(true, None))

  // ---------------------------------------------------------------------------
  // The snippet /\{[\s\S]*?\}/
  // ---------------------------------------------------------------------------

  /** The index of the first occurrence of `c` at or after `from`, if any. */
  function IndexOf(s: string, c: char, from: nat): (r: Option<nat>)
    ensures r.Some? ==> from <= r.value < |s| && s[r.value] == c
    ensures r.Some? ==> forall k :: from <= k < r.value ==> s[k] != c
    ensures r.None? ==> forall k :: from <= k < |s| ==> s[k] != c
    decreases |s| - from
  {
    if from >= |s| then None
    else if s[from] == c then Some(from)
    else IndexOf(s, c, from + 1)
  }

  /** Where the leftmost, shortest match of `\{[\s\S]*?\}` lies: the first `{`
      and the first `}` after it. */
  function SnippetBounds(text: string): (r: Option<(nat, nat)>)
    ensures r.Some? ==>
      var (i, j) := r.value;
      && i < j < |text| && text[i] == '{' && text[j] == '}'
      && (forall k :: 0 <= k < i ==> text[k] != '{')
      && (forall k :: i < k < j ==> text[k] != '}')
    ensures r.None? <==> forall i, j :: 0 <= i < j < |text| && text[i] == '{' ==> text[j] != '}'
  {
    match IndexOf(text, '{', 0)
    case None => None
    case Some(i) =>
      match IndexOf(text, '}', i + 1)
      case None => None
      case Some(j) => Some((i, j))
  }

  /** `text.match(/\{[\s\S]*?\}/)?.[0]`. */
  function JsonSnippet(text: string): (r: Option<string>)
    ensures r.Some? ==> |r.value| >= 2 && r.value[0] == '{' && r.value[|r.value| - 1] == '}'
    ensures r.Some? ==> forall k :: 0 <= k < |r.value| - 1 ==> r.value[k] != '}'
    ensures r.None? <==> forall i, j :: 0 <= i < j < |text| && text[i] == '{' ==> text[j] != '}'
  {
    match SnippetBounds(text)
    case None => None
    case Some((i, j)) => Some(text[i..j + 1])
  }

  /** A match of `\{[\s\S]*?\}` from `i` to `j` inclusive: a `{`, the first
      `}` after it, and nothing but non-`}` characters between. */
  ghost predicate LazyMatch(text: string, i: nat, j: nat) {
    i < j < |text| && text[i] == '{' && text[j] == '}' &&
    forall k :: i < k < j ==> text[k] != '}'
  }

  /** The snippet is the regex's match: any lazy match starts no earlier than
      it, and a lazy match from the same `{` is the same one. */
  lemma SnippetIsLeftmostMatch(text: string, i: nat, j: nat)
    requires LazyMatch(text, i, j)
    ensures SnippetBounds(text).Some?
    ensures SnippetBounds(text).value.0 <= i
    ensures SnippetBounds(text).value.0 == i ==> SnippetBounds(text).value.1 == j
    ensures JsonSnippet(text).Some? && LazyMatch(text, SnippetBounds(text).value.0, SnippetBounds(text).value.1)
  {
  }

  // ---------------------------------------------------------------------------
  // The handler
  // ---------------------------------------------------------------------------

  /** The verdict read from a parsed snippet: `valid` is its truthiness and a
      missing or empty reason is filled in according to it. */
  function VerdictOf(p: Parsed): (v: Verdict)
    ensures v.valid == p.validTruthy
    ensures v.reason.Some?
    ensures Truthy(p.reason) ==> v.reason == p.reason
    ensures !Truthy(p.reason) && v.valid ==> v.reason == Some("验证通过")
    ensures !Truthy(p.reason) && !v.valid ==> v.reason == Some("请上传手掌照片")
  {
    Verdict(p.validTruthy, Some(OrElse(p.reason, if p.validTruthy then "验证通过" else "请上传手掌照片")))
  }

  function Handle(apiKey: string, body: RequestBody, upstream: Upstream, parse: string -> Option<Parsed>): (r: Response)
    // no key configured: every request passes, whatever it carries
    ensures |apiKey| == 0 ==> r == Pass
    ensures |apiKey| > 0 && body.Json? && !Truthy(body.image) ==>
      r == Response(400, Verdict(false, Some("缺少图片")))
    // the check itself failing lets the photo through
    ensures |apiKey| > 0 && body.Malformed? ==> r == Pass
    ensures |apiKey| > 0 && body.Json? && Truthy(body.image) && !upstream.UpstreamOk? ==> r == Pass
    ensures (|apiKey| > 0 && body.Json? && Truthy(body.image) && upstream.UpstreamOk? &&
             JsonSnippet(OrElse(upstream.content, "")).None?) ==> r == Pass
    ensures (|apiKey| > 0 && body.Json? && Truthy(body.image) && upstream.UpstreamOk? &&
             JsonSnippet(OrElse(upstream.content, "")).Some?) ==>
      r == (match parse(JsonSnippet(OrElse(upstream.content, "")).value)
            case None => Pass
            case Some(p) => Response(200, VerdictOf(p)))
  {
    if |apiKey| == 0 then Pass
    else
      match body
      case Malformed => Pass
      case Json(image) =>
        if !Truthy(image) then Response(400, Verdict(false, Some("缺少图片")))
        else
          match upstream
          case UpstreamThrew => Pass
          case UpstreamNotOk => Pass
          case UpstreamOk(content) =>
            match JsonSnippet(OrElse(content, ""))
            case None => Pass
            case Some(snippet) =>
              match parse(snippet)
              case None => Pass
              case Some(p) => Response(200, VerdictOf(p))
  }

  /** Fail-open: a photo is rejected only for a missing image or when the
      model explicitly answered with a falsy `valid`. */
  lemma FailsOpen(apiKey: string, body: RequestBody, upstream: Upstream, parse: string -> Option<Parsed>)
    ensures var r := Handle(apiKey, body, upstream, parse);
      !r.verdict.valid ==>
        (r.status == 400 && body.Json? && !Truthy(body.image)) ||
        (upstream.UpstreamOk? && JsonSnippet(OrElse(upstream.content, "")).Some? &&
         parse(JsonSnippet(OrElse(upstream.content, "")).value).Some? &&
         !parse(JsonSnippet(OrElse(upstream.content, "")).value).value.validTruthy)
  {
  }
}
