/** The analysis handler, `POST /api/analyze`: require an API key and a
    signed-in user, deduct one credit, require an image, settle the image URL
    (client upload first, server upload if storage is on), then send the image
    to the model and return the concatenated text of its answer.

    The user lookup, the `deduct_credit` store procedure, the storage upload
    and the model call are collaborators. Each is consulted at most once, so
    its answer is a parameter and the trace records what it was asked. A
    thrown error is represented by its `code` and `message`. */
module AnalyzeRoute {
  import opened Common
  import DataUri

  /** The fields of a thrown error the handler inspects. */
  datatype Thrown = Thrown(code: Option<string>, message: Option<string>)

  datatype Env = Env(
    geminiApiKey: Option<string>,
    openAiApiKey: Option<string>,
    googleApiKey: Option<string>,
    /** `isTosConfigured()` at module load. */
    tosEnabled: bool)

  datatype User = User(id: string)

  /** `auth.getUser()`: threw, or the signed-in user (None when signed out). */
  datatype UserReply = UserThrew(error: Thrown) | Answered(user: Option<User>)

  predicate SignedIn(u: UserReply) {
    u.Answered? && u.user.Some?
  }

  /** `rpc('deduct_credit')`: threw, reported an error, or answered `data`
      (whether its truthiness held). */
  datatype DeductReply = DeductThrew(error: Thrown) | DeductError | Deducted(success: bool)

  /** The request body: `req.json()` threw, or its `image` and `imageUrl`. */
  datatype RequestBody = Malformed(error: Thrown) | Json(image: Option<string>, imageUrl: Option<string>)

  datatype UploadReply = UploadFailed | Uploaded(url: string)

  /** One element of `candidates[0].content.parts`; `text` absent = None. */
  datatype Part = Part(text: Option<string>)

  /** The model call: `fetch` threw; a non-2xx reply with its status and text;
      a 2xx reply whose JSON failed to parse; or the parts (None when the path
      `candidates[0].content.parts` is missing). */
  datatype Upstream =
    | UpstreamThrew(error: Thrown)
    | UpstreamFailed(status: nat, errText: string)
    | UpstreamBadJson(jsonError: Thrown)
    | UpstreamOk(parts: Option<seq<Part>>)

  /** The `inlineData` sent to the model. */
  datatype InlineImage = InlineImage(mimeType: string, data: string)

  datatype Effect =
    | GetUser
    | DeductCredit(userId: string)
    | ServerUpload(dataUri: string)
    | Generate(inline: InlineImage)

  function Stage(e: Effect): nat {
    match e
    case GetUser => 0
    case DeductCredit(_) => 1
    case ServerUpload(_) => 2
    case Generate(_) => 3
  }

  predicate InOrder(trace: seq<Effect>) {
    forall i, j :: 0 <= i < j < |trace| ==> Stage(trace[i]) < Stage(trace[j])
  }

  datatype Response = Response(status: nat, text: string)

  /** The response, the collaborator calls, and the image URL the handler
      settled on (it is only logged). */
  datatype Outcome = Outcome(response: Response, trace: seq<Effect>, imageUrl: Option<string>)

  /** `GEMINI_API_KEY || OPENAI_API_KEY || GOOGLE_GENERATIVE_AI_API_KEY`. */
  function ApiKey(env: Env): (k: Option<string>)
    ensures k.Some? <==> Truthy(env.geminiApiKey) || Truthy(env.openAiApiKey) || Truthy(env.googleApiKey)
    ensures Truthy(env.geminiApiKey) ==> k == env.geminiApiKey
  {
    if Truthy(env.geminiApiKey) then env.geminiApiKey
    else if Truthy(env.openAiApiKey) then env.openAiApiKey
    else if Truthy(env.googleApiKey) then env.googleApiKey
    else None
  }

  /** The catch block: a client disconnect becomes 499, anything else 500. */
  function ErrorResponse(e: Thrown): (r: Response)
    ensures r.status == 499 <==> e.code == Some("ECONNRESET") || e.message == Some("aborted")
    ensures r.status != 499 ==> r == Response(500, "Internal Server Error")
  {
    if e.code == Some("ECONNRESET") || e.message == Some("aborted") then Response(499, "Request aborted")
    else Response(500, "Internal Server Error")
  }

  /** `parts.map(p => p?.text || '').join('')`. */
  function JoinTexts(parts: seq<Part>): string {
    if |parts| == 0 then "" else OrElse(parts[0].text, "") + JoinTexts(parts[1..])
  }

  /** The joined text of consecutive part lists is the concatenation of their
      joined texts: the output keeps every part, in order. */
  lemma {:induction false} JoinTextsAppend(a: seq<Part>, b: seq<Part>)
    ensures JoinTexts(a + b) == JoinTexts(a) + JoinTexts(b)
  {
    if |a| == 0 {
      assert a + b == b;
    } else {
      assert (a + b)[1..] == a[1..] + b;
      JoinTextsAppend(a[1..], b);
    }
  }

  /** Parts without text contribute nothing. */
  lemma {:induction false} JoinTextsSkipsMissing(a: seq<Part>, b: seq<Part>)
    ensures JoinTexts(a + [Part(None)] + b) == JoinTexts(a + b)
  {
    JoinTextsAppend(a + [Part(None)], b);
    JoinTextsAppend(a, [Part(None)]);
    JoinTextsAppend(a, b);
  }

  /** The image URL: a truthy client URL wins; otherwise a server upload is
      tried when storage is enabled, and its failure leaves no URL. */
  function SettleImageUrl(env: Env, image: string, clientUrl: Option<string>,
                          uploaded: UploadReply): (r: (Option<string>, seq<Effect>))
    ensures r.1 == [] || r.1 == [ServerUpload(image)]
    ensures Truthy(clientUrl) ==> r == (clientUrl, [])
    ensures !Truthy(clientUrl) && !env.tosEnabled ==> r == (None, [])
    ensures !Truthy(clientUrl) && env.tosEnabled ==> r.1 == [ServerUpload(image)]
    ensures !Truthy(clientUrl) && env.tosEnabled && uploaded.Uploaded? ==> r.0 == Some(uploaded.url)
    ensures !Truthy(clientUrl) && env.tosEnabled && uploaded.UploadFailed? ==> r.0 == None
  {
    if Truthy(clientUrl) then (clientUrl, [])
    else if env.tosEnabled then
      match uploaded
      case Uploaded(url) => (Some(url), [ServerUpload(image)])
      case UploadFailed => (None, [ServerUpload(image)])
    else (None, [])
  }

  /** The `inlineData` sent for an image: its media type and stripped payload. */
  function InlineOf(image: string): InlineImage {
    InlineImage(DataUri.MediaType(image), DataUri.StripPrefix(image))
  }

  /** The model's answer as a response. */
  function Answer(reply: Upstream): (r: Response)
    ensures reply.UpstreamOk? ==> r == Response(200, JoinTexts(reply.parts.GetOr([])))
    ensures reply.UpstreamThrew? ==> r == ErrorResponse(reply.error)
    ensures reply.UpstreamBadJson? ==> r == ErrorResponse(reply.jsonError)
    ensures reply.UpstreamFailed? ==> r.status == reply.status
    ensures reply.UpstreamFailed? && |reply.errText| > 0 ==> r.text == reply.errText
    ensures reply.UpstreamFailed? && |reply.errText| == 0 ==> r.text == "Upstream error"
  {
    match reply
    case UpstreamThrew(e) => ErrorResponse(e)
    case UpstreamFailed(status, errText) => Response(status, if |errText| > 0 then errText else "Upstream error")
    case UpstreamBadJson(e) => ErrorResponse(e)
    case UpstreamOk(parts) => Response(200, JoinTexts(parts.GetOr([])))
  }

  /** The stages after the image is known: settle its URL, then call the
      model once, last, with `inline`. */
  function Generation(env: Env, image: string, clientUrl: Option<string>, inline: InlineImage,
                      uploaded: UploadReply, reply: Upstream): (r: Outcome)
    ensures 1 <= |r.trace| <= 2 && r.trace[|r.trace| - 1] == Generate(inline)
    ensures InOrder(r.trace) && forall k :: 0 <= k < |r.trace| ==> Stage(r.trace[k]) >= 2
    ensures (r.imageUrl, r.trace[..|r.trace| - 1]) == SettleImageUrl(env, image, clientUrl, uploaded)
    ensures r.response == Answer(reply)
  {
    var settled := SettleImageUrl(env, image, clientUrl, uploaded);
    if settled.1 == [] then
      Outcome(Answer(reply), [Generate(inline)], settled.0)
    else
      var trace := [ServerUpload(image), Generate(inline)];
      assert trace[..1] == settled.1;
      Outcome(Answer(reply), trace, settled.0)
  }

  /** A trace whose last call, if any, is the model call. */
  predicate ModelLast(trace: seq<Effect>) {
    forall k :: 0 <= k < |trace| - 1 ==> !trace[k].Generate?
  }

  /** A call of an earlier stage put in front of an ordered trace keeps it
      ordered, with the model call still last. */
  lemma Prepend(e: Effect, rest: seq<Effect>)
    requires !e.Generate? && InOrder(rest) && ModelLast(rest)
    requires forall k :: 0 <= k < |rest| ==> Stage(e) < Stage(rest[k])
    ensures InOrder([e] + rest) && ModelLast([e] + rest) && ([e] + rest)[1..] == rest
  {
    var trace := [e] + rest;
    forall k | 0 <= k < |trace| - 1 ensures !trace[k].Generate? {
      if k >= 1 { assert trace[k] == rest[k - 1]; }
    }
    forall i, j | 0 <= i < j < |trace| ensures Stage(trace[i]) < Stage(trace[j]) {
      assert trace[j] == rest[j - 1];
      if i >= 1 { assert trace[i] == rest[i - 1]; }
    }
  }

  /** The stages after a successful deduction: read the body, require an
      image, then settle its URL and call the model. */
  function AfterDeduction(env: Env, body: RequestBody, uploaded: UploadReply,
                          reply: Upstream): (r: Outcome)
    ensures InOrder(r.trace) && forall k :: 0 <= k < |r.trace| ==> Stage(r.trace[k]) >= 2
    ensures ModelLast(r.trace)
    ensures body.Malformed? ==> r == Outcome(ErrorResponse(body.error), [], None)
    ensures body.Json? && !Truthy(body.image) ==> r.response == Response(400, "Missing image data") && r.trace == []
    // an image always reaches the model
    ensures |r.trace| > 0 <==> body.Json? && Truthy(body.image)
    ensures |r.trace| > 0 ==> r.trace[|r.trace| - 1].Generate?
    ensures |r.trace| > 0 ==>
      && r.trace[|r.trace| - 1].inline == InlineOf(body.image.value)
      && r.response == Answer(reply)
      && (r.imageUrl, r.trace[..|r.trace| - 1]) == SettleImageUrl(env, body.image.value, body.imageUrl, uploaded)
  {
    match body
    case Malformed(e) => Outcome(ErrorResponse(e), [], None)
    case Json(image, clientUrl) =>
      if !Truthy(image) then Outcome(Response(400, "Missing image data"), [], None)
      else Generation(env, image.value, clientUrl, InlineOf(image.value), uploaded, reply)
  }

  /** The stages from the credit deduction on. */
  function Charged(env: Env, uid: string, deducted: DeductReply, body: RequestBody,
                   uploaded: UploadReply, reply: Upstream): (r: Outcome)
    ensures |r.trace| >= 1 && r.trace[0] == DeductCredit(uid)
    ensures InOrder(r.trace) && forall k :: 0 <= k < |r.trace| ==> Stage(r.trace[k]) >= 1
    ensures ModelLast(r.trace)
    ensures deducted.DeductThrew? ==> r.response == ErrorResponse(deducted.error) && |r.trace| == 1
    ensures deducted == DeductError ==> r.response == Response(500, "Internal Verification Error") && |r.trace| == 1
    ensures deducted == Deducted(false) ==> r.response == Response(402, "Insufficient credits") && |r.trace| == 1
    ensures |r.trace| > 1 ==> deducted == Deducted(true)
    ensures deducted == Deducted(true) ==>
      Outcome(r.response, r.trace[1..], r.imageUrl) == AfterDeduction(env, body, uploaded, reply)
  {
    var t0 := [DeductCredit(uid)];
    match deducted
    case DeductThrew(e) => Outcome(ErrorResponse(e), t0, None)
    case DeductError => Outcome(Response(500, "Internal Verification Error"), t0, None)
    case Deducted(success) =>
      if !success then Outcome(Response(402, "Insufficient credits"), t0, None)
      else
        var rest := AfterDeduction(env, body, uploaded, reply);
        Prepend(DeductCredit(uid), rest.trace);
        Outcome(rest.response, t0 + rest.trace, rest.imageUrl)
  }

  /** The handler. */
  function Handle(env: Env, user: UserReply, deducted: DeductReply, body: RequestBody,
                  uploaded: UploadReply, reply: Upstream): (r: Outcome)
    ensures InOrder(r.trace)
    // no API key: 401 before the user is even looked up
    ensures ApiKey(env).None? ==> r.response == Response(401, "Missing API key") && r.trace == []
    // a lookup that throws fails through the 499/500 rule
    ensures ApiKey(env).Some? && user.UserThrew? ==> r == Outcome(ErrorResponse(user.error), [GetUser], None)
    // no user: 401 before any credit is touched
    ensures ApiKey(env).Some? && user == Answered(None) ==> r.response == Response(401, "Unauthorized") && r.trace == [GetUser]
    ensures ApiKey(env).Some? && SignedIn(user) ==> |r.trace| >= 2 && r.trace[..2] == [GetUser, DeductCredit(user.user.value.id)]
    // after the lookup, the deduction and what follows decide
    ensures ApiKey(env).Some? && SignedIn(user) ==>
      Outcome(r.response, r.trace[1..], r.imageUrl) == Charged(env, user.user.value.id, deducted, body, uploaded, reply)
    ensures ModelLast(r.trace)
  {
    if ApiKey(env).None? then Outcome(Response(401, "Missing API key"), [], None)
    else if user.UserThrew? then Outcome(ErrorResponse(user.error), [GetUser], None)
    else if user.user.None? then Outcome(Response(401, "Unauthorized"), [GetUser], None)
    else
      var rest := Charged(env, user.user.value.id, deducted, body, uploaded, reply);
      var trace := [GetUser] + rest.trace;
      Prepend(GetUser, rest.trace);
      assert trace[..2] == [GetUser, DeductCredit(user.user.value.id)];
      Outcome(rest.response, trace, rest.imageUrl)
  }

  /** What a signed-in request gets from the deduction on. */
  lemma DeductionOutcomes(env: Env, user: UserReply, deducted: DeductReply, body: RequestBody,
                          uploaded: UploadReply, reply: Upstream)
    requires ApiKey(env).Some? && SignedIn(user)
    ensures var r := Handle(env, user, deducted, body, uploaded, reply);
      && (deducted.DeductThrew? ==> r.response == ErrorResponse(deducted.error) && |r.trace| == 2)
      && (deducted == DeductError ==> r.response == Response(500, "Internal Verification Error") && |r.trace| == 2)
      && (deducted == Deducted(false) ==> r.response == Response(402, "Insufficient credits") && |r.trace| == 2)
      // the credit is spent before the image is checked
      && (deducted == Deducted(true) && body.Json? && !Truthy(body.image) ==>
            r.response == Response(400, "Missing image data") && |r.trace| == 2)
      // a body that is not JSON fails through the 499/500 rule after the deduction
      && (deducted == Deducted(true) && body.Malformed? ==> r.response == ErrorResponse(body.error) && |r.trace| == 2)
  {
    var r := Handle(env, user, deducted, body, uploaded, reply);
    var rest := Charged(env, user.user.value.id, deducted, body, uploaded, reply);
    assert |r.trace| == 1 + |rest.trace| && r.response == rest.response;
  }

  /** The model is called at most once, as the last call, only after a
      successful deduction, with the parsed data URI; its answer is the
      response. A charged request with an image always reaches it. */
  lemma ModelCall(env: Env, user: UserReply, deducted: DeductReply, body: RequestBody,
                  uploaded: UploadReply, reply: Upstream)
    ensures var r := Handle(env, user, deducted, body, uploaded, reply);
      && (ApiKey(env).Some? && SignedIn(user) && deducted == Deducted(true) && body.Json? && Truthy(body.image) ==>
            |r.trace| > 2)
      && (|r.trace| > 2 ==>
            && ApiKey(env).Some? && SignedIn(user) && deducted == Deducted(true) && body.Json? && Truthy(body.image)
            && r.trace[|r.trace| - 1] == Generate(InlineOf(body.image.value))
            && r.response == Answer(reply))
  {
    var r := Handle(env, user, deducted, body, uploaded, reply);
    if ApiKey(env).Some? && SignedIn(user) {
      var rest := Charged(env, user.user.value.id, deducted, body, uploaded, reply);
      assert r.trace[1..] == rest.trace && r.response == rest.response && r.imageUrl == rest.imageUrl;
      if deducted == Deducted(true) {
        var after := AfterDeduction(env, body, uploaded, reply);
        assert rest.trace[1..] == after.trace && rest.response == after.response && rest.imageUrl == after.imageUrl;
        DropTwo(r.trace, rest.trace, after.trace);
        if body.Json? && Truthy(body.image) {
          var n := |after.trace|;
          assert n > 0;
          assert after.trace[n - 1] == Generate(InlineOf(body.image.value));
          assert r.trace[|r.trace| - 1] == after.trace[n - 1];
          assert r.response == after.response;
        } else {
          assert |after.trace| == 0;
        }
      } else {
        assert |rest.trace| == 1;
        assert |r.trace| == 2;
      }
    } else if ApiKey(env).Some? {
      assert |r.trace| == 1;
    } else {
      assert |r.trace| == 0;
    }
  }

  /** A request that reaches the model settled its image URL on the way:
      the URL the response carries and the upload before the model call. */
  lemma ModelCallSettled(env: Env, user: UserReply, deducted: DeductReply, body: RequestBody,
                         uploaded: UploadReply, reply: Upstream)
    ensures var r := Handle(env, user, deducted, body, uploaded, reply);
      |r.trace| > 2 ==>
        && body.Json? && Truthy(body.image)
        && (r.imageUrl, r.trace[2..|r.trace| - 1]) == SettleImageUrl(env, body.image.value, body.imageUrl, uploaded)
  {
    var r := Handle(env, user, deducted, body, uploaded, reply);
    ModelCall(env, user, deducted, body, uploaded, reply);
    if |r.trace| > 2 {
      var rest := Charged(env, user.user.value.id, deducted, body, uploaded, reply);
      assert r.trace[1..] == rest.trace && r.imageUrl == rest.imageUrl;
      var after := AfterDeduction(env, body, uploaded, reply);
      assert rest.trace[1..] == after.trace && rest.imageUrl == after.imageUrl;
      DropTwo(r.trace, rest.trace, after.trace);
      var n := |after.trace|;
      assert (after.imageUrl, after.trace[..n - 1]) == SettleImageUrl(env, body.image.value, body.imageUrl, uploaded);
      assert r.trace[2..|r.trace| - 1] == after.trace[..n - 1];
    }
  }

  /** Two calls in front of a trace: its last call and the calls before it. */
  lemma DropTwo(trace: seq<Effect>, rest: seq<Effect>, after: seq<Effect>)
    requires |trace| >= 1 && trace[1..] == rest && |rest| >= 1 && rest[1..] == after
    ensures |trace| == |after| + 2 && trace[2..] == after
    ensures |after| > 0 ==> trace[|trace| - 1] == after[|after| - 1] && trace[2..|trace| - 1] == after[..|after| - 1]
  {
    assert trace[2..] == rest[1..];
  }

  /** The model is called exactly when there is a key, a user, a successful
      deduction and an image in a JSON body. */
  lemma ModelCalledExactly(env: Env, user: UserReply, deducted: DeductReply, body: RequestBody,
                           uploaded: UploadReply, reply: Upstream)
    ensures var r := Handle(env, user, deducted, body, uploaded, reply);
      (exists k :: 0 <= k < |r.trace| && r.trace[k].Generate?) <==>
      ApiKey(env).Some? && SignedIn(user) && deducted == Deducted(true) && body.Json? && Truthy(body.image)
  {
    var r := Handle(env, user, deducted, body, uploaded, reply);
    ModelCall(env, user, deducted, body, uploaded, reply);
    if ApiKey(env).Some? && SignedIn(user) && deducted == Deducted(true) && body.Json? && Truthy(body.image) {
      assert r.trace[|r.trace| - 1].Generate?;
    } else if ApiKey(env).Some? && SignedIn(user) {
      assert |r.trace| == 2 && r.trace == r.trace[..2];
    }
  }
}
