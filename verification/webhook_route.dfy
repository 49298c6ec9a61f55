/** The payment notification handler, `POST /api/payment/webhook`: check that
    a gateway client exists, verify the notification over its raw body, parse
    it, decrypt the `resource`, and call the `handle_payment_success` store
    procedure only for a `SUCCESS` trade state.

    The gateway client (`verifySign`, `decipher_gcm`), `JSON.parse` and the
    store procedure are collaborators whose answers are parameters; a `None`
    answer stands for a thrown error, or for a parse that yields `null`, whose
    fields cannot be read without throwing. The handler's effect on the outside world
    is the sequence of collaborator calls it makes, returned as a trace. */
module WebhookRoute {
  import opened Common

  /** The four `wechatpay-*` request headers (absent = None). */
  datatype Headers = Headers(
    timestamp: Option<string>,
    nonce: Option<string>,
    signature: Option<string>,
    serial: Option<string>)

  datatype Request = Request(headers: Headers, body: string)

  /** The argument object handed to `verifySign`. */
  datatype VerifyInput = VerifyInput(
    timestamp: Option<string>,
    nonce: Option<string>,
    signature: Option<string>,
    serial: Option<string>,
    body: string)

  /** The encrypted `resource` block of a notification. */
  datatype Resource = Resource(ciphertext: Option<string>, nonce: Option<string>, associatedData: Option<string>)

  /** A parsed notification: only its (optional) `resource` is consulted. */
  datatype Envelope = Envelope(resource: Option<Resource>)

  /** The decrypted trade outcome. */
  datatype TradeResult = TradeResult(tradeState: Option<string>, outTradeNo: Option<string>)

  datatype Collaborators = Collaborators(
    /** Whether the default gateway client object exists. */
    clientPresent: bool,
    /** `process.env.WECHAT_API_V3_KEY`. */
    apiV3Key: Option<string>,
    /** `verifySign`: accepted or not; None when it throws. */
    verify: VerifyInput -> Option<bool>,
    /** `JSON.parse` of the raw body; None when it throws or yields `null`. */
    parseEnvelope: string -> Option<Envelope>,
    /** `decipher_gcm(ciphertext, associated_data, nonce, key)`; None when it throws. */
    decipher: (Option<string>, Option<string>, Option<string>, Option<string>) -> Option<string>,
    /** `JSON.parse` of the plaintext; None when it throws or yields `null`. */
    parseResult: string -> Option<TradeResult>,
    /** `handle_payment_success(p_out_trade_no)`, admin client included. */
    paymentSuccess: Option<string> -> RpcReply)

  /** The store procedure threw (or the admin client could not be made), or
      it answered with its `error`, if any. */
  datatype RpcReply = RpcThrew | RpcAnswered(error: Option<string>)

  /** Collaborator calls, in the order the handler makes them. */
  datatype Effect =
    | Verify(input: VerifyInput)
    | ParseBody(text: string)
    | Decrypt(ciphertext: Option<string>, associatedData: Option<string>, nonce: Option<string>, key: Option<string>)
    | ParseResult(plaintext: string)
    | PaymentRpc(outTradeNo: Option<string>)

  /** The stage of the pipeline an effect belongs to. */
  function Stage(e: Effect): nat {
    match e
    case Verify(_) => 0
    case ParseBody(_) => 1
    case Decrypt(_, _, _, _) => 2
    case ParseResult(_) => 3
    case PaymentRpc(_) => 4
  }

  /** Every stage happens at most once and strictly after the earlier ones. */
  predicate InPipelineOrder(trace: seq<Effect>) {
    forall i, j :: 0 <= i < j < |trace| ==> Stage(trace[i]) < Stage(trace[j])
  }

  /** The JSON acknowledgement `{code, message}` and its HTTP status. */
  datatype Ack = Ack(status: nat, code: string, message: string)

  datatype Outcome = Outcome(ack: Ack, trace: seq<Effect>)

  function VerifyInputOf(req: Request): VerifyInput {
    VerifyInput(req.headers.timestamp, req.headers.nonce, req.headers.signature, req.headers.serial, req.body)
  }

  const Ok: Ack := Ack(200, "SUCCESS", "OK")
  const InternalError: Ack := Ack(500, "FAIL", "Internal Error")

  /** True when the verifier accepted the notification (and did not throw). */
  predicate Accepted(req: Request, c: Collaborators) {
    c.clientPresent && c.verify(VerifyInputOf(req)) == Some(true)
  }

  /** The conditions under which the store is asked to fulfil an order: the
      notification was accepted, parsed, carried a resource that decrypted to
      a trade result whose state is exactly `SUCCESS`. */
  ghost predicate Fulfils(req: Request, c: Collaborators, outTradeNo: Option<string>) {
    && Accepted(req, c)
    && c.parseEnvelope(req.body).Some?
    && c.parseEnvelope(req.body).value.resource.Some?
    && var res := c.parseEnvelope(req.body).value.resource.value;
       var plain := DecipherOf(res, c);
       && plain.Some?
       && c.parseResult(plain.value).Some?
       && c.parseResult(plain.value).value.tradeState == Some("SUCCESS")
       && c.parseResult(plain.value).value.outTradeNo == outTradeNo
  }

  /** The plaintext `decipher_gcm` yields for a resource. */
  function DecipherOf(res: Resource, c: Collaborators): Option<string> {
    c.decipher(res.ciphertext, res.associatedData, res.nonce, c.apiV3Key)
  }

  /** Stages after a successful parse of the body. */
  function AfterParse(env: Envelope, c: Collaborators): (r: Outcome)
    ensures InPipelineOrder(r.trace)
    ensures forall k :: 0 <= k < |r.trace| ==> Stage(r.trace[k]) >= 2
    // no resource: acknowledged, nothing decrypted
    ensures env.resource.None? ==> r == Outcome(Ok, [])
    ensures env.resource.Some? ==>
      |r.trace| >= 1 &&
      r.trace[0] == Decrypt(env.resource.value.ciphertext, env.resource.value.associatedData,
                            env.resource.value.nonce, c.apiV3Key)
    // a decryption or a result parse that throws is an internal error
    ensures env.resource.Some? && DecipherOf(env.resource.value, c).None? ==> r.ack == InternalError && |r.trace| == 1
    ensures env.resource.Some? && DecipherOf(env.resource.value, c).Some? ==>
      |r.trace| >= 2 && r.trace[1] == ParseResult(DecipherOf(env.resource.value, c).value)
    ensures (env.resource.Some? && DecipherOf(env.resource.value, c).Some? &&
             c.parseResult(DecipherOf(env.resource.value, c).value).None?) ==>
      r.ack == InternalError && |r.trace| == 2
    // a parsed result: the store is called iff the state is SUCCESS
    ensures (env.resource.Some? && DecipherOf(env.resource.value, c).Some? &&
             c.parseResult(DecipherOf(env.resource.value, c).value).Some?) ==>
      var result := c.parseResult(DecipherOf(env.resource.value, c).value).value;
      && (result.tradeState != Some("SUCCESS") ==> r.ack == Ok && |r.trace| == 2)
      && (result.tradeState == Some("SUCCESS") ==> |r.trace| == 3 && r.trace[2] == PaymentRpc(result.outTradeNo))
  {
    match env.resource
    case None => Outcome(Ok, [])
    case Some(res) =>
      var dec := Decrypt(res.ciphertext, res.associatedData, res.nonce, c.apiV3Key);
      match c.decipher(res.ciphertext, res.associatedData, res.nonce, c.apiV3Key)
      case None => Outcome(InternalError, [dec])
      case Some(plain) =>
        match c.parseResult(plain)
        case None => Outcome(InternalError, [dec, ParseResult(plain)])
        case Some(result) =>
          if result.tradeState == Some("SUCCESS") then
            var trace := [dec, ParseResult(plain), PaymentRpc(result.outTradeNo)];
            match c.paymentSuccess(result.outTradeNo)
            case RpcThrew => Outcome(InternalError, trace)
            case RpcAnswered(error) =>
              if error.Some? then Outcome(Ack(500, "FAIL", "DB Update Failed"), trace)
              else Outcome(Ok, trace)
          else Outcome(Ok, [dec, ParseResult(plain)])
  }

  /** The handler. */
  function Handle(req: Request, c: Collaborators): (r: Outcome)
    // the answer is always one of the two acknowledgement codes, and only
    // SUCCESS is answered with 200
    ensures r.ack.code == "SUCCESS" || r.ack.code == "FAIL"
    ensures r.ack.status == 200 <==> r.ack.code == "SUCCESS"
    ensures InPipelineOrder(r.trace)
    // no client: FAIL/500 before any header or body is read
    ensures !c.clientPresent ==> r == Outcome(Ack(500, "FAIL", "Config missing"), [])
    // the verifier sees the raw body text and the four headers, first
    ensures c.clientPresent ==> |r.trace| > 0 && r.trace[0] == Verify(VerifyInputOf(req))
    // a rejected signature stops the pipeline: no parse, no decrypt, no store call
    ensures c.clientPresent && c.verify(VerifyInputOf(req)) == Some(false) ==>
      r == Outcome(Ack(401, "FAIL", "Signature error"), [Verify(VerifyInputOf(req))])
    ensures !Accepted(req, c) ==> |r.trace| <= 1
    // decryption happens only after acceptance
    ensures forall k :: 0 <= k < |r.trace| && r.trace[k].Decrypt? ==> Accepted(req, c)
    // the store is called exactly when the decrypted state is SUCCESS, with that trade number
    ensures forall k :: 0 <= k < |r.trace| && r.trace[k].PaymentRpc? ==> Fulfils(req, c, r.trace[k].outTradeNo)
    ensures forall t :: Fulfils(req, c, t) ==> r.trace[|r.trace| - 1] == PaymentRpc(t)
    // a store error is a FAIL/500 so the gateway redelivers
    ensures forall t :: Fulfils(req, c, t) && c.paymentSuccess(t) == RpcThrew ==> r.ack == InternalError
    ensures forall t :: Fulfils(req, c, t) && c.paymentSuccess(t).RpcAnswered? && c.paymentSuccess(t).error.Some? ==>
      r.ack == Ack(500, "FAIL", "DB Update Failed")
    ensures forall t :: Fulfils(req, c, t) && c.paymentSuccess(t) == RpcAnswered(None) ==> r.ack == Ok
    // a verifier or a body parse that throws is an internal error
    ensures c.clientPresent && c.verify(VerifyInputOf(req)).None? ==>
      r == Outcome(InternalError, [Verify(VerifyInputOf(req))])
    ensures Accepted(req, c) && c.parseEnvelope(req.body).None? ==>
      r == Outcome(InternalError, [Verify(VerifyInputOf(req)), ParseBody(req.body)])
    // after the parse, the rest of the pipeline decides
    ensures Accepted(req, c) && c.parseEnvelope(req.body).Some? ==>
      var rest := AfterParse(c.parseEnvelope(req.body).value, c);
      r.ack == rest.ack && r.trace == [Verify(VerifyInputOf(req)), ParseBody(req.body)] + rest.trace
  {
    if !c.clientPresent then Outcome(Ack(500, "FAIL", "Config missing"), [])
    else
      var input := VerifyInputOf(req);
      var verified := c.verify(input);
      if verified.None? then Outcome(InternalError, [Verify(input)])
      else if !verified.value then Outcome(Ack(401, "FAIL", "Signature error"), [Verify(input)])
      else
        match c.parseEnvelope(req.body)
        case None => Outcome(InternalError, [Verify(input), ParseBody(req.body)])
        case Some(env) =>
          var rest := AfterParse(env, c);
          Outcome(rest.ack, [Verify(input), ParseBody(req.body)] + rest.trace)
  }

  /** A notification without a `resource`, or whose decrypted state is not
      `SUCCESS`, is acknowledged with SUCCESS and changes nothing. */
  lemma NonSuccessIsAcknowledged(req: Request, c: Collaborators)
    requires Accepted(req, c) && c.parseEnvelope(req.body).Some?
    requires forall t :: !Fulfils(req, c, t)
    requires var env := c.parseEnvelope(req.body).value;
      env.resource.None? ||
      (var res := env.resource.value;
       var plain := c.decipher(res.ciphertext, res.associatedData, res.nonce, c.apiV3Key);
       plain.Some? && c.parseResult(plain.value).Some?)
    ensures Handle(req, c).ack == Ok
    ensures forall k :: 0 <= k < |Handle(req, c).trace| ==> !Handle(req, c).trace[k].PaymentRpc?
  {
    var env := c.parseEnvelope(req.body).value;
    if env.resource.Some? {
      var res := env.resource.value;
      var plain := c.decipher(res.ciphertext, res.associatedData, res.nonce, c.apiV3Key);
      assert !Fulfils(req, c, c.parseResult(plain.value).value.outTradeNo);
    }
  }
}
