/** The order-creation handler, `POST /api/payment/native`: authenticate,
    read `packageId`, check the purchase limit, look the package up, insert a
    pending order, then ask the gateway for a payment code.

    The signed-in user, the store (`check_purchase_limit`, the `packages`
    and `orders` tables) and the gateway client's `transactions_native` are
    collaborators. Each is consulted at most once, so its answer is a
    parameter and the trace records what it was asked. `Date.now()` and
    `Math.random()` are inputs; the random number is the fraction
    `randNum / randDen` in [0, 1). */
module NativeRoute {
  import opened Common
  import opened Text

  datatype User = User(id: string)

  /** The request body: `req.json()` threw (with the error's message), or the
      `packageId` it carried. */
  datatype RequestBody = Malformed(message: Option<string>) | Json(packageId: Option<string>)

  /** A price in fen (hundredths of a yuan): the decimal `price` column read
      exactly, so that `Math.round(price * 100)` is this number. */
  datatype Package = Package(name: string, priceFen: nat)

  /** The row inserted into `orders`. Its `amount` column holds the yuan
      price `pkg.price`; the model records that amount in fen, 100 times the
      column's value, so that it can be compared with the gateway's total. */
  datatype OrderRow = OrderRow(userId: string, packageId: string, amountFen: nat, status: string, outTradeNo: string)

  /** The argument of `transactions_native`. */
  datatype GatewayParams = GatewayParams(
    description: string,
    outTradeNo: string,
    notifyUrl: string,
    total: nat,
    currency: string,
    payerClientIp: string)

  datatype LimitReply = LimitError | LimitResult(allowed: bool)
  datatype InsertReply = InsertFailed | Inserted(orderId: string)
  datatype GatewayReply = GatewayThrew(message: Option<string>) | GatewayResult(codeUrl: Option<string>)

  datatype Env = Env(
    /** `NODE_ENV === 'development'`. */
    development: bool,
    /** Whether the default gateway client object exists. */
    clientPresent: bool,
    /** `NEXT_PUBLIC_APP_URL`. */
    appUrl: string)

  /** The answers of the store and the gateway, each asked at most once. */
  datatype Replies = Replies(
    limit: LimitReply,
    found: Option<Package>,
    inserted: InsertReply,
    gateway: GatewayReply)

  datatype Effect =
    | CheckLimit(userId: string, packageId: string)
    | FindPackage(packageId: string)
    | InsertOrder(row: OrderRow)
    | CallGateway(params: GatewayParams)

  function Stage(e: Effect): nat {
    match e
    case CheckLimit(_, _) => 0
    case FindPackage(_) => 1
    case InsertOrder(_) => 2
    case CallGateway(_) => 3
  }

  predicate InOrder(trace: seq<Effect>) {
    forall i, j :: 0 <= i < j < |trace| ==> Stage(trace[i]) < Stage(trace[j])
  }

  datatype Body =
    | Error(error: string)
    | PaymentCode(codeUrl: string, outTradeNo: string)
    | MockCode(mockCodeUrl: string, mockOrderId: string, message: string)

  datatype Response = Response(status: nat, body: Body)

  datatype Outcome = Outcome(response: Response, trace: seq<Effect>)

  /** `Math.floor(Math.random() * 1000)` for the fraction `num / den`. */
  function RandomSuffix(num: nat, den: nat): (r: nat)
    requires num < den
    ensures r <= 999
  {
    num * 1000 / den
  }

  /** `ORDER_${Date.now()}_${suffix}`. */
  function TradeRef(nowMs: nat, suffix: nat): string {
    "ORDER_" + Decimal(nowMs) + "_" + Decimal(suffix)
  }

  /** A trade reference determines its timestamp and suffix: two orders get
      the same reference only when created in the same millisecond with the
      same random suffix. */
  lemma TradeRefInjective(m: nat, r: nat, m': nat, r': nat)
    requires TradeRef(m, r) == TradeRef(m', r')
    ensures m == m' && r == r'
  {
    var p := "ORDER_";
    assert TradeRef(m, r) == p + (Decimal(m) + "_" + Decimal(r));
    assert TradeRef(m', r') == p + (Decimal(m') + "_" + Decimal(r'));
    assert Decimal(m) + "_" + Decimal(r) == (p + (Decimal(m) + "_" + Decimal(r)))[|p|..];
    assert Decimal(m') + "_" + Decimal(r') == (p + (Decimal(m') + "_" + Decimal(r')))[|p|..];
    DigitsLack(Decimal(m), '_');
    DigitsLack(Decimal(m'), '_');
    SplitAt(Decimal(m), Decimal(r), Decimal(m'), Decimal(r'), '_');
    DecimalInjective(m, m');
    DecimalInjective(r, r');
  }

  /** `WECHAT_NOTIFY_URL`. */
  function NotifyUrl(env: Env): string {
    env.appUrl + "/api/payment/webhook"
  }

  function GatewayParamsFor(env: Env, pkg: Package, outTradeNo: string): GatewayParams {
    GatewayParams("手相分析 - " + pkg.name, outTradeNo, NotifyUrl(env), pkg.priceFen, "CNY", "127.0.0.1")
  }

  /** The stages after the package is known: insert the pending order, then
      the gateway. */
  function CreateOrder(env: Env, replies: Replies, user: User, packageId: string, pkg: Package,
                       outTradeNo: string): (r: Outcome)
    ensures |r.trace| >= 1 && r.trace[0] == InsertOrder(OrderRow(user.id, packageId, pkg.priceFen, "pending", outTradeNo))
    ensures InOrder(r.trace) && forall k :: 0 <= k < |r.trace| ==> Stage(r.trace[k]) >= 2
    // a failed insert stops before the gateway
    ensures replies.inserted == InsertFailed ==>
      r.response == Response(500, Error("Order creation failed")) && |r.trace| == 1
    // without a gateway client the inserted order is answered locally
    ensures replies.inserted.Inserted? && !env.clientPresent ==> |r.trace| == 1
    ensures replies.inserted.Inserted? && !env.clientPresent && env.development ==>
      r.response == Response(200, MockCode("https://example.com/mock_qr_code", replies.inserted.orderId,
                                           "Mock Mode: Wechat Pay not configured"))
    ensures replies.inserted.Inserted? && !env.clientPresent && !env.development ==>
      r.response == Response(503, Error("Payment service unavailable"))
    // otherwise the gateway is asked once, for this order's reference and price
    ensures replies.inserted.Inserted? && env.clientPresent ==>
      |r.trace| == 2 && r.trace[1] == CallGateway(GatewayParamsFor(env, pkg, outTradeNo))
    ensures replies.inserted.Inserted? && env.clientPresent && replies.gateway.GatewayThrew? ==>
      r.response == Response(500, Error(OrElse(replies.gateway.message, "Internal Error")))
    ensures replies.inserted.Inserted? && env.clientPresent && replies.gateway.GatewayResult? ==>
      && (Truthy(replies.gateway.codeUrl) ==>
            r.response == Response(200, PaymentCode(replies.gateway.codeUrl.value, outTradeNo)))
      && (!Truthy(replies.gateway.codeUrl) ==>
            r.response == Response(500, Error("Payment initialization failed")))
    ensures r.response.body.PaymentCode? ==>
      |r.trace| == 2 && r.trace[1] == CallGateway(GatewayParamsFor(env, pkg, outTradeNo)) &&
      r.response.body.outTradeNo == outTradeNo
  {
    var row := OrderRow(user.id, packageId, pkg.priceFen, "pending", outTradeNo);
    match replies.inserted
    case InsertFailed => Outcome(Response(500, Error("Order creation failed")), [InsertOrder(row)])
    case Inserted(orderId) =>
      if !env.clientPresent then
        if env.development then
          Outcome(Response(200, MockCode("https://example.com/mock_qr_code", orderId,
                                         "Mock Mode: Wechat Pay not configured")), [InsertOrder(row)])
        else Outcome(Response(503, Error("Payment service unavailable")), [InsertOrder(row)])
      else
        var params := GatewayParamsFor(env, pkg, outTradeNo);
        var trace := [InsertOrder(row), CallGateway(params)];
        match replies.gateway
        case GatewayThrew(m) => Outcome(Response(500, Error(OrElse(m, "Internal Error"))), trace)
        case GatewayResult(codeUrl) =>
          if Truthy(codeUrl) then Outcome(Response(200, PaymentCode(codeUrl.value, outTradeNo)), trace)
          else Outcome(Response(500, Error("Payment initialization failed")), trace)
  }

  predicate HasInsert(trace: seq<Effect>) {
    exists k :: 0 <= k < |trace| && trace[k].InsertOrder?
  }

  /** The guards before the order: `packageId` is truthy, the limit check
      allowed it and the package was found. */
  predicate Admitted(user: Option<User>, body: RequestBody, replies: Replies) {
    user.Some? && body.Json? && Truthy(body.packageId) &&
    replies.limit == LimitResult(true) && replies.found.Some?
  }

  /** The handler. */
  function Handle(env: Env, user: Option<User>, body: RequestBody, replies: Replies,
                  nowMs: nat, randNum: nat, randDen: nat): (r: Outcome)
    requires randNum < randDen
    ensures InOrder(r.trace)
    // no user: 401 and no store call at all
    ensures user.None? ==> r == Outcome(Response(401, Error("Unauthorized")), [])
    // an unreadable body: 500 with the error's message, no store call
    ensures user.Some? && body.Malformed? ==>
      r == Outcome(Response(500, Error(OrElse(body.message, "Internal Error"))), [])
    // a missing packageId: 400, no store call
    ensures user.Some? && body.Json? && !Truthy(body.packageId) ==>
      r == Outcome(Response(400, Error("Package ID is required")), [])
    // a limit failure stops before any package lookup or order insert
    ensures user.Some? && body.Json? && Truthy(body.packageId) ==>
      |r.trace| >= 1 && r.trace[0] == CheckLimit(user.value.id, body.packageId.value)
    ensures user.Some? && body.Json? && Truthy(body.packageId) && replies.limit == LimitError ==>
      r.response == Response(500, Error("Internal Check Error")) && |r.trace| == 1
    ensures user.Some? && body.Json? && Truthy(body.packageId) && replies.limit == LimitResult(false) ==>
      r.response == Response(403, Error("此套餐每人限购一次")) && |r.trace| == 1
    // an unknown package: 404 and no order
    ensures user.Some? && body.Json? && Truthy(body.packageId) && replies.limit == LimitResult(true) &&
            replies.found.None? ==>
      r.response == Response(404, Error("Package not found")) &&
      r.trace == [CheckLimit(user.value.id, body.packageId.value), FindPackage(body.packageId.value)]
    // a found package always goes on to the order and the gateway
    ensures Admitted(user, body, replies) ==>
      && |r.trace| >= 3
      && r.trace[..2] == [CheckLimit(user.value.id, body.packageId.value), FindPackage(body.packageId.value)]
      && Outcome(r.response, r.trace[2..]) ==
         CreateOrder(env, replies, user.value, body.packageId.value, replies.found.value,
                     TradeRef(nowMs, RandomSuffix(randNum, randDen)))
  {
    if user.None? then Outcome(Response(401, Error("Unauthorized")), [])
    else
      match body
      case Malformed(m) => Outcome(Response(500, Error(OrElse(m, "Internal Error"))), [])
      case Json(packageId) =>
        if !Truthy(packageId) then Outcome(Response(400, Error("Package ID is required")), [])
        else
          var uid, pid := user.value.id, packageId.value;
          var check := CheckLimit(uid, pid);
          match replies.limit
          case LimitError => Outcome(Response(500, Error("Internal Check Error")), [check])
          case LimitResult(allowed) =>
            if !allowed then Outcome(Response(403, Error("此套餐每人限购一次")), [check])
            else
              match replies.found
              case None => Outcome(Response(404, Error("Package not found")), [check, FindPackage(pid)])
              case Some(pkg) =>
                var rest := CreateOrder(env, replies, user.value, pid, pkg, TradeRef(nowMs, RandomSuffix(randNum, randDen)));
                var trace := [check, FindPackage(pid)] + rest.trace;
                assert trace[..2] == [check, FindPackage(pid)] && trace[2..] == rest.trace;
                Outcome(rest.response, trace)
  }

  /** What the store and the gateway see: every inserted order is pending,
      priced as the package, with this request's reference; the gateway is
      only called right after an insert, and a payment code names that order. */
  lemma OrderBeforeGateway(env: Env, user: Option<User>, body: RequestBody, replies: Replies,
                           nowMs: nat, randNum: nat, randDen: nat)
    requires randNum < randDen
    ensures var r := Handle(env, user, body, replies, nowMs, randNum, randDen);
      // every inserted order is pending, priced as the package, with this request's reference
      forall k :: 0 <= k < |r.trace| && r.trace[k].InsertOrder? ==>
        && Admitted(user, body, replies)
        && var row := r.trace[k].row;
           && row.status == "pending"
           && row.userId == user.value.id
           && row.packageId == body.packageId.value
           && row.amountFen == replies.found.value.priceFen
           && row.outTradeNo == TradeRef(nowMs, RandomSuffix(randNum, randDen))
    // a payment code is only returned for an order already inserted as pending,
    // and the gateway is asked for exactly that order's reference and price
    ensures var r := Handle(env, user, body, replies, nowMs, randNum, randDen);
      r.response.body.PaymentCode? ==>
        && |r.trace| == 4 && r.trace[2].InsertOrder? && r.trace[3].CallGateway?
        && r.trace[2].row.outTradeNo == r.response.body.outTradeNo == r.trace[3].params.outTradeNo
        && r.trace[3].params.total == r.trace[2].row.amountFen
        && r.trace[3].params.currency == "CNY"
    // the gateway is never called before an order exists
    ensures var r := Handle(env, user, body, replies, nowMs, randNum, randDen);
      forall k :: 0 <= k < |r.trace| && r.trace[k].CallGateway? ==> k >= 1 && r.trace[k - 1].InsertOrder?
  {
    var r := Handle(env, user, body, replies, nowMs, randNum, randDen);
    if Admitted(user, body, replies) {
      var rest := CreateOrder(env, replies, user.value, body.packageId.value, replies.found.value,
                              TradeRef(nowMs, RandomSuffix(randNum, randDen)));
      assert r.trace[2..] == rest.trace && r.response == rest.response;
      forall k | 0 <= k < |r.trace| && r.trace[k].InsertOrder?
        ensures k == 2 && r.trace[k] == rest.trace[0]
      {
        if k >= 2 { assert r.trace[k] == rest.trace[k - 2]; }
      }
      forall k | 0 <= k < |r.trace| && r.trace[k].CallGateway?
        ensures k == 3 && r.trace[k - 1] == rest.trace[0]
      {
        if k >= 2 { assert r.trace[k] == rest.trace[k - 2]; }
      }
    } else {
      assert |r.trace| <= 2;
      assert forall k :: 0 <= k < |r.trace| ==> r.trace[k].CheckLimit? || r.trace[k].FindPackage?;
    }
  }

  /** A payment code is answered exactly when every guard passed, the order
      was inserted, a gateway client exists and it returned a code. */
  lemma PaymentCodeExactly(env: Env, user: Option<User>, body: RequestBody, replies: Replies,
                           nowMs: nat, randNum: nat, randDen: nat)
    requires randNum < randDen
    ensures Handle(env, user, body, replies, nowMs, randNum, randDen).response.body.PaymentCode? <==>
      Admitted(user, body, replies) && replies.inserted.Inserted? && env.clientPresent &&
      replies.gateway.GatewayResult? && Truthy(replies.gateway.codeUrl)
  {
    var r := Handle(env, user, body, replies, nowMs, randNum, randDen);
    if Admitted(user, body, replies) {
      var rest := CreateOrder(env, replies, user.value, body.packageId.value, replies.found.value,
                              TradeRef(nowMs, RandomSuffix(randNum, randDen)));
      assert r.response == rest.response;
    }
  }

  /** Without a gateway client the order is still recorded: development
      answers a mock code naming the inserted order, production a 503. */
  lemma NoClientFallback(env: Env, user: User, pid: string, replies: Replies,
                         nowMs: nat, randNum: nat, randDen: nat)
    requires randNum < randDen && |pid| > 0
    requires !env.clientPresent
    requires replies.limit == LimitResult(true) && replies.found.Some? && replies.inserted.Inserted?
    ensures var r := Handle(env, Some(user), Json(Some(pid)), replies, nowMs, randNum, randDen);
      && (env.development ==> r.response == Response(200, MockCode("https://example.com/mock_qr_code",
                                replies.inserted.orderId, "Mock Mode: Wechat Pay not configured")))
      && (!env.development ==> r.response == Response(503, Error("Payment service unavailable")))
      && |r.trace| == 3 && r.trace[2].InsertOrder?
  {
    var r := Handle(env, Some(user), Json(Some(pid)), replies, nowMs, randNum, randDen);
    assert Admitted(Some(user), Json(Some(pid)), replies);
  }
}
