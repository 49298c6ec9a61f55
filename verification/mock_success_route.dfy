/** The development-only payment simulator, `POST /api/payment/mock-success`:
    outside development it refuses; otherwise it calls the same
    `handle_payment_success` store procedure as the notification handler.
    The handler has no `try`, so every exception becomes the framework's 500. */
module MockSuccessRoute {
  import opened Common

  /** The request body: `req.json()` threw, or the `out_trade_no` it carried. */
  datatype RequestBody = Malformed | Json(outTradeNo: Option<string>)

  /** The store procedure's answer: it threw, or it answered with its error
      message, if any. */
  datatype RpcReply = RpcThrew | RpcAnswered(error: Option<string>)

  datatype Body =
    | Error(error: string)
    | Success(message: string)
    /** The framework's answer to an exception that the handler does not catch. */
    | Unhandled

  /** The response, and the trade number passed to the store if it was called. */
  datatype Response = Response(status: nat, body: Body, rpc: Option<string>)

  /** The handler. `clientThrows`: `createAdminClient()` throws, so no store
      call is made; `paymentSuccess`: the store procedure's answer. */
  function Handle(development: bool, body: RequestBody, clientThrows: bool,
                  paymentSuccess: string -> RpcReply): (r: Response)
    // outside development nothing is read and the store is not called
    ensures !development ==> r == Response(403, Error("Not allowed"), None)
    // an unreadable body is not caught
    ensures development && body.Malformed? ==> r == Response(500, Unhandled, None)
    ensures development && body.Json? && !Truthy(body.outTradeNo) ==>
      r == Response(400, Error("Missing out_trade_no"), None)
    // a client that cannot be built is not caught either, and nothing reaches the store
    ensures development && body.Json? && Truthy(body.outTradeNo) && clientThrows ==>
      r == Response(500, Unhandled, None)
    // the store is called exactly for a truthy out_trade_no in development, once a client exists
    ensures r.rpc.Some? <==> development && body.Json? && Truthy(body.outTradeNo) && !clientThrows
    ensures r.rpc.Some? ==> r.rpc.value == body.outTradeNo.value
    ensures r.rpc.Some? && paymentSuccess(r.rpc.value) == RpcThrew ==> r.status == 500 && r.body == Unhandled
    ensures r.rpc.Some? && paymentSuccess(r.rpc.value).RpcAnswered? && paymentSuccess(r.rpc.value).error.Some? ==>
      r.status == 500 && r.body == Error(paymentSuccess(r.rpc.value).error.value)
    ensures r.rpc.Some? && paymentSuccess(r.rpc.value) == RpcAnswered(None) ==>
      r.status == 200 && r.body == Success("Mock payment processed")
  {
    if !development then Response(403, Error("Not allowed"), None)
    else
      match body
      case Malformed => Response(500, Unhandled, None)
      case Json(outTradeNo) =>
        if !Truthy(outTradeNo) then Response(400, Error("Missing out_trade_no"), None)
        else if clientThrows then Response(500, Unhandled, None)
        else
          match paymentSuccess(outTradeNo.value)
          case RpcThrew => Response(500, Unhandled, Some(outTradeNo.value))
          case RpcAnswered(Some(message)) => Response(500, Error(message), Some(outTradeNo.value))
          case RpcAnswered(None) => Response(200, Success("Mock payment processed"), Some(outTradeNo.value))
  }

  /** The payment is marked processed exactly when the route runs in
      development, the body names a trade, a client exists and the store
      reports no error. */
  lemma ProcessedExactly(development: bool, body: RequestBody, clientThrows: bool,
                         paymentSuccess: string -> RpcReply)
    ensures Handle(development, body, clientThrows, paymentSuccess).status == 200 <==>
      && development && body.Json? && Truthy(body.outTradeNo) && !clientThrows
      && paymentSuccess(body.outTradeNo.value) == RpcAnswered(None)
  {
  }
}
