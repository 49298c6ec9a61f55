/** The order status handler, `GET /api/payment/status`: look an order up by
    `order_id` or, failing that, by `out_trade_no`, and answer its stored
    status. The `orders` lookup is a parameter. */
module StatusRoute {
  import opened Common

  /** Which column the lookup filters on. */
  datatype Key = ById(id: string) | ByTradeNo(outTradeNo: string)

  datatype LookupReply = LookupError | Found(status: string)

  datatype Body = Error(error: string) | Status(status: string)

  datatype Response = Response(status: nat, body: Body, lookedUp: Option<Key>)

  /** The key the query is filtered on: a truthy `order_id` wins. */
  function KeyFor(orderId: Option<string>, outTradeNo: Option<string>): (k: Option<Key>)
    ensures k.None? <==> !Truthy(orderId) && !Truthy(outTradeNo)
    ensures Truthy(orderId) ==> k == Some(ById(orderId.value))
    ensures !Truthy(orderId) && Truthy(outTradeNo) ==> k == Some(ByTradeNo(outTradeNo.value))
  {
    if Truthy(orderId) then Some(ById(orderId.value))
    else if Truthy(outTradeNo) then Some(ByTradeNo(outTradeNo.value))
    else None
  }

  /** The handler, given the query parameters and the lookup. */
  function Handle(orderId: Option<string>, outTradeNo: Option<string>, lookup: Key -> LookupReply): (r: Response)
    ensures !Truthy(orderId) && !Truthy(outTradeNo) ==>
      r == Response(400, Error("Missing order identifier"), None)
    // a lookup happens exactly when an identifier is given, on the key it selects
    ensures r.lookedUp == KeyFor(orderId, outTradeNo)
    ensures r.lookedUp.Some? && lookup(r.lookedUp.value) == LookupError ==>
      r == Response(404, Error("Order not found"), r.lookedUp)
    // the stored status is passed through unchanged
    ensures r.lookedUp.Some? && lookup(r.lookedUp.value).Found? ==>
      r == Response(200, Status(lookup(r.lookedUp.value).status), r.lookedUp)
    ensures r.status == 200 <==> r.body.Status?
  {
    match KeyFor(orderId, outTradeNo)
    case None => Response(400, Error("Missing order identifier"), None)
    case Some(key) =>
      match lookup(key)
      case LookupError => Response(404, Error("Order not found"), Some(key))
      case Found(status) => Response(200, Status(status), Some(key))
  }

  /** `order_id` takes precedence: once it is given, `out_trade_no` has no
      influence on the answer. */
  lemma OrderIdPrecedence(orderId: string, t1: Option<string>, t2: Option<string>, lookup: Key -> LookupReply)
    requires |orderId| > 0
    ensures Handle(Some(orderId), t1, lookup) == Handle(Some(orderId), t2, lookup)
    ensures Handle(Some(orderId), t1, lookup).lookedUp == Some(ById(orderId))
  {
  }
}
