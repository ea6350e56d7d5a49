/** The WebSocket push service: the set of connected clients, the replies
    to client requests, the broadcast of contract events, and the periodic
    market-price push. Sockets are numbered; a send is recorded in an
    outbox of (socket, message) pairs. Chain reads and price queries
    arrive as functions; socket ready states arrive with each broadcast. */
module Subscribers {
  import opened Wrappers
  import Text
  import Js
  import OrderMirror

  datatype ReadyState = Connecting | Open | Closing | Closed

  /** An order as `getOrderDetails` returns it; amounts in base units. */
  datatype ChainOrder = ChainOrder(
    user: string, tokenIn: string, tokenOut: string, amountIn: nat, targetPrice: nat,
    createdAt: nat, status: nat, depositedAmount: nat, currentInterest: nat, protocol: nat)

  /** The events the contract emits, with their arguments. */
  datatype ContractEvent =
    | OrderCreated(orderId: nat, user: string, tokenIn: string, tokenOut: string, amountIn: nat, targetPrice: nat)
    | OrderExecuted(orderId: nat, user: string, tokenOut: string, amountOut: nat, interest: nat)
    | OrderCancelled(orderId: nat, user: string, returnedAmount: nat, interest: nat)
    | ProtocolChanged(orderId: nat, oldProtocol: nat, newProtocol: nat, interestEarned: nat)

  /** The JSON messages the server sends. Amount fields carry base units;
      their decimal formatting is not modelled. */
  datatype Message =
    | InitialData(pendingOrders: seq<nat>)
    | OrderDetails(requestedId: Js.JsValue, order: ChainOrder, createdAtMs: nat,
                   statusName: Option<string>, protocolName: Option<string>)
    | Notice(kind: string, orderId: string, event: ContractEvent,
             oldProtocolName: Option<string>, newProtocolName: Option<string>)
    | MarketPrices(prices: map<string, int>)

  /** A message received from a client, once parsed from JSON. */
  datatype Request = Request(kind: Js.JsValue, orderId: Js.JsValue)

  const GetOrderDetails: string := "getOrderDetails"

  /** The type tag of each contract event. */
  function Tag(e: ContractEvent): string
  {
    match e
    case OrderCreated(_, _, _, _, _, _) => "orderCreated"
    case OrderExecuted(_, _, _, _, _) => "orderExecuted"
    case OrderCancelled(_, _, _, _) => "orderCancelled"
    case ProtocolChanged(_, _, _, _) => "protocolChanged"
  }

  /** The message broadcast for a contract event: its tag, the order id
      as a decimal string, and for a protocol change both protocol
      names. */
  function EventMessage(e: ContractEvent): (m: Message)
    ensures m.Notice? && m.kind == Tag(e) && m.event == e
    ensures Text.ParseNumeral(m.orderId, 10) == Some(e.orderId)
    ensures e.ProtocolChanged? ==>
      m.oldProtocolName == OrderMirror.ProtocolName(e.oldProtocol) &&
      m.newProtocolName == OrderMirror.ProtocolName(e.newProtocol)
    ensures !e.ProtocolChanged? ==> m.oldProtocolName.None? && m.newProtocolName.None?
  {
    Text.NumeralRoundTrip(e.orderId, 10);
    if e.ProtocolChanged? then
      Notice(Tag(e), Text.Decimal(e.orderId), e,
             OrderMirror.ProtocolName(e.oldProtocol), OrderMirror.ProtocolName(e.newProtocol))
    else
      Notice(Tag(e), Text.Decimal(e.orderId), e, None, None)
  }

  /** Different kinds of event never share a tag. */
  lemma TagsDistinct(a: ContractEvent, b: ContractEvent)
    ensures Tag(a) == Tag(b) <==> (a.OrderCreated? && b.OrderCreated?) || (a.OrderExecuted? && b.OrderExecuted?) ||
                                  (a.OrderCancelled? && b.OrderCancelled?) || (a.ProtocolChanged? && b.ProtocolChanged?)
  {
    if Tag(a) == Tag(b) {
      assert Tag(a)[5] == Tag(b)[5];
      assert Tag(a)[7] == Tag(b)[7];
    }
  }

  /** The reply to `getOrderDetails`: the order with its timestamp in
      milliseconds (a whole number of seconds, read back by dividing by
      1000) and status and protocol decoded through the tables, named
      exactly for the codes 0 to 2 and undefined otherwise. */
  function DetailsMessage(requestedId: Js.JsValue, order: ChainOrder): (m: Message)
    ensures m.OrderDetails? && m.requestedId == requestedId && m.order == order
    ensures m.createdAtMs / 1000 == order.createdAt && m.createdAtMs % 1000 == 0
    ensures m.statusName.Some? <==> order.status < 3
    ensures m.protocolName.Some? <==> order.protocol < 3
    ensures m.statusName == OrderMirror.StatusName(order.status)
    ensures m.protocolName == OrderMirror.ProtocolName(order.protocol)
  {
    OrderMirror.DecodeTables(order.status, order.status);
    OrderMirror.DecodeTables(order.protocol, order.protocol);
    OrderDetails(requestedId, order, order.createdAt * 1000,
                 OrderMirror.StatusName(order.status), OrderMirror.ProtocolName(order.protocol))
  }

  /** The clients a broadcast reaches: the OPEN ones, in set order. */
  function OpenClients(clients: seq<nat>, state: nat -> ReadyState): (r: seq<nat>)
    ensures |r| <= |clients|
  {
    if |clients| == 0 then []
    else if state(clients[0]) == Open then [clients[0]] + OpenClients(clients[1..], state)
    else OpenClients(clients[1..], state)
  }

  /** The recipients are exactly the clients whose state is OPEN. */
  lemma {:induction false} OpenClientsMembers(clients: seq<nat>, state: nat -> ReadyState)
    ensures forall c :: c in OpenClients(clients, state) <==> c in clients && state(c) == Open
    decreases |clients|
  {
    if |clients| > 0 {
      OpenClientsMembers(clients[1..], state);
      assert clients == [clients[0]] + clients[1..];
    }
  }

  /** A set's recipients are themselves distinct. */
  lemma {:induction false} OpenClientsDistinct(clients: seq<nat>, state: nat -> ReadyState)
    requires Distinct(clients)
    ensures Distinct(OpenClients(clients, state))
    decreases |clients|
  {
    if |clients| > 0 {
      var tail := clients[1..];
      assert Distinct(tail) by {
        forall i, j | 0 <= i < j < |tail| ensures tail[i] != tail[j] {
          assert tail[i] == clients[i + 1] && tail[j] == clients[j + 1];
        }
      }
      OpenClientsDistinct(tail, state);
      OpenClientsMembers(tail, state);
      assert clients[0] !in tail by {
        forall k | 0 <= k < |tail| ensures tail[k] != clients[0] {
          assert tail[k] == clients[k + 1];
        }
      }
      var rest := OpenClients(tail, state);
      if state(clients[0]) == Open {
        var r := [clients[0]] + rest;
        forall i, j | 0 <= i < j < |r| ensures r[i] != r[j] {
          if i == 0 {
            assert r[j] == rest[j - 1];
            assert rest[j - 1] in rest;
          } else {
            assert r[i] == rest[i - 1] && r[j] == rest[j - 1];
          }
        }
      }
    }
  }

  /** One delivery of the same message to each recipient, in order. */
  function Deliveries(recipients: seq<nat>, m: Message): (r: seq<(nat, Message)>)
    ensures |r| == |recipients|
    ensures forall i :: 0 <= i < |r| ==> r[i] == (recipients[i], m)
  {
    seq(|recipients|, i requires 0 <= i < |recipients| => (recipients[i], m))
  }

  /** Distinct entries, as a JavaScript `Set` holds them. */
  predicate Distinct(s: seq<nat>)
  {
    forall i, j :: 0 <= i < j < |s| ==> s[i] != s[j]
  }

  /** `set.delete(x)`. */
  function Remove(s: seq<nat>, x: nat): (r: seq<nat>)
    ensures forall c :: c in r <==> c in s && c != x
    ensures Distinct(s) ==> Distinct(r)
  {
    if |s| == 0 then []
    else
      var rest := Remove(s[1..], x);
      assert forall c :: c in s <==> c == s[0] || c in s[1..];
      if s[0] == x then rest
      else
        assert Distinct(s) ==> s[0] !in s[1..];
        [s[0]] + rest
  }

  class Hub {
    /** The connected sockets in insertion order, each once. */
    var clients: seq<nat>
    /** Every message sent so far, with its socket. */
    var outbox: seq<(nat, Message)>

    predicate Valid()
      reads this
    {
      Distinct(clients)
    }

    constructor ()
      ensures clients == [] && outbox == [] && Valid()
    {
      clients := [];
      outbox := [];
    }

    /** A connection adds the socket and sends it "initialData" with the
        pending orders, unless reading them failed. */
    method Connect(ws: nat, pending: Option<seq<nat>>)
      requires Valid()
      modifies this
      ensures Valid()
      ensures clients == if ws in old(clients) then old(clients) else old(clients) + [ws]
      ensures outbox == old(outbox) + (if pending.Some? then [(ws, InitialData(pending.value))] else [])
    {
      if ws !in clients {
        clients := clients + [ws];
      }
      if pending.Some? {
        outbox := outbox + [(ws, InitialData(pending.value))];
      }
    }

    /** A close removes the socket; nothing is sent. */
    method Close(ws: nat)
      requires Valid()
      modifies this
      ensures Valid()
      ensures clients == Remove(old(clients), ws) && ws !in clients
      ensures outbox == old(outbox)
    {
      clients := Remove(clients, ws);
    }

    /** A client message: only "getOrderDetails" is answered, to the
        asking socket, and only when the order could be read. */
    method OnMessage(ws: nat, request: Request, details: Js.JsValue -> Option<ChainOrder>)
      modifies this
      ensures clients == old(clients)
      ensures request.kind == Js.Str(GetOrderDetails) && details(request.orderId).Some? ==>
        outbox == old(outbox) + [(ws, DetailsMessage(request.orderId, details(request.orderId).value))]
      ensures !(request.kind == Js.Str(GetOrderDetails) && details(request.orderId).Some?) ==> outbox == old(outbox)
    {
      if request.kind == Js.Str(GetOrderDetails) {
        var order := details(request.orderId);
        if order.Some? {
          outbox := outbox + [(ws, DetailsMessage(request.orderId, order.value))];
        }
      }
    }

    /** `broadcastToAll`: one send to every OPEN client in set order;
        other clients are skipped, not removed. */
    method Broadcast(m: Message, state: nat -> ReadyState)
      modifies this
      ensures clients == old(clients)
      ensures outbox == old(outbox) + Deliveries(OpenClients(clients, state), m)
    {
      var i := 0;
      while i < |clients|
        invariant clients == old(clients)
        invariant 0 <= i <= |clients|
        invariant outbox == old(outbox) + Deliveries(OpenClients(clients[..i], state), m)
      {
        OpenClientsSnoc(clients[..i], clients[i], state);
        assert clients[..i + 1] == clients[..i] + [clients[i]];
        if state(clients[i]) == Open {
          outbox := outbox + [(clients[i], m)];
        }
        DeliveriesSnoc(OpenClients(clients[..i], state), if state(clients[i]) == Open then [clients[i]] else [], m);
        i := i + 1;
      }
      assert clients[..i] == clients;
    }

    /** A contract event is broadcast as its tagged message. */
    method OnContractEvent(e: ContractEvent, state: nat -> ReadyState)
      modifies this
      ensures clients == old(clients)
      ensures outbox == old(outbox) + Deliveries(OpenClients(clients, state), EventMessage(e))
    {
      Broadcast(EventMessage(e), state);
    }

    /** One tick of the price timer: a price for each collected token
        whose lookup succeeds, then one broadcast. */
    method PriceTick(tokens: seq<string>, price: string -> Option<int>, state: nat -> ReadyState)
      modifies this
      ensures clients == old(clients)
      ensures outbox == old(outbox) + Deliveries(OpenClients(clients, state), MarketPrices(Prices(tokens, price)))
    {
      var prices := CollectPrices(tokens, price);
      Broadcast(MarketPrices(prices), state);
    }
  }

  lemma OpenClientsSnoc(s: seq<nat>, c: nat, state: nat -> ReadyState)
    ensures OpenClients(s + [c], state) == OpenClients(s, state) + (if state(c) == Open then [c] else [])
    decreases |s|
  {
    if |s| > 0 {
      OpenClientsSnoc(s[1..], c, state);
      assert (s + [c])[1..] == s[1..] + [c];
    }
  }

  lemma DeliveriesSnoc(a: seq<nat>, b: seq<nat>, m: Message)
    ensures Deliveries(a + b, m) == Deliveries(a, m) + Deliveries(b, m)
  {
  }

  /** A broadcast reaches every OPEN client exactly once and no one else. */
  lemma BroadcastReach(clients: seq<nat>, state: nat -> ReadyState, m: Message, c: nat)
    requires Distinct(clients)
    ensures (c, m) in Deliveries(OpenClients(clients, state), m) <==> c in clients && state(c) == Open
    ensures var d := Deliveries(OpenClients(clients, state), m);
      forall i, j :: 0 <= i < j < |d| ==> d[i] != d[j]
  {
    OpenClientsMembers(clients, state);
    OpenClientsDistinct(clients, state);
    var d := Deliveries(OpenClients(clients, state), m);
    if (c, m) in d {
      var i :| 0 <= i < |d| && d[i] == (c, m);
      assert OpenClients(clients, state)[i] == c;
    }
    if c in clients && state(c) == Open {
      var r := OpenClients(clients, state);
      var i :| 0 <= i < |r| && r[i] == c;
      assert d[i] == (c, m);
    }
  }

  /** The prices map of one tick: tokens whose lookup fails are left out;
      a failure does not stop the others. */
  function Prices(tokens: seq<string>, price: string -> Option<int>): (r: map<string, int>)
    ensures forall t :: t in r <==> t in tokens && price(t).Some?
    ensures forall t :: t in r ==> r[t] == price(t).value
  {
    if |tokens| == 0 then map[]
    else
      var last := tokens[|tokens| - 1];
      var rest := Prices(tokens[..|tokens| - 1], price);
      assert forall t :: t in tokens <==> t == last || t in tokens[..|tokens| - 1];
      if price(last).Some? then rest[last := price(last).value] else rest
  }

  /** The `for (const token of uniqueTokens)` loop. */
  method CollectPrices(tokens: seq<string>, price: string -> Option<int>) returns (prices: map<string, int>)
    ensures prices == Prices(tokens, price)
  {
    prices := map[];
    var i := 0;
    while i < |tokens|
      invariant 0 <= i <= |tokens|
      invariant prices == Prices(tokens[..i], price)
    {
      assert tokens[..i + 1][..i] == tokens[..i];
      var p := price(tokens[i]);
      if p.Some? {
        prices := prices[tokens[i] := p.value];
      }
      i := i + 1;
    }
    assert tokens[..i] == tokens;
  }

  /** The set of tokenOut values of the first n orders, in first-seen
      order; None when a read fails (the whole start-up step rejects). */
  function UniqueTokens(tokenOut: nat -> Option<string>, n: nat): Option<seq<string>>
    decreases n
  {
    if n == 0 then Some([])
    else
      match UniqueTokens(tokenOut, n - 1)
      case None => None
      case Some(acc) =>
        match tokenOut(n - 1)
        case None => None
        case Some(t) => Some(if t in acc then acc else acc + [t])
  }

  /** The collected tokens are distinct and are exactly the tokenOut
      values read; a read failure anywhere gives None. */
  lemma {:induction false} UniqueTokensSpec(tokenOut: nat -> Option<string>, n: nat)
    ensures UniqueTokens(tokenOut, n).None? <==> exists i :: 0 <= i < n && tokenOut(i).None?
    ensures UniqueTokens(tokenOut, n).Some? ==>
      var u := UniqueTokens(tokenOut, n).value;
      (forall i, j :: 0 <= i < j < |u| ==> u[i] != u[j]) &&
      (forall t :: t in u <==> exists i :: 0 <= i < n && tokenOut(i) == Some(t))
    decreases n
  {
    if n > 0 {
      UniqueTokensSpec(tokenOut, n - 1);
      if UniqueTokens(tokenOut, n - 1).Some? && tokenOut(n - 1).Some? {
        var acc := UniqueTokens(tokenOut, n - 1).value;
        var t := tokenOut(n - 1).value;
        var u := UniqueTokens(tokenOut, n).value;
        forall s ensures s in u <==> exists i :: 0 <= i < n && tokenOut(i) == Some(s) {
          if s == t {
            assert tokenOut(n - 1) == Some(s);
          }
          if exists i :: 0 <= i < n && tokenOut(i) == Some(s) {
            var i :| 0 <= i < n && tokenOut(i) == Some(s);
            if i < n - 1 {
              assert s in acc;
            }
          }
        }
      }
    }
  }

  /** The start-up loop that collects the tokens of all orders. */
  method CollectTokens(tokenOut: nat -> Option<string>, orderCount: nat) returns (tokens: Option<seq<string>>)
    ensures tokens == UniqueTokens(tokenOut, orderCount)
  {
    var acc: seq<string> := [];
    var i := 0;
    while i < orderCount
      invariant 0 <= i <= orderCount
      invariant UniqueTokens(tokenOut, i) == Some(acc)
    {
      var t := tokenOut(i);
      if t.None? {
        UniqueTokensFailAfter(tokenOut, i + 1, orderCount);
        return None;
      }
      if t.value !in acc {
        acc := acc + [t.value];
      }
      i := i + 1;
    }
    tokens := Some(acc);
  }

  /** Once a prefix read fails, every longer prefix fails too. */
  lemma {:induction false} UniqueTokensFailAfter(tokenOut: nat -> Option<string>, k: nat, n: nat)
    requires k <= n && UniqueTokens(tokenOut, k).None?
    ensures UniqueTokens(tokenOut, n).None?
    decreases n - k
  {
    if k < n {
      UniqueTokensFailAfter(tokenOut, k + 1, n);
    }
  }
}
