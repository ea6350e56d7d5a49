/** The backend's in-memory mirror of the limit-order contract: the list of
    pending orders, the history of executed orders, and what it pushes to
    connected socket clients. Every chain interaction is a parameter:
    `read(i)` is the result of `getOrderDetails(i)` (None when the call
    fails), `orderCount` is whatever value the code takes as the number of
    orders, and transaction outcomes are given as data. Each handler runs as
    one atomic step. Amounts stay in their raw on-chain units and times are
    milliseconds; unit formatting and ISO date rendering are not modelled. */
module OrderMirror {
  import opened Wrappers
  import Text
  import Js
  import PriceService

  /** Period of the execution sweep, in milliseconds. */
  const CheckIntervalMs: nat := 60000

  /** The protocol refresh runs every 60 sweep periods (one hour). */
  const ProtocolIntervalMs: nat := CheckIntervalMs * 60

  /** Period of the statistics push (five minutes). */
  const StatsIntervalMs: nat := 300000

  /** Amount added to the network gas price, in gwei. */
  const GasPriceOffsetGwei: nat := 10

  const WeiPerGwei: nat := 1000000000

  /** The gas price offered for the sweep: the network price plus the
      offset converted to wei. */
  function GasPriceOffer(gasPrice: nat): (r: nat)
    ensures r == gasPrice + 10000000000
  {
    gasPrice + GasPriceOffsetGwei * WeiPerGwei
  }

  const StatusNames: seq<string> := ["PENDING", "EXECUTED", "CANCELLED"]
  const ProtocolNames: seq<string> := ["NONE", "AAVE", "COMPOUND"]

  /** Indexing a JavaScript array literal: a name for in-range codes,
      `undefined` otherwise. */
  function Decode(table: seq<string>, code: nat): (r: Option<string>)
    ensures r.Some? <==> code < |table|
    ensures r.Some? ==> r.value == table[code]
  {
    if code < |table| then Some(table[code]) else None
  }

  function StatusName(code: nat): Option<string>
  {
    Decode(StatusNames, code)
  }

  function ProtocolName(code: nat): Option<string>
  {
    Decode(ProtocolNames, code)
  }

  /** Each table names exactly the codes 0, 1 and 2, with distinct names. */
  lemma DecodeTables(a: nat, b: nat)
    ensures StatusName(a).Some? <==> a < 3
    ensures ProtocolName(a).Some? <==> a < 3
    ensures StatusName(a).Some? && StatusName(a) == StatusName(b) ==> a == b
    ensures ProtocolName(a).Some? && ProtocolName(a) == ProtocolName(b) ==> a == b
  {
    if StatusName(a).Some? && StatusName(a) == StatusName(b) {
      assert a == 0 || a == 1 || a == 2;
      assert b == 0 || b == 1 || b == 2;
    }
    if ProtocolName(a).Some? && ProtocolName(a) == ProtocolName(b) {
      assert a == 0 || a == 1 || a == 2;
      assert b == 0 || b == 1 || b == 2;
    }
  }

  /** What `getOrderDetails(i)` returns. */
  datatype OrderDetails = OrderDetails(
    user: string, tokenIn: string, tokenOut: string,
    amountIn: nat, targetPrice: nat, createdAt: nat,
    status: nat, depositedAmount: nat, currentInterest: nat, protocol: nat)

  /** An entry of `pendingOrders`. */
  datatype PendingOrder = PendingOrder(
    orderId: nat, user: string, tokenIn: string, tokenOut: string,
    amountIn: nat, targetPrice: nat, createdAtMs: nat,
    currentInterest: nat, protocol: Option<string>)

  /** An entry of `orderHistory`; only executions taken from a sweep receipt
      carry the transaction hash. */
  datatype HistoryEntry = HistoryEntry(
    orderId: string, user: string, tokenOut: string,
    amountOut: nat, interest: nat, executedAtMs: nat,
    transactionHash: Option<string>)

  /** A log entry of a receipt: its decoded event name (None for a log the
      interface does not decode) and its arguments. */
  datatype LogEvent = LogEvent(
    name: Option<string>, orderId: nat, user: string, tokenOut: string,
    amountOut: nat, interest: nat)

  /** A message pushed to every connected client, or to one of them. */
  datatype Emission =
    | PendingOrdersPush(orders: seq<PendingOrder>)
    | OrderHistoryPush(history: seq<HistoryEntry>)
    | OrderExecutedPush(entry: HistoryEntry)
    | NewOrderPush(orderId: string, user: string, tokenIn: string, tokenOut: string,
                   amountIn: nat, targetPrice: nat, createdAtMs: nat)
    | OrderCancelledPush(orderId: string, user: string, returnedAmount: nat,
                         interest: nat, cancelledAtMs: nat)
    | ProtocolChangedPush(orderId: string, oldProtocol: Option<string>,
                          newProtocol: Option<string>, interestEarned: nat, updatedAtMs: nat)
    | StatsPush(totalPendingOrders: nat, totalExecutedOrders: nat, lastCheckedMs: nat)

  /** The pending-list entry built from the details read at index i. */
  function Entry(i: nat, d: OrderDetails): (r: PendingOrder)
    ensures r.orderId == i && r.tokenOut == d.tokenOut && r.user == d.user
    ensures r.createdAtMs == d.createdAt * 1000
    ensures r.protocol.Some? <==> d.protocol < 3
  {
    PendingOrder(i, d.user, d.tokenIn, d.tokenOut, d.amountIn, d.targetPrice,
                 d.createdAt * 1000, d.currentInterest, ProtocolName(d.protocol))
  }

  /** The scan of `fetchPendingOrders`: reads every index below n in turn and
      keeps the pending ones; None when some read fails. */
  function Scan(read: nat -> Option<OrderDetails>, n: nat): Option<seq<PendingOrder>>
    decreases n
  {
    if n == 0 then Some([])
    else
      match Scan(read, n - 1)
      case None => None
      case Some(acc) =>
        match read(n - 1)
        case None => None
        case Some(d) => Some(if d.status == PriceService.PendingCode then acc + [Entry(n - 1, d)] else acc)
  }

  /** The status reads the scan performs. */
  function StatusReads(read: nat -> Option<OrderDetails>): nat -> Option<nat>
  {
    (i: nat) => if read(i).Some? then Some(read(i).value.status) else None
  }

  function Ids(orders: seq<PendingOrder>): (r: seq<nat>)
    ensures |r| == |orders|
    ensures forall k :: 0 <= k < |orders| ==> r[k] == orders[k].orderId
  {
    seq(|orders|, k requires 0 <= k < |orders| => orders[k].orderId)
  }

  /** The mirror's scan and the price service's scan select the same orders:
      the ids of the mirror's list are the price service's pending indices,
      and the two fail together. */
  lemma {:induction false} ScanAgreesWithPendingIndices(read: nat -> Option<OrderDetails>, n: nat)
    ensures Scan(read, n).None? <==> PriceService.PendingIndices(StatusReads(read), n).None?
    ensures Scan(read, n).Some? ==> Ids(Scan(read, n).value) == PriceService.PendingIndices(StatusReads(read), n).value
    decreases n
  {
    if n > 0 {
      ScanAgreesWithPendingIndices(read, n - 1);
      assert StatusReads(read)(n - 1) == if read(n - 1).Some? then Some(read(n - 1).value.status) else None;
      if Scan(read, n - 1).Some? && read(n - 1).Some? && read(n - 1).value.status == 0 {
        var acc := Scan(read, n - 1).value;
        assert Ids(acc + [Entry(n - 1, read(n - 1).value)]) == Ids(acc) + [n - 1];
      }
    }
  }

  /** Each entry of a successful scan is the entry built from what was read
      at its own index. */
  lemma {:induction false} ScanEntries(read: nat -> Option<OrderDetails>, n: nat)
    requires Scan(read, n).Some?
    ensures forall k :: 0 <= k < |Scan(read, n).value| ==>
              var e := Scan(read, n).value[k];
              read(e.orderId).Some? && e == Entry(e.orderId, read(e.orderId).value)
    decreases n
  {
    if n > 0 {
      ScanEntries(read, n - 1);
    }
  }

  /** After a successful refresh the pending list holds exactly the indices
      below the order count whose status is pending, in ascending order, each
      built from its own read; a failed read anywhere makes the refresh fail. */
  lemma ScanSpec(read: nat -> Option<OrderDetails>, n: nat)
    ensures Scan(read, n).None? <==> exists i :: 0 <= i < n && read(i).None?
    ensures Scan(read, n).Some? ==>
      var s := Scan(read, n).value;
      PriceService.StrictlyIncreasing(Ids(s)) &&
      (forall i :: i in Ids(s) <==> 0 <= i < n && read(i).Some? && read(i).value.status == 0) &&
      (forall k :: 0 <= k < |s| ==> read(s[k].orderId).Some? && s[k] == Entry(s[k].orderId, read(s[k].orderId).value))
  {
    ScanAgreesWithPendingIndices(read, n);
    PriceService.PendingIndicesFails(StatusReads(read), n);
    if Scan(read, n).None? {
      var i :| 0 <= i < n && StatusReads(read)(i).None?;
      assert read(i).None?;
    } else {
      forall i | 0 <= i < n ensures read(i).Some? {
        assert StatusReads(read)(i) == if read(i).Some? then Some(read(i).value.status) else None;
      }
      PriceService.PendingIndicesExact(StatusReads(read), n);
      ScanEntries(read, n);
      var ids := PriceService.PendingIndices(StatusReads(read), n).value;
      forall i ensures i in ids <==> 0 <= i < n && read(i).Some? && read(i).value.status == 0 {
        if 0 <= i < n {
          assert StatusReads(read)(i) == if read(i).Some? then Some(read(i).value.status) else None;
        }
      }
    }
  }

  /** Once a prefix of the scan fails, the whole scan fails. */
  lemma {:induction false} ScanNoneAfter(read: nat -> Option<OrderDetails>, m: nat, n: nat)
    requires m <= n && Scan(read, m).None?
    ensures Scan(read, n).None?
    decreases n - m
  {
    if m < n {
      ScanNoneAfter(read, m + 1, n);
    }
  }

  /** The pending list after a refresh: the scan when it succeeds, the old
      list when it fails. */
  function Refreshed(pending: seq<PendingOrder>, read: nat -> Option<OrderDetails>, n: nat): seq<PendingOrder>
  {
    if Scan(read, n).Some? then Scan(read, n).value else pending
  }

  /** What a refresh pushes: the new list when it succeeds, nothing otherwise. */
  function RefreshPushes(read: nat -> Option<OrderDetails>, n: nat): seq<Emission>
  {
    if Scan(read, n).Some? then [PendingOrdersPush(Scan(read, n).value)] else []
  }

  predicate IsExecutedEvent(e: LogEvent)
  {
    e.name == Some("OrderExecuted")
  }

  /** `receipt.events.filter(event => event.event === "OrderExecuted")`. */
  function ExecutedEvents(events: seq<LogEvent>): seq<LogEvent>
  {
    if |events| == 0 then []
    else (if IsExecutedEvent(events[0]) then [events[0]] else []) + ExecutedEvents(events[1..])
  }

  lemma SeqAssociative<T>(x: seq<T>, y: seq<T>, z: seq<T>)
    ensures x + (y + z) == (x + y) + z
  {
  }

  /** Filtering distributes over concatenation, so it keeps receipt order. */
  lemma {:induction false} ExecutedEventsAppend(a: seq<LogEvent>, b: seq<LogEvent>)
    ensures ExecutedEvents(a + b) == ExecutedEvents(a) + ExecutedEvents(b)
    decreases |a|
  {
    if |a| == 0 {
      assert a + b == b;
    } else {
      var head := if IsExecutedEvent(a[0]) then [a[0]] else [];
      assert (a + b)[0] == a[0];
      assert (a + b)[1..] == a[1..] + b;
      ExecutedEventsAppend(a[1..], b);
      assert ExecutedEvents(a + b) == head + (ExecutedEvents(a[1..]) + ExecutedEvents(b));
      assert ExecutedEvents(a) == head + ExecutedEvents(a[1..]);
      SeqAssociative(head, ExecutedEvents(a[1..]), ExecutedEvents(b));
    }
  }

  /** The filter keeps every OrderExecuted event as often as it occurs and
      drops every other kind. */
  lemma {:induction false} ExecutedEventsCount(events: seq<LogEvent>)
    ensures forall e :: IsExecutedEvent(e) ==> multiset(ExecutedEvents(events))[e] == multiset(events)[e]
    ensures forall e :: !IsExecutedEvent(e) ==> multiset(ExecutedEvents(events))[e] == 0
    decreases |events|
  {
    if |events| > 0 {
      ExecutedEventsCount(events[1..]);
      assert events == [events[0]] + events[1..];
      assert multiset(events) == multiset([events[0]]) + multiset(events[1..]);
    }
  }

  /** The history entry recorded for an executed event of a sweep receipt. */
  function ReceiptEntry(e: LogEvent, txHash: string, nowMs: nat): HistoryEntry
  {
    HistoryEntry(Text.Decimal(e.orderId), e.user, e.tokenOut, e.amountOut, e.interest, nowMs, Some(txHash))
  }

  /** The history entries a sweep receipt contributes, one per executed event. */
  function ReceiptEntries(executed: seq<LogEvent>, txHash: string, nowMs: nat): (r: seq<HistoryEntry>)
    ensures |r| == |executed|
    ensures forall k :: 0 <= k < |r| ==> r[k] == ReceiptEntry(executed[k], txHash, nowMs)
  {
    seq(|executed|, k requires 0 <= k < |executed| => ReceiptEntry(executed[k], txHash, nowMs))
  }

  function ExecutedPushes(entries: seq<HistoryEntry>): (r: seq<Emission>)
    ensures |r| == |entries|
    ensures forall k :: 0 <= k < |r| ==> r[k] == OrderExecutedPush(entries[k])
  {
    seq(|entries|, k requires 0 <= k < |entries| => OrderExecutedPush(entries[k]))
  }

  /** A sweep receipt's entries are exactly its OrderExecuted events, in
      order: each entry names the order id of the matching event (as a
      decimal string) and carries the receipt's hash. */
  lemma ReceiptEntriesFaithful(events: seq<LogEvent>, txHash: string, nowMs: nat)
    ensures var ex := ExecutedEvents(events); var r := ReceiptEntries(ex, txHash, nowMs);
      |r| == |ex| &&
      (forall k :: 0 <= k < |r| ==>
         IsExecutedEvent(ex[k]) && ex[k] in events &&
         Text.ParseNumeral(r[k].orderId, 10) == Some(ex[k].orderId) &&
         r[k].transactionHash == Some(txHash))
  {
    ExecutedEventsCount(events);
    var ex := ExecutedEvents(events);
    forall k | 0 <= k < |ex| ensures IsExecutedEvent(ex[k]) && ex[k] in events {
      assert multiset(ex)[ex[k]] > 0;
    }
    forall k | 0 <= k < |ex| ensures Text.ParseNumeral(Text.Decimal(ex[k].orderId), 10) == Some(ex[k].orderId) {
      Text.NumeralRoundTrip(ex[k].orderId, 10);
    }
  }

  /** The outcome of the sweep transaction: refused when sent, failed while
      awaiting the receipt, or mined with its receipt. */
  datatype SweepOutcome = NotSent | Failed | Mined(transactionHash: string, events: seq<LogEvent>)

  /** The mirror: `pendingOrders`, `orderHistory`, and the log of what it
      has pushed to all connected clients. */
  class Monitor {
    var pendingOrders: seq<PendingOrder>
    var orderHistory: seq<HistoryEntry>
    var emitted: seq<Emission>

    constructor ()
      ensures pendingOrders == [] && orderHistory == [] && emitted == []
    {
      pendingOrders := [];
      orderHistory := [];
      emitted := [];
    }

    /** `fetchPendingOrders`: rebuilds the pending list from a scan of the
        chain and pushes it; a failed read leaves the list as it was and
        yields the empty list. */
    method FetchPendingOrders(read: nat -> Option<OrderDetails>, orderCount: nat)
      returns (result: seq<PendingOrder>)
      modifies this
      ensures pendingOrders == Refreshed(old(pendingOrders), read, orderCount)
      ensures emitted == old(emitted) + RefreshPushes(read, orderCount)
      ensures result == if Scan(read, orderCount).Some? then pendingOrders else []
      ensures orderHistory == old(orderHistory)
    {
      var acc: seq<PendingOrder> := [];
      var i := 0;
      while i < orderCount
        invariant 0 <= i <= orderCount
        invariant Scan(read, i) == Some(acc)
      {
        var details := read(i);
        if details.None? {
          ScanNoneAfter(read, i + 1, orderCount);
          return [];
        }
        if details.value.status == PriceService.PendingCode {
          acc := acc + [Entry(i, details.value)];
        }
        i := i + 1;
      }
      pendingOrders := acc;
      emitted := emitted + [PendingOrdersPush(pendingOrders)];
      result := pendingOrders;
    }

    /** `checkAndExecuteOrders`: offers the network gas price plus the
        offset, sends the sweep, and once it is mined refreshes the pending
        list and records and pushes every OrderExecuted event of its
        receipt, in receipt order. A missing gas price or a failed
        transaction changes nothing and returns false. */
    method CheckAndExecuteOrders(gasPrice: Option<nat>, sweep: SweepOutcome,
                                 read: nat -> Option<OrderDetails>, orderCount: nat, nowMs: nat)
      returns (ok: bool, offered: Option<nat>)
      modifies this
      ensures offered == if gasPrice.Some? then Some(GasPriceOffer(gasPrice.value)) else None
      ensures ok <==> gasPrice.Some? && sweep.Mined?
      ensures !ok ==> pendingOrders == old(pendingOrders) && orderHistory == old(orderHistory) && emitted == old(emitted)
      ensures ok ==>
        var added := ReceiptEntries(ExecutedEvents(sweep.events), sweep.transactionHash, nowMs);
        pendingOrders == Refreshed(old(pendingOrders), read, orderCount) &&
        orderHistory == old(orderHistory) + added &&
        emitted == old(emitted) + RefreshPushes(read, orderCount) + ExecutedPushes(added)
    {
      if gasPrice.None? {
        return false, None;
      }
      offered := Some(GasPriceOffer(gasPrice.value));
      if !sweep.Mined? {
        return false, offered;
      }
      var _ := FetchPendingOrders(read, orderCount);
      var executed := ExecutedPendingFilter(sweep.events);
      ghost var historyBefore := orderHistory;
      ghost var emittedBefore := emitted;
      ghost var added := ReceiptEntries(executed, sweep.transactionHash, nowMs);
      var j := 0;
      while j < |executed|
        invariant 0 <= j <= |executed|
        invariant pendingOrders == Refreshed(old(pendingOrders), read, orderCount)
        invariant orderHistory == historyBefore + added[..j]
        invariant emitted == emittedBefore + ExecutedPushes(added[..j])
      {
        var entry := ReceiptEntry(executed[j], sweep.transactionHash, nowMs);
        assert added[..j + 1] == added[..j] + [entry];
        assert ExecutedPushes(added[..j + 1]) == ExecutedPushes(added[..j]) + [OrderExecutedPush(entry)];
        orderHistory := orderHistory + [entry];
        emitted := emitted + [OrderExecutedPush(entry)];
        j := j + 1;
      }
      assert added[..j] == added;
      ok := true;
    }

    /** The `OrderCreated` listener: refreshes, then pushes the new order. */
    method OnOrderCreated(orderId: nat, user: string, tokenIn: string, tokenOut: string,
                          amountIn: nat, targetPrice: nat, nowMs: nat,
                          read: nat -> Option<OrderDetails>, orderCount: nat)
      modifies this
      ensures pendingOrders == Refreshed(old(pendingOrders), read, orderCount)
      ensures orderHistory == old(orderHistory)
      ensures emitted == old(emitted) + RefreshPushes(read, orderCount) +
        [NewOrderPush(Text.Decimal(orderId), user, tokenIn, tokenOut, amountIn, targetPrice, nowMs)]
    {
      var _ := FetchPendingOrders(read, orderCount);
      emitted := emitted + [NewOrderPush(Text.Decimal(orderId), user, tokenIn, tokenOut, amountIn, targetPrice, nowMs)];
    }

    /** The `OrderExecuted` listener: appends the execution to the history
        (without a transaction hash) whether or not the sweep already
        recorded it, pushes it, then refreshes. */
    method OnOrderExecuted(orderId: nat, user: string, tokenOut: string,
                           amountOut: nat, interest: nat, nowMs: nat,
                           read: nat -> Option<OrderDetails>, orderCount: nat)
      modifies this
      ensures var entry := HistoryEntry(Text.Decimal(orderId), user, tokenOut, amountOut, interest, nowMs, None);
        orderHistory == old(orderHistory) + [entry] &&
        emitted == old(emitted) + [OrderExecutedPush(entry)] + RefreshPushes(read, orderCount)
      ensures pendingOrders == Refreshed(old(pendingOrders), read, orderCount)
    {
      var entry := HistoryEntry(Text.Decimal(orderId), user, tokenOut, amountOut, interest, nowMs, None);
      orderHistory := orderHistory + [entry];
      emitted := emitted + [OrderExecutedPush(entry)];
      var _ := FetchPendingOrders(read, orderCount);
    }

    /** The `OrderCancelled` listener: pushes the cancellation and refreshes;
        the history is not touched. */
    method OnOrderCancelled(orderId: nat, user: string, returnedAmount: nat, interest: nat, nowMs: nat,
                            read: nat -> Option<OrderDetails>, orderCount: nat)
      modifies this
      ensures orderHistory == old(orderHistory)
      ensures pendingOrders == Refreshed(old(pendingOrders), read, orderCount)
      ensures emitted == old(emitted) + [OrderCancelledPush(Text.Decimal(orderId), user, returnedAmount, interest, nowMs)] +
        RefreshPushes(read, orderCount)
    {
      emitted := emitted + [OrderCancelledPush(Text.Decimal(orderId), user, returnedAmount, interest, nowMs)];
      var _ := FetchPendingOrders(read, orderCount);
    }

    /** The `ProtocolChanged` listener: pushes the change with both protocol
        codes decoded, and refreshes; the history is not touched. */
    method OnProtocolChanged(orderId: nat, oldProtocol: nat, newProtocol: nat, interestEarned: nat, nowMs: nat,
                             read: nat -> Option<OrderDetails>, orderCount: nat)
      modifies this
      ensures orderHistory == old(orderHistory)
      ensures pendingOrders == Refreshed(old(pendingOrders), read, orderCount)
      ensures emitted == old(emitted) +
        [ProtocolChangedPush(Text.Decimal(orderId), ProtocolName(oldProtocol), ProtocolName(newProtocol), interestEarned, nowMs)] +
        RefreshPushes(read, orderCount)
    {
      emitted := emitted + [ProtocolChangedPush(Text.Decimal(orderId), ProtocolName(oldProtocol),
                                                ProtocolName(newProtocol), interestEarned, nowMs)];
      var _ := FetchPendingOrders(read, orderCount);
    }

    /** `checkAndUpdateProtocols`: sends the protocol update for each pending
        order in list order; the first refused send aborts the loop with
        false, skipping the later orders and the refresh. When every send is
        accepted the pending list is refreshed and the result is true. `sent`
        says whether the send for an order id is accepted (the mirror awaits
        the send only, not the receipt). */
    method CheckAndUpdateProtocols(sent: nat -> bool, read: nat -> Option<OrderDetails>, orderCount: nat)
      returns (ok: bool, attempted: seq<nat>)
      modifies this
      ensures attempted == PriceService.Attempts(Ids(old(pendingOrders)), sent)
      ensures ok <==> PriceService.AllSucceed(Ids(old(pendingOrders)), sent)
      ensures orderHistory == old(orderHistory)
      ensures ok ==> pendingOrders == Refreshed(old(pendingOrders), read, orderCount) &&
                     emitted == old(emitted) + RefreshPushes(read, orderCount)
      ensures !ok ==> pendingOrders == old(pendingOrders) && emitted == old(emitted)
    {
      var ids := Ids(pendingOrders);
      attempted := [];
      var i := 0;
      while i < |pendingOrders|
        invariant 0 <= i <= |pendingOrders|
        invariant pendingOrders == old(pendingOrders) && emitted == old(emitted)
        invariant orderHistory == old(orderHistory)
        invariant attempted == ids[..i]
        invariant PriceService.AllSucceed(ids[..i], sent)
      {
        var id := pendingOrders[i].orderId;
        attempted := attempted + [id];
        assert ids[..i + 1] == ids[..i] + [id];
        if !sent(id) {
          PriceService.AttemptsUpToFailure(ids, sent, i);
          return false, attempted;
        }
        i := i + 1;
      }
      assert ids[..i] == ids;
      PriceService.AttemptsAllSucceed(ids, sent);
      var _ := FetchPendingOrders(read, orderCount);
      ok := true;
    }

    /** The periodic statistics push. */
    method EmitStats(nowMs: nat)
      modifies this
      ensures emitted == old(emitted) + [StatsPush(|pendingOrders|, |orderHistory|, nowMs)]
      ensures pendingOrders == old(pendingOrders) && orderHistory == old(orderHistory)
    {
      emitted := emitted + [StatsPush(|pendingOrders|, |orderHistory|, nowMs)];
    }

    /** What a newly connected client receives: the current pending list,
        then the current history. */
    method Snapshot() returns (messages: seq<Emission>)
      ensures messages == [PendingOrdersPush(pendingOrders), OrderHistoryPush(orderHistory)]
    {
      messages := [PendingOrdersPush(pendingOrders), OrderHistoryPush(orderHistory)];
    }

    /** `POST /api/orders`: 400 unless tokenOut, amountIn and targetPrice
        are all truthy; otherwise the creation transaction is sent, the id
        is taken from its first OrderCreated event, and the list is
        refreshed. A failed transaction or a receipt without that event is a
        500 and changes nothing. */
    method PostOrder(tokenOut: Js.JsValue, amountIn: Js.JsValue, targetPrice: Js.JsValue,
                     creation: SweepOutcome, read: nat -> Option<OrderDetails>, orderCount: nat)
      returns (reply: RouteReply)
      modifies this
      ensures reply == Rejected(400, MissingFields) <==>
        !(Js.Truthy(tokenOut) && Js.Truthy(amountIn) && Js.Truthy(targetPrice))
      ensures reply.Done? <==>
        Js.Truthy(tokenOut) && Js.Truthy(amountIn) && Js.Truthy(targetPrice) &&
        creation.Mined? && FirstCreated(creation.events).Some?
      ensures reply.Done? ==>
        reply.orderId == Text.Decimal(FirstCreated(creation.events).value) &&
        reply.transactionHash == creation.transactionHash &&
        pendingOrders == Refreshed(old(pendingOrders), read, orderCount) &&
        emitted == old(emitted) + RefreshPushes(read, orderCount)
      ensures !reply.Done? ==> pendingOrders == old(pendingOrders) && emitted == old(emitted)
      ensures orderHistory == old(orderHistory)
    {
      if !Js.Truthy(tokenOut) || !Js.Truthy(amountIn) || !Js.Truthy(targetPrice) {
        return Rejected(400, MissingFields);
      }
      if !creation.Mined? {
        return Rejected(500, "transaction failed");
      }
      var created := FirstCreated(creation.events);
      if created.None? {
        return Rejected(500, "Cannot read properties of undefined (reading 'args')");
      }
      var _ := FetchPendingOrders(read, orderCount);
      reply := Done(Text.Decimal(created.value), creation.transactionHash);
    }

    /** `POST /api/orders/:orderId/cancel`: sends the cancellation; once it
        is mined the list is refreshed, otherwise the reply is 500. */
    method PostCancel(orderId: string, cancellation: SweepOutcome,
                      read: nat -> Option<OrderDetails>, orderCount: nat)
      returns (reply: RouteReply)
      modifies this
      ensures reply.Done? <==> cancellation.Mined?
      ensures reply.Done? ==>
        (reply.orderId == orderId && reply.transactionHash == cancellation.transactionHash &&
         pendingOrders == Refreshed(old(pendingOrders), read, orderCount) &&
         emitted == old(emitted) + RefreshPushes(read, orderCount))
      ensures !reply.Done? ==> reply.status == 500 && pendingOrders == old(pendingOrders) && emitted == old(emitted)
      ensures orderHistory == old(orderHistory)
    {
      if !cancellation.Mined? {
        return Rejected(500, "transaction failed");
      }
      var _ := FetchPendingOrders(read, orderCount);
      reply := Done(orderId, cancellation.transactionHash);
    }
  }

  /** `receipt.events.filter(...)` as the sweep method uses it. */
  method ExecutedPendingFilter(events: seq<LogEvent>) returns (executed: seq<LogEvent>)
    ensures executed == ExecutedEvents(events)
  {
    executed := [];
    var i := 0;
    while i < |events|
      invariant 0 <= i <= |events|
      invariant executed == ExecutedEvents(events[..i])
    {
      assert events[..i + 1] == events[..i] + [events[i]];
      ExecutedEventsAppend(events[..i], [events[i]]);
      if IsExecutedEvent(events[i]) {
        executed := executed + [events[i]];
      }
      i := i + 1;
    }
    assert events[..i] == events;
  }

  const MissingFields: string := "Thiếu thông tin cần thiết"

  /** A route's reply: the created or cancelled order, or an error status
      with its message. */
  datatype RouteReply = Done(orderId: string, transactionHash: string) | Rejected(status: nat, error: string)

  /** The order id of the first OrderCreated event of a receipt. */
  function FirstCreated(events: seq<LogEvent>): (r: Option<nat>)
    ensures r.None? <==> forall k :: 0 <= k < |events| ==> events[k].name != Some("OrderCreated")
    ensures r.Some? ==>
      exists k :: (0 <= k < |events| && events[k].name == Some("OrderCreated") &&
                   events[k].orderId == r.value &&
                   forall j :: 0 <= j < k ==> events[j].name != Some("OrderCreated"))
  {
    if |events| == 0 then None
    else if events[0].name == Some("OrderCreated") then Some(events[0].orderId)
    else FirstCreated(events[1..])
  }

  /** The order shown by `GET /api/orders/:orderId`: the details read for
      that id with the status and protocol codes decoded by name. */
  datatype OrderView = OrderView(
    orderId: string, user: string, tokenIn: string, tokenOut: string,
    amountIn: nat, targetPrice: nat, createdAtMs: nat, status: Option<string>,
    depositedAmount: nat, currentInterest: nat, protocol: Option<string>)

  function ViewOrder(orderId: string, details: Option<OrderDetails>): (r: Option<OrderView>)
    ensures r.Some? <==> details.Some?
    ensures r.Some? ==>
      (r.value.orderId == orderId &&
       (r.value.status.Some? <==> details.value.status < 3) &&
       (r.value.status == Some("PENDING") <==> details.value.status == 0) &&
       (r.value.protocol.Some? <==> details.value.protocol < 3))
  {
    match details
    case None => None
    case Some(d) =>
      Some(OrderView(orderId, d.user, d.tokenIn, d.tokenOut, d.amountIn, d.targetPrice,
                     d.createdAt * 1000, StatusName(d.status), d.depositedAmount,
                     d.currentInterest, ProtocolName(d.protocol)))
  }
}
