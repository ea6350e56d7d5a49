/** The order records the REST backend keeps in its document store, the
    controller operations that create, cancel and update them, and the
    queries, pagination and statistics over them. The store is a map from
    orderId to record; the chain transaction of each operation and the clock
    are parameters. */
module OrderRecords {
  import opened Wrappers
  import Text
  import Js

  const Pending: string := "PENDING"
  const Executed: string := "EXECUTED"
  const Cancelled: string := "CANCELLED"

  /** The values the schema allows for `status`. */
  const StatusEnum: seq<string> := [Pending, Executed, Cancelled]

  /** The values the schema allows for `currentProtocol`. */
  const ProtocolEnum: seq<string> := ["NONE", "AAVE", "COMPOUND"]

  datatype OrderRecord = OrderRecord(
    orderId: string, userAddress: string, tokenIn: string, tokenOut: string,
    amountIn: real, targetPrice: real, status: string,
    txHash: string, blockNumber: nat,
    executeTxHash: Option<string>, cancelTxHash: Option<string>,
    depositedAmount: Option<int>, accruedInterest: int, currentProtocol: string,
    createdAt: nat, updatedAt: nat, executedAt: Option<nat>, cancelledAt: Option<nat>)

  predicate IsPending(r: OrderRecord) { r.status == Pending }
  predicate IsExecuted(r: OrderRecord) { r.status == Executed }
  predicate IsCancelled(r: OrderRecord) { r.status == Cancelled }

  /** For every status the schema allows, exactly one of the three status
      predicates holds; for any other string none does. */
  lemma ExactlyOneStatus(r: OrderRecord)
    ensures r.status in StatusEnum ==>
      (IsPending(r) && !IsExecuted(r) && !IsCancelled(r)) ||
      (!IsPending(r) && IsExecuted(r) && !IsCancelled(r)) ||
      (!IsPending(r) && !IsExecuted(r) && IsCancelled(r))
    ensures r.status !in StatusEnum ==> !IsPending(r) && !IsExecuted(r) && !IsCancelled(r)
  {
  }

  /** The `totalAmount` virtual: deposited amount plus accrued interest, or
      NaN (None) while no deposit is recorded. */
  function TotalAmount(r: OrderRecord): (t: Option<int>)
    ensures t.Some? <==> r.depositedAmount.Some?
    ensures t.Some? ==> t.value - r.accruedInterest == r.depositedAmount.value
  {
    match r.depositedAmount
    case None => None
    case Some(d) => Some(d + r.accruedInterest)
  }

  /** What the schema's validators accept on save. */
  predicate SchemaValid(r: OrderRecord)
  {
    r.amountIn >= 0.0 && r.targetPrice >= 0.0 &&
    r.status in StatusEnum && r.currentProtocol in ProtocolEnum &&
    r.orderId != "" && r.userAddress != "" && r.tokenIn != "" && r.tokenOut != "" && r.txHash != ""
  }

  /** A new document: the given fields, the address fields lowercased by
      the schema, everything else at its default (status PENDING, protocol
      NONE, no interest yet), and both timestamps at the save time. */
  function NewRecord(orderId: string, userAddress: string, tokenIn: string, tokenOut: string,
                     amountIn: real, targetPrice: real, txHash: string, blockNumber: nat, now: nat): (r: OrderRecord)
    ensures r.status == Pending && r.currentProtocol == "NONE" && r.accruedInterest == 0
    ensures r.userAddress == Text.ToLower(userAddress) && r.tokenOut == Text.ToLower(tokenOut)
    ensures r.tokenIn == Text.ToLower(tokenIn)
    ensures r.executeTxHash.None? && r.cancelTxHash.None? && r.depositedAmount.None?
    ensures r.createdAt == now && r.updatedAt == now && r.executedAt.None? && r.cancelledAt.None?
  {
    OrderRecord(orderId, Text.ToLower(userAddress), Text.ToLower(tokenIn), Text.ToLower(tokenOut),
                amountIn, targetPrice, Pending, txHash, blockNumber,
                None, None, None, 0, "NONE", now, now, None, None)
  }

  /** A fresh record passes the schema exactly when its amounts are
      non-negative and its required strings are present. */
  lemma NewRecordValid(orderId: string, userAddress: string, tokenIn: string, tokenOut: string,
                       amountIn: real, targetPrice: real, txHash: string, blockNumber: nat, now: nat)
    ensures SchemaValid(NewRecord(orderId, userAddress, tokenIn, tokenOut, amountIn, targetPrice, txHash, blockNumber, now))
      <==> amountIn >= 0.0 && targetPrice >= 0.0 &&
           orderId != "" && userAddress != "" && tokenIn != "" && tokenOut != "" && txHash != ""
  {
  }

  /** A query as the store receives it: each key is absent or an exact value. */
  datatype Query = Query(userAddress: Option<string>, status: Option<string>, tokenOut: Option<string>)

  predicate Matches(r: OrderRecord, q: Query)
  {
    (q.userAddress.None? || r.userAddress == q.userAddress.value) &&
    (q.status.None? || r.status == q.status.value) &&
    (q.tokenOut.None? || r.tokenOut == q.tokenOut.value)
  }

  /** `findByUser`'s query: the lowercased address, plus an uppercased
      status when that option is truthy and a lowercased tokenOut when that
      one is. A truthy option that is not a string makes the case-mapping
      call throw (None). */
  function UserQuery(userAddress: string, status: Js.JsValue, tokenOut: Js.JsValue): (q: Option<Query>)
    ensures q.None? <==> (Js.Truthy(status) && !status.Str?) || (Js.Truthy(tokenOut) && !tokenOut.Str?)
    ensures q.Some? ==> q.value.userAddress == Some(Text.ToLower(userAddress))
    ensures q.Some? ==> (q.value.status.Some? <==> Js.Truthy(status))
    ensures q.Some? && Js.Truthy(status) ==> q.value.status == Some(Text.ToUpper(status.s))
    ensures q.Some? ==> (q.value.tokenOut.Some? <==> Js.Truthy(tokenOut))
    ensures q.Some? && Js.Truthy(tokenOut) ==> q.value.tokenOut == Some(Text.ToLower(tokenOut.s))
  {
    if Js.Truthy(status) && !status.Str? then None
    else if Js.Truthy(tokenOut) && !tokenOut.Str? then None
    else
      var st := if Js.Truthy(status) then Some(Text.ToUpper(status.s)) else None;
      var tk := if Js.Truthy(tokenOut) then Some(Text.ToLower(tokenOut.s)) else None;
      Some(Query(Some(Text.ToLower(userAddress)), st, tk))
  }

  /** `findPending`'s query. */
  const PendingQuery: Query := Query(None, Some(Pending), None)

  /** The stats query: a lowercased address when one is given, else
      everything. */
  function StatsQuery(userAddress: Js.JsValue): (q: Option<Query>)
    ensures q.None? <==> Js.Truthy(userAddress) && !userAddress.Str?
    ensures q.Some? ==> q.value.status.None? && q.value.tokenOut.None?
    ensures q.Some? ==> (q.value.userAddress.Some? <==> Js.Truthy(userAddress))
    ensures q.Some? && Js.Truthy(userAddress) ==> q.value.userAddress == Some(Text.ToLower(userAddress.s))
  {
    if !Js.Truthy(userAddress) then Some(Query(None, None, None))
    else if userAddress.Str? then Some(Query(Some(Text.ToLower(userAddress.s)), None, None))
    else None
  }

  /** Newest first. */
  predicate SortedNewestFirst(s: seq<OrderRecord>)
  {
    forall j, k :: 0 <= j < k < |s| ==> s[j].createdAt >= s[k].createdAt
  }

  /** Inserts a record before the first one that is not newer. */
  function InsertNewestFirst(x: OrderRecord, s: seq<OrderRecord>): seq<OrderRecord>
  {
    if |s| == 0 then [x]
    else if x.createdAt >= s[0].createdAt then [x] + s
    else [s[0]] + InsertNewestFirst(x, s[1..])
  }

  /** Insertion adds exactly the one record and keeps a newest-first list
      newest first. */
  lemma InsertNewestFirstSpec(x: OrderRecord, s: seq<OrderRecord>)
    ensures multiset(InsertNewestFirst(x, s)) == multiset(s) + multiset{x}
    ensures |InsertNewestFirst(x, s)| == |s| + 1
    ensures forall y :: y in InsertNewestFirst(x, s) <==> y == x || y in s
    ensures SortedNewestFirst(s) ==> SortedNewestFirst(InsertNewestFirst(x, s))
  {
    InsertAddsOne(x, s);
    var r := InsertNewestFirst(x, s);
    assert |multiset(r)| == |r| && |multiset(s)| == |s|;
    forall y ensures y in r <==> y == x || y in s {
      assert y in r <==> y in multiset(r);
      assert y in s <==> y in multiset(s);
    }
    if SortedNewestFirst(s) {
      InsertKeepsOrder(x, s);
    }
  }

  lemma {:induction false} InsertAddsOne(x: OrderRecord, s: seq<OrderRecord>)
    ensures multiset(InsertNewestFirst(x, s)) == multiset(s) + multiset{x}
    decreases |s|
  {
    if |s| > 0 && x.createdAt < s[0].createdAt {
      InsertAddsOne(x, s[1..]);
      assert s == [s[0]] + s[1..];
    }
  }

  lemma {:induction false} InsertKeepsOrder(x: OrderRecord, s: seq<OrderRecord>)
    requires SortedNewestFirst(s)
    ensures SortedNewestFirst(InsertNewestFirst(x, s))
    decreases |s|
  {
    if |s| > 0 && x.createdAt < s[0].createdAt {
      var tail := s[1..];
      assert SortedNewestFirst(tail) by {
        forall j, k | 0 <= j < k < |tail| ensures tail[j].createdAt >= tail[k].createdAt {
          assert tail[j] == s[j + 1] && tail[k] == s[k + 1];
        }
      }
      InsertKeepsOrder(x, tail);
      assert forall i :: 0 <= i < |tail| ==> tail[i].createdAt <= s[0].createdAt by {
        forall i | 0 <= i < |tail| ensures tail[i].createdAt <= s[0].createdAt {
          assert tail[i] == s[i + 1];
        }
      }
      InsertBounded(x, tail, s[0].createdAt);
      var rest := InsertNewestFirst(x, tail);
      var r := [s[0]] + rest;
      assert r == InsertNewestFirst(x, s);
      forall j, k | 0 <= j < k < |r| ensures r[j].createdAt >= r[k].createdAt {
        assert r[k] == rest[k - 1];
        if j > 0 {
          assert r[j] == rest[j - 1];
        }
      }
    }
  }

  /** Insertion brings in no record newer than the list and the new one. */
  lemma {:induction false} InsertBounded(x: OrderRecord, s: seq<OrderRecord>, bound: int)
    requires x.createdAt <= bound
    requires forall i :: 0 <= i < |s| ==> s[i].createdAt <= bound
    ensures forall i :: 0 <= i < |InsertNewestFirst(x, s)| ==> InsertNewestFirst(x, s)[i].createdAt <= bound
    decreases |s|
  {
    if |s| > 0 && x.createdAt < s[0].createdAt {
      InsertBounded(x, s[1..], bound);
      var r := InsertNewestFirst(x, s);
      var rest := InsertNewestFirst(x, s[1..]);
      assert r == [s[0]] + rest;
      forall i | 0 <= i < |r| ensures r[i].createdAt <= bound {
        if i > 0 { assert r[i] == rest[i - 1]; }
      }
    } else if |s| > 0 {
      var r := InsertNewestFirst(x, s);
      assert r == [x] + s;
      forall i | 0 <= i < |r| ensures r[i].createdAt <= bound {
        if i > 0 { assert r[i] == s[i - 1]; }
      }
    }
  }

  /** `.sort({ createdAt: -1 })`: one of the orders the store may return;
      records with the same creation time may come in any order. */
  function SortNewestFirst(s: seq<OrderRecord>): seq<OrderRecord>
  {
    if |s| == 0 then [] else InsertNewestFirst(s[0], SortNewestFirst(s[1..]))
  }

  /** Sorting returns a newest-first permutation of its input. */
  lemma {:induction false} SortNewestFirstSpec(s: seq<OrderRecord>)
    ensures multiset(SortNewestFirst(s)) == multiset(s)
    ensures SortedNewestFirst(SortNewestFirst(s))
    decreases |s|
  {
    if |s| > 0 {
      SortNewestFirstSpec(s[1..]);
      InsertNewestFirstSpec(s[0], SortNewestFirst(s[1..]));
      assert s == [s[0]] + s[1..];
    }
  }

  /** `.skip(skip).limit(limit)`: a negative limit acts as its absolute
      value and 0 means no limit. */
  function Page(s: seq<OrderRecord>, skip: nat, limit: int): (r: seq<OrderRecord>)
    ensures limit != 0 ==> |r| <= if limit < 0 then -limit else limit
    ensures skip < |s| ==> skip + |r| <= |s| && r == s[skip..skip + |r|]
    ensures skip >= |s| ==> r == []
  {
    if skip >= |s| then []
    else
      var n := if limit < 0 then -limit else limit;
      if n == 0 || skip + n >= |s| then s[skip..] else s[skip..skip + n]
  }

  /** JavaScript's `Math.ceil(total / limit)` for a non-zero limit. */
  function CeilDiv(total: nat, limit: int): int
    requires limit != 0
  {
    if limit > 0 then (total + limit - 1) / limit else -(total / -limit)
  }

  datatype Pagination = Pagination(current: int, totalPages: Option<int>, hasNext: bool, hasPrev: bool)

  /** The pagination block of `getUserOrders`; a zero limit divides by zero
      and gives Infinity or NaN (None). */
  function PaginationOf(page: int, limit: int, total: nat): Pagination
  {
    Pagination(page, if limit == 0 then None else Some(CeilDiv(total, limit)),
               page * limit < total, page > 1)
  }

  /** For a positive limit: the page count is the least number of pages of
      that size that hold every match, there is a next page exactly when
      matches remain beyond this page, and a previous one exactly when this
      is not the first page. */
  lemma PaginationSpec(page: int, limit: int, total: nat)
    requires limit >= 1
    ensures var p := PaginationOf(page, limit, total);
      p.totalPages.Some? &&
      p.totalPages.value * limit >= total && (p.totalPages.value - 1) * limit < total + (if total == 0 then limit else 0) &&
      (p.hasNext <==> (page - 1) * limit + limit < total) &&
      (p.hasPrev <==> page >= 2) && p.current == page
  {
    var t := (total + limit - 1) / limit;
    DivBounds(total + limit - 1, limit);
    assert (page - 1) * limit + limit == page * limit;
  }

  lemma DivBounds(a: nat, b: nat)
    requires b >= 1
    ensures (a / b) * b <= a < (a / b) * b + b
  {
  }

  /** The page returned for a positive page number and limit holds at most
      `limit` matches, starting at match (page - 1) * limit. */
  lemma PageSpec(s: seq<OrderRecord>, page: int, limit: int)
    requires page >= 1 && limit >= 1
    ensures var skip := (page - 1) * limit;
      skip >= 0 &&
      |Page(s, skip, limit)| <= limit &&
      (skip < |s| ==> Page(s, skip, limit) == s[skip..if skip + limit <= |s| then skip + limit else |s|])
  {
    assert (page - 1) * limit >= 0 by { MulNonNeg(page - 1, limit); }
  }

  lemma MulNonNeg(a: int, b: int)
    requires a >= 0 && b >= 0
    ensures a * b >= 0
  {
  }

  /** The counts of `getStats`/`getOrderStats` over the matching records. */
  datatype Stats = Stats(totalOrders: nat, pending: nat, executed: nat, cancelled: nat,
                         totalVolume: real, totalInterest: int)

  function Tally(s: seq<OrderRecord>): (t: Stats)
    ensures t.totalOrders == |s|
    ensures t.pending + t.executed + t.cancelled <= t.totalOrders
    ensures |s| == 0 ==> t == Stats(0, 0, 0, 0, 0.0, 0)
  {
    if |s| == 0 then Stats(0, 0, 0, 0, 0.0, 0)
    else
      var t := Tally(s[1..]);
      var r := s[0];
      Stats(t.totalOrders + 1,
            t.pending + (if IsPending(r) then 1 else 0),
            t.executed + (if IsExecuted(r) then 1 else 0),
            t.cancelled + (if IsCancelled(r) then 1 else 0),
            t.totalVolume + r.amountIn, t.totalInterest + r.accruedInterest)
  }

  /** When every status is one the schema allows, the three counts add up
      to the total. With no matches every figure is zero, which is also the
      default object the controller answers with. */
  lemma {:induction false} TallyComplete(s: seq<OrderRecord>)
    requires forall k :: 0 <= k < |s| ==> s[k].status in StatusEnum
    ensures Tally(s).pending + Tally(s).executed + Tally(s).cancelled == Tally(s).totalOrders
    decreases |s|
  {
    if |s| > 0 {
      TallyComplete(s[1..]);
      ExactlyOneStatus(s[0]);
    }
  }

  /** The pending count is the number of pending records. */
  lemma {:induction false} TallyPendingCount(s: seq<OrderRecord>)
    ensures Tally(s).pending == |FilterPending(s)|
    decreases |s|
  {
    if |s| > 0 {
      TallyPendingCount(s[1..]);
    }
  }

  function FilterPending(s: seq<OrderRecord>): (r: seq<OrderRecord>)
    ensures forall x :: x in r <==> x in s && IsPending(x)
  {
    if |s| == 0 then []
    else (if IsPending(s[0]) then [s[0]] else []) + FilterPending(s[1..])
  }

  const MissingParameters: string := "Missing required parameters"
  const NotFound: string := "Order not found"
  const CannotCancel: string := "Order cannot be cancelled"

  /** A chain transaction: it failed (with the error's message) or it was
      mined; for a creation, the receipt's first OrderCreated event gives
      the new order id. */
  datatype ChainCall = CallFailed(message: string) | CallMined(txHash: string, blockNumber: nat, createdOrderId: Option<nat>)

  datatype Reply = Success(record: OrderRecord, txHash: string) | Failure(status: nat, message: string)

  /** The order documents, keyed by orderId. */
  class OrderStore {
    var docs: map<string, OrderRecord>

    /** Every document is stored under its own orderId, as the unique
        index guarantees, and passed the amount validators when saved. */
    predicate Valid()
      reads this
    {
      forall k :: k in docs ==> docs[k].orderId == k && docs[k].amountIn >= 0.0 && docs[k].targetPrice >= 0.0
    }

    constructor ()
      ensures docs == map[] && Valid()
    {
      docs := map[];
    }

    /** `createOrder`: 400 when userAddress, tokenOut, amountIn or
        targetPrice is falsy, before any transaction. Otherwise the amounts
        are converted to token units (`parseUnits`/`parseEther`, whose
        error, if any, is `unitsError`); a conversion error is a 500 before
        any transaction. Otherwise the creation transaction is sent. Its
        failure, a receipt without an OrderCreated event, an address that is
        not a string, an amount that is not a non-negative number, a missing
        or empty token-in address (the path is `required`) or an id already
        stored are all 500 and store nothing. On success exactly one record
        is added, PENDING, with lowercased addresses. */
    method CreateOrder(userAddress: Js.JsValue, tokenOut: Js.JsValue, amountIn: Js.JsValue, targetPrice: Js.JsValue,
                       usdcAddress: Option<string>, unitsError: Option<string>, creation: ChainCall, now: nat)
      returns (reply: Reply, sentTransaction: bool)
      requires Valid()
      modifies this
      ensures Valid()
      ensures reply == Failure(400, MissingParameters) <==>
        !(Js.Truthy(userAddress) && Js.Truthy(tokenOut) && Js.Truthy(amountIn) && Js.Truthy(targetPrice))
      ensures reply != Failure(400, MissingParameters) && unitsError.Some? ==> reply == Failure(500, unitsError.value)
      ensures sentTransaction <==> reply != Failure(400, MissingParameters) && unitsError.None?
      ensures reply.Failure? ==> docs == old(docs) && (reply.status == 400 || reply.status == 500)
      ensures reply.Success? ==>
        creation.CallMined? && creation.createdOrderId.Some? &&
        userAddress.Str? && tokenOut.Str? && usdcAddress.Some? && usdcAddress.value != "" &&
        Js.ToNumber(amountIn).Some? && Js.ToNumber(targetPrice).Some? &&
        var id := Text.Decimal(creation.createdOrderId.value);
        id !in old(docs) && docs == old(docs)[id := reply.record] &&
        reply.record == NewRecord(id, userAddress.s, usdcAddress.value, tokenOut.s,
                                  Js.ToNumber(amountIn).value, Js.ToNumber(targetPrice).value,
                                  creation.txHash, creation.blockNumber, now) &&
        reply.txHash == creation.txHash && IsPending(reply.record)
    {
      if !Js.Truthy(userAddress) || !Js.Truthy(tokenOut) || !Js.Truthy(amountIn) || !Js.Truthy(targetPrice) {
        return Failure(400, MissingParameters), false;
      }
      if unitsError.Some? {
        return Failure(500, unitsError.value), false;
      }
      sentTransaction := true;
      if creation.CallFailed? {
        return Failure(500, creation.message), true;
      }
      if creation.createdOrderId.None? {
        return Failure(500, "Cannot read properties of undefined (reading 'args')"), true;
      }
      if !userAddress.Str? || !tokenOut.Str? {
        return Failure(500, "toLowerCase is not a function"), true;
      }
      var amount := Js.ToNumber(amountIn);
      var price := Js.ToNumber(targetPrice);
      if amount.None? || price.None? || amount.value < 0.0 || price.value < 0.0 ||
         usdcAddress.None? || usdcAddress.value == "" {
        return Failure(500, "Order validation failed"), true;
      }
      var id := Text.Decimal(creation.createdOrderId.value);
      if id in docs {
        return Failure(500, "E11000 duplicate key error"), true;
      }
      var record := NewRecord(id, userAddress.s, usdcAddress.value, tokenOut.s, amount.value, price.value,
                              creation.txHash, creation.blockNumber, now);
      docs := docs[id := record];
      reply := Success(record, creation.txHash);
    }

    /** The record `findOne({ orderId, userAddress })` returns. */
    function FindOwned(orderId: string, owner: string): (r: Option<OrderRecord>)
      reads this
      ensures r.Some? <==> orderId in docs && docs[orderId].userAddress == owner
      ensures r.Some? ==> r.value == docs[orderId]
    {
      if orderId in docs && docs[orderId].userAddress == owner then Some(docs[orderId]) else None
    }

    /** `cancelOrder`: an address that is not a string is a 500; no record
        with this id and the lowercased address is a 404; a record that is
        not PENDING is a 400 and no transaction is sent. Otherwise the
        cancellation is sent; if it fails the reply is 500, else the record
        becomes CANCELLED with the cancellation time and hash, and nothing
        else in the store changes (the save hook refreshes updatedAt). */
    method CancelOrder(orderId: string, userAddress: Js.JsValue, cancellation: ChainCall, now: nat)
      returns (reply: Reply, sentTransaction: bool)
      requires Valid()
      modifies this
      ensures Valid()
      ensures !userAddress.Str? ==> reply.Failure? && reply.status == 500 && !sentTransaction
      ensures userAddress.Str? && old(FindOwned(orderId, Text.ToLower(userAddress.s))).None? ==>
        reply == Failure(404, NotFound) && !sentTransaction
      ensures (userAddress.Str? && old(FindOwned(orderId, Text.ToLower(userAddress.s))).Some? &&
               !IsPending(old(FindOwned(orderId, Text.ToLower(userAddress.s))).value)) ==>
        reply == Failure(400, CannotCancel) && !sentTransaction
      ensures sentTransaction <==>
        (userAddress.Str? && old(FindOwned(orderId, Text.ToLower(userAddress.s))).Some? &&
         IsPending(old(FindOwned(orderId, Text.ToLower(userAddress.s))).value))
      ensures reply.Failure? ==> docs == old(docs)
      ensures reply.Success? <==> sentTransaction && cancellation.CallMined?
      ensures reply.Success? ==>
        orderId in old(docs) &&
        reply.record == old(docs)[orderId].(status := Cancelled, cancelledAt := Some(now),
                                            cancelTxHash := Some(cancellation.txHash), updatedAt := now) &&
        docs == old(docs)[orderId := reply.record]
    {
      if !userAddress.Str? {
        return Failure(500, "Cannot read properties of undefined (reading 'toLowerCase')"), false;
      }
      var found := FindOwned(orderId, Text.ToLower(userAddress.s));
      if found.None? {
        return Failure(404, NotFound), false;
      }
      if found.value.status != Pending {
        return Failure(400, CannotCancel), false;
      }
      sentTransaction := true;
      if cancellation.CallFailed? {
        return Failure(500, cancellation.message), true;
      }
      var record := found.value.(status := Cancelled, cancelledAt := Some(now),
                                 cancelTxHash := Some(cancellation.txHash), updatedAt := now);
      docs := docs[orderId := record];
      reply := Success(record, cancellation.txHash);
    }

    /** `updateOrderStatus`: overwrites the status with the uppercased
        argument whatever the current status is, refreshes updatedAt, and
        sets the execution time and hash only when the argument is exactly
        "EXECUTED". An unknown id changes nothing. */
    method UpdateOrderStatus(orderId: string, status: string, txHash: Option<string>, now: nat)
      requires Valid()
      modifies this
      ensures Valid()
      ensures orderId !in old(docs) ==> docs == old(docs)
      ensures orderId in old(docs) ==>
        var before := old(docs)[orderId];
        var after := before.(status := Text.ToUpper(status), updatedAt := now);
        docs == old(docs)[orderId := if status == Executed then after.(executedAt := Some(now), executeTxHash := txHash) else after]
    {
      if orderId !in docs {
        return;
      }
      var record := docs[orderId].(status := Text.ToUpper(status), updatedAt := now);
      if status == Executed {
        record := record.(executedAt := Some(now), executeTxHash := txHash);
      }
      docs := docs[orderId := record];
    }

    /** Every stored record matching a query, each once, in no particular
        order. */
    method Collect(q: Query) returns (found: seq<OrderRecord>)
      requires Valid()
      ensures forall k :: 0 <= k < |found| ==>
        found[k].orderId in docs && docs[found[k].orderId] == found[k] && Matches(found[k], q)
      ensures forall id :: id in docs && Matches(docs[id], q) ==> docs[id] in found
      ensures forall j, k :: 0 <= j < k < |found| ==> found[j].orderId != found[k].orderId
    {
      found := [];
      var remaining := docs.Keys;
      while remaining != {}
        invariant remaining <= docs.Keys
        invariant forall k :: 0 <= k < |found| ==>
          found[k].orderId in docs && docs[found[k].orderId] == found[k] && Matches(found[k], q) &&
          found[k].orderId !in remaining
        invariant forall id :: id in docs && id !in remaining && Matches(docs[id], q) ==> docs[id] in found
        invariant forall j, k :: 0 <= j < k < |found| ==> found[j].orderId != found[k].orderId
        decreases remaining
      {
        var id :| id in remaining;
        if Matches(docs[id], q) {
          found := found + [docs[id]];
        }
        remaining := remaining - {id};
      }
    }

    /** `findByUser` (and `findPending` with its fixed query): every
        matching record exactly once, newest first. */
    method Find(q: Query) returns (result: seq<OrderRecord>)
      requires Valid()
      ensures SortedNewestFirst(result)
      ensures forall r :: r in result <==> r in docs.Values && Matches(r, q)
      ensures forall j, k :: 0 <= j < k < |result| ==> result[j].orderId != result[k].orderId
    {
      var found := Collect(q);
      result := SortNewestFirst(found);
      SortNewestFirstSpec(found);
      assert forall r :: r in result <==> r in found by {
        forall r ensures r in result <==> r in found {
          assert r in multiset(result) <==> r in multiset(found);
        }
      }
      forall r | r in docs.Values && Matches(r, q) ensures r in result {
        var id :| id in docs && docs[id] == r;
      }
      DistinctIdsPermutation(found, result);
    }

    /** `getUserOrders`: the matches of the user's query (status filter
        uppercased when given), newest first, page `page` of size `limit`
        (1 and 10 when absent), and the pagination block over the total
        count. A negative skip is refused by the store (500). */
    method GetUserOrders(userAddress: string, pageParam: Option<int>, limitParam: Option<int>, status: Js.JsValue)
      returns (orders: seq<OrderRecord>, pagination: Option<Pagination>)
      requires Valid()
      ensures var page, limit := pageParam.GetOr(1), limitParam.GetOr(10);
        pagination.None? <==> UserQuery(userAddress, status, Js.Undefined).None? || (page - 1) * limit < 0
      ensures var page, limit := pageParam.GetOr(1), limitParam.GetOr(10);
        pagination.Some? ==>
        (UserQuery(userAddress, status, Js.Undefined).Some? &&
         var q := UserQuery(userAddress, status, Js.Undefined).value;
         exists all: seq<OrderRecord> ::
           SortedNewestFirst(all) &&
           (forall r :: r in all <==> r in docs.Values && Matches(r, q)) &&
           |all| == |set id | id in docs && Matches(docs[id], q)| &&
           orders == Page(all, (page - 1) * limit, limit) &&
           pagination.value == PaginationOf(page, limit, |all|))
    {
      var page, limit := pageParam.GetOr(1), limitParam.GetOr(10);
      var q := UserQuery(userAddress, status, Js.Undefined);
      if q.None? || (page - 1) * limit < 0 {
        return [], None;
      }
      var skip := (page - 1) * limit;
      var all := Find(q.value);
      orders := Page(all, skip, limit);
      var total := CountMatches(all, q.value);
      pagination := Some(PaginationOf(page, limit, total));
      assert SortedNewestFirst(all) &&
        (forall r :: r in all <==> r in docs.Values && Matches(r, q.value)) &&
        |all| == |set id | id in docs && Matches(docs[id], q.value)| &&
        orders == Page(all, skip, limit) &&
        pagination.value == PaginationOf(page, limit, |all|);
    }

    /** `countDocuments(query)`: the number of stored records matching. */
    method CountMatches(all: seq<OrderRecord>, q: Query) returns (total: nat)
      requires Valid()
      requires forall r :: r in all <==> r in docs.Values && Matches(r, q)
      requires forall j, k :: 0 <= j < k < |all| ==> all[j].orderId != all[k].orderId
      ensures total == |all| == |set id | id in docs && Matches(docs[id], q)|
    {
      var ids := set id | id in docs && Matches(docs[id], q);
      IdsOfDistinct(all, docs, q);
      total := |all|;
    }

    /** `getOrderStats`/`getStats`: the counts over the records the stats
        query matches. */
    method GetStats(userAddress: Js.JsValue) returns (stats: Option<Stats>)
      requires Valid()
      ensures stats.None? <==> StatsQuery(userAddress).None?
      ensures stats.Some? ==> exists s: seq<OrderRecord> ::
        (forall r :: r in s <==> r in docs.Values && Matches(r, StatsQuery(userAddress).value)) &&
        |s| == |set id | id in docs && Matches(docs[id], StatsQuery(userAddress).value)| &&
        stats.value == Tally(s)
    {
      var q := StatsQuery(userAddress);
      if q.None? {
        return None;
      }
      var found := Collect(q.value);
      forall r | r in docs.Values && Matches(r, q.value) ensures r in found {
        var id :| id in docs && docs[id] == r;
      }
      IdsOfDistinct(found, docs, q.value);
      stats := Some(Tally(found));
    }
  }

  /** A slice of a newest-first list is newest first. */
  lemma SortedSlice(s: seq<OrderRecord>, i: nat, j: nat)
    requires SortedNewestFirst(s) && i <= j <= |s|
    ensures SortedNewestFirst(s[i..j])
  {
  }

  /** Sorting keeps a list of distinct ids distinct. */
  lemma DistinctIdsPermutation(a: seq<OrderRecord>, b: seq<OrderRecord>)
    requires multiset(a) == multiset(b)
    requires forall j, k :: 0 <= j < k < |a| ==> a[j].orderId != a[k].orderId
    ensures forall j, k :: 0 <= j < k < |b| ==> b[j].orderId != b[k].orderId
  {
    forall j, k | 0 <= j < k < |b| ensures b[j].orderId != b[k].orderId {
      if b[j].orderId == b[k].orderId {
        assert b[j] in multiset(a) && b[k] in multiset(a);
        var x :| 0 <= x < |a| && a[x] == b[j];
        var y :| 0 <= y < |a| && a[y] == b[k];
        if x == y {
          MultisetTwoCopies(b, j, k);
          assert multiset(a)[a[x]] >= 2;
          OneCopyWhenDistinct(a, x);
        }
      }
    }
  }

  lemma MultisetTwoCopies(b: seq<OrderRecord>, j: nat, k: nat)
    requires 0 <= j < k < |b| && b[j] == b[k]
    ensures multiset(b)[b[j]] >= 2
  {
    assert b == b[..j] + [b[j]] + b[j + 1..k] + [b[k]] + b[k + 1..];
  }

  /** In a list of distinct ids each record occurs once. */
  lemma {:induction false} OneCopyWhenDistinct(a: seq<OrderRecord>, x: nat)
    requires 0 <= x < |a|
    requires forall j, k :: 0 <= j < k < |a| ==> a[j].orderId != a[k].orderId
    ensures multiset(a)[a[x]] == 1
  {
    assert a == a[..x] + [a[x]] + a[x + 1..];
    assert a[x] !in a[..x] by {
      forall k | 0 <= k < x ensures a[..x][k] != a[x] {
        assert a[k].orderId != a[x].orderId;
      }
    }
    assert a[x] !in a[x + 1..] by {
      forall k | x < k < |a| ensures a[k] != a[x] {
        assert a[x].orderId != a[k].orderId;
      }
    }
  }

  /** A list holding each matching stored record once has as many elements
      as there are matching ids. */
  lemma IdsOfDistinct(all: seq<OrderRecord>, docs: map<string, OrderRecord>, q: Query)
    requires forall k :: k in docs ==> docs[k].orderId == k
    requires forall r :: r in all <==> r in docs.Values && Matches(r, q)
    requires forall j, k :: 0 <= j < k < |all| ==> all[j].orderId != all[k].orderId
    ensures |all| == |set id | id in docs && Matches(docs[id], q)|
  {
    var ids := set id | id in docs && Matches(docs[id], q);
    var listed := IdsOf(all);
    IdsOfMembers(all);
    assert ids == listed by {
      forall id | id in ids ensures id in listed {
        assert docs[id] in docs.Values;
        var k :| 0 <= k < |all| && all[k] == docs[id];
        assert all[k].orderId == id;
      }
      forall id | id in listed ensures id in ids {
        var k :| 0 <= k < |all| && all[k].orderId == id;
        assert all[k] in all;
      }
    }
    DistinctCard(all);
  }

  /** The ids a list of records carries. */
  function IdsOf(all: seq<OrderRecord>): set<string>
    decreases |all|
  {
    if |all| == 0 then {} else IdsOf(all[..|all| - 1]) + {all[|all| - 1].orderId}
  }

  lemma {:induction false} IdsOfMembers(all: seq<OrderRecord>)
    ensures forall id :: id in IdsOf(all) <==> exists k :: 0 <= k < |all| && all[k].orderId == id
    decreases |all|
  {
    if |all| > 0 {
      var init := all[..|all| - 1];
      IdsOfMembers(init);
      forall id ensures id in IdsOf(all) <==> exists k :: 0 <= k < |all| && all[k].orderId == id {
        if id in IdsOf(init) {
          var k :| 0 <= k < |init| && init[k].orderId == id;
          assert all[k].orderId == id;
        }
        if exists k :: 0 <= k < |all| && all[k].orderId == id {
          var k :| 0 <= k < |all| && all[k].orderId == id;
          if k < |init| {
            assert init[k].orderId == id;
          }
        }
      }
    }
  }

  lemma {:induction false} DistinctCard(all: seq<OrderRecord>)
    requires forall j, k :: 0 <= j < k < |all| ==> all[j].orderId != all[k].orderId
    ensures |IdsOf(all)| == |all|
    decreases |all|
  {
    if |all| > 0 {
      var init := all[..|all| - 1];
      var last := all[|all| - 1].orderId;
      assert forall j, k :: 0 <= j < k < |init| ==> init[j].orderId != init[k].orderId by {
        forall j, k | 0 <= j < k < |init| ensures init[j].orderId != init[k].orderId {
          assert init[j] == all[j] && init[k] == all[k];
        }
      }
      DistinctCard(init);
      IdsOfMembers(init);
      assert last !in IdsOf(init) by {
        forall k | 0 <= k < |init| ensures init[k].orderId != last {
          assert init[k] == all[k];
        }
      }
    }
  }
}
