/** The price-monitoring service: a periodic sweep of the order contract and
    a slower periodic refresh of each pending order's lending protocol.
    Chain reads and transactions are parameters: `status(i)` is the status
    code read for order i (None when the read fails), and `update(id)` is
    what becomes of the protocol-update transaction for order id: refused
    when sent, reverted when awaited, or mined. */
module PriceService {
  import opened Wrappers

  /** Period of the execution sweep, in milliseconds. */
  const CheckIntervalMs: nat := 30000

  /** Period of the lending-protocol refresh: six hours, in milliseconds. */
  const ProtocolIntervalMs: nat := 6 * 60 * 60 * 1000

  /** The status code the contract uses for a pending order. */
  const PendingCode: nat := 0

  lemma ProtocolIntervalIsCheckMultiple()
    ensures ProtocolIntervalMs == 720 * CheckIntervalMs
  {
  }

  predicate StrictlyIncreasing(ids: seq<nat>)
  {
    forall j, k :: 0 <= j < k < |ids| ==> ids[j] < ids[k]
  }

  /** The indices below n whose status is pending, in scan order, or None
      when one of the reads fails (the scan then aborts). */
  function PendingIndices(status: nat -> Option<nat>, n: nat): Option<seq<nat>>
    decreases n
  {
    if n == 0 then Some([])
    else
      match PendingIndices(status, n - 1)
      case None => None
      case Some(ids) =>
        match status(n - 1)
        case None => None
        case Some(code) => Some(if code == PendingCode then ids + [n - 1] else ids)
  }

  /** The scan fails exactly when some read below n fails. */
  lemma {:induction false} PendingIndicesFails(status: nat -> Option<nat>, n: nat)
    ensures PendingIndices(status, n).None? <==> exists i :: 0 <= i < n && status(i).None?
    decreases n
  {
    if n > 0 {
      PendingIndicesFails(status, n - 1);
      if status(n - 1).None? {
        assert 0 <= n - 1 < n && status(n - 1).None?;
      }
    }
  }

  /** A successful scan lists, in ascending order, exactly the indices below
      n whose status is pending. */
  lemma {:induction false} PendingIndicesExact(status: nat -> Option<nat>, n: nat)
    requires PendingIndices(status, n).Some?
    ensures StrictlyIncreasing(PendingIndices(status, n).value)
    ensures forall id :: id in PendingIndices(status, n).value <==>
              0 <= id < n && status(id) == Some(PendingCode)
    decreases n
  {
    if n > 0 {
      PendingIndicesExact(status, n - 1);
      var ids := PendingIndices(status, n - 1).value;
      if status(n - 1) == Some(PendingCode) {
        var ext := ids + [n - 1];
        forall j, k | 0 <= j < k < |ext| ensures ext[j] < ext[k] {
          if k == |ids| {
            assert ids[j] in ids;
          }
        }
      }
    }
  }

  /** `getPendingOrders`: reads the status of every index below orderCount in
      turn; any failed read makes it return the empty list. */
  method GetPendingOrders(status: nat -> Option<nat>, orderCount: nat) returns (ids: seq<nat>)
    ensures PendingIndices(status, orderCount).Some? ==> ids == PendingIndices(status, orderCount).value
    ensures PendingIndices(status, orderCount).None? ==> ids == []
  {
    var acc: seq<nat> := [];
    var i := 0;
    while i < orderCount
      invariant 0 <= i <= orderCount
      invariant PendingIndices(status, i) == Some(acc)
    {
      var read := status(i);
      if read.None? {
        PendingIndicesNoneAfter(status, i + 1, orderCount);
        return [];
      }
      if read.value == PendingCode {
        acc := acc + [i];
      }
      i := i + 1;
    }
    ids := acc;
  }

  /** Once a scan prefix fails, every longer scan fails. */
  lemma {:induction false} PendingIndicesNoneAfter(status: nat -> Option<nat>, m: nat, n: nat)
    requires m <= n && PendingIndices(status, m).None?
    ensures PendingIndices(status, n).None?
    decreases n - m
  {
    if m < n {
      PendingIndicesNoneAfter(status, m + 1, n);
    }
  }

  /** The ids a sequential loop tries before it stops: every id up to and
      including the first whose step fails (all of them when none fails). */
  function Attempts(ids: seq<nat>, ok: nat -> bool): seq<nat>
  {
    if |ids| == 0 then []
    else if ok(ids[0]) then [ids[0]] + Attempts(ids[1..], ok)
    else [ids[0]]
  }

  predicate AllSucceed(ids: seq<nat>, ok: nat -> bool)
  {
    forall k :: 0 <= k < |ids| ==> ok(ids[k])
  }

  /** The attempted ids are a prefix of the list; all but the last succeeded;
      the whole list is attempted and nothing fails exactly when every step
      succeeds, and otherwise the last attempt is the first failure. */
  lemma {:induction false} AttemptsSpec(ids: seq<nat>, ok: nat -> bool)
    ensures var a := Attempts(ids, ok);
      |a| <= |ids| && a == ids[..|a|] &&
      (forall k :: 0 <= k < |a| - 1 ==> ok(a[k])) &&
      (AllSucceed(ids, ok) <==> a == ids && AllSucceed(a, ok)) &&
      (!AllSucceed(ids, ok) ==> |a| >= 1 && !ok(a[|a| - 1]))
  {
    if |ids| > 0 {
      AttemptsSpec(ids[1..], ok);
      var rest := Attempts(ids[1..], ok);
      if ok(ids[0]) {
        assert Attempts(ids, ok) == [ids[0]] + rest;
        if AllSucceed(ids, ok) {
          assert AllSucceed(ids[1..], ok) by {
            forall k | 0 <= k < |ids[1..]| ensures ok(ids[1..][k]) {
              assert ids[1..][k] == ids[k + 1];
            }
          }
        }
        if AllSucceed(ids[1..], ok) {
          forall k | 0 <= k < |ids| ensures ok(ids[k]) {
            if k > 0 { assert ids[k] == ids[1..][k - 1]; }
          }
        }
        assert ids == [ids[0]] + ids[1..];
      } else {
        assert !AllSucceed(ids, ok) by { assert !ok(ids[0]); }
      }
    }
  }

  /** What a scheduled task leaves behind: either it completed, or it caught
      an error and logged it. No task lets an error escape. */
  datatype TaskLog = Completed | LoggedError

  /** The result of sending one transaction and waiting for its receipt. */
  datatype TxOutcome = NotSent | Reverted | Mined(txHash: string)

  /** `checkAndExecuteOrders`: sends the sweep and waits for its receipt, and
      logs rather than propagates a failure at either step. */
  function ExecuteSweep(outcome: TxOutcome): (r: TaskLog)
    ensures r == Completed <==> outcome.Mined?
  {
    match outcome
    case Mined(_) => Completed
    case _ => LoggedError
  }

  /** Events in the life of the protocol-refresh task. */
  datatype TxStep = Sent(id: nat) | Confirmed(id: nat) | Failed(id: nat) | SendRejected(id: nat)

  /** Number of update transactions sent and not yet settled by a receipt. */
  function Outstanding(trace: seq<TxStep>): int
  {
    if |trace| == 0 then 0
    else
      var last := trace[|trace| - 1];
      Outstanding(trace[..|trace| - 1]) +
        (if last.Sent? then 1 else if last.Confirmed? || last.Failed? then -1 else 0)
  }

  /** At every point of the trace, at most one transaction is in flight. */
  predicate AtMostOneOutstanding(trace: seq<TxStep>)
  {
    forall k :: 0 <= k <= |trace| ==> 0 <= Outstanding(trace[..k]) <= 1
  }

  /** The ids whose update the trace shows as started. */
  function StartedIds(trace: seq<TxStep>): seq<nat>
  {
    if |trace| == 0 then []
    else if trace[0].Sent? || trace[0].SendRejected? then [trace[0].id] + StartedIds(trace[1..])
    else StartedIds(trace[1..])
  }

  /** Extending a settled trace by one complete step keeps the at-most-one
      property. */
  lemma {:induction false} ExtendSettled(trace: seq<TxStep>, more: seq<TxStep>)
    requires AtMostOneOutstanding(trace) && Outstanding(trace) == 0
    requires (|more| == 1 && more[0].SendRejected?) ||
             (|more| == 2 && more[0].Sent? && (more[1] == Confirmed(more[0].id) || more[1] == Failed(more[0].id)))
    ensures AtMostOneOutstanding(trace + more) && Outstanding(trace + more) == 0
  {
    var t := trace + more;
    assert t[..|trace|] == trace;
    if |more| == 1 {
      assert t[..|t| - 1] == trace;
      assert t[..|t|] == t;
    } else {
      assert t[..|trace| + 1] == trace + [more[0]];
      assert (trace + [more[0]])[..|trace|] == trace;
      assert t[..|t| - 1] == trace + [more[0]];
      assert t[..|t|] == t;
    }
    forall k | 0 <= k <= |t| ensures 0 <= Outstanding(t[..k]) <= 1 {
      if k <= |trace| {
        assert t[..k] == trace[..k];
      }
    }
  }

  /** Whether the protocol update for an id went through. */
  function UpdateSucceeds(update: nat -> TxOutcome): nat -> bool
  {
    (id: nat) => update(id).Mined?
  }

  /** The trace the refresh task records for one id. */
  function UpdateSteps(id: nat, outcome: TxOutcome): (r: seq<TxStep>)
    ensures |r| == 1 ==> r[0] == SendRejected(id)
    ensures |r| != 1 ==> |r| == 2 && r[0] == Sent(id) && (r[1] == Confirmed(id) <==> outcome.Mined?)
  {
    match outcome
    case NotSent => [SendRejected(id)]
    case Reverted => [Sent(id), Failed(id)]
    case Mined(_) => [Sent(id), Confirmed(id)]
  }

  /** `updateLendingProtocols`: fetches the pending ids, then for each in
      turn sends the update and waits for its receipt; the first failure is
      caught, logged, and the remaining ids are abandoned. */
  method UpdateLendingProtocols(status: nat -> Option<nat>, orderCount: nat, update: nat -> TxOutcome)
    returns (trace: seq<TxStep>, log: TaskLog)
    ensures var ids := if PendingIndices(status, orderCount).Some? then PendingIndices(status, orderCount).value else [];
      StartedIds(trace) == Attempts(ids, UpdateSucceeds(update)) &&
      (log == Completed <==> AllSucceed(ids, UpdateSucceeds(update)))
    ensures AtMostOneOutstanding(trace) && Outstanding(trace) == 0
  {
    var ids := GetPendingOrders(status, orderCount);
    ghost var ok := UpdateSucceeds(update);
    trace := [];
    var i := 0;
    while i < |ids|
      invariant 0 <= i <= |ids|
      invariant AtMostOneOutstanding(trace) && Outstanding(trace) == 0
      invariant StartedIds(trace) == ids[..i]
      invariant AllSucceed(ids[..i], ok)
    {
      var id := ids[i];
      var outcome := update(id);
      var step := UpdateSteps(id, outcome);
      assert StartedIds(step) == [id] by {
        if |step| == 2 {
          assert step[1..][1..] == [];
        } else {
          assert step[1..] == [];
        }
      }
      ExtendSettled(trace, step);
      StartedIdsAppend(trace, step);
      trace := trace + step;
      assert ids[..i + 1] == ids[..i] + [id];
      if !outcome.Mined? {
        AttemptsUpToFailure(ids, ok, i);
        return trace, LoggedError;
      }
      i := i + 1;
    }
    assert ids[..i] == ids;
    AttemptsAllSucceed(ids, ok);
    log := Completed;
  }

  lemma {:induction false} StartedIdsAppend(a: seq<TxStep>, b: seq<TxStep>)
    ensures StartedIds(a + b) == StartedIds(a) + StartedIds(b)
    decreases |a|
  {
    if |a| > 0 {
      assert (a + b)[0] == a[0];
      assert (a + b)[1..] == a[1..] + b;
      StartedIdsAppend(a[1..], b);
      if a[0].Sent? || a[0].SendRejected? {
        assert StartedIds(a + b) == [a[0].id] + StartedIds(a[1..] + b);
      } else {
        assert StartedIds(a + b) == StartedIds(a[1..] + b);
      }
    } else {
      assert a + b == b;
    }
  }

  lemma {:induction false} AttemptsAllSucceed(ids: seq<nat>, ok: nat -> bool)
    requires AllSucceed(ids, ok)
    ensures Attempts(ids, ok) == ids
  {
    AttemptsSpec(ids, ok);
  }

  /** When every id before position i succeeds and the one at i fails, the
      attempts are exactly the ids up to and including position i. */
  lemma {:induction false} AttemptsUpToFailure(ids: seq<nat>, ok: nat -> bool, i: nat)
    requires i < |ids| && AllSucceed(ids[..i], ok) && !ok(ids[i])
    ensures Attempts(ids, ok) == ids[..i + 1]
    ensures !AllSucceed(ids, ok)
    decreases i
  {
    if i > 0 {
      var tail := ids[1..];
      assert ok(ids[..i][0]);
      assert AllSucceed(tail[..i - 1], ok) by {
        forall k | 0 <= k < i - 1 ensures ok(tail[k]) {
          assert tail[k] == ids[..i][k + 1];
        }
      }
      assert tail[i - 1] == ids[i];
      AttemptsUpToFailure(tail, ok, i - 1);
      assert ids[..i + 1] == [ids[0]] + tail[..i];
    }
    assert !ok(ids[i]);
  }
}
