/**
 * The handlers are sequences of steps: a submission, a stream event and a whole reconciliation pass each leave the
 * tables as some run of the step system does, so everything proved of runs holds of them.
 */
module Handlers {
  import opened Log
  import opened Guardrails
  import opened OrderTables
  import opened OrderRuns
  import M = OrderManager

  // ---------------------------------------------------------------- submissions

  function ReplyStep(rowid: int, reply: M.Reply): Step {
    match reply
    case BrokerTook(bo) => ReplyOk(rowid, bo)
    case Declined => ReplyRejected(rowid)
    case NoAnswer => ReplyUnknown(rowid)
  }

  /** The submit handler is: persist the intent, send it once, record the answer. */
  lemma SubmitIsARun(cfg: Config, s: System, persist: Step, reply: M.Reply)
    requires persist.Persist? && MayPersist(cfg, s, persist)
    ensures var id := NextOrderId(s.db.orders);
      var s' := Run(cfg, s, [persist] + [Send(id), ReplyStep(id, reply)]);
      && s'.db == M.SubmitDb(s.db, persist.ticket, reply, cfg.mode, persist.now, persist.minted)
      && s'.submitted == s.submitted + [Next(cfg, s, persist).tasks[id].clientId]
      && id !in s'.tasks
  {
    var id := NextOrderId(s.db.orders);
    RunAppend(cfg, s, [persist], [Send(id), ReplyStep(id, reply)]);
    OneStep(cfg, s, persist);
    TwoSteps(cfg, Next(cfg, s, persist), Send(id), ReplyStep(id, reply));
  }

  /** What a submission leaves of its row, said by the broker's answer. */
  function Answered(row: OrderRow, rows: seq<OrderRow>, reply: M.Reply): OrderRow {
    match reply
    case Declined => row.(status := Rejected)
    case NoAnswer => row
    case BrokerTook(bo) =>
      if HasBroker(rows, bo.brokerOrderId) then row
      else row.(brokerId := Some(bo.brokerOrderId), status := bo.status, filledQty := bo.filledQty,
                avgFillPrice := bo.avgFillPrice)
  }

  lemma DeclinedLast(rows: seq<OrderRow>, row: OrderRow, mapped: seq<OrderRow>)
    requires row.status == PendingSubmit && forall k :: 0 <= k < |rows| ==> rows[k].id != row.id
    requires |mapped| == |rows| + 1 && forall k :: 0 <= k < |rows| ==> mapped[k] == RejectRow(rows[k], row.id)
    requires mapped[|rows|] == RejectRow(row, row.id)
    ensures mapped == rows + [row.(status := Rejected)]
  {
  }

  lemma TookLast(db: Db, rows: seq<OrderRow>, row: OrderRow, bo: BrokerOrder)
    requires db.orders == rows + [row] && row.status == PendingSubmit && row.clientId == bo.clientId
    requires !HasClient(rows, row.clientId)
    ensures ApplyBrokerOrder(db, bo).db == db.(orders := rows + [Answered(row, rows, M.BrokerTook(bo))])
  {
    assert forall k :: 0 <= k < |rows| ==> db.orders[k] == rows[k];
    assert MayApply(db.orders[|rows|], bo);
    if k :| 0 <= k < |rows| && rows[k].brokerId == Some(bo.brokerOrderId) {
      assert db.orders[k].clientId != bo.clientId;
    } else {
      assert ApplyBrokerOrder(db, bo).db.orders == rows + [ApplyRow(row, bo)];
    }
  }

  /**
   * A submission adds exactly one row: rejected if the broker declined, pending if it did not answer, as the broker
   * reports it if it did, and still pending when another row already carries the broker's id. All else stays.
   */
  lemma SubmissionAddsOneRow(db: Db, t: Ticket, reply: M.Reply, mode: Mode, now: int, minted: int)
    requires OrdersInv(db)
    requires reply.BrokerTook? ==>
               reply.bo.clientId == InsertPending(db, t, mode, now, minted).orders[|db.orders|].clientId
    ensures var nonce, id := if db.nonce.Some? then db.nonce.value else minted, NextOrderId(db.orders);
      var row := OrderRow(id, Rekt(mode, nonce, id), None, t.symbol, t.side, t.qty, PendingSubmit, 0.0, None, mode,
                          now);
      M.SubmitDb(db, t, reply, mode, now, minted) ==
      db.(orders := db.orders + [Answered(row, db.orders, reply)], nonce := Some(nonce))
  {
    var inserted := InsertPending(db, t, mode, now, minted);
    var row := inserted.orders[|db.orders|];
    NewIdIsNew(db, t, mode, now, minted);
    match reply
    case Declined => DeclinedLast(db.orders, row, MarkRejected(inserted, row.id).orders);
    case NoAnswer =>
    case BrokerTook(bo) => TookLast(inserted, db.orders, row, bo);
  }

  // ---------------------------------------------------------------- stream events

  /** The stream handler is an apply step, followed by an ingest step when the order is known and carries a fill. */
  lemma EventIsARun(cfg: Config, s: System, bo: BrokerOrder, fill: Option<M.StreamFill>) returns (steps: seq<Step>)
    ensures Run(cfg, s, steps).db == M.OnEvent(s.db, bo, fill, cfg.mode).db
  {
    var a := ApplyBrokerOrder(s.db, bo);
    var k := M.ClientRow(a.db.orders, bo.clientId);
    if fill.None? || a.outcome == Conflict || k == |a.db.orders| {
      steps := [ApplyStep(bo)];
      OneStep(cfg, s, ApplyStep(bo));
    } else {
      var e := M.Traded(a.db.orders[k], bo, fill.value);
      steps := [ApplyStep(bo), IngestStep(e)];
      TwoSteps(cfg, s, ApplyStep(bo), IngestStep(e));
    }
  }

  lemma ApplyTwice(db: Db, bo: BrokerOrder)
    requires OrdersInv(db)
    ensures var once := ApplyBrokerOrder(db, bo).db;
      ApplyBrokerOrder(once, bo).db == once
  {
    var once := ApplyBrokerOrder(db, bo).db;
    if !BrokerIdTaken(db.orders, bo) {
      var twice := MapRows(once.orders, r => ApplyRow(r, bo));
      forall k | 0 <= k < |db.orders|
        ensures twice[k] == once.orders[k]
      {
        assert once.orders[k] == ApplyRow(db.orders[k], bo);
        assert twice[k] == ApplyRow(once.orders[k], bo);
      }
      assert twice == once.orders;
    }
  }

  lemma IngestTwice(db: Db, e: Execution, mode: Mode)
    ensures var once := Ingest(db, e, mode).db;
      Ingest(once, e, mode).db == once
  {
    var r := Ingest(db, e, mode);
    if r.isNew {
      assert r.db.fills[|db.fills|].executionId == e.executionId;
    }
  }

  /** An event delivered twice leaves the tables as one delivery does. */
  lemma RedeliveryIsHarmless(db: Db, bo: BrokerOrder, fill: Option<M.StreamFill>, mode: Mode)
    requires OrdersInv(db)
    ensures var once := M.OnEvent(db, bo, fill, mode).db;
      M.OnEvent(once, bo, fill, mode).db == once
  {
    var a := ApplyBrokerOrder(db, bo);
    var once := M.OnEvent(db, bo, fill, mode).db;
    var k := M.ClientRow(a.db.orders, bo.clientId);
    assert once.orders == a.db.orders;
    ApplyTwice(db, bo);
    ApplyIgnoresFills(a.db, once, bo);
    if fill.Some? && a.outcome != Conflict && k < |a.db.orders| {
      IngestTwice(a.db, M.Traded(a.db.orders[k], bo, fill.value), mode);
    }
  }

  lemma ApplyIgnoresFills(a: Db, b: Db, bo: BrokerOrder)
    requires a.orders == b.orders && ApplyBrokerOrder(a, bo).db == a
    ensures ApplyBrokerOrder(b, bo).db == b
  {
  }

  /**
   * An execution booked at any moment is booked for good: after whatever steps, no stream event that carries it, under
   * whatever order state, and no backfill of it adds a fill or a transaction.
   */
  lemma BookedOnceForAll(cfg: Config, s: System, steps: seq<Step>, bo: BrokerOrder, fill: M.StreamFill, e: Execution)
    requires HasExecution(s.db.fills, fill.executionId) && e.executionId == fill.executionId
    ensures var db := Run(cfg, s, steps).db;
      var after := M.OnEvent(db, bo, Some(fill), cfg.mode).db;
      && after.fills == db.fills && after.txs == db.txs
      && HasExecution(db.fills, e.executionId) && Ingest(db, e, cfg.mode).db == db
  {
    var db := Run(cfg, s, steps).db;
    RunExtends(cfg, s, steps);
    var i :| 0 <= i < |s.db.fills| && s.db.fills[i].executionId == fill.executionId;
    assert db.fills[i].executionId == fill.executionId;
  }

  // ---------------------------------------------------------------- reconciliation

  lemma SyncOneIsARun(cfg: Config, s: System, bo: BrokerOrder, now: int) returns (steps: seq<Step>)
    ensures Run(cfg, s, steps) == s.(db := M.SyncOne(s.db, bo, cfg.mode, now).db)
  {
    if bo.clientId.Rekt? {
      steps := [ApplyStep(bo)];
      OneStep(cfg, s, ApplyStep(bo));
    } else if Materialize(s.db, bo, cfg.mode, now).isNew {
      steps := [MaterializeStep(bo, now), ApplyStep(bo)];
      TwoSteps(cfg, s, MaterializeStep(bo, now), ApplyStep(bo));
    } else {
      steps := [MaterializeStep(bo, now)];
      OneStep(cfg, s, MaterializeStep(bo, now));
    }
  }

  lemma {:induction false} SyncIsARun(cfg: Config, s: System, bos: seq<BrokerOrder>, now: int)
    returns (steps: seq<Step>)
    ensures Run(cfg, s, steps) == s.(db := M.SyncAll(s.db, bos, cfg.mode, now).db)
    decreases bos
  {
    steps := [];
    if bos != [] {
      steps := SyncOneIsARun(cfg, s, bos[0], now);
      var p := M.SyncOne(s.db, bos[0], cfg.mode, now);
      if p.ok {
        var rest := SyncIsARun(cfg, Run(cfg, s, steps), bos[1..], now);
        RunAppend(cfg, s, steps, rest);
        steps := steps + rest;
      }
    }
  }

  lemma ResolveOneIsARun(cfg: Config, s: System, answer: M.Lookup, c: ClientId) returns (steps: seq<Step>)
    ensures Run(cfg, s, steps) == s.(db := M.ResolveOne(s.db, answer, c).db)
  {
    match answer
    case Found(bo) =>
      steps := [ApplyStep(bo)];
      OneStep(cfg, s, ApplyStep(bo));
    case NeverSeen =>
      steps := [LookupNone(c)];
      OneStep(cfg, s, LookupNone(c));
    case LookupFailed =>
      steps := [];
  }

  lemma {:induction false} ResolveIsARun(cfg: Config, s: System, cs: seq<ClientId>, bos: seq<BrokerOrder>,
                                         lookup: ClientId -> M.Lookup)
    returns (steps: seq<Step>)
    ensures Run(cfg, s, steps) == s.(db := M.ResolveAll(s.db, cs, bos, lookup).db)
    decreases cs
  {
    steps := [];
    if cs != [] {
      var ok := true;
      if !M.Listed(bos, cs[0]) {
        steps := ResolveOneIsARun(cfg, s, lookup(cs[0]), cs[0]);
        ok := M.ResolveOne(s.db, lookup(cs[0]), cs[0]).ok;
      }
      if ok {
        var rest := ResolveIsARun(cfg, Run(cfg, s, steps), cs[1..], bos, lookup);
        RunAppend(cfg, s, steps, rest);
        steps := steps + rest;
      }
    }
  }

  lemma {:induction false} BackfillIsARun(cfg: Config, s: System, es: seq<Execution>) returns (steps: seq<Step>)
    ensures Run(cfg, s, steps).db == M.IngestAll(s.db, es, cfg.mode) && Run(cfg, s, steps).ready == s.ready
    decreases es
  {
    steps := [];
    if es != [] {
      var rest := BackfillIsARun(cfg, Next(cfg, s, IngestStep(es[0])), es[1..]);
      OneStep(cfg, s, IngestStep(es[0]));
      RunAppend(cfg, s, [IngestStep(es[0])], rest);
      steps := [IngestStep(es[0])] + rest;
    }
  }

  /** Another row than the k-th carries the broker id. */
  ghost predicate CarriedElsewhere(rows: seq<OrderRow>, b: string, k: nat) {
    exists j :: 0 <= j < |rows| && j != k && rows[j].brokerId == Some(b)
  }

  /**
   * Looking up a pending order settles its own row and no other: failed when the broker has never seen it, as the
   * broker reports it when it has, unchanged without an answer; the pass aborts when another row carries the broker id.
   */
  lemma LookupSettlesOneRow(db: Db, answer: M.Lookup, c: ClientId, k: nat)
    requires OrdersInv(db) && k < |db.orders| && db.orders[k].clientId == c && db.orders[k].status == PendingSubmit
    requires answer.Found? ==> answer.bo.clientId == c
    ensures M.ResolveOne(db, answer, c) ==
            match answer {
              case NeverSeen => M.Phase(db.(orders := db.orders[k := db.orders[k].(status := Failed)]), true)
              case LookupFailed => M.Phase(db, true)
              case Found(bo) =>
                if CarriedElsewhere(db.orders, bo.brokerOrderId, k) then M.Phase(db, false)
                else
                  var row := db.orders[k].(brokerId := Some(bo.brokerOrderId), status := bo.status,
                                           filledQty := bo.filledQty, avgFillPrice := bo.avgFillPrice);
                  M.Phase(db.(orders := db.orders[k := row]), true)
            }
  {
    M.OnlyRow(db.orders, k);
    match answer
    case NeverSeen =>
      assert MarkFailed(db, c).orders == db.orders[k := db.orders[k].(status := Failed)];
    case LookupFailed =>
    case Found(bo) =>
      assert MayApply(db.orders[k], bo);
      if CarriedElsewhere(db.orders, bo.brokerOrderId, k) {
        var j :| 0 <= j < |db.orders| && j != k && db.orders[j].brokerId == Some(bo.brokerOrderId);
        assert db.orders[j].clientId != c;
      } else {
        M.OneRowUpdated(db, bo, k);
      }
  }

  /** A pass up to its end. */
  lemma PhasesAreARun(cfg: Config, s: System, view: M.View, now: int) returns (steps: seq<Step>)
    ensures Run(cfg, s, steps).db == M.ReconcileDb(s.db, view, cfg.mode, now).db
    ensures Run(cfg, s, steps).ready == s.ready
  {
    var bos := if view.orders.Some? then view.orders.value else [];
    steps := SyncIsARun(cfg, s, bos, now);
    var p1 := M.SyncAll(s.db, bos, cfg.mode, now);
    if p1.ok {
      var cs := M.PendingIds(p1.db.orders);
      var s1 := Run(cfg, s, steps);
      var more := ResolveIsARun(cfg, s1, cs, bos, view.lookup);
      RunAppend(cfg, s, steps, more);
      steps := steps + more;
      var p2 := M.ResolveAll(p1.db, cs, bos, view.lookup);
      var answer := view.executions(M.Cursor(p2.db.fills));
      if p2.ok && answer.Some? {
        var last := BackfillIsARun(cfg, Run(cfg, s, steps), answer.value);
        RunAppend(cfg, s, steps, last);
        steps := steps + last;
      }
    }
  }

  /** A whole reconciliation pass is a run, and it unlocks trading exactly when it completes. */
  lemma ReconcileIsARun(cfg: Config, s: System, view: M.View, now: int) returns (steps: seq<Step>)
    ensures Run(cfg, s, steps).db == M.ReconcileDb(s.db, view, cfg.mode, now).db
    ensures Run(cfg, s, steps).ready == (s.ready || M.ReconcileDb(s.db, view, cfg.mode, now).ok)
  {
    steps := PhasesAreARun(cfg, s, view, now);
    if M.ReconcileDb(s.db, view, cfg.mode, now).ok {
      RunAppend(cfg, s, steps, [ReconcileDone]);
      OneStep(cfg, Run(cfg, s, steps), ReconcileDone);
      steps := steps + [ReconcileDone];
    }
  }

  // ---------------------------------------------------------------- cancels

  /** A cancel puts the one acknowledged order of this id that is not over into pending cancel, and touches no other. */
  lemma CancelIsARun(cfg: Config, s: System, id: int, k: nat)
    requires IdsAscend(s.db.orders) && k < |s.db.orders|
    ensures var row, rows := s.db.orders[k], Run(cfg, s, [CancelStep(id)]).db.orders;
      && |rows| == |s.db.orders|
      && rows[k] ==
         if row.id == id && row.brokerId.Some?
            && row.status !in {Filled, Canceled, Rejected, Expired, Replaced, Failed}
         then row.(status := PendingCancel) else row
  {
    OneStep(cfg, s, CancelStep(id));
    assert forall j :: 0 <= j < |s.db.orders| && s.db.orders[j].id == s.db.orders[k].id ==> j == k;
  }

  /** The kill switch does so to every order the broker is working on. */
  lemma CancelAllIsARun(cfg: Config, s: System, k: nat)
    requires k < |s.db.orders|
    ensures var row, rows := s.db.orders[k], Run(cfg, s, [CancelAllStep]).db.orders;
      && |rows| == |s.db.orders|
      && rows[k] ==
         if row.status in {Submitted, Accepted, PartiallyFilled} then row.(status := PendingCancel) else row
  {
    OneStep(cfg, s, CancelAllStep);
  }
}
