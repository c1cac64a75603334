/**
 * When a partly filled order reads as not filled at all again. The guard on updates forbids it in one step from a
 * partial fill; over a run it happens exactly when an unfilled answer reaches the row while it is pending cancel.
 */
module FillProgress {
  import opened Log
  import opened OrderTables
  import opened OrderRuns

  /** The status of one row once these steps have run. */
  function StatusAfter(cfg: Config, s: System, steps: seq<Step>, k: nat): Status
    requires k < |s.db.orders|
  {
    RunExtends(cfg, s, steps);
    Run(cfg, s, steps).db.orders[k].status
  }

  /** The broker's answer a step applies, if it applies one. */
  function Answer(s: System, step: Step): Option<BrokerOrder> {
    match step
    case ApplyStep(bo) => Some(bo)
    case ReplyOk(id, bo) => if InFlight(s, id, true) then Some(bo) else None
    case _ => None
  }

  /** An answer that says nothing has filled is about to reach this row, which is pending cancel. */
  predicate Undoes(s: System, step: Step, k: nat)
    requires k < |s.db.orders|
  {
    var answer := Answer(s, step);
    && s.db.orders[k].status == PendingCancel
    && answer.Some? && answer.value.clientId == s.db.orders[k].clientId && Unfilled(answer.value.status)
    && !BrokerIdTaken(s.db.orders, answer.value)
  }

  lemma AnswerApplied(cfg: Config, s: System, step: Step)
    requires Answer(s, step).Some?
    ensures Next(cfg, s, step).db == ApplyBrokerOrder(s.db, Answer(s, step).value).db
  {
  }

  lemma AnswerUndoes(db: Db, bo: BrokerOrder, k: nat)
    requires k < |db.orders| && !Unfilled(db.orders[k].status)
    ensures var rows := ApplyBrokerOrder(db, bo).db.orders;
      k < |rows|
      && (Unfilled(rows[k].status) <==>
            && db.orders[k].status == PendingCancel && bo.clientId == db.orders[k].clientId && Unfilled(bo.status)
            && !BrokerIdTaken(db.orders, bo))
  {
    var rows := ApplyBrokerOrder(db, bo).db.orders;
    if !BrokerIdTaken(db.orders, bo) {
      assert rows[k] == ApplyRow(db.orders[k], bo);
    }
  }

  lemma NoAnswerUndoesNothing(cfg: Config, s: System, step: Step, k: nat)
    requires k < |s.db.orders| && !Unfilled(s.db.orders[k].status) && Answer(s, step).None?
    ensures k < |Next(cfg, s, step).db.orders| && !Unfilled(Next(cfg, s, step).db.orders[k].status)
  {
    if TouchesRows(step) {
      RowWriteUndoesNothing(cfg, s, step, k);
    } else {
      RowsUntouched(cfg, s, step);
    }
  }

  lemma RowWriteUndoesNothing(cfg: Config, s: System, step: Step, k: nat)
    requires k < |s.db.orders| && !Unfilled(s.db.orders[k].status) && Answer(s, step).None? && TouchesRows(step)
    ensures k < |Next(cfg, s, step).db.orders| && !Unfilled(Next(cfg, s, step).db.orders[k].status)
  {
    match step
    case Persist(_, _, _, _, _) =>
    case MaterializeStep(_, _) =>
    case ReplyOk(_, _) =>
    case _ =>
  }

  /**
   * A row that does not read as unfilled reads so after a step exactly when it is pending cancel and the step applies
   * to it an answer that does.
   */
  lemma StepUndoesExactlyWhen(cfg: Config, s: System, step: Step, k: nat)
    requires k < |s.db.orders| && !Unfilled(s.db.orders[k].status)
    ensures k < |Next(cfg, s, step).db.orders|
    ensures Unfilled(Next(cfg, s, step).db.orders[k].status) <==> Undoes(s, step, k)
  {
    if Answer(s, step).Some? {
      AnswerApplied(cfg, s, step);
      AnswerUndoes(s.db, Answer(s, step).value, k);
    } else {
      NoAnswerUndoesNothing(cfg, s, step, k);
    }
  }

  // ---------------------------------------------------------------- over a run

  /** The step number j of this run undoes what row k says has filled. */
  ghost predicate UndoneAt(cfg: Config, s: System, steps: seq<Step>, k: nat, j: nat)
    requires k < |s.db.orders| && j < |steps|
  {
    RunExtends(cfg, s, steps[..j]);
    Undoes(Run(cfg, s, steps[..j]), steps[j], k)
  }

  lemma StatusNext(cfg: Config, s: System, steps: seq<Step>, k: nat, j: nat)
    requires k < |s.db.orders| && j < |steps| && !Unfilled(StatusAfter(cfg, s, steps[..j], k))
    ensures Unfilled(StatusAfter(cfg, s, steps[..j + 1], k)) <==> UndoneAt(cfg, s, steps, k, j)
  {
    RunExtends(cfg, s, steps[..j]);
    assert steps[..j + 1] == steps[..j] + [steps[j]];
    RunAppend(cfg, s, steps[..j], [steps[j]]);
    OneStep(cfg, Run(cfg, s, steps[..j]), steps[j]);
    StepUndoesExactlyWhen(cfg, Run(cfg, s, steps[..j]), steps[j], k);
  }

  lemma UndoneIsPast(cfg: Config, s: System, steps: seq<Step>, k: nat, j: nat)
    requires k < |s.db.orders| && j < |steps| && UndoneAt(cfg, s, steps, k, j)
    ensures !Unfilled(StatusAfter(cfg, s, steps[..j], k))
  {
  }

  lemma AtStart(cfg: Config, s: System, steps: seq<Step>, k: nat)
    requires k < |s.db.orders|
    ensures StatusAfter(cfg, s, steps[..0], k) == s.db.orders[k].status
  {
    assert steps[..0] == [];
  }

  /** The first point at which the row reads as unfilled is right behind a step that undoes it. */
  lemma {:induction false} FirstUndone(cfg: Config, s: System, steps: seq<Step>, k: nat, n: nat) returns (j: nat)
    requires k < |s.db.orders| && !Unfilled(s.db.orders[k].status)
    requires n <= |steps| && Unfilled(StatusAfter(cfg, s, steps[..n], k))
    ensures j < n && UndoneAt(cfg, s, steps, k, j)
    decreases n
  {
    AtStart(cfg, s, steps, k);
    if Unfilled(StatusAfter(cfg, s, steps[..n - 1], k)) {
      j := FirstUndone(cfg, s, steps, k, n - 1);
    } else {
      j := n - 1;
      StatusNext(cfg, s, steps, k, j);
    }
  }

  /**
   * Over any run an order that is past its unfilled states, a partly filled one for example, reads as not filled at
   * all at some point if and only if at some step an answer that says so reaches it while it is pending cancel.
   */
  lemma RegressesExactlyWhen(cfg: Config, s: System, steps: seq<Step>, k: nat)
    requires k < |s.db.orders| && !Unfilled(s.db.orders[k].status)
    ensures (exists n: nat :: n <= |steps| && Unfilled(StatusAfter(cfg, s, steps[..n], k))) <==>
            (exists j: nat :: j < |steps| && UndoneAt(cfg, s, steps, k, j))
  {
    if n: nat :| n <= |steps| && Unfilled(StatusAfter(cfg, s, steps[..n], k)) {
      var j := FirstUndone(cfg, s, steps, k, n);
    }
    if j: nat :| j < |steps| && UndoneAt(cfg, s, steps, k, j) {
      UndoneIsPast(cfg, s, steps, k, j);
      StatusNext(cfg, s, steps, k, j);
      var n := j + 1;
      assert Unfilled(StatusAfter(cfg, s, steps[..n], k));
    }
  }

  // ---------------------------------------------------------------- it happens to any partial fill

  lemma StaleAnswerRefused(db: Db, bo: BrokerOrder, k: nat)
    requires k < |db.orders| && db.orders[k].status == PartiallyFilled && Unfilled(bo.status)
    ensures k < |ApplyBrokerOrder(db, bo).db.orders| && ApplyBrokerOrder(db, bo).db.orders[k] == db.orders[k]
  {
  }

  lemma KeysAfterCancelAll(db: Db, bo: BrokerOrder, k: nat)
    requires OrdersInv(db) && k < |db.orders|
    requires bo.clientId == db.orders[k].clientId && db.orders[k].brokerId == Some(bo.brokerOrderId)
    ensures !BrokerIdTaken(MarkCancelAll(db).orders, bo)
  {
    var rows := MarkCancelAll(db).orders;
    forall j | 0 <= j < |rows| && rows[j].brokerId == Some(bo.brokerOrderId) ensures rows[j].clientId == bo.clientId {
      assert rows[j] == CancelOpenRow(db.orders[j]);
    }
  }

  lemma AppliedAfterCancelAll(db: Db, bo: BrokerOrder, k: nat)
    requires OrdersInv(db) && k < |db.orders| && db.orders[k].status == PartiallyFilled
    requires bo.clientId == db.orders[k].clientId && db.orders[k].brokerId == Some(bo.brokerOrderId)
    ensures var rows := ApplyBrokerOrder(MarkCancelAll(db), bo).db.orders;
      k < |rows| && rows[k] == db.orders[k].(status := bo.status, filledQty := bo.filledQty,
                                             avgFillPrice := bo.avgFillPrice)
  {
    KeysAfterCancelAll(db, bo, k);
    var row := MarkCancelAll(db).orders[k];
    assert row == CancelOpenRow(db.orders[k]) && MayApply(row, bo);
  }

  /**
   * Press the kill switch on any partly filled order, then let an older answer of the broker arrive. The row takes
   * that answer's state and filled quantity, which the guard alone would have refused.
   */
  lemma CancelLetsAFillRegress(cfg: Config, s: System, k: nat, bo: BrokerOrder)
    requires OrdersInv(s.db) && k < |s.db.orders| && s.db.orders[k].status == PartiallyFilled
    requires bo.clientId == s.db.orders[k].clientId && s.db.orders[k].brokerId == Some(bo.brokerOrderId)
    requires Unfilled(bo.status)
    ensures ApplyBrokerOrder(s.db, bo).db.orders[k] == s.db.orders[k]
    ensures var rows := Run(cfg, s, [CancelAllStep, ApplyStep(bo)]).db.orders;
      k < |rows| && rows[k] == s.db.orders[k].(status := bo.status, filledQty := bo.filledQty,
                                               avgFillPrice := bo.avgFillPrice)
  {
    StaleAnswerRefused(s.db, bo, k);
    AppliedAfterCancelAll(s.db, bo, k);
    CancelThenApply(cfg, s, bo);
  }

  lemma CancelThenApply(cfg: Config, s: System, bo: BrokerOrder)
    ensures Run(cfg, s, [CancelAllStep, ApplyStep(bo)]).db == ApplyBrokerOrder(MarkCancelAll(s.db), bo).db
  {
    TwoSteps(cfg, s, CancelAllStep, ApplyStep(bo));
  }
}
