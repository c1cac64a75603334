/**
 * From any history to convergence: whatever order submissions, replies, events, earlier passes and crashes came in,
 * as long as the broker only ever told the truth, the next pass against a quiet broker converges.
 */
module Recovery {
  import opened Log
  import opened OrderTables
  import opened OrderRuns
  import opened OrderManager
  import opened Convergence
  import Unlocking

  /** The client id a submission is about to mint. */
  function Minted(cfg: Config, s: System, minted: int): ClientId {
    Rekt(cfg.mode, if s.db.nonce.Some? then s.db.nonce.value else minted, NextOrderId(s.db.orders))
  }

  /**
   * The broker takes what it was sent, reports only what it has, and denies only what it never gets: an order it
   * declined, or does not find when asked, never enters its book.
   */
  ghost predicate TruthfulStep(cfg: Config, s: System, step: Step, book: Book, truth: seq<Execution>) {
    match step
    case Persist(t, _, _, _, minted) =>
      var c := Minted(cfg, s, minted);
      c in book ==> book[c].symbol == t.symbol && book[c].side == t.side
    case ReplyOk(_, bo) => Truthful(bo, book)
    case ApplyStep(bo) => Truthful(bo, book)
    case MaterializeStep(bo, _) => Truthful(bo, book)
    case IngestStep(e) => e in truth
    case ReplyRejected(id) => id in s.tasks ==> s.tasks[id].clientId !in book
    case LookupNone(c) => c !in book
    case _ => true
  }

  ghost predicate TruthfulRun(cfg: Config, s: System, steps: seq<Step>, book: Book, truth: seq<Execution>)
    decreases steps
  {
    steps != [] ==>
      TruthfulStep(cfg, s, steps[0], book, truth) && TruthfulRun(cfg, Next(cfg, s, steps[0]), steps[1..], book, truth)
  }

  /** The row of an order on record is either acknowledged or still pending, never given up. */
  ghost predicate NotGivenUp(rows: seq<OrderRow>, book: Book) {
    forall k :: 0 <= k < |rows| && rows[k].clientId in book ==> Pliable(rows[k])
  }

  ghost predicate RowsFaithful(rows: seq<OrderRow>, book: Book) { RowsTruthful(rows, book) && NotGivenUp(rows, book) }

  ghost predicate Faithful(s: System, book: Book, truth: seq<Execution>) {
    && RowsFaithful(s.db.orders, book)
    && Paired(s.db) && Within(Booked(s.db), ExecutionData(truth))
  }

  // ---------------------------------------------------------------- one step

  lemma ApplyFaithful(rows: seq<OrderRow>, bo: BrokerOrder, book: Book)
    requires RowsFaithful(rows, book) && Truthful(bo, book)
    ensures RowsFaithful(MapRows(rows, r => ApplyRow(r, bo)), book)
  {
    var rows' := MapRows(rows, r => ApplyRow(r, bo));
    forall k | 0 <= k < |rows'|
      ensures RowTruthful(rows'[k], book) && (rows'[k].clientId in book ==> Pliable(rows'[k]))
    {
      assert RowTruthful(rows[k], book) && rows'[k] == ApplyRow(rows[k], bo);
    }
  }

  /** A status change that gives up no row on record keeps the rows faithful. */
  lemma StatusFaithful(rows: seq<OrderRow>, rows': seq<OrderRow>, book: Book)
    requires RowsFaithful(rows, book) && |rows'| == |rows|
    requires forall k :: 0 <= k < |rows| ==> rows'[k] == rows[k].(status := rows'[k].status)
    requires forall k :: 0 <= k < |rows| && rows[k].clientId in book && rows[k].brokerId.None? ==>
               rows'[k].status == rows[k].status
    ensures RowsFaithful(rows', book)
  {
    forall k | 0 <= k < |rows'|
      ensures RowTruthful(rows'[k], book) && (rows'[k].clientId in book ==> Pliable(rows'[k]))
    {
      assert RowTruthful(rows[k], book);
    }
  }

  lemma AppendFaithful(rows: seq<OrderRow>, row: OrderRow, book: Book)
    requires RowsFaithful(rows, book) && RowTruthful(row, book) && Pliable(row)
    ensures RowsFaithful(rows + [row], book)
  {
  }

  lemma RejectFaithful(cfg: Config, s: System, id: int, book: Book)
    requires SystemInv(cfg, s) && id in s.tasks && s.tasks[id].clientId !in book && RowsFaithful(s.db.orders, book)
    ensures RowsFaithful(MarkRejected(s.db, id).orders, book)
  {
    var rows, rows' := s.db.orders, MarkRejected(s.db, id).orders;
    var j :| 0 <= j < |rows| && rows[j].id == id && rows[j].clientId == s.tasks[id].clientId;
    forall k | 0 <= k < |rows|
      ensures rows'[k] == rows[k].(status := rows'[k].status)
      ensures rows[k].clientId in book ==> rows'[k] == rows[k]
    {
      assert rows'[k] == RejectRow(rows[k], id);
      if rows[k].id == id && k != j {
        assert false;
      }
    }
    StatusFaithful(rows, rows', book);
  }

  lemma FailFaithful(db: Db, c: ClientId, book: Book)
    requires c !in book && RowsFaithful(db.orders, book)
    ensures RowsFaithful(MarkFailed(db, c).orders, book)
  {
    StatusFaithful(db.orders, MarkFailed(db, c).orders, book);
  }

  lemma CancelFaithful(db: Db, id: int, book: Book)
    requires Acknowledged(db.orders, id) && RowsFaithful(db.orders, book)
    ensures RowsFaithful(MarkCancel(db, id).orders, book)
  {
    StatusFaithful(db.orders, MarkCancel(db, id).orders, book);
  }

  /** An unacknowledged row is not open, so cancelling what is open leaves it alone. */
  lemma CancelAllFaithful(db: Db, book: Book)
    requires OrdersInv(db) && RowsFaithful(db.orders, book)
    ensures RowsFaithful(MarkCancelAll(db).orders, book)
  {
    var rows, rows' := db.orders, MarkCancelAll(db).orders;
    forall k | 0 <= k < |rows|
      ensures rows'[k] == rows[k].(status := rows'[k].status)
      ensures rows[k].brokerId.None? ==> rows'[k] == rows[k]
    {
      assert RowInv(rows[k], db.nonce) && rows'[k] == CancelOpenRow(rows[k]);
    }
    StatusFaithful(rows, rows', book);
  }

  lemma ApplyStepFaithful(db: Db, bo: BrokerOrder, book: Book)
    requires RowsFaithful(db.orders, book) && Truthful(bo, book)
    ensures RowsFaithful(ApplyBrokerOrder(db, bo).db.orders, book)
  {
    ApplyFaithful(db.orders, bo, book);
  }

  lemma MaterializeFaithful(db: Db, bo: BrokerOrder, mode: Mode, now: int, book: Book)
    requires RowsFaithful(db.orders, book) && Truthful(bo, book)
    ensures RowsFaithful(Materialize(db, bo, mode, now).db.orders, book)
  {
    var m := Materialize(db, bo, mode, now);
    if m.isNew {
      AppendFaithful(db.orders, m.db.orders[|db.orders|], book);
    }
  }

  lemma PersistFaithful(cfg: Config, s: System, step: Step, book: Book, truth: seq<Execution>)
    requires step.Persist? && MayPersist(cfg, s, step) && RowsFaithful(s.db.orders, book)
    requires TruthfulStep(cfg, s, step, book, truth)
    ensures RowsFaithful(Next(cfg, s, step).db.orders, book)
  {
    var rows' := Next(cfg, s, step).db.orders;
    assert rows'[|s.db.orders|].clientId == Minted(cfg, s, step.minted);
    AppendFaithful(s.db.orders, rows'[|s.db.orders|], book);
  }

  lemma RowsStepFaithful(cfg: Config, s: System, step: Step, book: Book, truth: seq<Execution>)
    requires SystemInv(cfg, s) && RowsFaithful(s.db.orders, book) && TruthfulStep(cfg, s, step, book, truth)
    ensures RowsFaithful(Next(cfg, s, step).db.orders, book)
  {
    if TouchesRows(step) {
      RowStepFaithful(cfg, s, step, book, truth);
    } else {
      RowsUntouched(cfg, s, step);
    }
  }

  lemma RowStepFaithful(cfg: Config, s: System, step: Step, book: Book, truth: seq<Execution>)
    requires SystemInv(cfg, s) && RowsFaithful(s.db.orders, book) && TruthfulStep(cfg, s, step, book, truth)
    requires TouchesRows(step)
    ensures RowsFaithful(Next(cfg, s, step).db.orders, book)
  {
    match step
    case Persist(_, _, _, _, _) => if MayPersist(cfg, s, step) { PersistFaithful(cfg, s, step, book, truth); }
    case ReplyOk(_, bo) => ApplyStepFaithful(s.db, bo, book);
    case ApplyStep(bo) => ApplyStepFaithful(s.db, bo, book);
    case MaterializeStep(bo, now) => MaterializeFaithful(s.db, bo, cfg.mode, now, book);
    case ReplyRejected(id) => if InFlight(s, id, true) { RejectFaithful(cfg, s, id, book); }
    case LookupNone(c) => FailFaithful(s.db, c, book);
    case CancelStep(id) => if Acknowledged(s.db.orders, id) { CancelFaithful(s.db, id, book); }
    case CancelAllStep => CancelAllFaithful(s.db, book);
  }

  /** Only what the broker executed enters the ledger. */
  lemma IngestFaithful(db: Db, e: Execution, mode: Mode, truth: seq<Execution>)
    requires DbInv(db, mode) && DistinctExecutions(truth) && Within(Booked(db), ExecutionData(truth)) && e in truth
    ensures Paired(Ingest(db, e, mode).db) && Within(Booked(Ingest(db, e, mode).db), ExecutionData(truth))
  {
    IngestData(db, e, mode);
    var i :| 0 <= i < |truth| && truth[i] == e;
    ExecutionDataAt(truth, i);
    if HasBroker(db.orders, e.brokerOrderId) {
      OneMore(Booked(db), Booked(Ingest(db, e, mode).db), ExecutionData(truth), e.executionId, DatumOf(e));
    }
  }

  lemma SameLedger(db: Db, db': Db, truth: seq<Execution>)
    requires Paired(db) && Within(Booked(db), ExecutionData(truth))
    requires db'.fills == db.fills && FillRows(db'.txs) == FillRows(db.txs)
    ensures Paired(db') && Within(Booked(db'), ExecutionData(truth))
  {
  }

  lemma IngestStepFaithful(cfg: Config, s: System, e: Execution, truth: seq<Execution>)
    requires SystemInv(cfg, s) && DistinctExecutions(truth) && Within(Booked(s.db), ExecutionData(truth)) && e in truth
    ensures Paired(Next(cfg, s, IngestStep(e)).db)
    ensures Within(Booked(Next(cfg, s, IngestStep(e)).db), ExecutionData(truth))
  {
    IngestFaithful(s.db, e, cfg.mode, truth);
    assert Next(cfg, s, IngestStep(e)).db == Ingest(s.db, e, cfg.mode).db;
  }

  lemma LedgerStepFaithful(cfg: Config, s: System, step: Step, truth: seq<Execution>)
    requires SystemInv(cfg, s) && DistinctExecutions(truth) && Within(Booked(s.db), ExecutionData(truth))
    requires step.IngestStep? ==> step.e in truth
    ensures Paired(Next(cfg, s, step).db) && Within(Booked(Next(cfg, s, step).db), ExecutionData(truth))
  {
    if step.IngestStep? {
      IngestStepFaithful(cfg, s, step.e, truth);
    } else {
      StepKeepsLedger(cfg, s, step);
      SameLedger(s.db, Next(cfg, s, step).db, truth);
    }
  }

  lemma StepKeepsLedger(cfg: Config, s: System, step: Step)
    requires !step.IngestStep?
    ensures var db' := Next(cfg, s, step).db;
      db'.fills == s.db.fills && FillRows(db'.txs) == FillRows(s.db.txs)
  {
    if step.ManualAdd? || step.ManualDelete? {
      ManualExtends(cfg, s, step);
    } else {
      OrderStepsBookNothing(cfg, s, step);
    }
  }

  /** Over a run in which the broker told the truth the tables never hold anything it would deny. */
  lemma {:induction false} TruthfulRunIsFaithful(cfg: Config, s: System, steps: seq<Step>, book: Book,
                                                 truth: seq<Execution>)
    requires SystemInv(cfg, s) && Faithful(s, book, truth) && DistinctExecutions(truth)
    requires TruthfulRun(cfg, s, steps, book, truth)
    ensures SystemInv(cfg, Run(cfg, s, steps)) && Faithful(Run(cfg, s, steps), book, truth)
    decreases steps
  {
    if steps != [] {
      NextKeeps(cfg, s, steps[0]);
      RowsStepFaithful(cfg, s, steps[0], book, truth);
      LedgerStepFaithful(cfg, s, steps[0], truth);
      TruthfulRunIsFaithful(cfg, Next(cfg, s, steps[0]), steps[1..], book, truth);
    }
  }

  // ---------------------------------------------------------------- the next pass

  /**
   * What the broker's answers must cover: every executed order is known locally already, listed, and then one this
   * database sent or a foreign one that is described, or one it sent that the broker finds on request. What else the
   * list mentions does not matter.
   */
  ghost predicate Covers(s: System, view: View, book: Book, truth: seq<Execution>)
    requires view.orders.Some?
  {
    forall i :: 0 <= i < |truth| ==> exists c :: Answered(s, view, book, truth[i], c)
  }

  ghost predicate Answered(s: System, view: View, book: Book, e: Execution, c: ClientId)
    requires view.orders.Some?
  {
    && c in book && book[c].brokerId == e.brokerOrderId
    && (|| ListedFor(s, view.orders.value, c)
        || (c in s.submitted && view.lookup(c).Found?)
        || Known(s.db.orders, c))
  }

  ghost predicate ListedFor(s: System, bos: seq<BrokerOrder>, c: ClientId) {
    exists i :: 0 <= i < |bos| && bos[i].clientId == c && if c.Rekt? then c in s.submitted else bos[i].about.Some?
  }

  lemma SubmittedIsObtainable(cfg: Config, s: System, view: View, book: Book, truth: seq<Execution>, c: ClientId)
    requires SystemInv(cfg, s) && Faithful(s, book, truth) && view.orders.Some?
    requires c in s.submitted && c in book && view.lookup(c).Found?
    ensures Obtainable(s.db, view, c)
  {
    var i :| 0 <= i < |s.submitted| && s.submitted[i] == c;
    assert HasClient(s.db.orders, s.submitted[i]);
    var k :| 0 <= k < |s.db.orders| && s.db.orders[k].clientId == c;
    assert Pliable(s.db.orders[k]);
  }

  lemma SubmittedIsSyncable(cfg: Config, s: System, bo: BrokerOrder, book: Book, truth: seq<Execution>)
    requires SystemInv(cfg, s) && Faithful(s, book, truth) && Truthful(bo, book)
    requires if bo.clientId.Rekt? then bo.clientId in s.submitted else bo.about.Some?
    ensures Syncable(s.db.orders, bo)
  {
    if bo.clientId.Rekt? {
      var i :| 0 <= i < |s.submitted| && s.submitted[i] == bo.clientId;
      assert HasClient(s.db.orders, s.submitted[i]);
      var k :| 0 <= k < |s.db.orders| && s.db.orders[k].clientId == bo.clientId;
      assert Pliable(s.db.orders[k]);
    }
  }

  lemma AnswerFor(s: System, view: View, book: Book, truth: seq<Execution>, i: nat) returns (c: ClientId)
    requires view.orders.Some? && Covers(s, view, book, truth) && i < |truth|
    ensures Answered(s, view, book, truth[i], c)
  {
    var e := truth[i];
    assert exists c :: Answered(s, view, book, e, c);
    c :| Answered(s, view, book, e, c);
  }

  lemma ListedIsBrought(cfg: Config, s: System, view: View, book: Book, truth: seq<Execution>, c: ClientId)
    requires SystemInv(cfg, s) && Faithful(s, book, truth) && BrokerAnswers(view, book, truth)
    requires ListedFor(s, view.orders.value, c)
    ensures Brought(s.db.orders, view.orders.value, c)
  {
    var bos := view.orders.value;
    var i :| 0 <= i < |bos| && bos[i].clientId == c && if c.Rekt? then c in s.submitted else bos[i].about.Some?;
    SubmittedIsSyncable(cfg, s, bos[i], book, truth);
  }

  lemma AnsweredIsReachable(cfg: Config, s: System, view: View, book: Book, truth: seq<Execution>, i: nat)
    requires SystemInv(cfg, s) && Faithful(s, book, truth) && i < |truth|
    requires BrokerAnswers(view, book, truth) && Covers(s, view, book, truth)
    ensures Reachable(s.db, view, book, truth[i])
  {
    var c := AnswerFor(s, view, book, truth, i);
    if ListedFor(s, view.orders.value, c) {
      ListedIsBrought(cfg, s, view, book, truth, c);
    } else if !Known(s.db.orders, c) {
      SubmittedIsObtainable(cfg, s, view, book, truth, c);
    }
    assert Obtainable(s.db, view, c);
  }

  lemma FaithfulIsQuiet(cfg: Config, s: System, view: View, book: Book, truth: seq<Execution>)
    requires SystemInv(cfg, s) && Faithful(s, book, truth)
    requires BrokerAnswers(view, book, truth) && Covers(s, view, book, truth)
    ensures QuietBroker(s.db, view, cfg.mode, book, truth)
  {
    forall i | 0 <= i < |truth| ensures Reachable(s.db, view, book, truth[i]) {
      AnsweredIsReachable(cfg, s, view, book, truth, i);
    }
  }

  /**
   * After any history in which the broker told the truth, one pass against a broker that answers ends with the ledger
   * holding exactly the broker's executions, if and only if no missing one is an hour or more older than the newest
   * one already held.
   */
  lemma ReconcileAfterAnyRun(cfg: Config, steps: seq<Step>, view: View, now: int, book: Book, truth: seq<Execution>)
    requires BrokerAnswers(view, book, truth) && TruthfulRun(cfg, INITIAL, steps, book, truth)
    requires Covers(Run(cfg, INITIAL, steps), view, book, truth)
    ensures var s := Run(cfg, INITIAL, steps);
      var p := ReconcileDb(s.db, view, cfg.mode, now);
      && p.ok && DbInv(p.db, cfg.mode)
      && (Booked(p.db) == ExecutionData(truth) <==> GapsAreRecent(s.db, truth))
  {
    InitialInv(cfg);
    TruthfulRunIsFaithful(cfg, INITIAL, steps, book, truth);
    var s := Run(cfg, INITIAL, steps);
    FaithfulIsQuiet(cfg, s, view, book, truth);
    ReconcileConverges(s.db, view, cfg.mode, now, book, truth);
  }

  /** After any such history every pass completes and unlocks trading, whichever of the broker's calls fail. */
  lemma EveryPassCompletes(cfg: Config, steps: seq<Step>, view: View, now: int, book: Book, truth: seq<Execution>)
    requires DistinctExecutions(truth) && TruthfulRun(cfg, INITIAL, steps, book, truth)
    requires Unlocking.AnswersTruthfully(view, book)
    ensures ReconcileDb(Run(cfg, INITIAL, steps).db, view, cfg.mode, now).ok
  {
    InitialInv(cfg);
    TruthfulRunIsFaithful(cfg, INITIAL, steps, book, truth);
    Unlocking.PassCompletes(Run(cfg, INITIAL, steps).db, view, cfg.mode, now, book);
  }

  // ---------------------------------------------------------------- stream events

  /** The broker's executions name the symbol and side of their orders. */
  ghost predicate Described(book: Book, truth: seq<Execution>) {
    forall i, c :: 0 <= i < |truth| && c in book && book[c].brokerId == truth[i].brokerOrderId ==>
      truth[i].symbol == book[c].symbol && truth[i].side == book[c].side
  }

  /** A stream event about a real order, carrying a real execution of that order or none. */
  ghost predicate TruthfulEvent(bo: BrokerOrder, fill: Option<StreamFill>, book: Book, truth: seq<Execution>) {
    && Truthful(bo, book)
    && (fill.Some? ==>
          exists i :: 0 <= i < |truth| && truth[i].brokerOrderId == bo.brokerOrderId
            && StreamFill(truth[i].executionId, truth[i].qty, truth[i].price, truth[i].ts) == fill.value)
  }

  /**
   * Although an event names neither symbol nor side, what the handler books under the local row's is exactly the
   * broker's execution.
   */
  lemma EventBooksTheExecution(s: System, bo: BrokerOrder, fill: StreamFill, book: Book, truth: seq<Execution>)
    requires RowsFaithful(s.db.orders, book) && Described(book, truth) && TruthfulEvent(bo, Some(fill), book, truth)
    ensures var rows := ApplyBrokerOrder(s.db, bo).db.orders;
      var k := ClientRow(rows, bo.clientId);
      k < |rows| ==> Traded(rows[k], bo, fill) in truth
  {
    ApplyStepFaithful(s.db, bo, book);
    var rows := ApplyBrokerOrder(s.db, bo).db.orders;
    var k := ClientRow(rows, bo.clientId);
    var i :| 0 <= i < |truth| && truth[i].brokerOrderId == bo.brokerOrderId
      && StreamFill(truth[i].executionId, truth[i].qty, truth[i].price, truth[i].ts) == fill;
    if k < |rows| {
      assert RowTruthful(rows[k], book);
      assert Traded(rows[k], bo, fill) == truth[i];
    }
  }
}
