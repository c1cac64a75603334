/**
 * The order manager as a step system. A step is one statement of one handler, so every interleaving of submissions,
 * broker replies, stream events, reconcile phases, cancels and crashes is a sequence of steps.
 */
module OrderRuns {
  import opened Log
  import opened Guardrails
  import opened OrderTables
  import opened Sums

  /** A submit handler in memory: its intent is persisted; `sent` once it has called the broker. */
  datatype Task = Task(clientId: ClientId, sent: bool)

  /**
   * `submitted` is the history of client ids this database ever handed to the broker, `booked` that of the executions
   * it took in.
   */
  datatype System = System(db: Db, tasks: map<int, Task>, submitted: seq<ClientId>, booked: seq<Execution>,
                           ready: bool, paused: bool)

  /** `day` gives the New York day of an instant. */
  datatype Config = Config(rails: Rails, mode: Mode, day: int -> int)

  datatype Step =
    | Persist(ticket: Ticket, ctx: Context, checkedAt: int, now: int, minted: int)
    | Send(rowid: int)
    | ReplyOk(rowid: int, bo: BrokerOrder)
    | ReplyRejected(rowid: int)
    | ReplyUnknown(rowid: int)
    | ApplyStep(bo: BrokerOrder)
    | MaterializeStep(bo: BrokerOrder, now: int)
    | IngestStep(e: Execution)
    | LookupNone(clientId: ClientId)
    | CancelStep(rowid: int)
    | CancelAllStep
    | ReconcileDone
    | SetPaused(paused: bool)
    | ManualAdd(kind: Kind, symbol: Option<string>, qty: real, price: real, ts: int)
    | ManualDelete(k: nat)
    | Crash

  /** Orders whose submission falls on `day0` or later: the daily-cap input. */
  function CountFrom(rows: seq<OrderRow>, day: int -> int, day0: int): nat {
    if rows == [] then 0
    else CountFrom(rows[..|rows| - 1], day, day0) + (if day(rows[|rows| - 1].submittedTs) >= day0 then 1 else 0)
  }

  /** Orders placed by us on one day. */
  function CountOurs(rows: seq<OrderRow>, day: int -> int, d: int): nat {
    if rows == [] then 0
    else
      var r := rows[|rows| - 1];
      CountOurs(rows[..|rows| - 1], day, d) + (if r.clientId.Rekt? && day(r.submittedTs) == d then 1 else 0)
  }

  /** What the submit path checks under the lock before persisting an intent. */
  predicate MayPersist(cfg: Config, s: System, step: Step)
    requires step.Persist?
  {
    && s.ready
    && step.ctx.paused == s.paused
    && step.ctx.ordersToday == CountFrom(s.db.orders, cfg.day, cfg.day(step.checkedAt))
    && cfg.day(step.checkedAt) <= cfg.day(step.now)
    && CheckTicket(step.ticket, step.ctx, cfg.rails).Pass?
  }

  function Remove(tasks: map<int, Task>, id: int): map<int, Task> { tasks - {id} }

  predicate InFlight(s: System, id: int, sent: bool) { id in s.tasks && s.tasks[id].sent == sent }

  predicate Acknowledged(rows: seq<OrderRow>, id: int) {
    && (exists k :: 0 <= k < |rows| && rows[k].id == id)
    && (forall k :: 0 <= k < |rows| && rows[k].id == id ==> rows[k].brokerId.Some?)
  }

  function NewTask(db: Db): Task
    requires db.orders != []
  {
    Task(db.orders[|db.orders| - 1].clientId, false)
  }

  /** A step whose guard fails changes nothing. */
  function Next(cfg: Config, s: System, step: Step): System {
    match step
    case Persist(t, ctx, checkedAt, now, minted) =>
      if !MayPersist(cfg, s, step) then s
      else
        var db := InsertPending(s.db, t, cfg.mode, now, minted);
        s.(db := db, tasks := s.tasks[NextOrderId(s.db.orders) := NewTask(db)])
    case Send(id) =>
      if !InFlight(s, id, false) then s
      else s.(submitted := s.submitted + [s.tasks[id].clientId], tasks := s.tasks[id := s.tasks[id].(sent := true)])
    case ReplyOk(id, bo) =>
      if !InFlight(s, id, true) then s
      else s.(db := ApplyBrokerOrder(s.db, bo).db, tasks := Remove(s.tasks, id))
    case ReplyRejected(id) =>
      if !InFlight(s, id, true) then s
      else s.(db := MarkRejected(s.db, id), tasks := Remove(s.tasks, id))
    case ReplyUnknown(id) =>
      if !InFlight(s, id, true) then s else s.(tasks := Remove(s.tasks, id))
    case ApplyStep(bo) => s.(db := ApplyBrokerOrder(s.db, bo).db)
    case MaterializeStep(bo, now) =>
      if bo.clientId.Rekt? then s else s.(db := Materialize(s.db, bo, cfg.mode, now).db)
    case IngestStep(e) =>
      var r := Ingest(s.db, e, cfg.mode);
      s.(db := r.db, booked := if r.isNew then s.booked + [e] else s.booked)
    case LookupNone(c) => s.(db := MarkFailed(s.db, c))
    case CancelStep(id) => if Acknowledged(s.db.orders, id) then s.(db := MarkCancel(s.db, id)) else s
    case CancelAllStep => s.(db := MarkCancelAll(s.db))
    case ReconcileDone => s.(ready := true)
    case SetPaused(p) => s.(paused := p)
    case ManualAdd(kind, symbol, qty, price, ts) =>
      s.(db := s.db.(txs := s.db.txs + [LogRow(NextTxId(s.db.txs), kind, symbol, qty, price, ts, Live, None)]))
    case ManualDelete(k) =>
      if k < |s.db.txs| && s.db.txs[k].fillId.None? then s.(db := s.db.(txs := s.db.txs[..k] + s.db.txs[k + 1..]))
      else s
    case Crash => s.(tasks := map[], ready := false)
  }

  function Run(cfg: Config, s: System, steps: seq<Step>): System
    decreases steps
  {
    if steps == [] then s else Run(cfg, Next(cfg, s, steps[0]), steps[1..])
  }

  lemma TwoSteps(cfg: Config, s: System, a: Step, b: Step)
    ensures Run(cfg, s, [a, b]) == Next(cfg, Next(cfg, s, a), b)
  {
    assert [a, b][1..] == [b];
    OneStep(cfg, Next(cfg, s, a), b);
  }

  lemma OneStep(cfg: Config, s: System, a: Step)
    ensures Run(cfg, s, [a]) == Next(cfg, s, a)
  {
    assert [a][1..] == [];
  }

  const EMPTY_DB := Db([], [], [], None)

  const INITIAL := System(EMPTY_DB, map[], [], [], false, false)

  // ---------------------------------------------------------------- what no step ever undoes

  /**
   * Keys and provenance of a row never change, a broker id is never lost, and a terminal row is frozen.
   */
  ghost predicate RowExtends(r: OrderRow, r': OrderRow) {
    && r'.id == r.id && r'.clientId == r.clientId && r'.mode == r.mode && r'.submittedTs == r.submittedTs
    && r'.symbol == r.symbol && r'.side == r.side && r'.qty == r.qty
    && (r.brokerId.Some? ==> r'.brokerId.Some?)
    && (Terminal(r.status) ==> r' == r)
  }

  ghost predicate RowsExtend(rows: seq<OrderRow>, rows': seq<OrderRow>) {
    |rows| <= |rows'| && forall k :: 0 <= k < |rows| ==> RowExtends(rows[k], rows'[k])
  }

  ghost predicate DbExtends(db: Db, db': Db) {
    && RowsExtend(db.orders, db'.orders)
    && db.fills <= db'.fills
    && FillRows(db.txs) <= FillRows(db'.txs)
    && (db.nonce.Some? ==> db'.nonce == db.nonce)
  }

  lemma ApplyExtends(db: Db, bo: BrokerOrder)
    ensures DbExtends(db, ApplyBrokerOrder(db, bo).db)
    ensures |ApplyBrokerOrder(db, bo).db.orders| == |db.orders|
    ensures ApplyBrokerOrder(db, bo).db.txs == db.txs
  {
  }

  lemma MapExtends(db: Db, f: OrderRow -> OrderRow)
    requires forall r :: RowExtends(r, f(r))
    ensures DbExtends(db, db.(orders := MapRows(db.orders, f)))
  {
  }

  lemma IngestExtends(db: Db, e: Execution, mode: Mode)
    ensures DbExtends(db, Ingest(db, e, mode).db)
    ensures mode != Live ==> LiveRows(Ingest(db, e, mode).db.txs) == LiveRows(db.txs)
  {
    var r := Ingest(db, e, mode);
    if r.isNew {
      RowsSnoc(db.txs, r.db.txs[|db.txs|]);
    }
  }

  lemma {:induction false} FillRowsAppend(a: seq<LogRow>, b: seq<LogRow>)
    ensures FillRows(a + b) == FillRows(a) + FillRows(b)
  {
    if b == [] {
      assert a + b == a;
    } else {
      assert (a + b)[..|a + b| - 1] == a + b[..|b| - 1];
      FillRowsAppend(a, b[..|b| - 1]);
    }
  }

  lemma CutKeepsFills(front: seq<LogRow>, row: LogRow, back: seq<LogRow>)
    requires row.fillId.None?
    ensures FillRows(front + back) == FillRows((front + [row]) + back)
  {
    FillRowsAppend(front, back);
    FillRowsAppend(front + [row], back);
    RowsSnoc(front, row);
  }

  lemma DeleteKeepsFills(txs: seq<LogRow>, k: nat)
    requires k < |txs| && txs[k].fillId.None?
    ensures FillRows(txs[..k] + txs[k + 1..]) == FillRows(txs)
  {
    CutOut(txs, k);
    CutKeepsFills(txs[..k], txs[k], txs[k + 1..]);
  }

  lemma NextExtends(cfg: Config, s: System, step: Step)
    ensures DbExtends(s.db, Next(cfg, s, step).db)
  {
    match step
    case ReplyOk(_, bo) => ApplyExtends(s.db, bo);
    case ApplyStep(bo) => ApplyExtends(s.db, bo);
    case IngestStep(e) => IngestExtends(s.db, e, cfg.mode);
    case ManualAdd(_, _, _, _, _) => ManualExtends(cfg, s, step);
    case ManualDelete(_) => ManualExtends(cfg, s, step);
    case _ => RowsOnlyExtend(cfg, s, step);
  }

  lemma RowAppended(db: Db, row: OrderRow, nonce: Option<int>)
    requires db.nonce.Some? ==> nonce == db.nonce
    ensures DbExtends(db, db.(orders := db.orders + [row], nonce := nonce))
  {
    assert forall k :: 0 <= k < |db.orders| ==> RowExtends(db.orders[k], (db.orders + [row])[k]);
  }

  lemma InsertExtends(db: Db, t: Ticket, mode: Mode, now: int, minted: int)
    ensures DbExtends(db, InsertPending(db, t, mode, now, minted))
  {
    var db' := InsertPending(db, t, mode, now, minted);
    RowAppended(db, db'.orders[|db.orders|], db'.nonce);
  }

  lemma NothingChanged(db: Db)
    ensures DbExtends(db, db)
  {
  }

  lemma MaterializeExtends(db: Db, bo: BrokerOrder, mode: Mode, now: int)
    ensures DbExtends(db, Materialize(db, bo, mode, now).db)
  {
    var r := Materialize(db, bo, mode, now);
    if r.isNew {
      RowAppended(db, r.db.orders[|db.orders|], db.nonce);
    } else {
      NothingChanged(db);
    }
  }

  /** The remaining steps write order rows only, by a guarded update or by appending one. */
  lemma RowsOnlyExtend(cfg: Config, s: System, step: Step)
    requires !step.ReplyOk? && !step.ApplyStep? && !step.IngestStep? && !step.ManualAdd? && !step.ManualDelete?
    ensures DbExtends(s.db, Next(cfg, s, step).db)
  {
    NothingChanged(s.db);
    match step
    case ReplyRejected(id) => MapExtends(s.db, r => RejectRow(r, id));
    case LookupNone(c) => MapExtends(s.db, r => FailRow(r, c));
    case CancelStep(id) => MapExtends(s.db, r => CancelRow(r, id));
    case CancelAllStep => MapExtends(s.db, r => CancelOpenRow(r));
    case Persist(t, _, _, now, minted) => InsertExtends(s.db, t, cfg.mode, now, minted);
    case MaterializeStep(bo, now) => MaterializeExtends(s.db, bo, cfg.mode, now);
    case _ =>
  }

  lemma LogOnlyExtends(db: Db, txs: seq<LogRow>)
    requires FillRows(txs) == FillRows(db.txs)
    ensures DbExtends(db, db.(txs := txs))
  {
  }

  lemma ManualExtends(cfg: Config, s: System, step: Step)
    requires step.ManualAdd? || step.ManualDelete?
    ensures FillRows(Next(cfg, s, step).db.txs) == FillRows(s.db.txs)
    ensures DbExtends(s.db, Next(cfg, s, step).db)
  {
    if step.ManualAdd? {
      RowsSnoc(s.db.txs, LogRow(NextTxId(s.db.txs), step.kind, step.symbol, step.qty, step.price, step.ts, Live, None));
    } else if step.k < |s.db.txs| && s.db.txs[step.k].fillId.None? {
      DeleteKeepsFills(s.db.txs, step.k);
    }
    LogOnlyExtends(s.db, Next(cfg, s, step).db.txs);
  }

  lemma ExtendsTransitive(a: Db, b: Db, c: Db)
    requires DbExtends(a, b) && DbExtends(b, c)
    ensures DbExtends(a, c)
  {
    forall k | 0 <= k < |a.orders|
      ensures RowExtends(a.orders[k], c.orders[k])
    {
      assert RowExtends(a.orders[k], b.orders[k]) && RowExtends(b.orders[k], c.orders[k]);
    }
  }

  /** The steps that may write an order row. */
  predicate TouchesRows(step: Step) {
    || step.Persist? || step.ReplyOk? || step.ApplyStep? || step.MaterializeStep? || step.ReplyRejected?
    || step.LookupNone? || step.CancelStep? || step.CancelAllStep?
  }

  lemma RowsUntouched(cfg: Config, s: System, step: Step)
    requires !TouchesRows(step)
    ensures Next(cfg, s, step).db.orders == s.db.orders
  {
  }

  /** Over any run, a terminal order never changes again and no fill or mirrored transaction is ever lost. */
  lemma {:induction false} RunExtends(cfg: Config, s: System, steps: seq<Step>)
    ensures DbExtends(s.db, Run(cfg, s, steps).db)
    decreases steps
  {
    if steps != [] {
      NextExtends(cfg, s, steps[0]);
      RunExtends(cfg, Next(cfg, s, steps[0]), steps[1..]);
      ExtendsTransitive(s.db, Next(cfg, s, steps[0]).db, Run(cfg, s, steps).db);
    }
  }

  lemma {:induction false} LiveRowsAppend(a: seq<LogRow>, b: seq<LogRow>)
    ensures LiveRows(a + b) == LiveRows(a) + LiveRows(b)
  {
    if b == [] {
      assert a + b == a;
    } else {
      assert (a + b)[..|a + b| - 1] == a + b[..|b| - 1];
      LiveRowsAppend(a, b[..|b| - 1]);
    }
  }

  /** What the user's own edit does to the live log; every other step leaves it alone. */
  function LiveAfter(s: System, step: Step, live: seq<LogRow>): seq<LogRow> {
    match step
    case ManualAdd(kind, symbol, qty, price, ts) =>
      live + [LogRow(NextTxId(s.db.txs), kind, symbol, qty, price, ts, Live, None)]
    case ManualDelete(k) =>
      if k < |s.db.txs| && s.db.txs[k].fillId.None? && s.db.txs[k].mode == Live then
        Cut(live, |LiveRows(s.db.txs[..k])|)
      else live
    case _ => live
  }

  function Cut(rows: seq<LogRow>, k: nat): seq<LogRow> {
    if k < |rows| then rows[..k] + rows[k + 1..] else rows
  }

  function ByHand(cfg: Config, s: System, steps: seq<Step>, live: seq<LogRow>): seq<LogRow>
    decreases steps
  {
    if steps == [] then live else ByHand(cfg, Next(cfg, s, steps[0]), steps[1..], LiveAfter(s, steps[0], live))
  }

  lemma CutMiddle(a: seq<LogRow>, x: LogRow, b: seq<LogRow>)
    ensures Cut((a + [x]) + b, |a|) == a + b
  {
  }

  lemma CutLive(front: seq<LogRow>, row: LogRow, back: seq<LogRow>)
    ensures LiveRows(front + back) ==
            (if row.mode == Live then Cut(LiveRows((front + [row]) + back), |LiveRows(front)|)
             else LiveRows((front + [row]) + back))
  {
    LiveRowsAppend(front, back);
    LiveRowsAppend(front + [row], back);
    RowsSnoc(front, row);
    CutMiddle(LiveRows(front), row, LiveRows(back));
  }

  lemma AddedLive(cfg: Config, s: System, step: Step)
    requires step.ManualAdd?
    ensures LiveRows(Next(cfg, s, step).db.txs) == LiveAfter(s, step, LiveRows(s.db.txs))
  {
    RowsSnoc(s.db.txs, LogRow(NextTxId(s.db.txs), step.kind, step.symbol, step.qty, step.price, step.ts, Live, None));
  }

  lemma CutLiveAt(txs: seq<LogRow>, k: nat)
    requires k < |txs|
    ensures LiveRows(txs[..k] + txs[k + 1..]) ==
            (if txs[k].mode == Live then Cut(LiveRows(txs), |LiveRows(txs[..k])|) else LiveRows(txs))
  {
    CutOut(txs, k);
    CutLive(txs[..k], txs[k], txs[k + 1..]);
  }

  lemma DeletedLive(cfg: Config, s: System, step: Step)
    requires step.ManualDelete?
    ensures LiveRows(Next(cfg, s, step).db.txs) == LiveAfter(s, step, LiveRows(s.db.txs))
  {
    if step.k < |s.db.txs| {
      CutLiveAt(s.db.txs, step.k);
    }
  }

  lemma PaperStepLive(cfg: Config, s: System, step: Step)
    requires cfg.mode == Paper
    ensures LiveRows(Next(cfg, s, step).db.txs) == LiveAfter(s, step, LiveRows(s.db.txs))
  {
    if step.IngestStep? {
      IngestExtends(s.db, step.e, cfg.mode);
    } else if step.ManualAdd? {
      AddedLive(cfg, s, step);
    } else if step.ManualDelete? {
      DeletedLive(cfg, s, step);
    } else {
      OrderStepsBookNothing(cfg, s, step);
    }
  }

  /** Over any run of a paper broker the live log is what the user's own edits make of it, and nothing else. */
  lemma {:induction false} PaperNeverTouchesLive(cfg: Config, s: System, steps: seq<Step>)
    requires cfg.mode == Paper
    ensures LiveRows(Run(cfg, s, steps).db.txs) == ByHand(cfg, s, steps, LiveRows(s.db.txs))
    decreases steps
  {
    if steps != [] {
      PaperStepLive(cfg, s, steps[0]);
      PaperNeverTouchesLive(cfg, Next(cfg, s, steps[0]), steps[1..]);
    }
  }

  ghost predicate LogIdsAscend(txs: seq<LogRow>) {
    forall i, j :: 0 <= i < j < |txs| ==> txs[i].id < txs[j].id
  }

  lemma AppendedAscends(txs: seq<LogRow>, row: LogRow)
    requires LogIdsAscend(txs) && row.id == NextTxId(txs)
    ensures LogIdsAscend(txs + [row])
  {
  }

  lemma CutAscends(txs: seq<LogRow>, k: nat)
    requires LogIdsAscend(txs) && k < |txs|
    ensures LogIdsAscend(txs[..k] + txs[k + 1..])
  {
  }

  lemma StepKeepsLogIds(cfg: Config, s: System, step: Step)
    requires LogIdsAscend(s.db.txs)
    ensures LogIdsAscend(Next(cfg, s, step).db.txs)
  {
    var txs := Next(cfg, s, step).db.txs;
    if step.IngestStep? || step.ManualAdd? {
      if txs != s.db.txs {
        AppendedAscends(s.db.txs, txs[|s.db.txs|]);
        assert txs == s.db.txs + [txs[|s.db.txs|]];
      }
    } else if step.ManualDelete? {
      if step.k < |s.db.txs| {
        CutAscends(s.db.txs, step.k);
      }
    } else {
      OrderStepsBookNothing(cfg, s, step);
    }
  }

  lemma {:induction false} RunKeepsLogIds(cfg: Config, s: System, steps: seq<Step>)
    requires LogIdsAscend(s.db.txs)
    ensures LogIdsAscend(Run(cfg, s, steps).db.txs)
    decreases steps
  {
    if steps != [] {
      StepKeepsLogIds(cfg, s, steps[0]);
      RunKeepsLogIds(cfg, Next(cfg, s, steps[0]), steps[1..]);
    }
  }

  /** In every reachable state no two log rows share an id, which the ledgers rely on to order them. */
  lemma LogIdsAreUnique(cfg: Config, steps: seq<Step>, i: nat, j: nat)
    requires i < j < |Run(cfg, INITIAL, steps).db.txs|
    ensures Run(cfg, INITIAL, steps).db.txs[i].id < Run(cfg, INITIAL, steps).db.txs[j].id
  {
    RunKeepsLogIds(cfg, INITIAL, steps);
  }

  // ---------------------------------------------------------------- the invariant of every reachable state

  ghost predicate HasRow(rows: seq<OrderRow>, id: int, c: ClientId) {
    exists k :: 0 <= k < |rows| && rows[k].id == id && rows[k].clientId == c
  }

  /** Every handler in memory has its row; one that has not called the broker yet has never been submitted. */
  ghost predicate TasksInv(s: System) {
    forall id :: id in s.tasks ==>
      && s.tasks[id].clientId.Rekt? && s.tasks[id].clientId.rowid == id
      && HasRow(s.db.orders, id, s.tasks[id].clientId)
      && (!s.tasks[id].sent ==> s.tasks[id].clientId !in s.submitted)
  }

  /** Nothing is submitted twice, and everything submitted has its row. */
  ghost predicate SubmittedInv(s: System) {
    && (forall i, j :: 0 <= i < j < |s.submitted| ==> s.submitted[i] != s.submitted[j])
    && (forall i :: 0 <= i < |s.submitted| ==> s.submitted[i].Rekt? && HasClient(s.db.orders, s.submitted[i]))
  }

  ghost predicate DayCap(cfg: Config, s: System) {
    forall d: int :: CountOurs(s.db.orders, cfg.day, d) <= cfg.rails.maxOrdersPerDay
  }

  /** Fill by fill and row by row, the tables book exactly the executions taken in. */
  ghost predicate BookedInv(db: Db, booked: seq<Execution>, mode: Mode) {
    && |booked| == |db.fills| == |FillRows(db.txs)|
    && forall k :: 0 <= k < |booked| ==> Books(db.fills[k], FillRows(db.txs)[k], booked[k], mode)
  }

  ghost predicate SystemInv(cfg: Config, s: System) {
    DbInv(s.db, cfg.mode) && BookedInv(s.db, s.booked, cfg.mode) && TasksInv(s) && SubmittedInv(s) && DayCap(cfg, s)
  }

  lemma {:induction false} CountSame(rows: seq<OrderRow>, rows': seq<OrderRow>, day: int -> int, d: int)
    requires |rows| == |rows'| && RowsExtend(rows, rows')
    ensures CountOurs(rows', day, d) == CountOurs(rows, day, d)
  {
    if rows != [] {
      var n := |rows| - 1;
      assert RowExtends(rows[n], rows'[n]);
      assert forall k :: 0 <= k < n ==> rows[..n][k] == rows[k] && rows'[..n][k] == rows'[k];
      CountSame(rows[..n], rows'[..n], day, d);
    }
  }

  lemma {:induction false} OursAmongAll(rows: seq<OrderRow>, day: int -> int, d: int, day0: int)
    requires day0 <= d
    ensures CountOurs(rows, day, d) <= CountFrom(rows, day, day0)
  {
    if rows != [] { OursAmongAll(rows[..|rows| - 1], day, d, day0); }
  }

  lemma RowsStay(rows: seq<OrderRow>, rows': seq<OrderRow>, id: int, c: ClientId)
    requires RowsExtend(rows, rows')
    ensures HasRow(rows, id, c) ==> HasRow(rows', id, c)
    ensures HasClient(rows, c) ==> HasClient(rows', c)
  {
    if HasRow(rows, id, c) {
      var k :| 0 <= k < |rows| && rows[k].id == id && rows[k].clientId == c;
      assert RowExtends(rows[k], rows'[k]);
    }
    if HasClient(rows, c) {
      var k :| 0 <= k < |rows| && rows[k].clientId == c;
      assert RowExtends(rows[k], rows'[k]);
    }
  }

  /** Rows only grow, so handlers and submissions keep theirs. */
  lemma ProtocolStays(s: System, s': System)
    requires TasksInv(s) && SubmittedInv(s) && RowsExtend(s.db.orders, s'.db.orders) && s'.submitted == s.submitted
    requires forall id :: id in s'.tasks ==> id in s.tasks && s'.tasks[id] == s.tasks[id]
    ensures TasksInv(s') && SubmittedInv(s')
  {
    forall id | id in s'.tasks
      ensures HasRow(s'.db.orders, id, s'.tasks[id].clientId)
    {
      RowsStay(s.db.orders, s'.db.orders, id, s.tasks[id].clientId);
    }
    forall i | 0 <= i < |s'.submitted|
      ensures HasClient(s'.db.orders, s'.submitted[i])
    {
      RowsStay(s.db.orders, s'.db.orders, 0, s.submitted[i]);
    }
  }

  /** A step that only touches the tables, and drops at most some handlers, keeps the protocol invariants. */
  lemma TableStepKeeps(cfg: Config, s: System, s': System)
    requires SystemInv(cfg, s) && DbInv(s'.db, cfg.mode) && DbExtends(s.db, s'.db)
    requires |s'.db.orders| == |s.db.orders| && s'.submitted == s.submitted
    requires BookedInv(s'.db, s'.booked, cfg.mode)
    requires forall id :: id in s'.tasks ==> id in s.tasks && s'.tasks[id] == s.tasks[id]
    ensures SystemInv(cfg, s')
  {
    ProtocolStays(s, s');
    forall d: int
      ensures CountOurs(s'.db.orders, cfg.day, d) <= cfg.rails.maxOrdersPerDay
    {
      CountSame(s.db.orders, s'.db.orders, cfg.day, d);
    }
  }

  /** The new row is unlike every row before it, so its client id was never submitted. */
  lemma NewIdIsNew(db: Db, t: Ticket, mode: Mode, now: int, minted: int)
    requires OrdersInv(db)
    ensures var db' := InsertPending(db, t, mode, now, minted);
      && db'.orders == db.orders + [db'.orders[|db.orders|]]
      && !HasClient(db.orders, db'.orders[|db.orders|].clientId)
      && (forall k :: 0 <= k < |db.orders| ==> db.orders[k].id != NextOrderId(db.orders))
  {
    var db' := InsertPending(db, t, mode, now, minted);
    forall k | 0 <= k < |db.orders|
      ensures db.orders[k].clientId != db'.orders[|db.orders|].clientId
    {
      assert RowInv(db.orders[k], db.nonce);
    }
  }

  lemma PersistKeepsCap(cfg: Config, s: System, step: Step, d: int)
    requires step.Persist? && MayPersist(cfg, s, step) && DayCap(cfg, s)
    ensures CountOurs(Next(cfg, s, step).db.orders, cfg.day, d) <= cfg.rails.maxOrdersPerDay
  {
    var rows, rows' := s.db.orders, Next(cfg, s, step).db.orders;
    assert rows'[..|rows'| - 1] == rows;
    if d == cfg.day(step.now) {
      OursAmongAll(rows, cfg.day, d, cfg.day(step.checkedAt));
    }
  }

  lemma PersistKeeps(cfg: Config, s: System, step: Step)
    requires SystemInv(cfg, s) && step.Persist? && MayPersist(cfg, s, step)
    ensures SystemInv(cfg, Next(cfg, s, step))
  {
    var s' := Next(cfg, s, step);
    InsertKeeps(s.db, step.ticket, cfg.mode, step.now, step.minted);
    NewIdIsNew(s.db, step.ticket, cfg.mode, step.now, step.minted);
    NextExtends(cfg, s, step);
    forall id | id in s'.tasks
      ensures s'.tasks[id].clientId.Rekt? && s'.tasks[id].clientId.rowid == id
      ensures HasRow(s'.db.orders, id, s'.tasks[id].clientId)
      ensures !s'.tasks[id].sent ==> s'.tasks[id].clientId !in s'.submitted
    {
      if id == NextOrderId(s.db.orders) {
        assert s'.db.orders[|s.db.orders|].id == id;
      } else {
        RowsStay(s.db.orders, s'.db.orders, id, s.tasks[id].clientId);
      }
    }
    forall i | 0 <= i < |s'.submitted|
      ensures HasClient(s'.db.orders, s'.submitted[i])
    {
      RowsStay(s.db.orders, s'.db.orders, 0, s.submitted[i]);
    }
    forall d: int
      ensures CountOurs(s'.db.orders, cfg.day, d) <= cfg.rails.maxOrdersPerDay
    {
      PersistKeepsCap(cfg, s, step, d);
    }
  }

  /** Sending marks the handler, so no second send of the same id is possible. */
  lemma SendKeeps(cfg: Config, s: System, id: int)
    requires SystemInv(cfg, s) && InFlight(s, id, false)
    ensures SystemInv(cfg, Next(cfg, s, Send(id)))
  {
    var s' := Next(cfg, s, Send(id));
    var c := s.tasks[id].clientId;
    forall j | j in s'.tasks && !s'.tasks[j].sent
      ensures s'.tasks[j].clientId !in s'.submitted
    {
      assert j != id && s.tasks[j].clientId.rowid == j;
    }
    assert HasClient(s.db.orders, c);
  }

  lemma MaterializeCount(db: Db, bo: BrokerOrder, mode: Mode, now: int, day: int -> int, d: int)
    requires bo.clientId.External?
    ensures CountOurs(Materialize(db, bo, mode, now).db.orders, day, d) == CountOurs(db.orders, day, d)
  {
    var rows' := Materialize(db, bo, mode, now).db.orders;
    assert rows' == db.orders || rows'[..|rows'| - 1] == db.orders;
  }

  lemma MaterializeStepKeeps(cfg: Config, s: System, bo: BrokerOrder, now: int)
    requires SystemInv(cfg, s) && bo.clientId.External?
    ensures SystemInv(cfg, Next(cfg, s, MaterializeStep(bo, now)))
  {
    var s' := Next(cfg, s, MaterializeStep(bo, now));
    MaterializeKeeps(s.db, bo, cfg.mode, now);
    NextExtends(cfg, s, MaterializeStep(bo, now));
    ProtocolStays(s, s');
    forall d: int
      ensures CountOurs(s'.db.orders, cfg.day, d) <= cfg.rails.maxOrdersPerDay
    {
      MaterializeCount(s.db, bo, cfg.mode, now, cfg.day, d);
    }
  }

  lemma ManualKeeps(db: Db, txs: seq<LogRow>, mode: Mode)
    requires DbInv(db, mode) && FillRows(txs) == FillRows(db.txs)
    ensures DbInv(db.(txs := txs), mode)
  {
  }

  lemma ManualTablesKeep(cfg: Config, s: System, step: Step)
    requires DbInv(s.db, cfg.mode) && (step.ManualAdd? || step.ManualDelete?)
    ensures DbInv(Next(cfg, s, step).db, cfg.mode)
  {
    ManualExtends(cfg, s, step);
    ManualKeeps(s.db, Next(cfg, s, step).db.txs, cfg.mode);
  }

  lemma CancelTablesKeep(db: Db, id: int, mode: Mode)
    requires DbInv(db, mode) && Acknowledged(db.orders, id)
    ensures DbInv(MarkCancel(db, id), mode)
  {
    CancelKeeps(db, id, mode);
  }

  lemma TablesKeep(cfg: Config, s: System, step: Step)
    requires DbInv(s.db, cfg.mode) && !step.Persist? && !step.MaterializeStep?
    ensures DbInv(Next(cfg, s, step).db, cfg.mode)
  {
    if step.ManualAdd? || step.ManualDelete? {
      ManualTablesKeep(cfg, s, step);
    } else if step.IngestStep? {
      IngestKeeps(s.db, step.e, cfg.mode);
    } else {
      RowTablesKeep(cfg, s, step);
    }
  }

  lemma RowTablesKeep(cfg: Config, s: System, step: Step)
    requires DbInv(s.db, cfg.mode) && !step.Persist? && !step.MaterializeStep?
    requires !step.IngestStep? && !step.ManualAdd? && !step.ManualDelete?
    ensures DbInv(Next(cfg, s, step).db, cfg.mode)
  {
    match step
    case ReplyOk(_, bo) => ApplyKeeps(s.db, bo, cfg.mode);
    case ApplyStep(bo) => ApplyKeeps(s.db, bo, cfg.mode);
    case ReplyRejected(id) => RejectKeeps(s.db, id, cfg.mode);
    case LookupNone(c) => FailKeeps(s.db, c, cfg.mode);
    case CancelStep(id) => if Acknowledged(s.db.orders, id) { CancelTablesKeep(s.db, id, cfg.mode); }
    case CancelAllStep => CancelAllKeeps(s.db, cfg.mode);
    case _ =>
  }

  lemma IngestBooks(db: Db, booked: seq<Execution>, e: Execution, mode: Mode)
    requires DbInv(db, mode) && BookedInv(db, booked, mode)
    ensures var r := Ingest(db, e, mode); BookedInv(r.db, if r.isNew then booked + [e] else booked, mode)
  {
    IngestKeeps(db, e, mode);
    var r := Ingest(db, e, mode);
    if r.isNew {
      var booked', n := booked + [e], |booked|;
      forall k | 0 <= k < |booked'|
        ensures Books(r.db.fills[k], FillRows(r.db.txs)[k], booked'[k], mode)
      {
        if k < n {
          assert r.db.fills[k] == db.fills[k];
          assert Books(db.fills[k], FillRows(db.txs)[k], booked[k], mode);
        }
      }
    }
  }

  lemma SameBooking(db: Db, db': Db, booked: seq<Execution>, mode: Mode)
    requires BookedInv(db, booked, mode) && db'.fills == db.fills && FillRows(db'.txs) == FillRows(db.txs)
    ensures BookedInv(db', booked, mode)
  {
  }

  lemma BookingKeeps(cfg: Config, s: System, step: Step)
    requires DbInv(s.db, cfg.mode) && BookedInv(s.db, s.booked, cfg.mode)
    ensures BookedInv(Next(cfg, s, step).db, Next(cfg, s, step).booked, cfg.mode)
  {
    if step.IngestStep? {
      IngestBooks(s.db, s.booked, step.e, cfg.mode);
    } else if step.ManualAdd? || step.ManualDelete? {
      ManualExtends(cfg, s, step);
      SameBooking(s.db, Next(cfg, s, step).db, s.booked, cfg.mode);
    } else {
      OrderStepsBookNothing(cfg, s, step);
      SameBooking(s.db, Next(cfg, s, step).db, s.booked, cfg.mode);
    }
  }

  lemma OrderStepsBookNothing(cfg: Config, s: System, step: Step)
    requires !step.IngestStep? && !step.ManualAdd? && !step.ManualDelete?
    ensures var s' := Next(cfg, s, step);
      s'.db.fills == s.db.fills && s'.db.txs == s.db.txs && s'.booked == s.booked
  {
  }

  /** Every other step keeps the number of rows and the history of sends, and starts no handler. */
  lemma OtherStepShape(cfg: Config, s: System, step: Step)
    requires !step.Persist? && !step.Send? && !step.MaterializeStep?
    ensures var s' := Next(cfg, s, step);
      && |s'.db.orders| == |s.db.orders| && s'.submitted == s.submitted
      && (forall id :: id in s'.tasks ==> id in s.tasks && s'.tasks[id] == s.tasks[id])
  {
  }

  lemma OtherStepKeeps(cfg: Config, s: System, step: Step)
    requires SystemInv(cfg, s) && !step.Persist? && !step.Send? && !step.MaterializeStep?
    ensures SystemInv(cfg, Next(cfg, s, step))
  {
    TablesKeep(cfg, s, step);
    NextExtends(cfg, s, step);
    BookingKeeps(cfg, s, step);
    OtherStepShape(cfg, s, step);
    TableStepKeeps(cfg, s, Next(cfg, s, step));
  }

  lemma NextKeeps(cfg: Config, s: System, step: Step)
    requires SystemInv(cfg, s)
    ensures SystemInv(cfg, Next(cfg, s, step))
  {
    if step.Persist? {
      if MayPersist(cfg, s, step) { PersistKeeps(cfg, s, step); }
    } else if step.Send? {
      if InFlight(s, step.rowid, false) { SendKeeps(cfg, s, step.rowid); }
    } else if step.MaterializeStep? {
      if step.bo.clientId.External? { MaterializeStepKeeps(cfg, s, step.bo, step.now); }
    } else {
      OtherStepKeeps(cfg, s, step);
    }
  }

  lemma {:induction false} RunKeeps(cfg: Config, s: System, steps: seq<Step>)
    requires SystemInv(cfg, s)
    ensures SystemInv(cfg, Run(cfg, s, steps))
    decreases steps
  {
    if steps != [] {
      NextKeeps(cfg, s, steps[0]);
      RunKeeps(cfg, Next(cfg, s, steps[0]), steps[1..]);
    }
  }

  lemma InitialInv(cfg: Config)
    ensures SystemInv(cfg, INITIAL)
  {
  }

  // ---------------------------------------------------------------- the promises, read off

  /**
   * After any interleaving and any crashes: each id was submitted at most once and has exactly one row; a row the
   * broker never acknowledged is pending, rejected or failed; and no day has more of our orders than the cap.
   */
  lemma CrashSafeIntent(cfg: Config, steps: seq<Step>)
    ensures var s := Run(cfg, INITIAL, steps);
      && (forall i, j :: 0 <= i < j < |s.submitted| ==> s.submitted[i] != s.submitted[j])
      && (forall i :: 0 <= i < |s.submitted| ==> HasClient(s.db.orders, s.submitted[i]))
      && ClientsUnique(s.db.orders)
      && (forall k :: 0 <= k < |s.db.orders| && s.db.orders[k].brokerId.None? ==>
            s.db.orders[k].status in {PendingSubmit, Rejected, Failed})
      && (forall d: int :: CountOurs(s.db.orders, cfg.day, d) <= cfg.rails.maxOrdersPerDay)
  {
    InitialInv(cfg);
    RunKeeps(cfg, INITIAL, steps);
    var s := Run(cfg, INITIAL, steps);
    assert forall k :: 0 <= k < |s.db.orders| ==> RowInv(s.db.orders[k], s.db.nonce);
  }

  /**
   * In every reachable state, fills, broker-fill transactions and the executions taken in correspond one to one: each
   * execution is booked once, as a buy or a sell of its own symbol, and nothing else is booked.
   */
  lemma FillsMirrorTransactions(cfg: Config, steps: seq<Step>)
    ensures var s := Run(cfg, INITIAL, steps);
      && |s.booked| == |s.db.fills| == |FillRows(s.db.txs)|
      && (forall k :: 0 <= k < |s.booked| ==> Books(s.db.fills[k], FillRows(s.db.txs)[k], s.booked[k], cfg.mode))
      && (forall i, j :: 0 <= i < j < |s.booked| ==> s.booked[i].executionId != s.booked[j].executionId)
      && (forall k :: 0 <= k < |s.booked| ==> IngestStep(s.booked[k]) in steps)
  {
    InitialInv(cfg);
    RunKeeps(cfg, INITIAL, steps);
    BookedWasDelivered(cfg, INITIAL, steps);
    var s := Run(cfg, INITIAL, steps);
    forall i, j | 0 <= i < j < |s.booked| ensures s.booked[i].executionId != s.booked[j].executionId {
      assert Books(s.db.fills[i], FillRows(s.db.txs)[i], s.booked[i], cfg.mode);
      assert Books(s.db.fills[j], FillRows(s.db.txs)[j], s.booked[j], cfg.mode);
    }
  }

  lemma {:induction false} BookedWasDelivered(cfg: Config, s: System, steps: seq<Step>)
    ensures forall e :: e in Run(cfg, s, steps).booked ==> e in s.booked || IngestStep(e) in steps
    decreases steps
  {
    if steps != [] {
      BookedWasDelivered(cfg, Next(cfg, s, steps[0]), steps[1..]);
      assert steps == [steps[0]] + steps[1..];
    }
  }

  lemma {:induction false} RunAppend(cfg: Config, s: System, a: seq<Step>, b: seq<Step>)
    ensures Run(cfg, s, a + b) == Run(cfg, Run(cfg, s, a), b)
    decreases a
  {
    if a == [] {
      assert a + b == b;
    } else {
      assert (a + b)[1..] == a[1..] + b;
      RunAppend(cfg, Next(cfg, s, a[0]), a[1..], b);
    }
  }

  /** Once an order is terminal at some point of a run, it reads exactly the same at every later point. */
  lemma TerminalForever(cfg: Config, steps: seq<Step>, more: seq<Step>, k: nat)
    requires k < |Run(cfg, INITIAL, steps).db.orders|
    requires Run(cfg, INITIAL, steps).db.orders[k].status in {Filled, Canceled, Rejected, Expired, Replaced, Failed}
    ensures k < |Run(cfg, INITIAL, steps + more).db.orders|
    ensures Run(cfg, INITIAL, steps + more).db.orders[k] == Run(cfg, INITIAL, steps).db.orders[k]
  {
    RunAppend(cfg, INITIAL, steps, more);
    var s := Run(cfg, INITIAL, steps);
    RunExtends(cfg, s, more);
    assert RowExtends(s.db.orders[k], Run(cfg, s, more).db.orders[k]);
  }
}
