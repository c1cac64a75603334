/**
 * The order manager's tables and the SQL statements that touch them. Each function here is one statement or one
 * database transaction, so it happens entirely or not at all.
 */
module OrderTables {
  import opened Log
  import opened Guardrails

  datatype Status =
    | PendingSubmit | Submitted | Accepted | PartiallyFilled | Filled | Canceled | Rejected | Expired
    | PendingCancel | Replaced | Failed

  datatype Mode = Paper | Live

  /** Our own ids carry the mode, the per-database nonce and the row id; other tools' ids are opaque. */
  datatype ClientId = Rekt(mode: Mode, nonce: int, rowid: int) | External(name: string)

  datatype OrderRow = OrderRow(id: int, clientId: ClientId, brokerId: Option<string>, symbol: string, side: Side,
                               qty: real, status: Status, filledQty: real, avgFillPrice: Option<real>, mode: Mode,
                               submittedTs: int)

  datatype Fill = Fill(id: int, executionId: string, orderId: int, qty: real, price: real, ts: int)

  /** A transaction-log row; `fillId` is set exactly on rows mirrored from broker fills. */
  datatype LogRow = LogRow(id: int, kind: Kind, symbol: Option<string>, qty: real, price: real, ts: int, mode: Mode,
                           fillId: Option<int>)

  datatype Db = Db(orders: seq<OrderRow>, fills: seq<Fill>, txs: seq<LogRow>, nonce: Option<int>)

  datatype Described = Described(symbol: string, side: Side, qty: real)

  datatype BrokerOrder = BrokerOrder(brokerOrderId: string, clientId: ClientId, status: Status, filledQty: real,
                                     avgFillPrice: Option<real>, about: Option<Described>)

  datatype Execution = Execution(executionId: string, brokerOrderId: string, symbol: string, side: Side, qty: real,
                                 price: real, ts: int)

  datatype Outcome = Updated | Stale | Unknown | Conflict

  datatype Applied = Applied(db: Db, outcome: Outcome)

  datatype Inserted = Inserted(db: Db, isNew: bool)

  predicate Terminal(s: Status) {
    s.Filled? || s.Canceled? || s.Rejected? || s.Expired? || s.Replaced? || s.Failed?
  }

  /** The states an order has before anything filled. */
  predicate Unfilled(s: Status) { s.PendingSubmit? || s.Submitted? || s.Accepted? }

  /** The states in which the broker is working on an order. */
  predicate Working(s: Status) { s.Submitted? || s.Accepted? || s.PartiallyFilled? }

  /** The states of an order the broker has never acknowledged. */
  predicate Unacknowledged(s: Status) { s.PendingSubmit? || s.Rejected? || s.Failed? }

  function MapRows(rows: seq<OrderRow>, f: OrderRow -> OrderRow): (r: seq<OrderRow>)
    ensures |r| == |rows|
    ensures forall k :: 0 <= k < |rows| ==> r[k] == f(rows[k])
  {
    if rows == [] then [] else [f(rows[0])] + MapRows(rows[1..], f)
  }

  predicate HasClient(rows: seq<OrderRow>, c: ClientId) {
    exists k :: 0 <= k < |rows| && rows[k].clientId == c
  }

  predicate HasBroker(rows: seq<OrderRow>, b: string) {
    exists k :: 0 <= k < |rows| && rows[k].brokerId == Some(b)
  }

  /** Row ids count up from one. */
  function NextOrderId(rows: seq<OrderRow>): int {
    if rows == [] then 1 else rows[|rows| - 1].id + 1
  }

  function NextFillId(fills: seq<Fill>): int {
    if fills == [] then 1 else fills[|fills| - 1].id + 1
  }

  function NextTxId(txs: seq<LogRow>): int {
    if txs == [] then 1 else txs[|txs| - 1].id + 1
  }

  // ---------------------------------------------------------------- statements

  /** Persist the order intent under its deterministic client id; mint the nonce if this database has none yet. */
  function InsertPending(db: Db, t: Ticket, mode: Mode, now: int, minted: int): Db {
    var nonce := if db.nonce.Some? then db.nonce.value else minted;
    var id := NextOrderId(db.orders);
    var row := OrderRow(id, Rekt(mode, nonce, id), None, t.symbol, t.side, t.qty, PendingSubmit, 0.0, None, mode, now);
    db.(orders := db.orders + [row], nonce := Some(nonce))
  }

  /** The staleness guard: terminal rows are immutable, and a partial fill never falls back to a pre-fill state. */
  predicate MayApply(row: OrderRow, bo: BrokerOrder) {
    && row.clientId == bo.clientId
    && !Terminal(row.status)
    && !(row.status.PartiallyFilled? && Unfilled(bo.status))
  }

  function ApplyRow(row: OrderRow, bo: BrokerOrder): OrderRow {
    if MayApply(row, bo) then
      row.(brokerId := Some(bo.brokerOrderId), status := bo.status, filledQty := bo.filledQty,
           avgFillPrice := bo.avgFillPrice)
    else row
  }

  /** Another row already carries this broker id, so the unique index refuses the update. */
  predicate BrokerIdTaken(rows: seq<OrderRow>, bo: BrokerOrder) {
    && (exists k :: 0 <= k < |rows| && MayApply(rows[k], bo))
    && (exists k :: 0 <= k < |rows| && rows[k].brokerId == Some(bo.brokerOrderId) && rows[k].clientId != bo.clientId)
  }

  function ApplyBrokerOrder(db: Db, bo: BrokerOrder): Applied {
    if BrokerIdTaken(db.orders, bo) then Applied(db, Conflict)
    else
      Applied(db.(orders := MapRows(db.orders, r => ApplyRow(r, bo))),
              if exists k :: 0 <= k < |db.orders| && MayApply(db.orders[k], bo) then Updated
              else if HasClient(db.orders, bo.clientId) then Stale
              else Unknown)
  }

  /** Insert-or-ignore of an order placed elsewhere; either unique key makes it a no-op. */
  function Materialize(db: Db, bo: BrokerOrder, mode: Mode, now: int): Inserted {
    if bo.about.None? || HasClient(db.orders, bo.clientId) || HasBroker(db.orders, bo.brokerOrderId) then
      Inserted(db, false)
    else
      var d := bo.about.value;
      var row := OrderRow(NextOrderId(db.orders), bo.clientId, Some(bo.brokerOrderId), d.symbol, d.side, d.qty,
                          bo.status, 0.0, None, mode, now);
      Inserted(db.(orders := db.orders + [row]), true)
  }

  predicate HasExecution(fills: seq<Fill>, e: string) {
    exists k :: 0 <= k < |fills| && fills[k].executionId == e
  }

  function OrderOf(rows: seq<OrderRow>, b: string): (k: nat)
    ensures k <= |rows|
    ensures k < |rows| ==> rows[k].brokerId == Some(b)
    ensures k == |rows| ==> !HasBroker(rows, b)
  {
    if rows == [] then 0
    else if rows[0].brokerId == Some(b) then 0
    else
      var k := OrderOf(rows[1..], b);
      assert forall j :: 1 <= j < |rows| ==> rows[j] == rows[1..][j - 1];
      k + 1
  }

  /** Ingest one execution: the fill and its mirrored transaction, in one database transaction, once per id. */
  function Ingest(db: Db, e: Execution, mode: Mode): Inserted {
    var k := OrderOf(db.orders, e.brokerOrderId);
    if k == |db.orders| || HasExecution(db.fills, e.executionId) then Inserted(db, false)
    else
      var fill := Fill(NextFillId(db.fills), e.executionId, db.orders[k].id, e.qty, e.price, e.ts);
      var tx := LogRow(NextTxId(db.txs), if e.side == BuySide then Buy else Sell, Some(e.symbol), e.qty, e.price, e.ts,
                       mode, Some(fill.id));
      Inserted(db.(fills := db.fills + [fill], txs := db.txs + [tx]), true)
  }

  function RejectRow(row: OrderRow, id: int): OrderRow {
    if row.id == id && row.status == PendingSubmit then row.(status := Rejected) else row
  }

  function FailRow(row: OrderRow, c: ClientId): OrderRow {
    if row.clientId == c && row.status == PendingSubmit then row.(status := Failed) else row
  }

  function CancelRow(row: OrderRow, id: int): OrderRow {
    if row.id == id && !Terminal(row.status) then row.(status := PendingCancel) else row
  }

  function CancelOpenRow(row: OrderRow): OrderRow {
    if Working(row.status) then row.(status := PendingCancel) else row
  }

  function MarkRejected(db: Db, id: int): Db { db.(orders := MapRows(db.orders, r => RejectRow(r, id))) }

  function MarkFailed(db: Db, c: ClientId): Db { db.(orders := MapRows(db.orders, r => FailRow(r, c))) }

  function MarkCancel(db: Db, id: int): Db { db.(orders := MapRows(db.orders, r => CancelRow(r, id))) }

  function MarkCancelAll(db: Db): Db { db.(orders := MapRows(db.orders, r => CancelOpenRow(r))) }

  // ---------------------------------------------------------------- invariant of the tables

  ghost predicate IdsAscend(rows: seq<OrderRow>) {
    forall i, j :: 0 <= i < j < |rows| ==> rows[i].id < rows[j].id
  }

  ghost predicate ClientsUnique(rows: seq<OrderRow>) {
    forall i, j :: 0 <= i < j < |rows| ==> rows[i].clientId != rows[j].clientId
  }

  ghost predicate BrokersUnique(rows: seq<OrderRow>) {
    forall i, j :: 0 <= i < j < |rows| ==> rows[i].brokerId.None? || rows[i].brokerId != rows[j].brokerId
  }

  ghost predicate RowsInv(rows: seq<OrderRow>, nonce: Option<int>) {
    forall k :: 0 <= k < |rows| ==> RowInv(rows[k], nonce)
  }

  ghost predicate OrdersInv(db: Db) {
    IdsAscend(db.orders) && ClientsUnique(db.orders) && BrokersUnique(db.orders) && RowsInv(db.orders, db.nonce)
  }

  /**
   * Our rows carry the client id minted for them; foreign rows were born with a broker id; and a row without a broker
   * id is still pending, was rejected, or is known never to have reached the broker.
   */
  ghost predicate RowInv(r: OrderRow, nonce: Option<int>) {
    && (r.clientId.Rekt? ==> nonce == Some(r.clientId.nonce) && r.clientId.rowid == r.id && r.clientId.mode == r.mode)
    && (r.clientId.External? ==> r.brokerId.Some?)
    && (r.brokerId.None? ==> Unacknowledged(r.status))
  }

  /** The log rows mirrored from fills, in order. */
  function FillRows(txs: seq<LogRow>): seq<LogRow> {
    if txs == [] then []
    else FillRows(txs[..|txs| - 1]) + (if txs[|txs| - 1].fillId.Some? then [txs[|txs| - 1]] else [])
  }

  /** The live-mode log. */
  function LiveRows(txs: seq<LogRow>): seq<LogRow> {
    if txs == [] then []
    else LiveRows(txs[..|txs| - 1]) + (if txs[|txs| - 1].mode == Live then [txs[|txs| - 1]] else [])
  }

  /** The row a fill is mirrored by: a trade in the same shares at the same price and instant. */
  ghost predicate Mirrors(f: Fill, t: LogRow, mode: Mode) {
    && t.fillId == Some(f.id) && t.qty == f.qty && t.price == f.price && t.ts == f.ts && t.mode == mode
    && (t.kind.Buy? || t.kind.Sell?) && t.symbol.Some?
  }

  /** The fill and its row say of one execution everything the broker says: who, which way, what, how much, when. */
  ghost predicate Books(f: Fill, t: LogRow, e: Execution, mode: Mode) {
    && f == Fill(f.id, e.executionId, f.orderId, e.qty, e.price, e.ts)
    && (t.kind == Buy <==> e.side == BuySide) && (t.kind == Sell <==> e.side == SellSide)
    && t == LogRow(t.id, t.kind, Some(e.symbol), e.qty, e.price, e.ts, mode, Some(f.id))
  }

  /** Fills and broker-fill transactions correspond one to one, each fill under its own execution id. */
  ghost predicate FillsInv(db: Db, mode: Mode) {
    && (forall i, j :: 0 <= i < j < |db.fills| ==> db.fills[i].id < db.fills[j].id)
    && (forall i, j :: 0 <= i < j < |db.fills| ==> db.fills[i].executionId != db.fills[j].executionId)
    && |FillRows(db.txs)| == |db.fills|
    && (forall k :: 0 <= k < |db.fills| ==> Mirrors(db.fills[k], FillRows(db.txs)[k], mode))
  }

  ghost predicate DbInv(db: Db, mode: Mode) { OrdersInv(db) && FillsInv(db, mode) }

  // ---------------------------------------------------------------- every statement keeps it

  lemma RowsSnoc(txs: seq<LogRow>, t: LogRow)
    ensures FillRows(txs + [t]) == FillRows(txs) + (if t.fillId.Some? then [t] else [])
    ensures LiveRows(txs + [t]) == LiveRows(txs) + (if t.mode == Live then [t] else [])
  {
    assert (txs + [t])[..|txs|] == txs;
  }

  lemma InsertKeeps(db: Db, t: Ticket, mode: Mode, now: int, minted: int)
    requires DbInv(db, mode)
    ensures DbInv(InsertPending(db, t, mode, now, minted), mode)
  {
    var db' := InsertPending(db, t, mode, now, minted);
    assert forall k :: 0 <= k < |db.orders| ==> RowInv(db.orders[k], db.nonce) && RowInv(db.orders[k], db'.nonce);
  }

  lemma ApplyBrokersUnique(rows: seq<OrderRow>, bo: BrokerOrder)
    requires BrokersUnique(rows) && ClientsUnique(rows) && !BrokerIdTaken(rows, bo)
    ensures BrokersUnique(MapRows(rows, r => ApplyRow(r, bo)))
  {
    var rows' := MapRows(rows, r => ApplyRow(r, bo));
    forall i, j | 0 <= i < j < |rows'|
      ensures rows'[i].brokerId.None? || rows'[i].brokerId != rows'[j].brokerId
    {
      assert rows[i].clientId != rows[j].clientId;
      assert rows'[i] == ApplyRow(rows[i], bo) && rows'[j] == ApplyRow(rows[j], bo);
    }
  }

  lemma ApplyRowInv(row: OrderRow, bo: BrokerOrder, nonce: Option<int>)
    requires RowInv(row, nonce)
    ensures RowInv(ApplyRow(row, bo), nonce)
    ensures ApplyRow(row, bo).id == row.id && ApplyRow(row, bo).clientId == row.clientId
  {
  }

  lemma ApplyRowsKeep(rows: seq<OrderRow>, bo: BrokerOrder, nonce: Option<int>)
    requires IdsAscend(rows) && ClientsUnique(rows) && RowsInv(rows, nonce)
    ensures var rows' := MapRows(rows, r => ApplyRow(r, bo));
      IdsAscend(rows') && ClientsUnique(rows') && RowsInv(rows', nonce)
  {
    var rows' := MapRows(rows, r => ApplyRow(r, bo));
    forall k | 0 <= k < |rows|
      ensures RowInv(rows'[k], nonce) && rows'[k].id == rows[k].id && rows'[k].clientId == rows[k].clientId
    {
      ApplyRowInv(rows[k], bo, nonce);
    }
  }

  lemma ApplyKeeps(db: Db, bo: BrokerOrder, mode: Mode)
    requires DbInv(db, mode)
    ensures DbInv(ApplyBrokerOrder(db, bo).db, mode)
  {
    if !BrokerIdTaken(db.orders, bo) {
      ApplyRowsKeep(db.orders, bo, db.nonce);
      ApplyBrokersUnique(db.orders, bo);
      var db' := ApplyBrokerOrder(db, bo).db;
      assert db' == db.(orders := MapRows(db.orders, r => ApplyRow(r, bo)));
      assert FillsInv(db', mode);
    }
  }

  lemma MaterializeKeeps(db: Db, bo: BrokerOrder, mode: Mode, now: int)
    requires DbInv(db, mode) && bo.clientId.External?
    ensures DbInv(Materialize(db, bo, mode, now).db, mode)
  {
    var rows := Materialize(db, bo, mode, now).db.orders;
    assert IdsAscend(rows) && ClientsUnique(rows);
    assert BrokersUnique(rows);
    assert RowsInv(rows, db.nonce);
  }

  /** Changing statuses alone keeps every key; only the rows' own invariant has to be seen to. */
  lemma StatusChangeKeeps(db: Db, rows: seq<OrderRow>, mode: Mode)
    requires DbInv(db, mode) && |rows| == |db.orders| && RowsInv(rows, db.nonce)
    requires forall k :: 0 <= k < |rows| ==> rows[k] == db.orders[k].(status := rows[k].status)
    ensures DbInv(db.(orders := rows), mode)
  {
    assert IdsAscend(rows) && ClientsUnique(rows);
    assert BrokersUnique(rows);
    assert FillsInv(db.(orders := rows), mode);
  }

  lemma MapKeeps(db: Db, f: OrderRow -> OrderRow, mode: Mode)
    requires DbInv(db, mode)
    requires forall r :: f(r) == r.(status := f(r).status)
    requires forall r, nonce :: RowInv(r, nonce) ==> RowInv(f(r), nonce)
    ensures DbInv(db.(orders := MapRows(db.orders, f)), mode)
  {
    StatusChangeKeeps(db, MapRows(db.orders, f), mode);
  }

  lemma RejectKeeps(db: Db, id: int, mode: Mode)
    requires DbInv(db, mode)
    ensures DbInv(MarkRejected(db, id), mode)
  {
    MapKeeps(db, r => RejectRow(r, id), mode);
  }

  lemma FailKeeps(db: Db, c: ClientId, mode: Mode)
    requires DbInv(db, mode)
    ensures DbInv(MarkFailed(db, c), mode)
  {
    MapKeeps(db, r => FailRow(r, c), mode);
  }

  lemma CancelAllKeeps(db: Db, mode: Mode)
    requires DbInv(db, mode)
    ensures DbInv(MarkCancelAll(db), mode)
  {
    MapKeeps(db, r => CancelOpenRow(r), mode);
  }

  /** The cancel update only follows a check that this row has a broker id, which it then never loses. */
  lemma CancelKeeps(db: Db, id: int, mode: Mode)
    requires DbInv(db, mode)
    requires forall k :: 0 <= k < |db.orders| && db.orders[k].id == id ==> db.orders[k].brokerId.Some?
    ensures DbInv(MarkCancel(db, id), mode)
  {
    StatusChangeKeeps(db, MarkCancel(db, id).orders, mode);
  }

  lemma FillAppended(db: Db, fill: Fill, tx: LogRow, mode: Mode)
    requires FillsInv(db, mode) && Mirrors(fill, tx, mode) && !HasExecution(db.fills, fill.executionId)
    requires fill.id == NextFillId(db.fills)
    ensures FillsInv(db.(fills := db.fills + [fill], txs := db.txs + [tx]), mode)
  {
    RowsSnoc(db.txs, tx);
  }

  /** An execution is booked once, by one fill and one row that say all the broker says of it. */
  lemma IngestKeeps(db: Db, e: Execution, mode: Mode)
    requires DbInv(db, mode)
    ensures var r := Ingest(db, e, mode);
      && DbInv(r.db, mode)
      && (r.isNew <==> HasBroker(db.orders, e.brokerOrderId) && !HasExecution(db.fills, e.executionId))
      && (!r.isNew ==> r.db == db)
      && (r.isNew ==>
            && |r.db.fills| == |db.fills| + 1 && r.db.fills[..|db.fills|] == db.fills
            && FillRows(r.db.txs) == FillRows(db.txs) + [r.db.txs[|db.txs|]]
            && Books(r.db.fills[|db.fills|], r.db.txs[|db.txs|], e, mode))
  {
    var r := Ingest(db, e, mode);
    if r.isNew {
      FillAppended(db, r.db.fills[|db.fills|], r.db.txs[|db.txs|], mode);
      RowsSnoc(db.txs, r.db.txs[|db.txs|]);
    }
    assert r.db.orders == db.orders && r.db.nonce == db.nonce;
  }
}
