/** One reconciliation pass against a quiet broker leaves exactly the broker's executions in the tables. */
module Convergence {
  import opened Log
  import opened Guardrails
  import opened OrderTables
  import opened OrderRuns
  import opened OrderManager

  /** What the broker has on record for an order. */
  datatype Listing = Listing(brokerId: string, symbol: string, side: Side)

  /** The broker's own book: every order it ever took, by client id. */
  type Book = map<ClientId, Listing>

  ghost predicate Injective(book: Book) {
    forall c, d :: c in book && d in book && book[c].brokerId == book[d].brokerId ==> c == d
  }

  ghost predicate Truthful(bo: BrokerOrder, book: Book) {
    && bo.clientId in book && book[bo.clientId].brokerId == bo.brokerOrderId
    && (bo.about.Some? ==>
          bo.about.value.symbol == book[bo.clientId].symbol && bo.about.value.side == book[bo.clientId].side)
  }

  /** A row with a broker id is on the broker's record under it, and a row on record says what the record says. */
  ghost predicate RowTruthful(r: OrderRow, book: Book) {
    && (r.brokerId.Some? ==> r.clientId in book && r.brokerId == Some(book[r.clientId].brokerId))
    && (r.clientId in book ==> r.symbol == book[r.clientId].symbol && r.side == book[r.clientId].side)
  }

  ghost predicate RowsTruthful(rows: seq<OrderRow>, book: Book) {
    forall k :: 0 <= k < |rows| ==> RowTruthful(rows[k], book)
  }

  /** The local row of this order carries its broker id, so its fills can be ingested. */
  ghost predicate Known(rows: seq<OrderRow>, c: ClientId) {
    exists k :: 0 <= k < |rows| && rows[k].clientId == c && rows[k].brokerId.Some?
  }

  /**
   * An order the pass can bring in: one of ours with a row that has its broker id or is still pending, or a foreign
   * one that is described or already materialized.
   */
  ghost predicate Syncable(rows: seq<OrderRow>, bo: BrokerOrder) {
    if bo.clientId.Rekt? then
      exists k :: 0 <= k < |rows| && rows[k].clientId == bo.clientId && Pliable(rows[k])
    else bo.about.Some? || HasClient(rows, bo.clientId)
  }

  ghost predicate Pliable(r: OrderRow) { r.brokerId.Some? || r.status == PendingSubmit }

  /** Rows may be appended; an existing row is unchanged or has its broker id now. */
  ghost predicate Progress(rows: seq<OrderRow>, rows': seq<OrderRow>) {
    && |rows| <= |rows'|
    && forall k :: 0 <= k < |rows| ==>
         rows'[k].clientId == rows[k].clientId && (rows'[k] == rows[k] || rows'[k].brokerId.Some?)
  }

  // ---------------------------------------------------------------- phase one

  lemma NoConflict(rows: seq<OrderRow>, bo: BrokerOrder, book: Book)
    requires Injective(book) && RowsTruthful(rows, book) && Truthful(bo, book)
    ensures !BrokerIdTaken(rows, bo)
  {
    forall k | 0 <= k < |rows| && rows[k].brokerId == Some(bo.brokerOrderId) ensures rows[k].clientId == bo.clientId {
      assert RowTruthful(rows[k], book);
    }
  }

  lemma ApplyTruthful(db: Db, bo: BrokerOrder, book: Book)
    requires Injective(book) && RowsTruthful(db.orders, book) && Truthful(bo, book)
    ensures var a := ApplyBrokerOrder(db, bo);
      && a.outcome != Conflict && a.db == db.(orders := a.db.orders)
      && RowsTruthful(a.db.orders, book) && Progress(db.orders, a.db.orders)
  {
    NoConflict(db.orders, bo, book);
    var rows := ApplyBrokerOrder(db, bo).db.orders;
    forall k | 0 <= k < |rows|
      ensures RowTruthful(rows[k], book)
      ensures rows[k].clientId == db.orders[k].clientId && (rows[k] == db.orders[k] || rows[k].brokerId.Some?)
    {
      assert RowTruthful(db.orders[k], book) && rows[k] == ApplyRow(db.orders[k], bo);
    }
  }

  /** A pliable row of the order ends up with its broker id. */
  lemma ApplyMakesKnown(db: Db, bo: BrokerOrder, book: Book, k: nat)
    requires Injective(book) && RowsTruthful(db.orders, book) && Truthful(bo, book)
    requires k < |db.orders| && db.orders[k].clientId == bo.clientId && Pliable(db.orders[k])
    ensures Known(ApplyBrokerOrder(db, bo).db.orders, bo.clientId)
  {
    NoConflict(db.orders, bo, book);
    var row := ApplyBrokerOrder(db, bo).db.orders[k];
    assert row == ApplyRow(db.orders[k], bo);
  }

  lemma MaterializeTruthful(db: Db, bo: BrokerOrder, mode: Mode, now: int, book: Book)
    requires OrdersInv(db) && Injective(book) && RowsTruthful(db.orders, book) && Truthful(bo, book)
    requires bo.clientId.External?
    ensures var m := Materialize(db, bo, mode, now);
      && m.db == db.(orders := m.db.orders)
      && RowsTruthful(m.db.orders, book) && Progress(db.orders, m.db.orders)
      && (bo.about.Some? || HasClient(db.orders, bo.clientId) ==> Known(m.db.orders, bo.clientId))
  {
    var m := Materialize(db, bo, mode, now);
    if m.isNew {
      assert m.db.orders[|db.orders|].clientId == bo.clientId;
      assert RowTruthful(m.db.orders[|db.orders|], book);
    } else if HasClient(db.orders, bo.clientId) {
      var k :| 0 <= k < |db.orders| && db.orders[k].clientId == bo.clientId;
      assert RowInv(db.orders[k], db.nonce);
    } else if bo.about.Some? {
      TakenIdIsItsOwn(db.orders, bo, book);
    }
  }

  /** A row with the broker id of an order on record is that order's row. */
  lemma TakenIdIsItsOwn(rows: seq<OrderRow>, bo: BrokerOrder, book: Book)
    requires Injective(book) && RowsTruthful(rows, book) && Truthful(bo, book)
    ensures HasBroker(rows, bo.brokerOrderId) ==> HasClient(rows, bo.clientId)
  {
    if HasBroker(rows, bo.brokerOrderId) {
      var k :| 0 <= k < |rows| && rows[k].brokerId == Some(bo.brokerOrderId);
      assert RowTruthful(rows[k], book);
    }
  }

  lemma KnownStays(rows: seq<OrderRow>, rows': seq<OrderRow>, c: ClientId)
    requires Progress(rows, rows') && Known(rows, c)
    ensures Known(rows', c)
  {
    var k :| 0 <= k < |rows| && rows[k].clientId == c && rows[k].brokerId.Some?;
    assert rows'[k].clientId == c && rows'[k].brokerId.Some?;
  }

  lemma SyncableStays(rows: seq<OrderRow>, rows': seq<OrderRow>, bo: BrokerOrder)
    requires Progress(rows, rows') && Syncable(rows, bo)
    ensures Syncable(rows', bo)
  {
    if bo.clientId.Rekt? {
      var k :| 0 <= k < |rows| && rows[k].clientId == bo.clientId && Pliable(rows[k]);
      assert rows'[k].clientId == bo.clientId && Pliable(rows'[k]);
    } else if HasClient(rows, bo.clientId) {
      var k :| 0 <= k < |rows| && rows[k].clientId == bo.clientId;
      assert rows'[k].clientId == bo.clientId;
    }
  }

  lemma ProgressTransitive(a: seq<OrderRow>, b: seq<OrderRow>, c: seq<OrderRow>)
    requires Progress(a, b) && Progress(b, c)
    ensures Progress(a, c)
  {
  }

  /** Where phase one leaves the tables: more rows and ids than before, and nothing the broker would deny. */
  ghost predicate SyncedFrom(db: Db, p: Phase, mode: Mode, book: Book) {
    && p.ok && p.db == db.(orders := p.db.orders) && DbInv(p.db, mode)
    && RowsTruthful(p.db.orders, book) && Progress(db.orders, p.db.orders)
  }

  lemma SyncForeign(db: Db, bo: BrokerOrder, mode: Mode, now: int, book: Book)
    requires DbInv(db, mode) && Injective(book) && RowsTruthful(db.orders, book)
    requires Truthful(bo, book) && bo.clientId.External?
    ensures var p := SyncOne(db, bo, mode, now);
      SyncedFrom(db, p, mode, book) && (Syncable(db.orders, bo) ==> Known(p.db.orders, bo.clientId))
  {
    MaterializeTruthful(db, bo, mode, now, book);
    MaterializeKeeps(db, bo, mode, now);
    var m := Materialize(db, bo, mode, now);
    if m.isNew {
      ApplyTruthful(m.db, bo, book);
      ApplyKeeps(m.db, bo, mode);
      var rows' := ApplyBrokerOrder(m.db, bo).db.orders;
      KnownStays(m.db.orders, rows', bo.clientId);
      ProgressTransitive(db.orders, m.db.orders, rows');
    }
  }

  lemma SyncOurs(db: Db, bo: BrokerOrder, mode: Mode, now: int, book: Book)
    requires DbInv(db, mode) && Injective(book) && RowsTruthful(db.orders, book)
    requires Truthful(bo, book) && bo.clientId.Rekt?
    ensures var p := SyncOne(db, bo, mode, now);
      SyncedFrom(db, p, mode, book) && (Syncable(db.orders, bo) ==> Known(p.db.orders, bo.clientId))
  {
    ApplyTruthful(db, bo, book);
    ApplyKeeps(db, bo, mode);
    if Syncable(db.orders, bo) {
      var k :| 0 <= k < |db.orders| && db.orders[k].clientId == bo.clientId && Pliable(db.orders[k]);
      ApplyMakesKnown(db, bo, book, k);
    }
  }

  /** A truthful order never conflicts, whether or not the pass can bring it in. */
  lemma SyncOneKnown(db: Db, bo: BrokerOrder, mode: Mode, now: int, book: Book)
    requires DbInv(db, mode) && Injective(book) && RowsTruthful(db.orders, book) && Truthful(bo, book)
    ensures var p := SyncOne(db, bo, mode, now);
      SyncedFrom(db, p, mode, book) && (Syncable(db.orders, bo) ==> Known(p.db.orders, bo.clientId))
  {
    if bo.clientId.Rekt? {
      SyncOurs(db, bo, mode, now, book);
    } else {
      SyncForeign(db, bo, mode, now, book);
    }
  }

  /** A truthful list never conflicts, and every listed order that can be brought in is known afterwards. */
  lemma {:induction false} SyncAllKnown(db: Db, bos: seq<BrokerOrder>, mode: Mode, now: int, book: Book)
    requires DbInv(db, mode) && Injective(book) && RowsTruthful(db.orders, book)
    requires forall i :: 0 <= i < |bos| ==> Truthful(bos[i], book)
    ensures var p := SyncAll(db, bos, mode, now);
      && SyncedFrom(db, p, mode, book)
      && (forall i :: 0 <= i < |bos| && Syncable(db.orders, bos[i]) ==> Known(p.db.orders, bos[i].clientId))
    decreases bos
  {
    if bos != [] {
      SyncOneKnown(db, bos[0], mode, now, book);
      var p := SyncOne(db, bos[0], mode, now);
      assert forall i :: 0 <= i < |bos| - 1 ==> bos[1..][i] == bos[i + 1];
      SyncAllKnown(p.db, bos[1..], mode, now, book);
      var q := SyncAll(p.db, bos[1..], mode, now);
      ProgressTransitive(db.orders, p.db.orders, q.db.orders);
      forall i | 0 <= i < |bos| && Syncable(db.orders, bos[i])
        ensures Known(q.db.orders, bos[i].clientId)
      {
        if i == 0 {
          KnownStays(p.db.orders, q.db.orders, bos[0].clientId);
        } else {
          SyncableStays(db.orders, p.db.orders, bos[i]);
          assert bos[1..][i - 1] == bos[i];
        }
      }
    }
  }

  // ---------------------------------------------------------------- phase two

  /** Broker ids survive: every row that has one keeps one. */
  ghost predicate KeepsIds(rows: seq<OrderRow>, rows': seq<OrderRow>) {
    && |rows| == |rows'|
    && forall k :: 0 <= k < |rows| ==>
         rows'[k].clientId == rows[k].clientId && (rows[k].brokerId.Some? ==> rows'[k].brokerId.Some?)
  }

  lemma ResolveOneKeeps(db: Db, answer: Lookup, c: ClientId, mode: Mode, book: Book)
    requires DbInv(db, mode) && Injective(book) && RowsTruthful(db.orders, book)
    requires answer.Found? ==> Truthful(answer.bo, book)
    ensures var p := ResolveOne(db, answer, c);
      && p.ok && p.db == db.(orders := p.db.orders) && DbInv(p.db, mode)
      && RowsTruthful(p.db.orders, book) && KeepsIds(db.orders, p.db.orders)
  {
    if answer.Found? {
      ApplyTruthful(db, answer.bo, book);
      ApplyExtends(db, answer.bo);
      ApplyKeeps(db, answer.bo, mode);
    } else if answer.NeverSeen? {
      FailKeeps(db, c, mode);
    }
  }

  lemma {:induction false} ResolveAllKeeps(db: Db, cs: seq<ClientId>, bos: seq<BrokerOrder>,
                                           lookup: ClientId -> Lookup, mode: Mode, book: Book)
    requires DbInv(db, mode) && Injective(book) && RowsTruthful(db.orders, book)
    requires LookupTruthful(lookup, book)
    ensures var p := ResolveAll(db, cs, bos, lookup);
      && p.ok && p.db == db.(orders := p.db.orders) && DbInv(p.db, mode)
      && RowsTruthful(p.db.orders, book) && KeepsIds(db.orders, p.db.orders)
    decreases cs
  {
    if cs != [] {
      if Listed(bos, cs[0]) {
        ResolveAllKeeps(db, cs[1..], bos, lookup, mode, book);
      } else {
        ResolveOneKeeps(db, lookup(cs[0]), cs[0], mode, book);
        ResolveAllKeeps(ResolveOne(db, lookup(cs[0]), cs[0]).db, cs[1..], bos, lookup, mode, book);
      }
    }
  }

  /** An order the list may omit: its row is still pending, and the broker finds it when asked. */
  ghost predicate Findable(rows: seq<OrderRow>, lookup: ClientId -> Lookup, c: ClientId) {
    lookup(c).Found? && exists k :: 0 <= k < |rows| && rows[k].clientId == c && rows[k].status == PendingSubmit
  }

  ghost predicate LookupTruthful(lookup: ClientId -> Lookup, book: Book) {
    forall c :: lookup(c).Found? ==> lookup(c).bo.clientId == c && Truthful(lookup(c).bo, book)
  }

  /** Phase one leaves the row of an order alone that the list does not mention. */
  lemma {:induction false} SyncAllLeaves(db: Db, bos: seq<BrokerOrder>, mode: Mode, now: int, k: nat)
    requires k < |db.orders| && !Listed(bos, db.orders[k].clientId)
    ensures var rows := SyncAll(db, bos, mode, now).db.orders;
      k < |rows| && rows[k] == db.orders[k]
    decreases bos
  {
    if bos != [] {
      assert bos[0].clientId != db.orders[k].clientId;
      var p := SyncOne(db, bos[0], mode, now);
      assert p.db.orders[k] == db.orders[k];
      if p.ok {
        assert forall i :: 0 <= i < |bos| - 1 ==> bos[1..][i] == bos[i + 1];
        SyncAllLeaves(p.db, bos[1..], mode, now, k);
      }
    }
  }

  lemma {:induction false} PendingIdsHas(rows: seq<OrderRow>, k: nat)
    requires k < |rows| && rows[k].status == PendingSubmit
    ensures rows[k].clientId in PendingIds(rows)
  {
    if k > 0 {
      PendingIdsHas(rows[1..], k - 1);
    }
  }

  lemma ResolveOneLeaves(db: Db, answer: Lookup, c: ClientId, k: nat)
    requires k < |db.orders| && db.orders[k].clientId != c && (answer.Found? ==> answer.bo.clientId == c)
    ensures var rows := ResolveOne(db, answer, c).db.orders;
      k < |rows| && rows[k] == db.orders[k]
  {
  }

  /** Phase two finds every pending order the broker finds, whatever else it resolves before and after. */
  lemma {:induction false} ResolveFinds(db: Db, cs: seq<ClientId>, bos: seq<BrokerOrder>,
                                        lookup: ClientId -> Lookup, mode: Mode, book: Book, k: nat)
    requires DbInv(db, mode) && Injective(book) && RowsTruthful(db.orders, book) && LookupTruthful(lookup, book)
    requires k < |db.orders| && db.orders[k].status == PendingSubmit
    requires var c := db.orders[k].clientId;
      c in cs && !Listed(bos, c) && lookup(c).Found?
    ensures Known(ResolveAll(db, cs, bos, lookup).db.orders, db.orders[k].clientId)
    decreases cs
  {
    var c := db.orders[k].clientId;
    if Listed(bos, cs[0]) {
      ResolveFinds(db, cs[1..], bos, lookup, mode, book, k);
    } else {
      ResolveOneKeeps(db, lookup(cs[0]), cs[0], mode, book);
      var p := ResolveOne(db, lookup(cs[0]), cs[0]);
      if cs[0] == c {
        ApplyMakesKnown(db, lookup(c).bo, book, k);
        ResolveAllKeeps(p.db, cs[1..], bos, lookup, mode, book);
        KnownAfterResolve(p.db.orders, ResolveAll(p.db, cs[1..], bos, lookup).db.orders, c);
      } else {
        ResolveOneLeaves(db, lookup(cs[0]), cs[0], k);
        ResolveFinds(p.db, cs[1..], bos, lookup, mode, book, k);
      }
    }
  }

  lemma KnownAfterResolve(rows: seq<OrderRow>, rows': seq<OrderRow>, c: ClientId)
    requires KeepsIds(rows, rows') && Known(rows, c)
    ensures Known(rows', c)
  {
    var k :| 0 <= k < |rows| && rows[k].clientId == c && rows[k].brokerId.Some?;
    assert rows'[k].clientId == c && rows'[k].brokerId.Some?;
  }

  // ---------------------------------------------------------------- phase three

  datatype Datum = Datum(kind: Kind, symbol: Option<string>, qty: real, price: real, ts: int)

  function Booking(t: LogRow): Datum { Datum(t.kind, t.symbol, t.qty, t.price, t.ts) }

  /** The mirrored transactions by the execution id of their fill. */
  function Bookings(fills: seq<Fill>, rows: seq<LogRow>): map<string, Datum>
    requires |fills| == |rows|
  {
    if fills == [] then map[]
    else
      var n := |fills| - 1;
      Bookings(fills[..n], rows[..n])[fills[n].executionId := Booking(rows[n])]
  }

  ghost predicate Paired(db: Db) { |db.fills| == |FillRows(db.txs)| }

  /** What the ledger says of every execution it knows. */
  function Booked(db: Db): map<string, Datum>
    requires Paired(db)
  {
    Bookings(db.fills, FillRows(db.txs))
  }

  /** What the ledger has to say of an execution. */
  function DatumOf(e: Execution): Datum {
    Datum(if e.side == BuySide then Buy else Sell, Some(e.symbol), e.qty, e.price, e.ts)
  }

  /** The broker's executions by id. */
  function ExecutionData(es: seq<Execution>): map<string, Datum> {
    if es == [] then map[]
    else ExecutionData(es[..|es| - 1])[es[|es| - 1].executionId := DatumOf(es[|es| - 1])]
  }

  ghost predicate DistinctExecutions(es: seq<Execution>) {
    forall i, j :: 0 <= i < j < |es| ==> es[i].executionId != es[j].executionId
  }

  lemma {:induction false} ExecutionDataAt(es: seq<Execution>, i: nat)
    requires DistinctExecutions(es) && i < |es|
    ensures es[i].executionId in ExecutionData(es) && ExecutionData(es)[es[i].executionId] == DatumOf(es[i])
  {
    if i < |es| - 1 { ExecutionDataAt(es[..|es| - 1], i); }
  }

  lemma {:induction false} ExecutionDataSource(es: seq<Execution>, id: string) returns (i: nat)
    requires id in ExecutionData(es)
    ensures i < |es| && es[i].executionId == id
  {
    if es[|es| - 1].executionId == id {
      i := |es| - 1;
    } else {
      i := ExecutionDataSource(es[..|es| - 1], id);
    }
  }

  lemma {:induction false} BookingsKeys(fills: seq<Fill>, rows: seq<LogRow>, id: string)
    requires |fills| == |rows|
    ensures id in Bookings(fills, rows) <==> HasExecution(fills, id)
  {
    if fills != [] {
      var n := |fills| - 1;
      BookingsKeys(fills[..n], rows[..n], id);
      if HasExecution(fills[..n], id) {
        var k :| 0 <= k < n && fills[..n][k].executionId == id;
        assert fills[k].executionId == id;
      }
      if HasExecution(fills, id) && fills[n].executionId != id {
        var k :| 0 <= k < |fills| && fills[k].executionId == id;
        assert fills[..n][k].executionId == id;
      }
      assert fills[n].executionId == id ==> HasExecution(fills, id);
    }
  }

  /** What the activities endpoint returns: everything strictly after the cursor. */
  function Since(es: seq<Execution>, after: Option<int>): seq<Execution> {
    if es == [] then []
    else (if after.None? || es[0].ts > after.value then [es[0]] else []) + Since(es[1..], after)
  }

  predicate Recent(e: Execution, after: Option<int>) { after.None? || e.ts > after.value }

  lemma {:induction false} SinceComplete(es: seq<Execution>, after: Option<int>, e: Execution)
    ensures e in Since(es, after) <==> e in es && Recent(e, after)
  {
    if es != [] {
      SinceComplete(es[1..], after, e);
      assert es == [es[0]] + es[1..];
    }
  }

  /** The execution is not an hour or more older than any of the fills. */
  ghost predicate WithinTheHour(e: Execution, fills: seq<Fill>) {
    forall k :: 0 <= k < |fills| ==> e.ts > fills[k].ts - NANOS_PER_HOUR
  }

  lemma {:induction false} LastFillIsNewest(fills: seq<Fill>)
    ensures LastFill(fills).None? <==> fills == []
    ensures LastFill(fills).Some? ==>
              && (forall k :: 0 <= k < |fills| ==> fills[k].ts <= LastFill(fills).value)
              && (exists k :: 0 <= k < |fills| && fills[k].ts == LastFill(fills).value)
  {
    if fills != [] {
      var n := |fills| - 1;
      LastFillIsNewest(fills[..n]);
      assert forall k :: 0 <= k < n ==> fills[..n][k] == fills[k];
      if n > 0 && LastFill(fills[..n]).value >= fills[n].ts {
        var k :| 0 <= k < n && fills[..n][k].ts == LastFill(fills[..n]).value;
        assert fills[k].ts == LastFill(fills).value;
      } else {
        assert fills[n].ts == LastFill(fills).value;
      }
    }
  }

  /** What the backfill asks for: the executions within the hour of every fill held. */
  lemma CursorOverlapsAnHour(e: Execution, fills: seq<Fill>)
    ensures Recent(e, Cursor(fills)) <==> WithinTheHour(e, fills)
    ensures NANOS_PER_HOUR == 60 * 60 * 1_000_000_000
  {
    LastFillIsNewest(fills);
    if fills != [] {
      var k :| 0 <= k < |fills| && fills[k].ts == LastFill(fills).value;
    }
  }

  ghost predicate Within(data: map<string, Datum>, truth: map<string, Datum>) {
    forall id :: id in data ==> id in truth && data[id] == truth[id]
  }

  lemma IngestData(db: Db, e: Execution, mode: Mode)
    requires DbInv(db, mode)
    ensures var db' := Ingest(db, e, mode).db;
      && DbInv(db', mode) && db'.orders == db.orders
      && Booked(db') == (if e.executionId in Booked(db) || !HasBroker(db.orders, e.brokerOrderId) then Booked(db)
                         else Booked(db)[e.executionId := DatumOf(e)])
  {
    BookingsKeys(db.fills, FillRows(db.txs), e.executionId);
    IngestKeeps(db, e, mode);
    var r := Ingest(db, e, mode);
    if r.isNew {
      var rows, n := FillRows(db.txs), |db.fills|;
      assert r.db.fills[..n] == db.fills && FillRows(r.db.txs)[..n] == rows;
    }
  }

  function Ids(es: seq<Execution>): set<string> {
    if es == [] then {} else {es[0].executionId} + Ids(es[1..])
  }

  lemma {:induction false} IdsMembers(es: seq<Execution>, id: string)
    ensures id in Ids(es) <==> exists i :: 0 <= i < |es| && es[i].executionId == id
  {
    if es != [] {
      IdsMembers(es[1..], id);
      assert forall i :: 1 <= i < |es| ==> es[i] == es[1..][i - 1];
      if i :| 0 <= i < |es| - 1 && es[1..][i].executionId == id {
        assert es[i + 1].executionId == id;
      }
    }
  }

  ghost predicate Genuine(rows: seq<OrderRow>, es: seq<Execution>, truth: map<string, Datum>) {
    forall i :: 0 <= i < |es| ==>
      && HasBroker(rows, es[i].brokerOrderId)
      && es[i].executionId in truth && truth[es[i].executionId] == DatumOf(es[i])
  }

  lemma OneMore(data: map<string, Datum>, data': map<string, Datum>, truth: map<string, Datum>, id: string, d: Datum)
    requires Within(data, truth) && id in truth && truth[id] == d
    requires data' == if id in data then data else data[id := d]
    ensures Within(data', truth) && data'.Keys == data.Keys + {id}
  {
  }

  lemma IngestOneData(db: Db, e: Execution, mode: Mode, truth: map<string, Datum>)
    requires DbInv(db, mode) && Within(Booked(db), truth) && HasBroker(db.orders, e.brokerOrderId)
    requires e.executionId in truth && truth[e.executionId] == DatumOf(e)
    ensures var db' := Ingest(db, e, mode).db;
      && DbInv(db', mode) && db'.orders == db.orders && Within(Booked(db'), truth)
      && Booked(db').Keys == Booked(db).Keys + {e.executionId}
  {
    IngestData(db, e, mode);
    OneMore(Booked(db), Booked(Ingest(db, e, mode).db), truth, e.executionId, DatumOf(e));
  }

  lemma GenuineTail(rows: seq<OrderRow>, es: seq<Execution>, truth: map<string, Datum>)
    requires es != [] && Genuine(rows, es, truth)
    ensures Genuine(rows, es[1..], truth)
  {
    assert forall i :: 0 <= i < |es| - 1 ==> es[1..][i] == es[i + 1];
  }

  lemma IdsCons(have: set<string>, es: seq<Execution>)
    requires es != []
    ensures (have + {es[0].executionId}) + Ids(es[1..]) == have + Ids(es)
  {
  }

  lemma IngestAllHead(db: Db, es: seq<Execution>, mode: Mode)
    requires es != []
    ensures IngestAll(db, es, mode) == IngestAll(Ingest(db, es[0], mode).db, es[1..], mode)
  {
  }

  /** Backfilling genuine executions adds exactly the missing ones. */
  lemma {:induction false} IngestAllData(db: Db, es: seq<Execution>, mode: Mode, truth: map<string, Datum>)
    requires DbInv(db, mode) && Within(Booked(db), truth) && Genuine(db.orders, es, truth)
    ensures DbInv(IngestAll(db, es, mode), mode) && Within(Booked(IngestAll(db, es, mode)), truth)
    ensures Booked(IngestAll(db, es, mode)).Keys == Booked(db).Keys + Ids(es)
    decreases es
  {
    if es != [] {
      IngestOneData(db, es[0], mode, truth);
      GenuineTail(db.orders, es, truth);
      IngestAllData(Ingest(db, es[0], mode).db, es[1..], mode, truth);
      IngestAllHead(db, es, mode);
      IdsCons(Booked(db).Keys, es);
    }
  }

  lemma SinceIds(truth: seq<Execution>, after: Option<int>, i: nat)
    requires DistinctExecutions(truth) && i < |truth|
    ensures truth[i].executionId in Ids(Since(truth, after)) <==> Recent(truth[i], after)
  {
    var es, id := Since(truth, after), truth[i].executionId;
    IdsMembers(es, id);
    SinceComplete(truth, after, truth[i]);
    if Recent(truth[i], after) {
      var j :| 0 <= j < |es| && es[j] == truth[i];
    }
    if j :| 0 <= j < |es| && es[j].executionId == id {
      SinceComplete(truth, after, es[j]);
      var m :| 0 <= m < |truth| && truth[m] == es[j];
      assert m == i;
    }
  }

  lemma SinceGenuine(rows: seq<OrderRow>, truth: seq<Execution>, after: Option<int>)
    requires DistinctExecutions(truth)
    requires forall i :: 0 <= i < |truth| ==> HasBroker(rows, truth[i].brokerOrderId)
    ensures Genuine(rows, Since(truth, after), ExecutionData(truth))
  {
    var es := Since(truth, after);
    forall i | 0 <= i < |es|
      ensures HasBroker(rows, es[i].brokerOrderId)
      ensures es[i].executionId in ExecutionData(truth) && ExecutionData(truth)[es[i].executionId] == DatumOf(es[i])
    {
      SinceComplete(truth, after, es[i]);
      var j :| 0 <= j < |truth| && truth[j] == es[i];
      ExecutionDataAt(truth, j);
    }
  }

  // ---------------------------------------------------------------- the whole pass

  /** The broker is quiet and answers: its list, its lookups and its executions all speak of one book. */
  ghost predicate BrokerAnswers(view: View, book: Book, truth: seq<Execution>) {
    && Injective(book) && DistinctExecutions(truth)
    && view.orders.Some?
    && (forall i :: 0 <= i < |view.orders.value| ==> Truthful(view.orders.value[i], book))
    && LookupTruthful(view.lookup, book)
    && (forall after :: view.executions(after) == Some(Since(truth, after)))
  }

  /**
   * The tables before the pass hold nothing the broker would deny, and every execution belongs to an order that is
   * listed and can be brought in, known locally already, or pending and found when asked for.
   */
  ghost predicate QuietBroker(db: Db, view: View, mode: Mode, book: Book, truth: seq<Execution>) {
    && BrokerAnswers(view, book, truth)
    && DbInv(db, mode) && RowsTruthful(db.orders, book) && Within(Booked(db), ExecutionData(truth))
    && (forall i :: 0 <= i < |truth| ==> Reachable(db, view, book, truth[i]))
  }

  ghost predicate Reachable(db: Db, view: View, book: Book, e: Execution)
    requires view.orders.Some?
  {
    exists c :: c in book && book[c].brokerId == e.brokerOrderId && Obtainable(db, view, c)
  }

  ghost predicate Obtainable(db: Db, view: View, c: ClientId)
    requires view.orders.Some?
  {
    || Brought(db.orders, view.orders.value, c)
    || Known(db.orders, c)
    || Findable(db.orders, view.lookup, c)
  }

  /** The list mentions the order in a way that lets the pass bring it in. */
  ghost predicate Brought(rows: seq<OrderRow>, bos: seq<BrokerOrder>, c: ClientId) {
    exists i :: 0 <= i < |bos| && bos[i].clientId == c && Syncable(rows, bos[i])
  }

  /** No missing execution is an hour or more older than any fill held. */
  ghost predicate GapsAreRecent(db: Db, truth: seq<Execution>) {
    forall i :: 0 <= i < |truth| && !HasExecution(db.fills, truth[i].executionId) ==>
      WithinTheHour(truth[i], db.fills)
  }

  lemma KnownHasBroker(rows: seq<OrderRow>, book: Book, c: ClientId)
    requires RowsTruthful(rows, book) && Known(rows, c) && c in book
    ensures HasBroker(rows, book[c].brokerId)
  {
    var k :| 0 <= k < |rows| && rows[k].clientId == c && rows[k].brokerId.Some?;
    assert RowTruthful(rows[k], book);
  }

  lemma BroughtIsKnown(db: Db, bos: seq<BrokerOrder>, mode: Mode, now: int, book: Book, c: ClientId)
    requires DbInv(db, mode) && Injective(book) && RowsTruthful(db.orders, book)
    requires forall i :: 0 <= i < |bos| ==> Truthful(bos[i], book)
    requires Brought(db.orders, bos, c) || Known(db.orders, c)
    ensures Known(SyncAll(db, bos, mode, now).db.orders, c)
  {
    SyncAllKnown(db, bos, mode, now, book);
    if Brought(db.orders, bos, c) {
      var i :| 0 <= i < |bos| && bos[i].clientId == c && Syncable(db.orders, bos[i]);
      assert Known(SyncAll(db, bos, mode, now).db.orders, bos[i].clientId);
    } else {
      KnownStays(db.orders, SyncAll(db, bos, mode, now).db.orders, c);
    }
  }

  /** A pending order is brought in by the list if the list mentions it at all. */
  lemma ListedPendingIsBrought(db: Db, bos: seq<BrokerOrder>, c: ClientId, k: nat)
    requires OrdersInv(db) && Listed(bos, c)
    requires k < |db.orders| && db.orders[k].clientId == c && db.orders[k].status == PendingSubmit
    ensures Brought(db.orders, bos, c)
  {
    var i :| 0 <= i < |bos| && bos[i].clientId == c;
    assert Pliable(db.orders[k]) && Syncable(db.orders, bos[i]);
  }

  /** Whatever makes an order obtainable, after phases one and two its row carries its broker id. */
  lemma ObtainedIsKnown(db: Db, view: View, mode: Mode, now: int, book: Book, truth: seq<Execution>, c: ClientId)
    requires QuietBroker(db, view, mode, book, truth) && Obtainable(db, view, c)
    ensures var p1 := SyncAll(db, view.orders.value, mode, now);
      Known(ResolveAll(p1.db, PendingIds(p1.db.orders), view.orders.value, view.lookup).db.orders, c)
  {
    var bos := view.orders.value;
    SyncAllKnown(db, bos, mode, now, book);
    var p1 := SyncAll(db, bos, mode, now);
    var cs := PendingIds(p1.db.orders);
    if Findable(db.orders, view.lookup, c) && !Listed(bos, c) {
      var k :| 0 <= k < |db.orders| && db.orders[k].clientId == c && db.orders[k].status == PendingSubmit;
      SyncAllLeaves(db, bos, mode, now, k);
      PendingIdsHas(p1.db.orders, k);
      ResolveFinds(p1.db, cs, bos, view.lookup, mode, book, k);
    } else {
      if Findable(db.orders, view.lookup, c) {
        var k :| 0 <= k < |db.orders| && db.orders[k].clientId == c && db.orders[k].status == PendingSubmit;
        ListedPendingIsBrought(db, bos, c, k);
      }
      BroughtIsKnown(db, bos, mode, now, book, c);
      ResolveAllKeeps(p1.db, cs, bos, view.lookup, mode, book);
      KnownAfterResolve(p1.db.orders, ResolveAll(p1.db, cs, bos, view.lookup).db.orders, c);
    }
  }

  /** After phases one and two every execution can be ingested, and the ledger is still as it was. */
  lemma OrdersResolved(db: Db, view: View, mode: Mode, now: int, book: Book, truth: seq<Execution>)
    requires QuietBroker(db, view, mode, book, truth)
    ensures var bos := view.orders.value;
      var p1 := SyncAll(db, bos, mode, now);
      var p2 := ResolveAll(p1.db, PendingIds(p1.db.orders), bos, view.lookup);
      && p1.ok && p2.ok && DbInv(p2.db, mode) && p2.db == db.(orders := p2.db.orders)
      && (forall i :: 0 <= i < |truth| ==> HasBroker(p2.db.orders, truth[i].brokerOrderId))
  {
    var bos := view.orders.value;
    SyncAllKnown(db, bos, mode, now, book);
    var p1 := SyncAll(db, bos, mode, now);
    ResolveAllKeeps(p1.db, PendingIds(p1.db.orders), bos, view.lookup, mode, book);
    var p2 := ResolveAll(p1.db, PendingIds(p1.db.orders), bos, view.lookup);
    forall i | 0 <= i < |truth|
      ensures HasBroker(p2.db.orders, truth[i].brokerOrderId)
    {
      assert Reachable(db, view, book, truth[i]);
      var c :| c in book && book[c].brokerId == truth[i].brokerOrderId && Obtainable(db, view, c);
      ObtainedIsKnown(db, view, mode, now, book, truth, c);
      KnownHasBroker(p2.db.orders, book, c);
    }
  }

  /** What is booked after the pass: what was before it, and every execution within the hour of every fill held. */
  lemma PassAdds(db: Db, view: View, mode: Mode, now: int, book: Book, truth: seq<Execution>)
    requires QuietBroker(db, view, mode, book, truth)
    ensures var p := ReconcileDb(db, view, mode, now);
      && p.ok && DbInv(p.db, mode) && Within(Booked(p.db), ExecutionData(truth))
      && (forall i :: 0 <= i < |truth| ==>
            (truth[i].executionId in Booked(p.db) <==>
             HasExecution(db.fills, truth[i].executionId) || WithinTheHour(truth[i], db.fills)))
  {
    OrdersResolved(db, view, mode, now, book, truth);
    var bos := view.orders.value;
    var p1 := SyncAll(db, bos, mode, now);
    var p2 := ResolveAll(p1.db, PendingIds(p1.db.orders), bos, view.lookup);
    var cursor := Cursor(db.fills);
    var es := Since(truth, cursor);
    SinceGenuine(p2.db.orders, truth, cursor);
    assert Booked(p2.db) == Booked(db);
    IngestAllData(p2.db, es, mode, ExecutionData(truth));
    forall i | 0 <= i < |truth|
      ensures truth[i].executionId in Ids(es) <==> WithinTheHour(truth[i], db.fills)
      ensures truth[i].executionId in Booked(db) <==> HasExecution(db.fills, truth[i].executionId)
    {
      SinceIds(truth, cursor, i);
      CursorOverlapsAnHour(truth[i], db.fills);
      BookingsKeys(db.fills, FillRows(db.txs), truth[i].executionId);
    }
  }

  /**
   * The pass converges exactly when no missing fill is an hour or more older than the newest ingested one: then, and
   * only then, the broker-fill transactions are the broker's executions, with side, symbol, quantity, price and time,
   * whatever duplicates, gaps or reorderings came before. The tables' invariant ties the fills to them either way.
   */
  lemma ReconcileConverges(db: Db, view: View, mode: Mode, now: int, book: Book, truth: seq<Execution>)
    requires QuietBroker(db, view, mode, book, truth)
    ensures ReconcileDb(db, view, mode, now).ok && DbInv(ReconcileDb(db, view, mode, now).db, mode)
    ensures Booked(ReconcileDb(db, view, mode, now).db) == ExecutionData(truth) <==> GapsAreRecent(db, truth)
  {
    PassAdds(db, view, mode, now, book, truth);
    var after, all := Booked(ReconcileDb(db, view, mode, now).db), ExecutionData(truth);
    if GapsAreRecent(db, truth) {
      forall id | id in all
        ensures id in after
      {
        var i := ExecutionDataSource(truth, id);
      }
      assert after == all;
    }
    if after == all {
      forall i | 0 <= i < |truth| && !HasExecution(db.fills, truth[i].executionId)
        ensures WithinTheHour(truth[i], db.fills)
      {
        ExecutionDataAt(truth, i);
      }
    }
  }

  // ---------------------------------------------------------------- what converged tables look like

  /** Some fill and its mirrored row book this execution, column by column. */
  ghost predicate BooksIt(db: Db, e: Execution, mode: Mode)
    requires Paired(db)
  {
    exists k :: 0 <= k < |db.fills| && Books(db.fills[k], FillRows(db.txs)[k], e, mode)
  }

  lemma {:induction false} BookingsAt(fills: seq<Fill>, rows: seq<LogRow>, k: nat)
    requires |fills| == |rows| && k < |fills|
    requires forall i, j :: 0 <= i < j < |fills| ==> fills[i].executionId != fills[j].executionId
    ensures fills[k].executionId in Bookings(fills, rows)
    ensures Bookings(fills, rows)[fills[k].executionId] == Booking(rows[k])
  {
    var n := |fills| - 1;
    if k < n {
      BookingsAt(fills[..n], rows[..n], k);
    }
  }

  lemma {:induction false} BookedIsBooks(db: Db, mode: Mode, truth: seq<Execution>, k: nat, i: nat)
    requires DbInv(db, mode) && DistinctExecutions(truth) && Booked(db) == ExecutionData(truth)
    requires k < |db.fills| && i < |truth| && db.fills[k].executionId == truth[i].executionId
    ensures Books(db.fills[k], FillRows(db.txs)[k], truth[i], mode)
  {
    BookingsAt(db.fills, FillRows(db.txs), k);
    ExecutionDataAt(truth, i);
    assert Mirrors(db.fills[k], FillRows(db.txs)[k], mode);
  }

  /** Converged tables, row by row: every execution is booked, and every fill and broker-fill row books one of them. */
  lemma {:induction false} ConvergedRows(db: Db, mode: Mode, truth: seq<Execution>)
    requires DbInv(db, mode) && DistinctExecutions(truth) && Booked(db) == ExecutionData(truth)
    ensures forall i :: 0 <= i < |truth| ==> BooksIt(db, truth[i], mode)
    ensures forall k :: 0 <= k < |db.fills| ==>
              exists i :: 0 <= i < |truth| && Books(db.fills[k], FillRows(db.txs)[k], truth[i], mode)
  {
    var rows := FillRows(db.txs);
    forall i | 0 <= i < |truth| ensures BooksIt(db, truth[i], mode) {
      ExecutionDataAt(truth, i);
      BookingsKeys(db.fills, rows, truth[i].executionId);
      var k :| 0 <= k < |db.fills| && db.fills[k].executionId == truth[i].executionId;
      BookedIsBooks(db, mode, truth, k, i);
    }
    forall k | 0 <= k < |db.fills|
      ensures exists i :: 0 <= i < |truth| && Books(db.fills[k], rows[k], truth[i], mode)
    {
      BookingsAt(db.fills, rows, k);
      var i := ExecutionDataSource(truth, db.fills[k].executionId);
      BookedIsBooks(db, mode, truth, k, i);
    }
  }
}
