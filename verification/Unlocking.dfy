/**
 * What the end of a reconciliation pass tells: when the pass completes and unlocks trading, which failed calls that
 * leaves open, and what a mass status that was obtained has done.
 */
module Unlocking {
  import opened Log
  import opened OrderTables
  import opened OrderManager
  import opened Convergence

  // ---------------------------------------------------------------- what the mass status did

  /** The list has one entry for each order. */
  ghost predicate OneEntryEach(bos: seq<BrokerOrder>) {
    forall x, y :: 0 <= x < y < |bos| ==> bos[x].clientId != bos[y].clientId
  }

  lemma SyncOneLeaves(db: Db, bo: BrokerOrder, mode: Mode, now: int, k: nat)
    requires k < |db.orders| && db.orders[k].clientId != bo.clientId
    ensures var rows := SyncOne(db, bo, mode, now).db.orders;
      k < |rows| && rows[k] == db.orders[k]
  {
  }

  /** Phase one applies our listed order to its row once. */
  lemma {:induction false} SyncAllApplies(db: Db, bos: seq<BrokerOrder>, mode: Mode, now: int, i: nat, k: nat)
    requires OneEntryEach(bos)
    requires i < |bos| && k < |db.orders| && db.orders[k].clientId == bos[i].clientId && bos[i].clientId.Rekt?
    requires SyncAll(db, bos, mode, now).ok
    ensures var rows := SyncAll(db, bos, mode, now).db.orders;
      k < |rows| && rows[k] == ApplyRow(db.orders[k], bos[i])
    decreases bos
  {
    var p := SyncOne(db, bos[0], mode, now);
    assert forall j :: 0 <= j < |bos| - 1 ==> bos[1..][j] == bos[j + 1];
    if i == 0 {
      OneStops(db, bos[0], mode, now);
      assert p.db.orders[k] == ApplyRow(db.orders[k], bos[0]);
      SyncAllLeaves(p.db, bos[1..], mode, now, k);
    } else {
      SyncOneLeaves(db, bos[0], mode, now, k);
      SyncAllApplies(p.db, bos[1..], mode, now, i - 1, k);
    }
  }

  /** A lookup answers about the order it was asked for. */
  ghost predicate AnswersWhatItIsAsked(lookup: ClientId -> Lookup) {
    forall c :: lookup(c).Found? ==> lookup(c).bo.clientId == c
  }

  lemma {:induction false} ResolveAllLeaves(db: Db, cs: seq<ClientId>, bos: seq<BrokerOrder>,
                                            lookup: ClientId -> Lookup, k: nat)
    requires AnswersWhatItIsAsked(lookup) && k < |db.orders| && Listed(bos, db.orders[k].clientId)
    ensures var rows := ResolveAll(db, cs, bos, lookup).db.orders;
      k < |rows| && rows[k] == db.orders[k]
    decreases cs
  {
    if cs != [] {
      if Listed(bos, cs[0]) {
        ResolveAllLeaves(db, cs[1..], bos, lookup, k);
      } else {
        ResolveOneLeaves(db, lookup(cs[0]), cs[0], k);
        ResolveAllLeaves(ResolveOne(db, lookup(cs[0]), cs[0]).db, cs[1..], bos, lookup, k);
      }
    }
  }

  lemma {:induction false} IngestAllKeepsOrders(db: Db, es: seq<Execution>, mode: Mode)
    ensures IngestAll(db, es, mode).orders == db.orders
    decreases es
  {
    if es != [] {
      IngestAllKeepsOrders(Ingest(db, es[0], mode).db, es[1..], mode);
    }
  }

  /**
   * After a completed pass every row of ours that the list mentions says what the list says, unless it was terminal or
   * a partial fill that the list would undo.
   */
  lemma ListedRowsAreSynced(db: Db, view: View, mode: Mode, now: int, i: nat, k: nat)
    requires view.orders.Some? && AnswersWhatItIsAsked(view.lookup) && ReconcileDb(db, view, mode, now).ok
    requires var bos := view.orders.value;
      && OneEntryEach(bos)
      && i < |bos| && k < |db.orders| && db.orders[k].clientId == bos[i].clientId && bos[i].clientId.Rekt?
    ensures var rows, row, bo := ReconcileDb(db, view, mode, now).db.orders, db.orders[k], view.orders.value[i];
      k < |rows|
      && (if Terminal(row.status) || (row.status == PartiallyFilled && Unfilled(bo.status)) then rows[k] == row
          else rows[k] == row.(brokerId := Some(bo.brokerOrderId), status := bo.status, filledQty := bo.filledQty,
                               avgFillPrice := bo.avgFillPrice))
  {
    var bos := view.orders.value;
    var p1 := SyncAll(db, bos, mode, now);
    SyncAllApplies(db, bos, mode, now, i, k);
    assert p1.db.orders[k].clientId == bos[i].clientId;
    ResolveAllLeaves(p1.db, PendingIds(p1.db.orders), bos, view.lookup, k);
    var p2 := ResolveAll(p1.db, PendingIds(p1.db.orders), bos, view.lookup);
    var answer := view.executions(Cursor(p2.db.fills));
    if answer.Some? {
      IngestAllKeepsOrders(p2.db, answer.value, mode);
    }
  }

  // ---------------------------------------------------------------- whichever calls fail

  /** What the broker does answer is true: any of its three calls may fail. */
  ghost predicate AnswersTruthfully(view: View, book: Book) {
    && Injective(book) && LookupTruthful(view.lookup, book)
    && (view.orders.Some? ==>
          forall i :: 0 <= i < |view.orders.value| ==> Truthful(view.orders.value[i], book))
  }

  /**
   * Whichever of the broker's calls fail, the pass completes; so that trading is unlocked says nothing of whether the
   * mass status was obtained.
   */
  lemma PassCompletes(db: Db, view: View, mode: Mode, now: int, book: Book)
    requires DbInv(db, mode) && RowsTruthful(db.orders, book) && AnswersTruthfully(view, book)
    ensures ReconcileDb(db, view, mode, now).ok
  {
    var bos := if view.orders.Some? then view.orders.value else [];
    SyncAllKnown(db, bos, mode, now, book);
    var p1 := SyncAll(db, bos, mode, now);
    ResolveAllKeeps(p1.db, PendingIds(p1.db.orders), bos, view.lookup, mode, book);
  }

  // ---------------------------------------------------------------- phase one, read off the rows and the list

  predicate Syncs(bo: BrokerOrder, row: OrderRow) { bo.clientId.Rekt? && MayApply(row, bo) }

  /** The row carries this broker id when the first i listed orders are through. */
  ghost predicate CarriesAt(row: OrderRow, bos: seq<BrokerOrder>, i: nat, b: string)
    requires i <= |bos|
  {
    || (exists j :: 0 <= j < i && Syncs(bos[j], row) && bos[j].brokerOrderId == b)
    || (row.brokerId == Some(b) && forall j :: 0 <= j < i ==> !Syncs(bos[j], row))
  }

  /** A described foreign order, unknown before, is listed with this broker id while no row carries it. */
  ghost predicate Foreign(rows: seq<OrderRow>, bos: seq<BrokerOrder>, j: nat, b: string)
    requires j < |bos|
  {
    && bos[j].clientId.External? && bos[j].about.Some? && bos[j].brokerOrderId == b
    && !HasClient(rows, bos[j].clientId)
    && forall q :: 0 <= q < |rows| ==> !CarriesAt(rows[q], bos, j, b)
  }

  ghost predicate AdoptedBefore(rows: seq<OrderRow>, bos: seq<BrokerOrder>, i: nat, b: string)
    requires i <= |bos|
  {
    exists j :: 0 <= j < i && Foreign(rows, bos, j, b)
  }

  /** Our listed order number i updates a row while another order carries its broker id. */
  ghost predicate ListClash(rows: seq<OrderRow>, bos: seq<BrokerOrder>, i: nat)
    requires i < |bos|
  {
    var bo := bos[i];
    && (exists p :: 0 <= p < |rows| && Syncs(bo, rows[p]))
    && (AdoptedBefore(rows, bos, i, bo.brokerOrderId)
        || exists q :: 0 <= q < |rows| && rows[q].clientId != bo.clientId
                       && CarriesAt(rows[q], bos, i, bo.brokerOrderId))
  }

  /** A foreign order never stops the pass: it is only synced when no row had either of its ids. */
  lemma OneStops(db: Db, bo: BrokerOrder, mode: Mode, now: int)
    ensures SyncOne(db, bo, mode, now).ok <==> !(bo.clientId.Rekt? && BrokerIdTaken(db.orders, bo))
  {
    var m := Materialize(db, bo, mode, now);
    if bo.clientId.External? && m.isNew {
      var n := |db.orders|;
      forall k | 0 <= k <= n
        ensures m.db.orders[k].brokerId == Some(bo.brokerOrderId) ==> m.db.orders[k].clientId == bo.clientId
      {
        assert k < n ==> m.db.orders[k] == db.orders[k];
      }
      assert !BrokerIdTaken(m.db.orders, bo);
    }
  }

  lemma {:induction false} SyncSnoc(db: Db, bos: seq<BrokerOrder>, bo: BrokerOrder, mode: Mode, now: int)
    ensures var p := SyncAll(db, bos, mode, now);
      SyncAll(db, bos + [bo], mode, now) == if p.ok then SyncOne(p.db, bo, mode, now) else p
    decreases bos
  {
    if bos == [] {
      assert [bo][1..] == [];
    } else {
      assert (bos + [bo])[1..] == bos[1..] + [bo];
      SyncSnoc(SyncOne(db, bos[0], mode, now).db, bos[1..], bo, mode, now);
    }
  }

  /** A foreign order becomes a row exactly when neither of its ids is taken. */
  predicate Adopts(rows: seq<OrderRow>, bo: BrokerOrder) {
    bo.clientId.External? && bo.about.Some? && !HasClient(rows, bo.clientId) && !HasBroker(rows, bo.brokerOrderId)
  }

  lemma OneSynced(db: Db, bo: BrokerOrder, mode: Mode, now: int)
    requires SyncOne(db, bo, mode, now).ok
    ensures var rows, rows' := db.orders, SyncOne(db, bo, mode, now).db.orders;
      && |rows'| == |rows| + (if Adopts(rows, bo) then 1 else 0)
      && (forall k :: 0 <= k < |rows| ==> rows'[k] == if bo.clientId.Rekt? then ApplyRow(rows[k], bo) else rows[k])
      && (Adopts(rows, bo) ==>
            rows'[|rows|].clientId == bo.clientId && rows'[|rows|].brokerId == Some(bo.brokerOrderId))
  {
    var rows, m := db.orders, Materialize(db, bo, mode, now);
    if bo.clientId.External? && m.isNew {
      OneStops(db, bo, mode, now);
      assert forall k :: 0 <= k < |rows| ==> rows[k].clientId != bo.clientId;
    }
  }

  /** The rows once the first i listed orders are through, as read off the rows before them. */
  ghost predicate SyncedTo(rows: seq<OrderRow>, bos: seq<BrokerOrder>, i: nat, rows': seq<OrderRow>)
    requires i <= |bos|
  {
    && |rows| <= |rows'|
    && (forall k :: 0 <= k < |rows| ==> rows'[k].clientId == rows[k].clientId)
    && (forall k, b :: 0 <= k < |rows| ==> (rows'[k].brokerId == Some(b) <==> CarriesAt(rows[k], bos, i, b)))
    && (forall k :: 0 <= k < |rows| && !Listed(bos[..i], rows[k].clientId) ==> rows'[k] == rows[k])
    && (forall k :: |rows| <= k < |rows'| ==> rows'[k].clientId.External? && Listed(bos[..i], rows'[k].clientId))
    && (forall b :: HasBroker(rows'[|rows|..], b) <==> AdoptedBefore(rows, bos, i, b))
  }

  lemma CarriesNext(row: OrderRow, bos: seq<BrokerOrder>, i: nat, b: string)
    requires OneEntryEach(bos) && i < |bos|
    ensures CarriesAt(row, bos, i + 1, b) <==>
            if Syncs(bos[i], row) then bos[i].brokerOrderId == b else CarriesAt(row, bos, i, b)
  {
  }

  lemma ListedNext(bos: seq<BrokerOrder>, i: nat, c: ClientId)
    requires i < |bos|
    ensures Listed(bos[..i + 1], c) <==> Listed(bos[..i], c) || bos[i].clientId == c
    ensures OneEntryEach(bos) ==> !Listed(bos[..i], bos[i].clientId)
  {
    assert forall j :: 0 <= j < i ==> bos[..i + 1][j] == bos[..i][j] == bos[j];
    assert bos[..i + 1][i] == bos[i];
  }

  lemma HasBrokerSplit(rows: seq<OrderRow>, n: nat, b: string)
    requires n <= |rows|
    ensures HasBroker(rows, b) <==> HasBroker(rows[n..], b) || exists k :: 0 <= k < n && rows[k].brokerId == Some(b)
  {
    assert forall k :: n <= k < |rows| ==> rows[k] == rows[n..][k - n];
  }

  lemma AdoptsExactly(rows: seq<OrderRow>, bos: seq<BrokerOrder>, i: nat, rows': seq<OrderRow>)
    requires OneEntryEach(bos) && i < |bos| && SyncedTo(rows, bos, i, rows')
    ensures var b := bos[i].brokerOrderId;
      Adopts(rows', bos[i]) <==> Foreign(rows, bos, i, b) && !AdoptedBefore(rows, bos, i, b)
  {
    var b, c := bos[i].brokerOrderId, bos[i].clientId;
    ListedNext(bos, i, c);
    HasBrokerSplit(rows', |rows|, b);
    assert HasClient(rows', c) <==> HasClient(rows, c) by {
      forall k | 0 <= k < |rows'| && rows'[k].clientId == c ensures k < |rows| {
        assert !Listed(bos[..i], c);
      }
      assert forall k :: 0 <= k < |rows| ==> rows'[k].clientId == rows[k].clientId;
    }
  }

  lemma ClashExactly(rows: seq<OrderRow>, bos: seq<BrokerOrder>, i: nat, rows': seq<OrderRow>)
    requires OneEntryEach(bos) && i < |bos| && SyncedTo(rows, bos, i, rows') && bos[i].clientId.Rekt?
    ensures BrokerIdTaken(rows', bos[i]) <==> ListClash(rows, bos, i)
  {
    var bo := bos[i];
    ListedNext(bos, i, bo.clientId);
    HasBrokerSplit(rows', |rows|, bo.brokerOrderId);
    if p :| 0 <= p < |rows| && Syncs(bo, rows[p]) {
      assert MayApply(rows'[p], bo);
    }
    if k :| 0 <= k < |rows'| && MayApply(rows'[k], bo) {
      assert k < |rows| && Syncs(bo, rows[k]);
    }
    if k :| 0 <= k < |rows'[|rows|..]| && rows'[|rows|..][k].brokerId == Some(bo.brokerOrderId) {
      assert rows'[|rows| + k].clientId != bo.clientId;
    }
    assert forall q :: 0 <= q < |rows| ==>
        (rows'[q].brokerId == Some(bo.brokerOrderId) <==> CarriesAt(rows[q], bos, i, bo.brokerOrderId));
  }

  /** What one more listed order makes of the rows. */
  ghost predicate OneMoreSynced(rows': seq<OrderRow>, bo: BrokerOrder, rows'': seq<OrderRow>) {
    && |rows''| == |rows'| + (if Adopts(rows', bo) then 1 else 0)
    && (forall k :: 0 <= k < |rows'| ==> rows''[k] == if bo.clientId.Rekt? then ApplyRow(rows'[k], bo) else rows'[k])
    && (Adopts(rows', bo) ==>
          rows''[|rows'|].clientId == bo.clientId && rows''[|rows'|].brokerId == Some(bo.brokerOrderId))
  }

  lemma KnownRowNext(rows: seq<OrderRow>, bos: seq<BrokerOrder>, i: nat, rows': seq<OrderRow>,
                     rows'': seq<OrderRow>, k: nat)
    requires OneEntryEach(bos) && i < |bos| && SyncedTo(rows, bos, i, rows') && OneMoreSynced(rows', bos[i], rows'')
    requires k < |rows|
    ensures rows''[k].clientId == rows[k].clientId
    ensures !Listed(bos[..i + 1], rows[k].clientId) ==> rows''[k] == rows[k]
    ensures forall b :: rows''[k].brokerId == Some(b) <==> CarriesAt(rows[k], bos, i + 1, b)
  {
    ListedNext(bos, i, rows[k].clientId);
    forall b ensures rows''[k].brokerId == Some(b) <==> CarriesAt(rows[k], bos, i + 1, b) {
      CarriesNext(rows[k], bos, i, b);
      assert rows'[k].brokerId == Some(b) <==> CarriesAt(rows[k], bos, i, b);
    }
  }

  lemma NewRowNext(rows: seq<OrderRow>, bos: seq<BrokerOrder>, i: nat, rows': seq<OrderRow>, rows'': seq<OrderRow>,
                   k: nat)
    requires OneEntryEach(bos) && i < |bos| && SyncedTo(rows, bos, i, rows') && OneMoreSynced(rows', bos[i], rows'')
    requires |rows| <= k < |rows''|
    ensures rows''[k].clientId.External? && Listed(bos[..i + 1], rows''[k].clientId)
    ensures k < |rows'| ==> rows''[k].brokerId == rows'[k].brokerId
  {
    ListedNext(bos, i, rows''[k].clientId);
  }

  lemma NewIdsNext(rows: seq<OrderRow>, bos: seq<BrokerOrder>, i: nat, rows': seq<OrderRow>, rows'': seq<OrderRow>,
                   b: string)
    requires OneEntryEach(bos) && i < |bos| && SyncedTo(rows, bos, i, rows') && OneMoreSynced(rows', bos[i], rows'')
    requires forall k :: |rows| <= k < |rows'| ==> rows''[k].brokerId == rows'[k].brokerId
    ensures HasBroker(rows''[|rows|..], b) <==> AdoptedBefore(rows, bos, i + 1, b)
  {
    var n := |rows|;
    AdoptsExactly(rows, bos, i, rows');
    assert HasBroker(rows''[n..], b) <==>
           HasBroker(rows'[n..], b) || (Adopts(rows', bos[i]) && bos[i].brokerOrderId == b) by {
      NewIdsAppear(rows', rows'', n, b, Adopts(rows', bos[i]), bos[i].brokerOrderId);
    }
  }

  lemma NewIdsAppear(rows': seq<OrderRow>, rows'': seq<OrderRow>, n: nat, b: string, more: bool, last: string)
    requires n <= |rows'| && |rows''| == |rows'| + (if more then 1 else 0)
    requires forall k :: n <= k < |rows'| ==> rows''[k].brokerId == rows'[k].brokerId
    requires more ==> rows''[|rows'|].brokerId == Some(last)
    ensures HasBroker(rows''[n..], b) <==> HasBroker(rows'[n..], b) || (more && last == b)
  {
    assert forall k :: n <= k < |rows'| ==> rows'[n..][k - n] == rows'[k] && rows''[n..][k - n] == rows''[k];
    assert more ==> rows''[n..][|rows'| - n] == rows''[|rows'|];
    if k :| 0 <= k < |rows'[n..]| && rows'[n..][k].brokerId == Some(b) {
      assert rows''[n..][k].brokerId == Some(b);
    }
  }

  lemma SyncedNext(rows: seq<OrderRow>, bos: seq<BrokerOrder>, i: nat, rows': seq<OrderRow>, rows'': seq<OrderRow>)
    requires OneEntryEach(bos) && i < |bos| && SyncedTo(rows, bos, i, rows') && OneMoreSynced(rows', bos[i], rows'')
    ensures SyncedTo(rows, bos, i + 1, rows'')
  {
    forall k | 0 <= k < |rows|
      ensures rows''[k].clientId == rows[k].clientId
      ensures !Listed(bos[..i + 1], rows[k].clientId) ==> rows''[k] == rows[k]
      ensures forall b :: rows''[k].brokerId == Some(b) <==> CarriesAt(rows[k], bos, i + 1, b)
    {
      KnownRowNext(rows, bos, i, rows', rows'', k);
    }
    forall k | |rows| <= k < |rows''|
      ensures rows''[k].clientId.External? && Listed(bos[..i + 1], rows''[k].clientId)
      ensures k < |rows'| ==> rows''[k].brokerId == rows'[k].brokerId
    {
      NewRowNext(rows, bos, i, rows', rows'', k);
    }
    forall b ensures HasBroker(rows''[|rows|..], b) <==> AdoptedBefore(rows, bos, i + 1, b) {
      NewIdsNext(rows, bos, i, rows', rows'', b);
    }
  }

  lemma SyncedAtStart(rows: seq<OrderRow>, bos: seq<BrokerOrder>)
    ensures SyncedTo(rows, bos, 0, rows)
  {
  }

  /** Phase one over the first i listed orders. */
  function SyncFirst(db: Db, bos: seq<BrokerOrder>, mode: Mode, now: int, i: nat): Phase
    requires i <= |bos|
  {
    if i == 0 then Phase(db, true)
    else
      var p := SyncFirst(db, bos, mode, now, i - 1);
      if p.ok then SyncOne(p.db, bos[i - 1], mode, now) else p
  }

  lemma {:induction false} SyncFirstIsSyncAll(db: Db, bos: seq<BrokerOrder>, mode: Mode, now: int, i: nat)
    requires i <= |bos|
    ensures SyncFirst(db, bos, mode, now, i) == SyncAll(db, bos[..i], mode, now)
  {
    if i > 0 {
      SyncFirstIsSyncAll(db, bos, mode, now, i - 1);
      assert bos[..i] == bos[..i - 1] + [bos[i - 1]];
      SyncSnoc(db, bos[..i - 1], bos[i - 1], mode, now);
    }
  }

  lemma SyncOneKeeps(db: Db, rows: seq<OrderRow>, bos: seq<BrokerOrder>, mode: Mode, now: int, i: nat)
    requires OneEntryEach(bos) && i < |bos| && SyncedTo(rows, bos, i, db.orders)
    requires SyncOne(db, bos[i], mode, now).ok
    ensures SyncedTo(rows, bos, i + 1, SyncOne(db, bos[i], mode, now).db.orders)
  {
    OneSynced(db, bos[i], mode, now);
    SyncedNext(rows, bos, i, db.orders, SyncOne(db, bos[i], mode, now).db.orders);
  }

  lemma SyncOneStops(db: Db, rows: seq<OrderRow>, bos: seq<BrokerOrder>, mode: Mode, now: int, i: nat)
    requires OneEntryEach(bos) && i < |bos| && SyncedTo(rows, bos, i, db.orders)
    ensures SyncOne(db, bos[i], mode, now).ok <==> !ListClash(rows, bos, i)
  {
    OneStops(db, bos[i], mode, now);
    if bos[i].clientId.Rekt? {
      ClashExactly(rows, bos, i, db.orders);
    }
  }

  /** When the first i listed orders are through, the rows are as read off the ones before. */
  lemma {:induction false} SyncReaches(db: Db, bos: seq<BrokerOrder>, mode: Mode, now: int, i: nat)
    requires OneEntryEach(bos) && i <= |bos| && SyncFirst(db, bos, mode, now, i).ok
    ensures SyncedTo(db.orders, bos, i, SyncFirst(db, bos, mode, now, i).db.orders)
  {
    if i == 0 {
      SyncedAtStart(db.orders, bos);
    } else {
      SyncReaches(db, bos, mode, now, i - 1);
      SyncOneKeeps(SyncFirst(db, bos, mode, now, i - 1).db, db.orders, bos, mode, now, i - 1);
    }
  }

  lemma SyncStopsAt(db: Db, bos: seq<BrokerOrder>, mode: Mode, now: int, i: nat)
    requires OneEntryEach(bos) && i < |bos|
    ensures SyncFirst(db, bos, mode, now, i + 1).ok <==>
            SyncFirst(db, bos, mode, now, i).ok && !ListClash(db.orders, bos, i)
  {
    if SyncFirst(db, bos, mode, now, i).ok {
      SyncReaches(db, bos, mode, now, i);
      SyncOneStops(SyncFirst(db, bos, mode, now, i).db, db.orders, bos, mode, now, i);
    }
  }

  lemma {:induction false} ListClashStops(db: Db, bos: seq<BrokerOrder>, mode: Mode, now: int, i: nat, n: nat)
    requires OneEntryEach(bos) && i < n <= |bos| && ListClash(db.orders, bos, i)
    ensures !SyncFirst(db, bos, mode, now, n).ok
  {
    if i == n - 1 {
      SyncStopsAt(db, bos, mode, now, i);
    } else {
      ListClashStops(db, bos, mode, now, i, n - 1);
    }
  }

  lemma {:induction false} StopShowsListClash(db: Db, bos: seq<BrokerOrder>, mode: Mode, now: int, n: nat)
    returns (i: nat)
    requires OneEntryEach(bos) && n <= |bos| && !SyncFirst(db, bos, mode, now, n).ok
    ensures i < n && ListClash(db.orders, bos, i)
  {
    if SyncFirst(db, bos, mode, now, n - 1).ok {
      i := n - 1;
      SyncStopsAt(db, bos, mode, now, i);
    } else {
      i := StopShowsListClash(db, bos, mode, now, n - 1);
    }
  }

  /** Phase one runs through exactly when no listed order clashes. */
  lemma SyncsExactlyWhen(db: Db, bos: seq<BrokerOrder>, mode: Mode, now: int)
    requires OneEntryEach(bos)
    ensures SyncAll(db, bos, mode, now).ok <==> forall i :: 0 <= i < |bos| ==> !ListClash(db.orders, bos, i)
  {
    assert bos[..|bos|] == bos;
    SyncFirstIsSyncAll(db, bos, mode, now, |bos|);
    if SyncFirst(db, bos, mode, now, |bos|).ok {
      forall i | 0 <= i < |bos| ensures !ListClash(db.orders, bos, i) {
        if ListClash(db.orders, bos, i) {
          ListClashStops(db, bos, mode, now, i, |bos|);
        }
      }
    } else {
      var i := StopShowsListClash(db, bos, mode, now, |bos|);
    }
  }

  lemma SyncOneKeepsClients(db: Db, bo: BrokerOrder, mode: Mode, now: int)
    requires ClientsUnique(db.orders) && SyncOne(db, bo, mode, now).ok
    ensures ClientsUnique(SyncOne(db, bo, mode, now).db.orders)
  {
    OneSynced(db, bo, mode, now);
    MoreClientsUnique(db.orders, SyncOne(db, bo, mode, now).db.orders, Adopts(db.orders, bo), bo.clientId);
  }

  lemma MoreClientsUnique(rows: seq<OrderRow>, rows': seq<OrderRow>, more: bool, c: ClientId)
    requires ClientsUnique(rows) && |rows'| == |rows| + (if more then 1 else 0)
    requires forall k :: 0 <= k < |rows| ==> rows'[k].clientId == rows[k].clientId
    requires more ==> !HasClient(rows, c) && rows'[|rows|].clientId == c
    ensures ClientsUnique(rows')
  {
  }

  lemma {:induction false} SyncKeepsClients(db: Db, bos: seq<BrokerOrder>, mode: Mode, now: int)
    requires ClientsUnique(db.orders) && SyncAll(db, bos, mode, now).ok
    ensures ClientsUnique(SyncAll(db, bos, mode, now).db.orders)
    decreases bos
  {
    if bos != [] {
      SyncOneKeepsClients(db, bos[0], mode, now);
      SyncKeepsClients(SyncOne(db, bos[0], mode, now).db, bos[1..], mode, now);
    }
  }

  // ---------------------------------------------------------------- phase two, read off the rows and the answers

  /** The row is pending, the list omits it, and the lookup finds it. */
  predicate Live(row: OrderRow, bos: seq<BrokerOrder>, lookup: ClientId -> Lookup) {
    row.status == PendingSubmit && !Listed(bos, row.clientId) && lookup(row.clientId).Found?
  }

  function AnsweredId(row: OrderRow, lookup: ClientId -> Lookup): string
    requires lookup(row.clientId).Found?
  {
    lookup(row.clientId).bo.brokerOrderId
  }

  /** The broker id of row q when the lookups of the first n rows are through. */
  function IdWhenAsked(rows: seq<OrderRow>, bos: seq<BrokerOrder>, lookup: ClientId -> Lookup, q: nat, n: nat)
    : Option<string>
    requires q < |rows|
  {
    if q < n && Live(rows[q], bos, lookup) then Some(AnsweredId(rows[q], lookup)) else rows[q].brokerId
  }

  /** Row p is live and another row carries its answered id: its own answered id if it was asked for first. */
  ghost predicate LookupClash(rows: seq<OrderRow>, bos: seq<BrokerOrder>, lookup: ClientId -> Lookup, p: nat)
    requires p < |rows|
  {
    && Live(rows[p], bos, lookup)
    && exists q :: 0 <= q < |rows| && q != p
                   && IdWhenAsked(rows, bos, lookup, q, p) == Some(AnsweredId(rows[p], lookup))
  }

  ghost predicate ResolvedTo(rows: seq<OrderRow>, bos: seq<BrokerOrder>, lookup: ClientId -> Lookup, n: nat,
                             rows': seq<OrderRow>) {
    && |rows'| == |rows|
    && (forall k :: 0 <= k < |rows| ==>
          rows'[k].clientId == rows[k].clientId && rows'[k].brokerId == IdWhenAsked(rows, bos, lookup, k, n))
    && (forall k :: n <= k < |rows| ==> rows'[k] == rows[k])
  }

  function ResolveStep(db: Db, c: ClientId, bos: seq<BrokerOrder>, lookup: ClientId -> Lookup): Phase {
    if Listed(bos, c) then Phase(db, true) else ResolveOne(db, lookup(c), c)
  }

  lemma {:induction false} ResolveSnoc(db: Db, cs: seq<ClientId>, c: ClientId, bos: seq<BrokerOrder>,
                                       lookup: ClientId -> Lookup)
    ensures var p := ResolveAll(db, cs, bos, lookup);
      ResolveAll(db, cs + [c], bos, lookup) == if p.ok then ResolveStep(p.db, c, bos, lookup) else p
    decreases cs
  {
    if cs == [] {
      assert [c][1..] == [];
    } else {
      assert (cs + [c])[1..] == cs[1..] + [c];
      ResolveSnoc(ResolveStep(db, cs[0], bos, lookup).db, cs[1..], c, bos, lookup);
    }
  }

  /** Phase two over the first n rows. */
  function ResolveFirst(db: Db, rows: seq<OrderRow>, bos: seq<BrokerOrder>, lookup: ClientId -> Lookup, n: nat): Phase
    requires n <= |rows|
  {
    if n == 0 then Phase(db, true)
    else
      var p := ResolveFirst(db, rows, bos, lookup, n - 1);
      if p.ok && rows[n - 1].status == PendingSubmit then ResolveStep(p.db, rows[n - 1].clientId, bos, lookup) else p
  }

  lemma {:induction false} PendingIdsAppend(rows: seq<OrderRow>, more: seq<OrderRow>)
    ensures PendingIds(rows + more) == PendingIds(rows) + PendingIds(more)
  {
    if rows == [] {
      assert rows + more == more;
    } else {
      var first := if rows[0].status == PendingSubmit then [rows[0].clientId] else [];
      assert (rows + more)[0] == rows[0] && (rows + more)[1..] == rows[1..] + more;
      PendingIdsAppend(rows[1..], more);
      assert first + (PendingIds(rows[1..]) + PendingIds(more)) == (first + PendingIds(rows[1..])) + PendingIds(more);
    }
  }

  lemma PendingIdsOne(row: OrderRow)
    ensures PendingIds([row]) == if row.status == PendingSubmit then [row.clientId] else []
  {
    assert [row][1..] == [];
  }

  lemma PendingIdsUpTo(rows: seq<OrderRow>, n: nat)
    requires 0 < n <= |rows|
    ensures var row := rows[n - 1];
      PendingIds(rows[..n]) ==
      if row.status == PendingSubmit then PendingIds(rows[..n - 1]) + [row.clientId] else PendingIds(rows[..n - 1])
  {
    var row, before := rows[n - 1], PendingIds(rows[..n - 1]);
    assert rows[..n] == rows[..n - 1] + [row];
    PendingIdsAppend(rows[..n - 1], [row]);
    PendingIdsOne(row);
    assert before + [] == before;
  }

  lemma {:induction false} ResolveFirstIsResolveAll(db: Db, rows: seq<OrderRow>, bos: seq<BrokerOrder>,
                                                    lookup: ClientId -> Lookup, n: nat)
    requires n <= |rows|
    ensures ResolveFirst(db, rows, bos, lookup, n) == ResolveAll(db, PendingIds(rows[..n]), bos, lookup)
  {
    if n > 0 {
      var p, c := ResolveFirst(db, rows, bos, lookup, n - 1), rows[n - 1].clientId;
      ResolveFirstIsResolveAll(db, rows, bos, lookup, n - 1);
      PendingIdsUpTo(rows, n);
      if rows[n - 1].status == PendingSubmit {
        ResolveSnoc(db, PendingIds(rows[..n - 1]), c, bos, lookup);
      }
    }
  }

  /** One more lookup: it stops exactly at a clash, and otherwise gives its row its answered id. */
  lemma ResolveNext(db: Db, rows: seq<OrderRow>, bos: seq<BrokerOrder>, lookup: ClientId -> Lookup, n: nat)
    requires ClientsUnique(rows) && AnswersWhatItIsAsked(lookup) && n < |rows| && rows[n].status == PendingSubmit
    requires ResolvedTo(rows, bos, lookup, n, db.orders)
    ensures var p := ResolveStep(db, rows[n].clientId, bos, lookup);
      && (p.ok <==> !LookupClash(rows, bos, lookup, n))
      && (p.ok ==> ResolvedTo(rows, bos, lookup, n + 1, p.db.orders))
  {
    var c := rows[n].clientId;
    var rows' := ResolveStep(db, c, bos, lookup).db.orders;
    if Live(rows[n], bos, lookup) {
      FoundStops(rows, bos, lookup, n, db.orders);
      if !LookupClash(rows, bos, lookup, n) {
        FoundKeeps(rows, bos, lookup, n, db.orders, rows');
      }
    } else {
      FailedKeeps(rows, bos, lookup, n, db.orders, rows');
    }
  }

  lemma FoundStops(rows: seq<OrderRow>, bos: seq<BrokerOrder>, lookup: ClientId -> Lookup, n: nat,
                   rows': seq<OrderRow>)
    requires ClientsUnique(rows) && AnswersWhatItIsAsked(lookup) && n < |rows| && Live(rows[n], bos, lookup)
    requires ResolvedTo(rows, bos, lookup, n, rows')
    ensures BrokerIdTaken(rows', lookup(rows[n].clientId).bo) <==> LookupClash(rows, bos, lookup, n)
  {
    var bo := lookup(rows[n].clientId).bo;
    assert MayApply(rows'[n], bo);
    assert forall q :: 0 <= q < |rows| ==> (rows'[q].clientId != bo.clientId <==> q != n);
  }

  lemma FoundKeeps(rows: seq<OrderRow>, bos: seq<BrokerOrder>, lookup: ClientId -> Lookup, n: nat,
                   rows': seq<OrderRow>, rows'': seq<OrderRow>)
    requires ClientsUnique(rows) && AnswersWhatItIsAsked(lookup) && n < |rows| && Live(rows[n], bos, lookup)
    requires ResolvedTo(rows, bos, lookup, n, rows') && |rows''| == |rows|
    requires forall k :: 0 <= k < |rows| ==> rows''[k] == ApplyRow(rows'[k], lookup(rows[n].clientId).bo)
    ensures ResolvedTo(rows, bos, lookup, n + 1, rows'')
  {
    assert rows'[n] == rows[n];
    assert forall q :: 0 <= q < |rows| && q != n ==> rows'[q].clientId != rows[n].clientId;
  }

  lemma FailedKeeps(rows: seq<OrderRow>, bos: seq<BrokerOrder>, lookup: ClientId -> Lookup, n: nat,
                    rows': seq<OrderRow>, rows'': seq<OrderRow>)
    requires ClientsUnique(rows) && n < |rows| && !Live(rows[n], bos, lookup)
    requires ResolvedTo(rows, bos, lookup, n, rows') && |rows''| == |rows|
    requires forall k :: 0 <= k < |rows| ==> rows''[k] == rows'[k] || rows''[k] == FailRow(rows'[k], rows[n].clientId)
    ensures ResolvedTo(rows, bos, lookup, n + 1, rows'')
  {
    assert forall q :: n < q < |rows| ==> rows'[q].clientId != rows[n].clientId;
  }

  /** A row that is not pending is not asked for. */
  lemma ResolvePasses(rows: seq<OrderRow>, bos: seq<BrokerOrder>, lookup: ClientId -> Lookup, n: nat,
                      rows': seq<OrderRow>)
    requires n < |rows| && rows[n].status != PendingSubmit && ResolvedTo(rows, bos, lookup, n, rows')
    ensures !LookupClash(rows, bos, lookup, n) && ResolvedTo(rows, bos, lookup, n + 1, rows')
  {
  }

  lemma ResolveOnward(db: Db, rows: seq<OrderRow>, bos: seq<BrokerOrder>, lookup: ClientId -> Lookup, n: nat)
    requires ClientsUnique(rows) && AnswersWhatItIsAsked(lookup) && n < |rows|
    requires var p := ResolveFirst(db, rows, bos, lookup, n); p.ok && ResolvedTo(rows, bos, lookup, n, p.db.orders)
    ensures var p := ResolveFirst(db, rows, bos, lookup, n + 1);
      && (p.ok <==> !LookupClash(rows, bos, lookup, n))
      && (p.ok ==> ResolvedTo(rows, bos, lookup, n + 1, p.db.orders))
  {
    var p := ResolveFirst(db, rows, bos, lookup, n);
    if rows[n].status == PendingSubmit {
      ResolveNext(p.db, rows, bos, lookup, n);
    } else {
      ResolvePasses(rows, bos, lookup, n, p.db.orders);
    }
  }

  /** When the lookups of the first n rows are through, the rows are as read off the ones before. */
  lemma {:induction false} ResolveReaches(db: Db, bos: seq<BrokerOrder>, lookup: ClientId -> Lookup, n: nat)
    requires ClientsUnique(db.orders) && AnswersWhatItIsAsked(lookup) && n <= |db.orders|
    requires ResolveFirst(db, db.orders, bos, lookup, n).ok
    ensures ResolvedTo(db.orders, bos, lookup, n, ResolveFirst(db, db.orders, bos, lookup, n).db.orders)
  {
    if n > 0 {
      ResolveReaches(db, bos, lookup, n - 1);
      ResolveOnward(db, db.orders, bos, lookup, n - 1);
    }
  }

  lemma ResolveStopsAt(db: Db, bos: seq<BrokerOrder>, lookup: ClientId -> Lookup, n: nat)
    requires ClientsUnique(db.orders) && AnswersWhatItIsAsked(lookup) && n < |db.orders|
    ensures ResolveFirst(db, db.orders, bos, lookup, n + 1).ok <==>
            ResolveFirst(db, db.orders, bos, lookup, n).ok && !LookupClash(db.orders, bos, lookup, n)
  {
    if ResolveFirst(db, db.orders, bos, lookup, n).ok {
      ResolveReaches(db, bos, lookup, n);
      ResolveOnward(db, db.orders, bos, lookup, n);
    }
  }

  lemma {:induction false} LookupClashStops(db: Db, bos: seq<BrokerOrder>, lookup: ClientId -> Lookup, p: nat, n: nat)
    requires ClientsUnique(db.orders) && AnswersWhatItIsAsked(lookup)
    requires p < n <= |db.orders| && LookupClash(db.orders, bos, lookup, p)
    ensures !ResolveFirst(db, db.orders, bos, lookup, n).ok
  {
    if p == n - 1 {
      ResolveStopsAt(db, bos, lookup, p);
    } else {
      LookupClashStops(db, bos, lookup, p, n - 1);
    }
  }

  lemma {:induction false} StopShowsLookupClash(db: Db, bos: seq<BrokerOrder>, lookup: ClientId -> Lookup, n: nat)
    returns (p: nat)
    requires ClientsUnique(db.orders) && AnswersWhatItIsAsked(lookup)
    requires n <= |db.orders| && !ResolveFirst(db, db.orders, bos, lookup, n).ok
    ensures p < n && LookupClash(db.orders, bos, lookup, p)
  {
    if ResolveFirst(db, db.orders, bos, lookup, n - 1).ok {
      p := n - 1;
      ResolveStopsAt(db, bos, lookup, p);
    } else {
      p := StopShowsLookupClash(db, bos, lookup, n - 1);
    }
  }

  /** Phase two runs through exactly when no row clashes. */
  lemma ResolvesExactlyWhen(db: Db, bos: seq<BrokerOrder>, lookup: ClientId -> Lookup)
    requires ClientsUnique(db.orders) && AnswersWhatItIsAsked(lookup)
    ensures ResolveAll(db, PendingIds(db.orders), bos, lookup).ok <==>
            forall p :: 0 <= p < |db.orders| ==> !LookupClash(db.orders, bos, lookup, p)
  {
    var n := |db.orders|;
    assert db.orders[..n] == db.orders;
    ResolveFirstIsResolveAll(db, db.orders, bos, lookup, n);
    if ResolveFirst(db, db.orders, bos, lookup, n).ok {
      forall p | 0 <= p < n ensures !LookupClash(db.orders, bos, lookup, p) {
        if LookupClash(db.orders, bos, lookup, p) {
          LookupClashStops(db, bos, lookup, p, n);
        }
      }
    } else {
      var p := StopShowsLookupClash(db, bos, lookup, n);
    }
  }

  // ---------------------------------------------------------------- the whole pass

  /**
   * Row p, pending, unlisted and found, is answered an id that another row carries by then: its own answered id if it
   * is live and was asked for first, otherwise what it carries after phase one; or that a listed foreign order took.
   */
  ghost predicate AnswerClash(rows: seq<OrderRow>, bos: seq<BrokerOrder>, lookup: ClientId -> Lookup, p: nat)
    requires p < |rows|
  {
    && Live(rows[p], bos, lookup)
    && var b := AnsweredId(rows[p], lookup);
       || AdoptedBefore(rows, bos, |bos|, b)
       || exists q :: 0 <= q < |rows| && q != p
                      && if q < p && Live(rows[q], bos, lookup) then AnsweredId(rows[q], lookup) == b
                         else CarriesAt(rows[q], bos, |bos|, b)
  }

  lemma LiveThroughSync(rows: seq<OrderRow>, bos: seq<BrokerOrder>, lookup: ClientId -> Lookup, rows': seq<OrderRow>)
    requires SyncedTo(rows, bos, |bos|, rows')
    ensures forall q :: 0 <= q < |rows| ==> (Live(rows'[q], bos, lookup) <==> Live(rows[q], bos, lookup))
    ensures forall q :: |rows| <= q < |rows'| ==> !Live(rows'[q], bos, lookup)
  {
    assert bos[..|bos|] == bos;
  }

  lemma OthersIdThroughSync(rows: seq<OrderRow>, bos: seq<BrokerOrder>, lookup: ClientId -> Lookup,
                            rows': seq<OrderRow>, p: nat, q: nat, b: string)
    requires SyncedTo(rows, bos, |bos|, rows') && q < |rows|
    ensures IdWhenAsked(rows', bos, lookup, q, p) == Some(b) <==>
            if q < p && Live(rows[q], bos, lookup) then AnsweredId(rows[q], lookup) == b
            else CarriesAt(rows[q], bos, |bos|, b)
  {
    LiveThroughSync(rows, bos, lookup, rows');
    assert rows'[q].brokerId == Some(b) <==> CarriesAt(rows[q], bos, |bos|, b);
  }

  lemma ClashThroughSync(rows: seq<OrderRow>, bos: seq<BrokerOrder>, lookup: ClientId -> Lookup,
                         rows': seq<OrderRow>, p: nat)
    requires SyncedTo(rows, bos, |bos|, rows') && p < |rows'|
    ensures LookupClash(rows', bos, lookup, p) <==> p < |rows| && AnswerClash(rows, bos, lookup, p)
  {
    LiveThroughSync(rows, bos, lookup, rows');
    if p < |rows| && Live(rows[p], bos, lookup) {
      var b, adopted := AnsweredId(rows[p], lookup), rows'[|rows|..];
      forall q | 0 <= q < |rows|
        ensures IdWhenAsked(rows', bos, lookup, q, p) == Some(b) <==>
                if q < p && Live(rows[q], bos, lookup) then AnsweredId(rows[q], lookup) == b
                else CarriesAt(rows[q], bos, |bos|, b)
      {
        OthersIdThroughSync(rows, bos, lookup, rows', p, q, b);
      }
      if k :| 0 <= k < |adopted| && adopted[k].brokerId == Some(b) {
        assert IdWhenAsked(rows', bos, lookup, |rows| + k, p) == Some(b);
      }
      if q :| |rows| <= q < |rows'| && IdWhenAsked(rows', bos, lookup, q, p) == Some(b) {
        assert adopted[q - |rows|].brokerId == Some(b);
      }
    }
  }

  /**
   * When a pass completes and trading unlocks, for any broker whose list has one entry for each order and whose lookups
   * answer about what they were asked: exactly when no listed order of ours and no answer clashes. No failed call comes
   * into it.
   */
  lemma CompletesExactlyWhen(db: Db, view: View, mode: Mode, now: int)
    requires ClientsUnique(db.orders) && AnswersWhatItIsAsked(view.lookup)
    requires view.orders.Some? ==> OneEntryEach(view.orders.value)
    ensures var rows, bos := db.orders, if view.orders.Some? then view.orders.value else [];
      ReconcileDb(db, view, mode, now).ok <==>
        && (forall i :: 0 <= i < |bos| ==> !ListClash(rows, bos, i))
        && (forall p :: 0 <= p < |rows| ==> !AnswerClash(rows, bos, view.lookup, p))
  {
    var rows, bos := db.orders, if view.orders.Some? then view.orders.value else [];
    SyncsExactlyWhen(db, bos, mode, now);
    var p1 := SyncAll(db, bos, mode, now);
    if p1.ok {
      SyncAllReaches(db, bos, mode, now);
      AnswersClash(rows, p1.db, bos, view.lookup);
    }
  }

  lemma SyncAllReaches(db: Db, bos: seq<BrokerOrder>, mode: Mode, now: int)
    requires ClientsUnique(db.orders) && OneEntryEach(bos) && SyncAll(db, bos, mode, now).ok
    ensures SyncedTo(db.orders, bos, |bos|, SyncAll(db, bos, mode, now).db.orders)
    ensures ClientsUnique(SyncAll(db, bos, mode, now).db.orders)
  {
    assert bos[..|bos|] == bos;
    SyncFirstIsSyncAll(db, bos, mode, now, |bos|);
    SyncReaches(db, bos, mode, now, |bos|);
    SyncKeepsClients(db, bos, mode, now);
  }

  lemma AnswersClash(rows: seq<OrderRow>, db: Db, bos: seq<BrokerOrder>, lookup: ClientId -> Lookup)
    requires SyncedTo(rows, bos, |bos|, db.orders) && ClientsUnique(db.orders) && AnswersWhatItIsAsked(lookup)
    ensures ResolveAll(db, PendingIds(db.orders), bos, lookup).ok <==>
            forall p :: 0 <= p < |rows| ==> !AnswerClash(rows, bos, lookup, p)
  {
    ResolvesExactlyWhen(db, bos, lookup);
    forall p | 0 <= p < |db.orders|
      ensures LookupClash(db.orders, bos, lookup, p) <==> p < |rows| && AnswerClash(rows, bos, lookup, p)
    {
      ClashThroughSync(rows, bos, lookup, db.orders, p);
    }
  }

  /**
   * When unlocking does prove that the mass status was obtained: exactly when some pending row's lookup answers it a
   * broker id that another row carries, or was answered before it. By PassCompletes a broker that tells the truth never
   * gives that proof.
   */
  lemma UnlockingProvesMassStatus(db: Db, lookup: ClientId -> Lookup, mode: Mode, now: int)
    requires ClientsUnique(db.orders) && AnswersWhatItIsAsked(lookup)
    ensures (forall view: View :: view.lookup == lookup && ReconcileDb(db, view, mode, now).ok ==> view.orders.Some?)
            <==> exists p :: 0 <= p < |db.orders| && LookupClash(db.orders, [], lookup, p)
  {
    var silent := View(None, lookup, (after: Option<int>) => None);
    ResolvesExactlyWhen(db, [], lookup);
    assert ReconcileDb(db, silent, mode, now).ok <==> ResolveAll(db, PendingIds(db.orders), [], lookup).ok;
  }

  lemma {:induction false} NothingResolved(db: Db, cs: seq<ClientId>, bos: seq<BrokerOrder>,
                                           lookup: ClientId -> Lookup)
    requires forall c :: lookup(c).LookupFailed?
    ensures ResolveAll(db, cs, bos, lookup) == Phase(db, true)
    decreases cs
  {
    if cs != [] {
      NothingResolved(db, cs[1..], bos, lookup);
    }
  }

  /** When every call to the broker fails the pass still completes, so trading unlocks over unreconciled tables. */
  lemma SilentBrokerUnlocks(db: Db, view: View, mode: Mode, now: int)
    requires view.orders.None? && (forall c :: view.lookup(c).LookupFailed?)
    requires forall after :: view.executions(after).None?
    ensures ReconcileDb(db, view, mode, now) == Phase(db, true)
  {
    NothingResolved(db, PendingIds(db.orders), [], view.lookup);
  }
}
