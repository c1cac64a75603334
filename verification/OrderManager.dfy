/** The order manager as an object over its tables, and the three phases of reconciliation. */
module OrderManager {
  import opened Log
  import opened Guardrails
  import opened OrderTables
  import P = Portfolio

  datatype Lookup = Found(bo: BrokerOrder) | NeverSeen | LookupFailed

  /** What the broker answers during one pass; `None` is a failed call. */
  datatype View = View(orders: Option<seq<BrokerOrder>>, lookup: ClientId -> Lookup,
                       executions: Option<int> -> Option<seq<Execution>>)

  /** `ok` is false when a database error (a broken unique index) aborts the pass. */
  datatype Phase = Phase(db: Db, ok: bool)

  // ---------------------------------------------------------------- specification of the phases

  /** Phase 1, one listed order: sync ours; materialize a foreign one and sync it if it is new. */
  function SyncOne(db: Db, bo: BrokerOrder, mode: Mode, now: int): Phase {
    if bo.clientId.Rekt? then
      var a := ApplyBrokerOrder(db, bo);
      Phase(a.db, a.outcome != Conflict)
    else
      var m := Materialize(db, bo, mode, now);
      if m.isNew then
        var a := ApplyBrokerOrder(m.db, bo);
        Phase(a.db, a.outcome != Conflict)
      else Phase(m.db, true)
  }

  function SyncAll(db: Db, bos: seq<BrokerOrder>, mode: Mode, now: int): Phase
    decreases bos
  {
    if bos == [] then Phase(db, true)
    else
      var p := SyncOne(db, bos[0], mode, now);
      if !p.ok then p else SyncAll(p.db, bos[1..], mode, now)
  }

  function PendingIds(rows: seq<OrderRow>): seq<ClientId> {
    if rows == [] then []
    else (if rows[0].status == PendingSubmit then [rows[0].clientId] else []) + PendingIds(rows[1..])
  }

  function Listed(bos: seq<BrokerOrder>, c: ClientId): bool {
    exists k :: 0 <= k < |bos| && bos[k].clientId == c
  }

  /** Phase 2, one pending order the list did not mention. */
  function ResolveOne(db: Db, answer: Lookup, c: ClientId): Phase {
    match answer
    case Found(bo) =>
      var a := ApplyBrokerOrder(db, bo);
      Phase(a.db, a.outcome != Conflict)
    case NeverSeen => Phase(MarkFailed(db, c), true)
    case LookupFailed => Phase(db, true)
  }

  function ResolveAll(db: Db, cs: seq<ClientId>, bos: seq<BrokerOrder>, lookup: ClientId -> Lookup): Phase
    decreases cs
  {
    if cs == [] then Phase(db, true)
    else
      var p := if Listed(bos, cs[0]) then Phase(db, true) else ResolveOne(db, lookup(cs[0]), cs[0]);
      if !p.ok then p else ResolveAll(p.db, cs[1..], bos, lookup)
  }

  function LastFill(fills: seq<Fill>): Option<int> {
    if fills == [] then None
    else
      var t := LastFill(fills[..|fills| - 1]);
      var ts := fills[|fills| - 1].ts;
      if t.Some? && t.value >= ts then t else Some(ts)
  }

  /** The backfill cursor overlaps the newest fill by an hour. */
  function Cursor(fills: seq<Fill>): Option<int> {
    var t := LastFill(fills);
    if t.None? then None else Some(t.value - NANOS_PER_HOUR)
  }

  function IngestAll(db: Db, es: seq<Execution>, mode: Mode): Db
    decreases es
  {
    if es == [] then db else IngestAll(Ingest(db, es[0], mode).db, es[1..], mode)
  }

  /** The whole pass. */
  function ReconcileDb(db: Db, view: View, mode: Mode, now: int): Phase {
    var bos := if view.orders.Some? then view.orders.value else [];
    var p1 := SyncAll(db, bos, mode, now);
    if !p1.ok then p1
    else
      var p2 := ResolveAll(p1.db, PendingIds(p1.db.orders), bos, view.lookup);
      if !p2.ok then p2
      else
        var answer := view.executions(Cursor(p2.db.fills));
        Phase(if answer.Some? then IngestAll(p2.db, answer.value, mode) else p2.db, true)
  }

  // ---------------------------------------------------------------- specification of the handlers

  /** The execution a stream event may carry; symbol and side come from the local row. */
  datatype StreamFill = StreamFill(executionId: string, qty: real, price: real, ts: int)

  function ClientRow(rows: seq<OrderRow>, c: ClientId): (k: nat)
    ensures k <= |rows|
    ensures k < |rows| ==> rows[k].clientId == c
    ensures forall j :: 0 <= j < k ==> rows[j].clientId != c
  {
    if rows == [] || rows[0].clientId == c then 0
    else
      var k := ClientRow(rows[1..], c);
      assert forall j :: 1 <= j < |rows| ==> rows[j] == rows[1..][j - 1];
      k + 1
  }

  function Traded(row: OrderRow, bo: BrokerOrder, fill: StreamFill): Execution {
    Execution(fill.executionId, bo.brokerOrderId, row.symbol, row.side, fill.qty, fill.price, fill.ts)
  }

  /** One stream event: apply the order state, then ingest the fill it carries; a conflict aborts the handler. */
  function OnEvent(db: Db, bo: BrokerOrder, fill: Option<StreamFill>, mode: Mode): Applied {
    var a := ApplyBrokerOrder(db, bo);
    var k := ClientRow(a.db.orders, bo.clientId);
    if fill.None? || a.outcome == Conflict || k == |a.db.orders| then a
    else Applied(Ingest(a.db, Traded(a.db.orders[k], bo, fill.value), mode).db, a.outcome)
  }

  lemma NoRowToTrade(db: Db, bo: BrokerOrder)
    requires ApplyBrokerOrder(db, bo).outcome == Unknown
    ensures ClientRow(ApplyBrokerOrder(db, bo).db.orders, bo.clientId) == |db.orders|
  {
    assert !HasClient(db.orders, bo.clientId);
  }

  /** How the broker's answer to a submission comes back. */
  datatype Reply = BrokerTook(bo: BrokerOrder) | Declined | NoAnswer

  datatype Submission = Locked | Refused(why: Violation) | Persisted(rowid: int)

  /** The cancel handler's answers. */
  datatype Cancellation = NoSuchOrder | AlreadyOver | NotAcknowledged | Cancelling

  function Replied(db: Db, id: int, reply: Reply): Db {
    match reply
    case BrokerTook(bo) => ApplyBrokerOrder(db, bo).db
    case Declined => MarkRejected(db, id)
    case NoAnswer => db
  }

  /** A submission that passed its checks: the intent first, then whatever the broker said. */
  function SubmitDb(db: Db, t: Ticket, reply: Reply, mode: Mode, now: int, minted: int): Db {
    Replied(InsertPending(db, t, mode, now, minted), NextOrderId(db.orders), reply)
  }

  // ---------------------------------------------------------------- statements that touch one row

  /** The order is over, or partly filled while the update still has it unfilled. */
  predicate Protected(row: OrderRow, bo: BrokerOrder) {
    || row.status.Filled? || row.status.Canceled? || row.status.Rejected?
    || row.status.Expired? || row.status.Replaced? || row.status.Failed?
    || (row.status.PartiallyFilled? && (bo.status.PendingSubmit? || bo.status.Submitted? || bo.status.Accepted?))
  }

  /** What became of the row an update was meant for. */
  ghost predicate TookEffect(row: OrderRow, row': OrderRow, bo: BrokerOrder, outcome: Outcome) {
    match outcome
    case Updated =>
      && !Protected(row, bo)
      && row' == row.(brokerId := Some(bo.brokerOrderId), status := bo.status, filledQty := bo.filledQty,
                      avgFillPrice := bo.avgFillPrice)
    case Stale => row' == row && Protected(row, bo)
    case Conflict => row' == row && !Protected(row, bo)
    case Unknown => false
  }

  lemma OnlyRow(rows: seq<OrderRow>, k: nat)
    requires ClientsUnique(rows) && k < |rows|
    ensures forall j :: 0 <= j < |rows| && rows[j].clientId == rows[k].clientId ==> j == k
  {
  }

  lemma OneRowUpdated(db: Db, bo: BrokerOrder, k: nat)
    requires ClientsUnique(db.orders) && k < |db.orders| && MayApply(db.orders[k], bo)
    requires !BrokerIdTaken(db.orders, bo)
    ensures ApplyBrokerOrder(db, bo) ==
            Applied(db.(orders := db.orders[k := ApplyRow(db.orders[k], bo)]), Updated)
  {
    var rows := ApplyBrokerOrder(db, bo).db.orders;
    assert rows == db.orders[k := ApplyRow(db.orders[k], bo)];
  }

  lemma NoRowUpdated(db: Db, bo: BrokerOrder)
    requires forall k :: 0 <= k < |db.orders| ==> !MayApply(db.orders[k], bo)
    ensures ApplyBrokerOrder(db, bo) == Applied(db, if HasClient(db.orders, bo.clientId) then Stale else Unknown)
  {
    assert ApplyBrokerOrder(db, bo).db.orders == db.orders;
  }

  lemma OneRowCancelled(db: Db, k: nat)
    requires IdsAscend(db.orders) && k < |db.orders| && !Terminal(db.orders[k].status)
    ensures MarkCancel(db, db.orders[k].id) == db.(orders := db.orders[k := db.orders[k].(status := PendingCancel)])
  {
    var rows := MarkCancel(db, db.orders[k].id).orders;
    assert rows == db.orders[k := db.orders[k].(status := PendingCancel)];
  }

  lemma RowsRejected(db: Db, id: int, rows: seq<OrderRow>)
    requires |rows| == |db.orders| && forall j :: 0 <= j < |rows| ==> rows[j] == RejectRow(db.orders[j], id)
    ensures MarkRejected(db, id) == db.(orders := rows)
  {
    assert MarkRejected(db, id).orders == rows;
  }

  lemma RowsFailed(db: Db, c: ClientId, rows: seq<OrderRow>)
    requires |rows| == |db.orders| && forall j :: 0 <= j < |rows| ==> rows[j] == FailRow(db.orders[j], c)
    ensures MarkFailed(db, c) == db.(orders := rows)
  {
    assert MarkFailed(db, c).orders == rows;
  }

  lemma FirstWith(rows: seq<OrderRow>, b: string, k: nat)
    requires k < |rows| && rows[k].brokerId == Some(b) && BrokersUnique(rows)
    ensures OrderOf(rows, b) == k
  {
    assert HasBroker(rows, b);
  }

  // ---------------------------------------------------------------- the object

  /** Each method is one statement or one handler; row by row, the statements do what an SQL engine does. */
  class Manager {
    var orders: seq<OrderRow>
    var fills: seq<Fill>
    var txs: seq<LogRow>
    var nonce: Option<int>
    var ready: bool
    const mode: Mode

    ghost function Tables(): Db
      reads this
    {
      Db(orders, fills, txs, nonce)
    }

    ghost predicate Valid()
      reads this
    {
      DbInv(Tables(), mode)
    }

    constructor (mode: Mode)
      ensures Valid() && Tables() == Db([], [], [], None) && !ready && this.mode == mode
    {
      orders, fills, txs, nonce, ready, this.mode := [], [], [], None, false, mode;
    }

    /** Mints the row id and the client id, and persists the intent before anything is sent. */
    method InsertPendingOrder(t: Ticket, now: int, minted: int) returns (id: int, clientId: ClientId)
      requires Valid()
      modifies this`orders, this`nonce
      ensures Valid() && Tables() == InsertPending(old(Tables()), t, mode, now, minted)
      ensures nonce.Some? && (old(nonce).Some? ==> nonce == old(nonce)) && clientId == Rekt(mode, nonce.value, id)
      ensures !HasClient(old(orders), clientId) && forall k :: 0 <= k < |old(orders)| ==> old(orders)[k].id < id
      ensures orders == old(orders) + [OrderRow(id, clientId, None, t.symbol, t.side, t.qty, PendingSubmit, 0.0, None,
                                                mode, now)]
    {
      InsertKeeps(Tables(), t, mode, now, minted);
      if nonce.None? {
        nonce := Some(minted);
      }
      id := NextOrderId(orders);
      clientId := Rekt(mode, nonce.value, id);
      assert forall k :: 0 <= k < |orders| ==> RowInv(orders[k], old(nonce));
      orders := orders + [OrderRow(id, clientId, None, t.symbol, t.side, t.qty, PendingSubmit, 0.0, None, mode, now)];
    }

    /** One scan of the table: the row the update may write, and the rows that carry either of its ids. */
    method FindTarget(bo: BrokerOrder) returns (target: nat, known: bool, taken: bool)
      ensures target <= |orders| && (target < |orders| ==> MayApply(orders[target], bo))
      ensures target == |orders| ==> forall j :: 0 <= j < |orders| ==> !MayApply(orders[j], bo)
      ensures known == HasClient(orders, bo.clientId)
      ensures taken <==>
                exists j :: 0 <= j < |orders| && orders[j].brokerId == Some(bo.brokerOrderId)
                            && orders[j].clientId != bo.clientId
    {
      target, known, taken := |orders|, false, false;
      var i := 0;
      while i < |orders|
        invariant 0 <= i <= |orders|
        invariant target < i || target == |orders|
        invariant target < i ==> MayApply(orders[target], bo)
        invariant target == |orders| ==> forall j :: 0 <= j < i ==> !MayApply(orders[j], bo)
        invariant known <==> exists j :: 0 <= j < i && orders[j].clientId == bo.clientId
        invariant taken <==>
                  exists j :: 0 <= j < i && orders[j].brokerId == Some(bo.brokerOrderId)
                              && orders[j].clientId != bo.clientId
      {
        if orders[i].clientId == bo.clientId {
          known := true;
          if MayApply(orders[i], bo) {
            target := i;
          }
        } else if orders[i].brokerId == Some(bo.brokerOrderId) {
          taken := true;
        }
        i := i + 1;
      }
    }

    /** The guarded update of the one row with the order's client id. */
    method Apply(bo: BrokerOrder) returns (outcome: Outcome)
      requires Valid()
      modifies this`orders
      ensures Valid() && Applied(Tables(), outcome) == ApplyBrokerOrder(old(Tables()), bo)
      ensures |orders| == |old(orders)|
      ensures outcome == Unknown <==> !HasClient(old(orders), bo.clientId)
      ensures outcome == Conflict ==> orders == old(orders) && HasBroker(orders, bo.brokerOrderId)
      ensures forall k :: 0 <= k < |orders| ==>
                if old(orders)[k].clientId == bo.clientId then TookEffect(old(orders)[k], orders[k], bo, outcome)
                else orders[k] == old(orders)[k]
    {
      ApplyKeeps(Tables(), bo, mode);
      var target, known, taken := FindTarget(bo);
      if target == |orders| {
        NoRowUpdated(Tables(), bo);
        return if known then Stale else Unknown;
      }
      OnlyRow(orders, target);
      if taken {
        return Conflict;
      }
      OneRowUpdated(Tables(), bo, target);
      orders := orders[target := orders[target].(brokerId := Some(bo.brokerOrderId), status := bo.status,
                                                 filledQty := bo.filledQty, avgFillPrice := bo.avgFillPrice)];
      outcome := Updated;
    }

    /** Insert-or-ignore: nothing happens when a row already carries either of the order's ids. */
    method MaterializeExternal(bo: BrokerOrder, now: int) returns (inserted: bool)
      requires Valid() && bo.clientId.External?
      modifies this`orders
      ensures Valid() && Inserted(Tables(), inserted) == Materialize(old(Tables()), bo, mode, now)
      ensures inserted <==>
                bo.about.Some? && !HasClient(old(orders), bo.clientId) && !HasBroker(old(orders), bo.brokerOrderId)
      ensures old(orders) <= orders && |orders| == |old(orders)| + (if inserted then 1 else 0)
      ensures inserted ==>
                var row, d := orders[|orders| - 1], bo.about.value;
                && row == OrderRow(row.id, bo.clientId, Some(bo.brokerOrderId), d.symbol, d.side, d.qty, bo.status, 0.0,
                                   None, mode, now)
                && forall k :: 0 <= k < |old(orders)| ==> old(orders)[k].id < row.id
    {
      MaterializeKeeps(Tables(), bo, mode, now);
      if bo.about.None? {
        return false;
      }
      var i := 0;
      while i < |orders|
        invariant 0 <= i <= |orders|
        invariant forall j :: 0 <= j < i ==>
                    orders[j].clientId != bo.clientId && orders[j].brokerId != Some(bo.brokerOrderId)
      {
        if orders[i].clientId == bo.clientId || orders[i].brokerId == Some(bo.brokerOrderId) {
          return false;
        }
        i := i + 1;
      }
      var d := bo.about.value;
      orders := orders + [OrderRow(NextOrderId(orders), bo.clientId, Some(bo.brokerOrderId), d.symbol, d.side, d.qty,
                                   bo.status, 0.0, None, mode, now)];
      inserted := true;
    }

    /** The fill and its mirrored transaction together, once per execution id and only for a known order. */
    method IngestExecution(e: Execution) returns (inserted: bool)
      requires Valid()
      modifies this`fills, this`txs
      ensures Valid() && Inserted(Tables(), inserted) == Ingest(old(Tables()), e, mode)
      ensures inserted <==> HasBroker(orders, e.brokerOrderId) && !HasExecution(old(fills), e.executionId)
      ensures !inserted ==> fills == old(fills) && txs == old(txs)
      ensures inserted ==>
                && |fills| == |old(fills)| + 1 && fills[..|old(fills)|] == old(fills)
                && |txs| == |old(txs)| + 1 && txs[..|old(txs)|] == old(txs)
                && Books(fills[|fills| - 1], txs[|txs| - 1], e, mode)
                && (exists k :: 0 <= k < |orders| && orders[k].brokerId == Some(e.brokerOrderId)
                                && orders[k].id == fills[|fills| - 1].orderId)
    {
      IngestKeeps(Tables(), e, mode);
      var k := 0;
      while k < |orders| && orders[k].brokerId != Some(e.brokerOrderId)
        invariant 0 <= k <= |orders|
        invariant forall j :: 0 <= j < k ==> orders[j].brokerId != Some(e.brokerOrderId)
      {
        k := k + 1;
      }
      if k == |orders| {
        return false;
      }
      FirstWith(orders, e.brokerOrderId, k);
      var i := 0;
      while i < |fills|
        invariant 0 <= i <= |fills|
        invariant forall j :: 0 <= j < i ==> fills[j].executionId != e.executionId
      {
        if fills[i].executionId == e.executionId {
          return false;
        }
        i := i + 1;
      }
      var fill := Fill(NextFillId(fills), e.executionId, orders[k].id, e.qty, e.price, e.ts);
      fills := fills + [fill];
      txs := txs + [LogRow(NextTxId(txs), if e.side == BuySide then Buy else Sell, Some(e.symbol), e.qty, e.price, e.ts,
                           mode, Some(fill.id))];
      inserted := true;
    }

    /** The broker refused the submission: the intent still pending under this id is rejected. */
    method RejectIntent(id: int)
      requires Valid()
      modifies this`orders
      ensures Valid() && Tables() == MarkRejected(old(Tables()), id)
    {
      var rows, i := orders, 0;
      while i < |rows|
        invariant 0 <= i <= |rows| == |orders|
        invariant forall j :: 0 <= j < i ==> rows[j] == RejectRow(orders[j], id)
        invariant forall j :: i <= j < |rows| ==> rows[j] == orders[j]
      {
        if rows[i].id == id && rows[i].status == PendingSubmit {
          rows := rows[i := rows[i].(status := Rejected)];
        }
        i := i + 1;
      }
      RejectKeeps(Tables(), id, mode);
      RowsRejected(Tables(), id, rows);
      orders := rows;
    }

    /** The broker has never seen this client id: the intent never got there. */
    method FailIntent(c: ClientId)
      requires Valid()
      modifies this`orders
      ensures Valid() && Tables() == MarkFailed(old(Tables()), c)
    {
      var rows, i := orders, 0;
      while i < |rows|
        invariant 0 <= i <= |rows| == |orders|
        invariant forall j :: 0 <= j < i ==> rows[j] == FailRow(orders[j], c)
        invariant forall j :: i <= j < |rows| ==> rows[j] == orders[j]
      {
        if rows[i].clientId == c && rows[i].status == PendingSubmit {
          rows := rows[i := rows[i].(status := Failed)];
        }
        i := i + 1;
      }
      FailKeeps(Tables(), c, mode);
      RowsFailed(Tables(), c, rows);
      orders := rows;
    }

    /** One listed order: ours is synchronized, a foreign one is adopted first unless a row already carries it. */
    method SyncOrder(bo: BrokerOrder, now: int) returns (ok: bool)
      requires Valid()
      modifies this`orders
      ensures Valid() && Phase(Tables(), ok) == SyncOne(old(Tables()), bo, mode, now)
    {
      var outcome := Updated;
      if bo.clientId.Rekt? {
        outcome := Apply(bo);
      } else {
        var inserted := MaterializeExternal(bo, now);
        if inserted {
          outcome := Apply(bo);
        }
      }
      ok := outcome != Conflict;
    }

    method SyncOrders(bos: seq<BrokerOrder>, now: int) returns (ok: bool)
      requires Valid()
      modifies this`orders
      ensures Valid() && Phase(Tables(), ok) == SyncAll(old(Tables()), bos, mode, now)
    {
      var i := 0;
      assert bos[0..] == bos;
      while i < |bos|
        invariant 0 <= i <= |bos| && Valid()
        invariant SyncAll(old(Tables()), bos, mode, now) == SyncAll(Tables(), bos[i..], mode, now)
      {
        assert bos[i..][0] == bos[i] && bos[i..][1..] == bos[i + 1..];
        ok := SyncOrder(bos[i], now);
        if !ok {
          return;
        }
        i := i + 1;
      }
      ok := true;
    }

    method ResolvePending(bos: seq<BrokerOrder>, lookup: ClientId -> Lookup) returns (ok: bool)
      requires Valid()
      modifies this`orders
      ensures Valid() && Phase(Tables(), ok) == ResolveAll(old(Tables()), PendingIds(old(orders)), bos, lookup)
    {
      var cs := PendingIds(orders);
      var i := 0;
      assert cs[0..] == cs;
      while i < |cs|
        invariant 0 <= i <= |cs| && Valid()
        invariant ResolveAll(old(Tables()), cs, bos, lookup) == ResolveAll(Tables(), cs[i..], bos, lookup)
      {
        var c := cs[i];
        assert cs[i..][0] == c && cs[i..][1..] == cs[i + 1..];
        if !Listed(bos, c) {
          var answer := lookup(c);
          if answer.Found? {
            var outcome := Apply(answer.bo);
            if outcome == Conflict {
              return false;
            }
          } else if answer.NeverSeen? {
            FailIntent(c);
          }
        }
        i := i + 1;
      }
      ok := true;
    }

    method Backfill(es: seq<Execution>) returns (any: bool)
      requires Valid()
      modifies this`fills, this`txs
      ensures Valid() && Tables() == IngestAll(old(Tables()), es, mode)
      ensures any <==> Tables() != old(Tables())
    {
      any := false;
      var i := 0;
      assert es[0..] == es;
      while i < |es|
        invariant 0 <= i <= |es| && Valid()
        invariant IngestAll(old(Tables()), es, mode) == IngestAll(Tables(), es[i..], mode)
        invariant orders == old(orders) && nonce == old(nonce) && |fills| >= |old(fills)|
        invariant any <==> |fills| > |old(fills)|
        invariant !any ==> Tables() == old(Tables())
      {
        assert es[i..][0] == es[i] && es[i..][1..] == es[i + 1..];
        var inserted := IngestExecution(es[i]);
        any := any || inserted;
        i := i + 1;
      }
    }

    /** A stream event; an event for an order without a row asks for a reconciliation. */
    method ApplyEvent(bo: BrokerOrder, fill: Option<StreamFill>) returns (outcome: Outcome)
      requires Valid()
      modifies this`orders, this`fills, this`txs
      ensures Valid() && Applied(Tables(), outcome) == OnEvent(old(Tables()), bo, fill, mode)
    {
      outcome := Apply(bo);
      if outcome == Unknown {
        NoRowToTrade(old(Tables()), bo);
      }
      if outcome == Conflict || outcome == Unknown || fill.None? {
        return;
      }
      var k := 0;
      while k < |orders| && orders[k].clientId != bo.clientId
        invariant 0 <= k <= |orders|
        invariant forall j :: 0 <= j < k ==> orders[j].clientId != bo.clientId
      {
        k := k + 1;
      }
      assert k == ClientRow(orders, bo.clientId);
      if k < |orders| {
        var _ := IngestExecution(Traded(orders[k], bo, fill.value));
      }
    }

    /** Records what the broker said to a submission; without an answer the intent stays pending. */
    method TakeReply(id: int, reply: Reply)
      requires Valid()
      modifies this`orders
      ensures Valid() && Tables() == Replied(old(Tables()), id, reply)
      ensures |orders| == |old(orders)| && forall k :: 0 <= k < |orders| ==> orders[k].id == old(orders)[k].id
    {
      match reply {
        case BrokerTook(bo) => var _ := Apply(bo);
        case Declined => RejectIntent(id);
        case NoAnswer =>
      }
    }

    /** A submission past its checks: the intent is persisted under a new id before the broker's answer is recorded. */
    method Place(t: Ticket, reply: Reply, now: int, minted: int) returns (id: int)
      requires Valid()
      modifies this`orders, this`nonce
      ensures Valid() && Tables() == SubmitDb(old(Tables()), t, reply, mode, now, minted)
      ensures |orders| == |old(orders)| + 1 && orders[|old(orders)|].id == id
      ensures forall k :: 0 <= k < |old(orders)| ==> old(orders)[k].id < id
    {
      var clientId;
      id, clientId := InsertPendingOrder(t, now, minted);
      TakeReply(id, reply);
    }

    /**
     * The submit handler: locked until reconciled, checked against the rails, persisted before anything is sent. A sell
     * that is persisted is covered by the checked basis.
     */
    method SubmitOrder(t: Ticket, ctx: Context, rails: Rails, reply: Reply, now: int, minted: int)
      returns (r: Submission)
      requires Valid()
      modifies this`orders, this`nonce
      ensures Valid()
      ensures r.Persisted? <==> ready && EveryRailHolds(t, ctx, rails)
      ensures r == Locked <==> !ready
      ensures r.Refused? ==> Reason(t, ctx, rails, r.why)
      ensures !r.Persisted? ==> Tables() == old(Tables())
      ensures r.Persisted? ==>
                && Tables() == SubmitDb(old(Tables()), t, reply, mode, now, minted)
                && |orders| == |old(orders)| + 1 && orders[|old(orders)|].id == r.rowid
                && (forall k :: 0 <= k < |old(orders)| ==> old(orders)[k].id < r.rowid)
                && (t.side == SellSide ==> t.qty <= P.PositionOf(ctx.basis, t.symbol).qty)
    {
      if !ready { return Locked; }
      var verdict := CheckTicket(t, ctx, rails);
      PassesExactlyWhen(t, ctx, rails);
      if verdict.Refuse? {
        RefusedForABrokenRail(t, ctx, rails);
        return Refused(verdict.why);
      }
      var id := Place(t, reply, now, minted);
      r := Persisted(id);
    }

    /**
     * The kill switch, once the broker has accepted it: a row the broker is working on becomes pending cancel, every
     * other row stays as it is, and nothing but a status ever changes.
     */
    method CancelAll()
      requires Valid()
      modifies this`orders
      ensures Valid() && Tables() == MarkCancelAll(old(Tables())) && |orders| == |old(orders)|
      ensures forall k :: 0 <= k < |orders| ==>
                orders[k] == if old(orders)[k].status in {Submitted, Accepted, PartiallyFilled}
                             then old(orders)[k].(status := PendingCancel) else old(orders)[k]
    {
      CancelAllKeeps(Tables(), mode);
      var i := 0;
      while i < |orders|
        invariant 0 <= i <= |orders| == |old(orders)|
        invariant forall j :: 0 <= j < i ==> orders[j] == CancelOpenRow(old(orders)[j])
        invariant forall j :: i <= j < |orders| ==> orders[j] == old(orders)[j]
      {
        if Working(orders[i].status) {
          orders := orders[i := orders[i].(status := PendingCancel)];
        }
        i := i + 1;
      }
      assert orders == MarkCancelAll(old(Tables())).orders;
    }

    /** One reconciliation pass; trading unlocks at its end even when a broker call failed. */
    method Reconcile(view: View, now: int) returns (completed: bool)
      requires Valid()
      modifies this
      ensures Valid() && Phase(Tables(), completed) == ReconcileDb(old(Tables()), view, mode, now)
      ensures ready == (old(ready) || completed)
    {
      var bos := if view.orders.Some? then view.orders.value else [];
      completed := SyncOrders(bos, now);
      if !completed { return; }
      completed := ResolvePending(bos, view.lookup);
      if !completed { return; }
      var answer := view.executions(Cursor(fills));
      if answer.Some? {
        var _ := Backfill(answer.value);
      }
      ready := true;
    }

    /** The user's cancel: refused for terminal orders and for orders the broker has not acknowledged. */
    method CancelOrder(id: int) returns (r: Cancellation)
      requires Valid()
      modifies this`orders
      ensures Valid() && Tables() == if r == Cancelling then MarkCancel(old(Tables()), id) else old(Tables())
      ensures |orders| == |old(orders)|
      ensures r == NoSuchOrder <==> forall k :: 0 <= k < |orders| ==> old(orders)[k].id != id
      ensures forall k :: 0 <= k < |orders| && old(orders)[k].id == id ==>
                && (r == AlreadyOver <==>
                      old(orders)[k].status in {Filled, Canceled, Rejected, Expired, Replaced, Failed})
                && (r == Cancelling <==> r != AlreadyOver && old(orders)[k].brokerId.Some?)
                && orders[k] == if r == Cancelling then old(orders)[k].(status := PendingCancel) else old(orders)[k]
      ensures forall k :: 0 <= k < |orders| && old(orders)[k].id != id ==> orders[k] == old(orders)[k]
    {
      var k := 0;
      while k < |orders| && orders[k].id != id
        invariant 0 <= k <= |orders|
        invariant forall j :: 0 <= j < k ==> orders[j].id != id
      {
        k := k + 1;
      }
      if k == |orders| { return NoSuchOrder; }
      assert forall j :: 0 <= j < |orders| && orders[j].id == id ==> j == k;
      if Terminal(orders[k].status) { return AlreadyOver; }
      if orders[k].brokerId.None? { return NotAcknowledged; }
      CancelKeeps(Tables(), id, mode);
      OneRowCancelled(Tables(), k);
      orders := orders[k := orders[k].(status := PendingCancel)];
      r := Cancelling;
    }
  }
}
