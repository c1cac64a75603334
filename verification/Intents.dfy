/**
 * Where our own order rows come from: over any run each one stems from a ticket that passed every rail while trading
 * was unlocked and not paused, and the daily cap was counted over the rows themselves.
 */
module Intents {
  import opened Guardrails
  import opened OrderTables
  import opened OrderRuns

  // ---------------------------------------------------------------- counting

  /** The rows submitted on the day or later. */
  function Since(rows: seq<OrderRow>, day: int -> int, day0: int): set<int> {
    set k: int | 0 <= k < |rows| && day(rows[k].submittedTs) >= day0
  }

  /** Our own rows of one day. */
  function OursOn(rows: seq<OrderRow>, day: int -> int, d: int): set<int> {
    set k: int | 0 <= k < |rows| && rows[k].clientId.Rekt? && day(rows[k].submittedTs) == d
  }

  lemma OneMore(a: set<int>, n: int)
    requires n !in a
    ensures |a + {n}| == |a| + 1
  {
  }

  lemma SinceSnoc(rows: seq<OrderRow>, r: OrderRow, day: int -> int, day0: int)
    ensures Since(rows + [r], day, day0) ==
            if day(r.submittedTs) >= day0 then Since(rows, day, day0) + {|rows|} else Since(rows, day, day0)
  {
  }

  lemma {:induction false} CountedSince(rows: seq<OrderRow>, day: int -> int, day0: int)
    ensures CountFrom(rows, day, day0) == |Since(rows, day, day0)|
  {
    if rows != [] {
      var n := |rows| - 1;
      CountedSince(rows[..n], day, day0);
      assert rows == rows[..n] + [rows[n]];
      SinceSnoc(rows[..n], rows[n], day, day0);
      OneMore(Since(rows[..n], day, day0), n);
    }
  }

  lemma OursSnoc(rows: seq<OrderRow>, r: OrderRow, day: int -> int, d: int)
    ensures OursOn(rows + [r], day, d) ==
            if r.clientId.Rekt? && day(r.submittedTs) == d then OursOn(rows, day, d) + {|rows|}
            else OursOn(rows, day, d)
  {
  }

  lemma {:induction false} CountedOurs(rows: seq<OrderRow>, day: int -> int, d: int)
    ensures CountOurs(rows, day, d) == |OursOn(rows, day, d)|
  {
    if rows != [] {
      var n := |rows| - 1;
      CountedOurs(rows[..n], day, d);
      assert rows == rows[..n] + [rows[n]];
      OursSnoc(rows[..n], rows[n], day, d);
      OneMore(OursOn(rows[..n], day, d), n);
    }
  }

  /** In every reachable state no day has more rows of ours than the cap allows. */
  lemma DailyCapHolds(cfg: Config, steps: seq<Step>, d: int)
    ensures |OursOn(Run(cfg, INITIAL, steps).db.orders, cfg.day, d)| <= cfg.rails.maxOrdersPerDay
  {
    CrashSafeIntent(cfg, steps);
    CountedOurs(Run(cfg, INITIAL, steps).db.orders, cfg.day, d);
  }

  // ---------------------------------------------------------------- every order was checked

  /** In state `s` the ticket was let through, counting the day's rows, and the row is what it asked for. */
  ghost predicate Intended(cfg: Config, s: System, step: Step, r: OrderRow) {
    && step.Persist? && s.ready && !s.paused
    && step.ctx.ordersToday == |Since(s.db.orders, cfg.day, cfg.day(step.checkedAt))|
    && EveryRailHolds(step.ticket, step.ctx, cfg.rails)
    && r.symbol == step.ticket.symbol && r.side == step.ticket.side && r.qty == step.ticket.qty
    && r.mode == cfg.mode && r.submittedTs == step.now
  }

  lemma NewRowWasIntended(cfg: Config, s: System, step: Step, k: nat)
    requires |s.db.orders| <= k < |Next(cfg, s, step).db.orders|
    ensures var r := Next(cfg, s, step).db.orders[k];
      r.clientId.External? || Intended(cfg, s, step, r)
  {
    if step.Persist? {
      PassesExactlyWhen(step.ticket, step.ctx, cfg.rails);
      CountedSince(s.db.orders, cfg.day, cfg.day(step.checkedAt));
    }
  }

  lemma IntendedStays(cfg: Config, s: System, step: Step, r: OrderRow, r': OrderRow)
    requires Intended(cfg, s, step, r) && RowExtends(r, r')
    ensures Intended(cfg, s, step, r')
  {
  }

  ghost predicate IntendedAt(cfg: Config, s: System, steps: seq<Step>, n: nat, r: OrderRow) {
    n < |steps| && Intended(cfg, Run(cfg, s, steps[..n]), steps[n], r)
  }

  lemma LastStep(cfg: Config, s: System, steps: seq<Step>)
    requires steps != []
    ensures Run(cfg, s, steps) == Next(cfg, Run(cfg, s, steps[..|steps| - 1]), steps[|steps| - 1])
  {
    var n := |steps| - 1;
    assert steps == steps[..n] + [steps[n]];
    RunAppend(cfg, s, steps[..n], [steps[n]]);
    OneStep(cfg, Run(cfg, s, steps[..n]), steps[n]);
  }

  lemma RowBeforeLastStep(cfg: Config, s: System, steps: seq<Step>, k: nat)
    requires steps != [] && k < |Run(cfg, s, steps[..|steps| - 1]).db.orders|
    ensures k < |Run(cfg, s, steps).db.orders|
    ensures RowExtends(Run(cfg, s, steps[..|steps| - 1]).db.orders[k], Run(cfg, s, steps).db.orders[k])
  {
    LastStep(cfg, s, steps);
    NextExtends(cfg, Run(cfg, s, steps[..|steps| - 1]), steps[|steps| - 1]);
  }

  lemma RowOfLastStep(cfg: Config, s: System, steps: seq<Step>, k: nat)
    requires steps != [] && |Run(cfg, s, steps[..|steps| - 1]).db.orders| <= k < |Run(cfg, s, steps).db.orders|
    requires Run(cfg, s, steps).db.orders[k].clientId.Rekt?
    ensures IntendedAt(cfg, s, steps, |steps| - 1, Run(cfg, s, steps).db.orders[k])
  {
    LastStep(cfg, s, steps);
    NewRowWasIntended(cfg, Run(cfg, s, steps[..|steps| - 1]), steps[|steps| - 1], k);
  }

  lemma IntendedLater(cfg: Config, s: System, steps: seq<Step>, n: nat, r: OrderRow, r': OrderRow)
    requires steps != [] && IntendedAt(cfg, s, steps[..|steps| - 1], n, r) && RowExtends(r, r')
    ensures IntendedAt(cfg, s, steps, n, r')
  {
    assert steps[..|steps| - 1][..n] == steps[..n];
    IntendedStays(cfg, Run(cfg, s, steps[..n]), steps[n], r, r');
  }

  /** Every row of ours that a run adds was let through by one of its steps, with every rail holding at that moment. */
  lemma {:induction false} EveryOrderWasChecked(cfg: Config, s: System, steps: seq<Step>, k: nat)
    requires |s.db.orders| <= k < |Run(cfg, s, steps).db.orders|
    requires Run(cfg, s, steps).db.orders[k].clientId.Rekt?
    ensures exists n: nat :: IntendedAt(cfg, s, steps, n, Run(cfg, s, steps).db.orders[k])
    decreases |steps|
  {
    var front, r := steps[..|steps| - 1], Run(cfg, s, steps).db.orders[k];
    if k < |Run(cfg, s, front).db.orders| {
      RowBeforeLastStep(cfg, s, steps, k);
      EveryOrderWasChecked(cfg, s, front, k);
      var n: nat :| IntendedAt(cfg, s, front, n, Run(cfg, s, front).db.orders[k]);
      IntendedLater(cfg, s, steps, n, Run(cfg, s, front).db.orders[k], r);
    } else {
      RowOfLastStep(cfg, s, steps, k);
    }
  }

  // ---------------------------------------------------------------- locked and paused

  /** What a step does to the lock and to the pause switch. */
  lemma StepSwitches(cfg: Config, s: System, step: Step)
    ensures Next(cfg, s, step).ready <==> step == ReconcileDone || (s.ready && step != Crash)
    ensures Next(cfg, s, step).paused <==> step == SetPaused(true) || (s.paused && step != SetPaused(false))
  {
  }

  lemma {:induction false} StaysShut(cfg: Config, s: System, steps: seq<Step>)
    ensures !s.ready && ReconcileDone !in steps ==> !Run(cfg, s, steps).ready
    ensures s.paused && SetPaused(false) !in steps ==> Run(cfg, s, steps).paused
    decreases |steps|
  {
    if steps != [] {
      var n := |steps| - 1;
      StaysShut(cfg, s, steps[..n]);
      LastStep(cfg, s, steps);
      StepSwitches(cfg, Run(cfg, s, steps[..n]), steps[n]);
      assert steps[n] in steps;
    }
  }

  /** While trading is locked or paused, a run adds no row of ours. */
  lemma ShutMeansNoIntent(cfg: Config, s: System, steps: seq<Step>, k: nat)
    requires (!s.ready && ReconcileDone !in steps) || (s.paused && SetPaused(false) !in steps)
    requires |s.db.orders| <= k < |Run(cfg, s, steps).db.orders|
    ensures Run(cfg, s, steps).db.orders[k].clientId.External?
  {
    if Run(cfg, s, steps).db.orders[k].clientId.Rekt? {
      EveryOrderWasChecked(cfg, s, steps, k);
      var n: nat :| IntendedAt(cfg, s, steps, n, Run(cfg, s, steps).db.orders[k]);
      StaysShut(cfg, s, steps[..n]);
    }
  }

  lemma {:induction false} IdleSendsNothing(cfg: Config, s: System, steps: seq<Step>)
    requires !s.ready && s.tasks == map[] && ReconcileDone !in steps
    ensures Run(cfg, s, steps).submitted == s.submitted && Run(cfg, s, steps).tasks == map[]
    decreases |steps|
  {
    if steps != [] {
      var n := |steps| - 1;
      IdleSendsNothing(cfg, s, steps[..n]);
      StaysShut(cfg, s, steps[..n]);
      LastStep(cfg, s, steps);
    }
  }

  /** From a crash until a reconciliation has finished, nothing at all is sent to the broker. */
  lemma NothingIsSentAfterACrash(cfg: Config, s: System, steps: seq<Step>)
    requires ReconcileDone !in steps
    ensures Run(cfg, s, [Crash] + steps).submitted == s.submitted
  {
    RunAppend(cfg, s, [Crash], steps);
    OneStep(cfg, s, Crash);
    IdleSendsNothing(cfg, Next(cfg, s, Crash), steps);
  }
}
