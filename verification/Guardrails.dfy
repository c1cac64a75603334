/** The rails every order ticket must pass before its intent is persisted. */
module Guardrails {
  import opened Log
  import P = Portfolio

  datatype Side = BuySide | SellSide

  datatype OrderType = Market | Limit

  datatype Ticket = Ticket(symbol: string, side: Side, orderType: OrderType, qty: real, limitPrice: Option<real>)

  datatype Rails = Rails(maxOrderNotional: real, maxPositionPct: real, maxOrdersPerDay: nat, maxDailyLoss: Option<real>)

  datatype Context = Context(basis: P.Book, lastPrice: Option<real>, equity: real, ordersToday: nat,
                             realizedToday: real, paused: bool)

  datatype Violation =
    | TradingPaused
    | NonPositiveQty
    | MissingLimitPrice
    | UnexpectedLimitPrice
    | NoPrice
    | NotionalCap
    | LongOnly(have: real, want: real)
    | PositionCap
    | DailyCap
    | DailyLossBreaker

  datatype Verdict = Pass(notional: real) | Refuse(why: Violation)

  function CheckShape(orderType: OrderType, qty: real, limitPrice: Option<real>): Option<Violation> {
    if qty <= 0.0 then Some(NonPositiveQty)
    else if orderType == Limit && (limitPrice.None? || limitPrice.value <= 0.0) then Some(MissingLimitPrice)
    else if orderType == Market && limitPrice.Some? then Some(UnexpectedLimitPrice)
    else None
  }

  function ReferencePrice(t: Ticket, lastPrice: Option<real>): Option<real> {
    if t.orderType == Limit then t.limitPrice else lastPrice
  }

  predicate BreakerTripped(t: Ticket, ctx: Context, rails: Rails) {
    t.side == BuySide && rails.maxDailyLoss.Some? && ctx.realizedToday <= -rails.maxDailyLoss.value
  }

  function PositionPct(held: real, qty: real, price: real, equity: real): real
    requires equity > 0.0
  {
    (held + qty) * price / equity * 100.0
  }

  /** The rails in the order they are checked; the notional is returned before rounding. */
  function CheckTicket(t: Ticket, ctx: Context, rails: Rails): Verdict {
    var shape := CheckShape(t.orderType, t.qty, t.limitPrice);
    var price := ReferencePrice(t, ctx.lastPrice);
    var held := P.PositionOf(ctx.basis, t.symbol).qty;
    if ctx.paused then Refuse(TradingPaused)
    else if BreakerTripped(t, ctx, rails) then Refuse(DailyLossBreaker)
    else if shape.Some? then Refuse(shape.value)
    else if ctx.ordersToday >= rails.maxOrdersPerDay then Refuse(DailyCap)
    else if price.None? then Refuse(NoPrice)
    else if price.value * t.qty > rails.maxOrderNotional then Refuse(NotionalCap)
    else if t.side == SellSide && t.qty > held then Refuse(LongOnly(held, t.qty))
    else if t.side == BuySide && ctx.equity > 0.0
            && PositionPct(held, t.qty, price.value, ctx.equity) > rails.maxPositionPct then Refuse(PositionCap)
    else Pass(price.value * t.qty)
  }

  lemma CapByProduct(held: real, qty: real, price: real, equity: real, pct: real)
    requires equity > 0.0
    ensures PositionPct(held, qty, price, equity) <= pct <==> (held + qty) * price * 100.0 <= pct * equity
  {
    var ratio := (held + qty) * price / equity;
    assert ratio * equity == (held + qty) * price;
    MulOrder(ratio * 100.0, pct, equity);
  }

  lemma MulOrder(a: real, b: real, c: real)
    requires c > 0.0
    ensures a <= b <==> a * c <= b * c
  {
    if a <= b {
      assert (b - a) * c >= 0.0;
    } else {
      assert (a - b) * c > 0.0;
    }
  }

  /** A buy neither follows too large a loss today nor makes the position too large a part of equity. */
  predicate WithinBuyRails(t: Ticket, ctx: Context, rails: Rails)
    requires if t.orderType == Limit then t.limitPrice.Some? else ctx.lastPrice.Some?
  {
    var price := if t.orderType == Limit then t.limitPrice.value else ctx.lastPrice.value;
    && (rails.maxDailyLoss.Some? ==> ctx.realizedToday + rails.maxDailyLoss.value > 0.0)
    && (ctx.equity > 0.0 ==>
          (P.PositionOf(ctx.basis, t.symbol).qty + t.qty) * price * 100.0 <= rails.maxPositionPct * ctx.equity)
  }

  /** Every rail, each on its own: no order of checking and no quotient. */
  predicate EveryRailHolds(t: Ticket, ctx: Context, rails: Rails) {
    && !ctx.paused && t.qty > 0.0 && ctx.ordersToday < rails.maxOrdersPerDay
    && (t.orderType == Limit ==> t.limitPrice.Some? && t.limitPrice.value > 0.0)
    && (t.orderType != Limit ==> t.limitPrice.None? && ctx.lastPrice.Some?)
    && t.qty * (if t.orderType == Limit then t.limitPrice.value else ctx.lastPrice.value) <= rails.maxOrderNotional
    && (t.side == SellSide ==> t.qty <= P.PositionOf(ctx.basis, t.symbol).qty)
    && (t.side == BuySide ==> WithinBuyRails(t, ctx, rails))
  }

  /** A ticket passes exactly when every rail holds on its own, whatever the order they are checked in. */
  lemma PassesExactlyWhen(t: Ticket, ctx: Context, rails: Rails)
    ensures CheckTicket(t, ctx, rails).Pass? <==> EveryRailHolds(t, ctx, rails)
  {
    var price, held := ReferencePrice(t, ctx.lastPrice), P.PositionOf(ctx.basis, t.symbol).qty;
    if ctx.equity > 0.0 && price.Some? {
      CapByProduct(held, t.qty, price.value, ctx.equity, rails.maxPositionPct);
    }
  }

  // ---------------------------------------------------------------- the reason given

  /** The price a ticket is judged at: its own limit, or the last one seen. */
  predicate JudgedAt(t: Ticket, ctx: Context, price: real) {
    if t.orderType == Limit then t.limitPrice == Some(price) else ctx.lastPrice == Some(price)
  }

  /** A rail is broken, whatever the others say. */
  ghost predicate Broken(t: Ticket, ctx: Context, rails: Rails, why: Violation) {
    var held := P.PositionOf(ctx.basis, t.symbol).qty;
    match why
    case TradingPaused => ctx.paused
    case DailyLossBreaker =>
      t.side == BuySide && rails.maxDailyLoss.Some? && ctx.realizedToday + rails.maxDailyLoss.value <= 0.0
    case NonPositiveQty => t.qty <= 0.0
    case MissingLimitPrice => t.orderType == Limit && !exists price :: JudgedAt(t, ctx, price) && price > 0.0
    case UnexpectedLimitPrice => t.orderType == Market && t.limitPrice.Some?
    case DailyCap => ctx.ordersToday >= rails.maxOrdersPerDay
    case NoPrice => !exists price :: JudgedAt(t, ctx, price)
    case NotionalCap => exists price :: JudgedAt(t, ctx, price) && t.qty * price > rails.maxOrderNotional
    case LongOnly(have, want) => t.side == SellSide && have == held && want == t.qty && want > have
    case PositionCap =>
      t.side == BuySide && ctx.equity > 0.0
      && exists price ::
           JudgedAt(t, ctx, price) && (held + t.qty) * price * 100.0 > rails.maxPositionPct * ctx.equity
  }

  /** Rails in the order in which they are looked at. */
  function Turn(why: Violation): nat {
    match why
    case TradingPaused => 0
    case DailyLossBreaker => 1
    case NonPositiveQty => 2
    case MissingLimitPrice => 3
    case UnexpectedLimitPrice => 4
    case DailyCap => 5
    case NoPrice => 6
    case NotionalCap => 7
    case LongOnly(_, _) => 8
    case PositionCap => 9
  }

  /** The reason for a refusal: a broken rail with none broken before it. */
  ghost predicate Reason(t: Ticket, ctx: Context, rails: Rails, why: Violation) {
    Broken(t, ctx, rails, why) && forall w :: Turn(w) < Turn(why) ==> !Broken(t, ctx, rails, w)
  }

  lemma RefusedEarly(t: Ticket, ctx: Context, rails: Rails)
    requires CheckTicket(t, ctx, rails).Refuse? && Turn(CheckTicket(t, ctx, rails).why) <= 6
    ensures Reason(t, ctx, rails, CheckTicket(t, ctx, rails).why)
  {
    var price := ReferencePrice(t, ctx.lastPrice);
    assert price.Some? ==> JudgedAt(t, ctx, price.value);
  }

  lemma NoEarlyRail(t: Ticket, ctx: Context, rails: Rails, price: real, w: Violation)
    requires !ctx.paused && !BreakerTripped(t, ctx, rails) && CheckShape(t.orderType, t.qty, t.limitPrice).None?
    requires ctx.ordersToday < rails.maxOrdersPerDay && JudgedAt(t, ctx, price) && Turn(w) <= 6
    ensures !Broken(t, ctx, rails, w)
  {
  }

  lemma RefusedLate(t: Ticket, ctx: Context, rails: Rails, price: real)
    requires CheckTicket(t, ctx, rails).Refuse? && Turn(CheckTicket(t, ctx, rails).why) > 6
    requires ReferencePrice(t, ctx.lastPrice) == Some(price)
    ensures Reason(t, ctx, rails, CheckTicket(t, ctx, rails).why)
  {
    var why, held := CheckTicket(t, ctx, rails).why, P.PositionOf(ctx.basis, t.symbol).qty;
    assert JudgedAt(t, ctx, price);
    forall w | Turn(w) <= 6 ensures !Broken(t, ctx, rails, w) {
      NoEarlyRail(t, ctx, rails, price, w);
    }
    if why.PositionCap? {
      CapByProduct(held, t.qty, price, ctx.equity, rails.maxPositionPct);
    }
  }

  lemma RefusedForABrokenRail(t: Ticket, ctx: Context, rails: Rails)
    requires CheckTicket(t, ctx, rails).Refuse?
    ensures Reason(t, ctx, rails, CheckTicket(t, ctx, rails).why)
  {
    if Turn(CheckTicket(t, ctx, rails).why) <= 6 {
      RefusedEarly(t, ctx, rails);
    } else {
      RefusedLate(t, ctx, rails, ReferencePrice(t, ctx.lastPrice).value);
    }
  }

  /** A refused ticket names the first rail it breaks, and a passed one carries quantity times price. */
  lemma RefusesTheFirst(t: Ticket, ctx: Context, rails: Rails, why: Violation, notional: real)
    ensures CheckTicket(t, ctx, rails) == Refuse(why) <==> Reason(t, ctx, rails, why)
    ensures CheckTicket(t, ctx, rails) == Pass(notional) <==>
            EveryRailHolds(t, ctx, rails) && exists price :: JudgedAt(t, ctx, price) && notional == t.qty * price
  {
    PassesExactlyWhen(t, ctx, rails);
    var price := ReferencePrice(t, ctx.lastPrice);
    assert price.Some? ==> JudgedAt(t, ctx, price.value);
    var verdict := CheckTicket(t, ctx, rails);
    if verdict.Refuse? {
      RefusedForABrokenRail(t, ctx, rails);
    } else if Reason(t, ctx, rails, why) {
      BrokenMeansNoPass(t, ctx, rails, why);
    }
  }

  lemma BrokenMeansNoPass(t: Ticket, ctx: Context, rails: Rails, why: Violation)
    requires Broken(t, ctx, rails, why)
    ensures !EveryRailHolds(t, ctx, rails)
  {
    var price := ReferencePrice(t, ctx.lastPrice);
    assert price.Some? ==> JudgedAt(t, ctx, price.value);
  }
}
