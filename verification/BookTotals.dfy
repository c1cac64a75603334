/** The book's cash, deposits and dividends as plain sums over the log, column by column, and why a log is refused. */
module BookTotals {
  import opened Log
  import opened Sums
  import opened Portfolio

  /** What one row moves in or out of cash, every column written out. */
  function CashMoved(tx: Tx): real {
    match tx.kind
    case Deposit => tx.price
    case Withdrawal => -tx.price
    case Dividend => tx.price
    case Buy => -(tx.qty * tx.price) - tx.fees - tx.taxes
    case Sell => tx.qty * tx.price - tx.fees - tx.taxes
    case Split => 0.0
  }

  function Deposited(tx: Tx): real { if tx.kind == Deposit then tx.price else 0.0 }

  function Withdrawn(tx: Tx): real { if tx.kind == Withdrawal then tx.price else 0.0 }

  /** The dividends the log pays on a symbol. */
  function DividendsPaid(txs: seq<Tx>, sym: string): real {
    if txs == [] then 0.0
    else (if txs[0].kind == Dividend && txs[0].symbol == Some(sym) then txs[0].price else 0.0)
         + DividendsPaid(txs[1..], sym)
  }

  lemma StepMoves(b: Book, tx: Tx, sym: string)
    requires Step(b, tx).error.None?
    ensures var r := Step(b, tx).book;
      && r.cash == b.cash + CashMoved(tx)
      && r.deposited == b.deposited + Deposited(tx) && r.withdrawn == b.withdrawn + Withdrawn(tx)
      && PositionOf(r, sym).dividends == PositionOf(b, sym).dividends + DividendsPaid([tx], sym)
  {
    assert [tx][1..] == [];
    CostWritten(tx);
  }

  lemma CostWritten(tx: Tx)
    ensures tx.Cost() == tx.qty * tx.price + tx.fees + tx.taxes
    ensures tx.NetProceeds() == tx.qty * tx.price - tx.fees - tx.taxes
  {
  }

  lemma {:induction false} ReplayMoves(b: Book, txs: seq<Tx>, sym: string)
    requires Replay(b, txs).Ok?
    ensures var r := Replay(b, txs).value;
      && r.cash == b.cash + Sum(txs, CashMoved)
      && r.deposited == b.deposited + Sum(txs, Deposited) && r.withdrawn == b.withdrawn + Sum(txs, Withdrawn)
      && PositionOf(r, sym).dividends == PositionOf(b, sym).dividends + DividendsPaid(txs, sym)
    decreases txs
  {
    if txs != [] {
      StepMoves(b, txs[0], sym);
      assert [txs[0]][1..] == [];
      ReplayMoves(Step(b, txs[0]).book, txs[1..], sym);
    }
  }

  /**
   * After any log that replays: cash is the signed sum of everything the log moves, deposits and withdrawals are the
   * sums of theirs, and each symbol's dividends are what the log paid on it.
   */
  lemma BookIsTheSumOfTheLog(txs: seq<Tx>, sym: string)
    requires Replay(EMPTY, txs).Ok?
    ensures var b := Replay(EMPTY, txs).value;
      && b.cash == Sum(txs, CashMoved)
      && b.deposited == Sum(txs, Deposited) && b.withdrawn == Sum(txs, Withdrawn)
      && PositionOf(b, sym).dividends == DividendsPaid(txs, sym)
  {
    ReplayMoves(EMPTY, txs, sym);
  }

  // ---------------------------------------------------------------- why a log is refused

  /** The error names what is wrong with this row over this book. */
  predicate Justified(e: Error, b: Book, tx: Tx) {
    match e
    case MissingSymbol(id, kind) =>
      && id == tx.id && kind == tx.kind && tx.kind != Deposit && tx.kind != Withdrawal
      && (tx.symbol == None || tx.symbol == Some(""))
    case BadSplitRatio(id, ratio) => id == tx.id && tx.kind == Split && ratio == tx.qty && ratio <= 0.0
    case NonPositive(id) => id == tx.id && (tx.kind == Buy || tx.kind == Sell) && tx.qty <= 0.0
    case Oversell(id, sym, have, want) =>
      && id == tx.id && tx.kind == Sell && tx.symbol == Some(sym) && want == tx.qty && want > have
      && have == if sym in b.positions then b.positions[sym].qty else 0.0
  }

  /** A row is refused exactly when it has a cause, and a refused row leaves at most an empty position behind. */
  lemma RefusedForCause(b: Book, tx: Tx)
    ensures var s := Step(b, tx);
      && (s.error.Some? ==> Justified(s.error.value, b, tx))
      && (s.error.None? ==> forall e :: !Justified(e, b, tx))
      && (s.error.Some? ==>
            s.book == if s.error.value.Oversell?
                      then b.(positions := b.positions[s.error.value.symbol := PositionOf(b, s.error.value.symbol)])
                      else b)
  {
  }

  /** A log that does not replay stops at a row with a cause, over the book of the rows before it. */
  lemma RefusedLog(txs: seq<Tx>)
    requires Replay(EMPTY, txs).Err?
    ensures var n := Reach(EMPTY, txs);
      Replay(EMPTY, txs[..n]).Ok? && Justified(Replay(EMPTY, txs).error, Replay(EMPTY, txs[..n]).value, txs[n])
  {
    var n := Reach(EMPTY, txs);
    RefusedForCause(Replay(EMPTY, txs[..n]).value, txs[n]);
  }
}
