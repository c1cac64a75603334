/** The transaction log both engines replay, and the errors they share. */
module Log {

  /** Instants count nanoseconds from the epoch. */
  const NANOS_PER_HOUR := 3_600_000_000_000
  const NANOS_PER_DAY := 86_400_000_000_000

  datatype Option<+T> = None | Some(value: T)

  datatype Kind = Buy | Sell | Dividend | Split | Deposit | Withdrawal

  /**
   * One row of the log. For buys and sells `qty` is shares and `price` is per share; for a split `qty` is the
   * ratio; for dividends, deposits and withdrawals `price` is the cash amount. Symbols are already trimmed and
   * upper-cased; a blank one counts as missing.
   */
  datatype Tx = Tx(id: int, kind: Kind, symbol: Option<string>, qty: real, price: real,
                   fees: real, taxes: real, ts: int)
  {
    function Cost(): real { qty * price + fees + taxes }

    function NetProceeds(): real { qty * price - fees - taxes }

    function Symbol(): Option<string> {
      if symbol == Some("") then None else symbol
    }

    predicate IsFor(sym: string) { Symbol() == Some(sym) }
  }

  datatype Error =
    | MissingSymbol(id: int, kind: Kind)
    | Oversell(id: int, symbol: string, have: real, want: real)
    | BadSplitRatio(id: int, ratio: real)
    | NonPositive(id: int)

  datatype Result<+T> = Ok(value: T) | Err(error: Error)

  /** Replay order: by instant, ties broken by id. */
  predicate Before(a: Tx, b: Tx) {
    a.ts < b.ts || (a.ts == b.ts && a.id < b.id)
  }

  ghost predicate Ordered(txs: seq<Tx>) {
    forall i, j :: 0 <= i < j < |txs| ==> Before(txs[i], txs[j])
  }

  ghost predicate UniqueIds(txs: seq<Tx>) {
    forall i, j :: 0 <= i < j < |txs| ==> txs[i].id != txs[j].id
  }
}
