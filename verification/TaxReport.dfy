/** Form 8949 rows and Schedule D totals for one year, and the two engines' grand totals. */
module TaxReport {
  import opened Sums
  import opened Log
  import opened TaxLots
  import opened WashSale
  import opened Selling
  import opened TaxLedger
  import opened TaxLaws
  import P = Portfolio
  import V = Verdicts

  datatype Row = Row(symbol: string, qty: real, acquired: int, sold: int, proceeds: real, basis: real, gain: real,
                     disallowed: real, washed: bool, longTerm: bool)

  datatype TermTotals = TermTotals(proceeds: real, basis: real, gain: real, disallowed: real, reportable: real)

  datatype Report = Report(short: TermTotals, long: TermTotals, rows: seq<Row>)

  /** The calendar year of a day, the first anniversary of a day, and rounding to the cent. */
  datatype Filing = Filing(year: int -> int, anniversary: int -> int, round2: real -> real)

  const ZERO := TermTotals(0.0, 0.0, 0.0, 0.0, 0.0)

  function RowOf(f: Filing, d: Disposal): Row {
    Row(d.symbol, d.qty, d.holdingFrom, d.sold, d.proceeds, d.basis, d.proceeds - d.basis, d.disallowed,
        d.disallowed > 0.0, d.sold > f.anniversary(d.holdingFrom))
  }

  /** The rows sold in `year`, in sale order. */
  function RowsIn(f: Filing, ds: seq<Disposal>, year: int): seq<Row> {
    if ds == [] then []
    else if f.year(ds[0].sold) == year then [RowOf(f, ds[0])] + RowsIn(f, ds[1..], year)
    else RowsIn(f, ds[1..], year)
  }

  /** Accumulate one row at filing precision: each column to the cent, then summed. */
  function Add(f: Filing, t: TermTotals, row: Row): TermTotals {
    var proceeds, basis, disallowed := f.round2(row.proceeds), f.round2(row.basis), f.round2(row.disallowed);
    TermTotals(t.proceeds + proceeds, t.basis + basis, t.gain + (proceeds - basis), t.disallowed + disallowed,
               t.reportable + (proceeds - basis + disallowed))
  }

  function AddAll(f: Filing, t: TermTotals, rows: seq<Row>, longTerm: bool): TermTotals
    decreases rows
  {
    if rows == [] then t
    else AddAll(f, if rows[0].longTerm == longTerm then Add(f, t, rows[0]) else t, rows[1..], longTerm)
  }

  /** What a preparer sums off the filed rows. */
  function FiledTotal(f: Filing, rows: seq<Row>): real {
    if rows == [] then 0.0
    else f.round2(rows[0].proceeds) - f.round2(rows[0].basis) + f.round2(rows[0].disallowed) + FiledTotal(f, rows[1..])
  }

  // ---------------------------------------------------------------- what a report is, without saying how it is built

  /** The row files this disposal: long-term when sold after the first anniversary of its acquisition. */
  predicate Files(f: Filing, d: Disposal, row: Row) {
    && row.symbol == d.symbol && row.qty == d.qty && row.acquired == d.holdingFrom && row.sold == d.sold
    && row.proceeds == d.proceeds && row.basis == d.basis && row.disallowed == d.disallowed
    && row.gain == row.proceeds - row.basis
    && (row.washed <==> row.disallowed > 0.0)
    && (row.longTerm <==> row.sold > f.anniversary(row.acquired))
  }

  /** The rows file exactly the disposals sold in the year, in their order; `at` says which. */
  ghost predicate FilesYear(f: Filing, ds: seq<Disposal>, year: int, rows: seq<Row>, at: seq<nat>) {
    && |at| == |rows|
    && (forall i, j :: 0 <= i < j < |at| ==> at[i] < at[j])
    && (forall k :: 0 <= k < |ds| && f.year(ds[k].sold) == year ==> k in at)
    && forall i :: 0 <= i < |at| ==>
         at[i] < |ds| && f.year(ds[at[i]].sold) == year && Files(f, ds[at[i]], rows[i])
  }

  datatype Cell = Proceeds | Basis | Gain | Disallowance | Reportable

  /** One column of a filed row, to the cent. */
  function Cents(f: Filing, row: Row, cell: Cell): real {
    match cell
    case Proceeds => f.round2(row.proceeds)
    case Basis => f.round2(row.basis)
    case Gain => f.round2(row.proceeds) - f.round2(row.basis)
    case Disallowance => f.round2(row.disallowed)
    case Reportable => f.round2(row.proceeds) - f.round2(row.basis) + f.round2(row.disallowed)
  }

  /** The sum of one column over the rows sold, or not sold, after the first anniversary of their acquisition. */
  function TermSum(f: Filing, rows: seq<Row>, after: bool, cell: Cell): real {
    if rows == [] then 0.0
    else
      var row := rows[0];
      (if (row.sold > f.anniversary(row.acquired)) == after then Cents(f, row, cell) else 0.0)
      + TermSum(f, rows[1..], after, cell)
  }

  ghost predicate TermIs(f: Filing, rows: seq<Row>, after: bool, t: TermTotals) {
    && t.proceeds == TermSum(f, rows, after, Proceeds) && t.basis == TermSum(f, rows, after, Basis)
    && t.gain == TermSum(f, rows, after, Gain) && t.disallowed == TermSum(f, rows, after, Disallowance)
    && t.reportable == TermSum(f, rows, after, Reportable)
  }

  /** The report of a year: the disposals of that year, and the sums of both terms over their rows. */
  ghost predicate ReportsYear(f: Filing, ds: seq<Disposal>, year: int, r: Report) {
    && (exists at :: FilesYear(f, ds, year, r.rows, at))
    && TermIs(f, r.rows, false, r.short) && TermIs(f, r.rows, true, r.long)
  }

  lemma FilesSnoc(f: Filing, ds: seq<Disposal>, year: int, rows: seq<Row>, at: seq<nat>, d: Disposal, row: Row)
    requires FilesYear(f, ds, year, rows, at) && f.year(d.sold) == year && Files(f, d, row)
    ensures FilesYear(f, ds + [d], year, rows + [row], at + [|ds|])
  {
    assert forall k :: 0 <= k < |ds| ==> (ds + [d])[k] == ds[k];
    assert forall k :: k in at ==> k in at + [|ds|];
    assert |ds| in at + [|ds|];
  }

  lemma OtherYearSnoc(f: Filing, ds: seq<Disposal>, year: int, rows: seq<Row>, at: seq<nat>, d: Disposal)
    requires FilesYear(f, ds, year, rows, at) && f.year(d.sold) != year
    ensures FilesYear(f, ds + [d], year, rows, at)
  {
    assert forall k :: 0 <= k < |ds| ==> (ds + [d])[k] == ds[k];
  }

  lemma RowsInSnoc(f: Filing, ds: seq<Disposal>, d: Disposal, year: int)
    ensures RowsIn(f, ds + [d], year) == RowsIn(f, ds, year) + if f.year(d.sold) == year then [RowOf(f, d)] else []
  {
    if ds == [] {
      assert ds + [d] == [d] && [d][1..] == [];
    } else {
      assert (ds + [d])[1..] == ds[1..] + [d];
      RowsInSnoc(f, ds[1..], d, year);
    }
  }

  lemma {:induction false} RowsFileYear(f: Filing, ds: seq<Disposal>, year: int) returns (at: seq<nat>)
    ensures FilesYear(f, ds, year, RowsIn(f, ds, year), at)
  {
    if ds == [] {
      at := [];
    } else {
      var n := |ds| - 1;
      at := RowsFileYear(f, ds[..n], year);
      assert ds == ds[..n] + [ds[n]];
      RowsInSnoc(f, ds[..n], ds[n], year);
      if f.year(ds[n].sold) == year {
        FilesSnoc(f, ds[..n], year, RowsIn(f, ds[..n], year), at, ds[n], RowOf(f, ds[n]));
        at := at + [n];
      } else {
        OtherYearSnoc(f, ds[..n], year, RowsIn(f, ds[..n], year), at, ds[n]);
      }
    }
  }

  /** Every row says itself which term it belongs to. */
  ghost predicate TermsRight(f: Filing, rows: seq<Row>) {
    forall i :: 0 <= i < |rows| ==> (rows[i].longTerm <==> rows[i].sold > f.anniversary(rows[i].acquired))
  }

  lemma {:induction false} AddAllSums(f: Filing, t: TermTotals, rows: seq<Row>, longTerm: bool)
    requires TermsRight(f, rows)
    ensures var r := AddAll(f, t, rows, longTerm);
      && r.proceeds == t.proceeds + TermSum(f, rows, longTerm, Proceeds)
      && r.basis == t.basis + TermSum(f, rows, longTerm, Basis)
      && r.gain == t.gain + TermSum(f, rows, longTerm, Gain)
      && r.disallowed == t.disallowed + TermSum(f, rows, longTerm, Disallowance)
      && r.reportable == t.reportable + TermSum(f, rows, longTerm, Reportable)
    decreases rows
  {
    if rows != [] {
      assert forall i :: 0 <= i < |rows| - 1 ==> rows[1..][i] == rows[i + 1];
      AddAllSums(f, if rows[0].longTerm == longTerm then Add(f, t, rows[0]) else t, rows[1..], longTerm);
    }
  }

  lemma ReportIsRight(f: Filing, ds: seq<Disposal>, year: int)
    ensures var rows := RowsIn(f, ds, year);
      ReportsYear(f, ds, year, Report(AddAll(f, ZERO, rows, false), AddAll(f, ZERO, rows, true), rows))
  {
    var rows := RowsIn(f, ds, year);
    var at := RowsFileYear(f, ds, year);
    AddAllSums(f, ZERO, rows, false);
    AddAllSums(f, ZERO, rows, true);
  }

  method BuildReport(rules: Rules, f: Filing, txs: seq<Tx>, year: int) returns (r: Result<Report>)
    ensures Disposals(rules, txs).Err? ==> r == Err(Disposals(rules, txs).error)
    ensures Disposals(rules, txs).Ok? ==>
              r.Ok? && ReportsYear(f, Disposals(rules, txs).value, year, r.value)
  {
    var disposals := TaxDisposals(rules, txs);
    if disposals.Err? {
      return Err(disposals.error);
    }
    var report := Tally(f, disposals.value, year);
    ReportIsRight(f, disposals.value, year);
    r := Ok(report);
  }

  lemma {:induction false} AddAllSnoc(f: Filing, t: TermTotals, rows: seq<Row>, row: Row, longTerm: bool)
    ensures AddAll(f, t, rows + [row], longTerm) ==
            if row.longTerm == longTerm then Add(f, AddAll(f, t, rows, longTerm), row)
            else AddAll(f, t, rows, longTerm)
    decreases rows
  {
    if rows == [] {
      assert [] + [row] == [row] && [row][1..] == [];
    } else {
      assert (rows + [row])[1..] == rows[1..] + [row];
      AddAllSnoc(f, if rows[0].longTerm == longTerm then Add(f, t, rows[0]) else t, rows[1..], row, longTerm);
    }
  }

  lemma RowsInCons(f: Filing, ds: seq<Disposal>, i: nat, year: int)
    requires i < |ds|
    ensures RowsIn(f, ds[i..], year) ==
            if f.year(ds[i].sold) == year then [RowOf(f, ds[i])] + RowsIn(f, ds[i + 1..], year)
            else RowsIn(f, ds[i + 1..], year)
  {
    assert ds[i..][0] == ds[i] && ds[i..][1..] == ds[i + 1..];
  }

  /** The totals of both terms over these rows. */
  function Totals(f: Filing, rows: seq<Row>): (TermTotals, TermTotals) {
    (AddAll(f, ZERO, rows, false), AddAll(f, ZERO, rows, true))
  }

  method FileRow(f: Filing, ghost rows: seq<Row>, short: TermTotals, long: TermTotals, row: Row)
    returns (short': TermTotals, long': TermTotals)
    requires (short, long) == Totals(f, rows)
    ensures (short', long') == Totals(f, rows + [row])
  {
    AddAllSnoc(f, ZERO, rows, row, false);
    AddAllSnoc(f, ZERO, rows, row, true);
    if row.longTerm {
      short', long' := short, Add(f, long, row);
    } else {
      short', long' := Add(f, short, row), long;
    }
  }

  lemma RowsMoveOver(rows: seq<Row>, row: Row, rest: seq<Row>)
    ensures rows + ([row] + rest) == (rows + [row]) + rest
  {
  }

  method Tally(f: Filing, ds: seq<Disposal>, year: int) returns (r: Report)
    ensures var rows := RowsIn(f, ds, year);
      r == Report(AddAll(f, ZERO, rows, false), AddAll(f, ZERO, rows, true), rows)
  {
    var short, long, rows := ZERO, ZERO, [];
    var i := 0;
    assert ds[0..] == ds;
    while i < |ds|
      invariant 0 <= i <= |ds|
      invariant RowsIn(f, ds, year) == rows + RowsIn(f, ds[i..], year)
      invariant (short, long) == Totals(f, rows)
    {
      RowsInCons(f, ds, i, year);
      if f.year(ds[i].sold) == year {
        var row := RowOf(f, ds[i]);
        short, long := FileRow(f, rows, short, long, row);
        RowsMoveOver(rows, row, RowsIn(f, ds[i + 1..], year));
        rows := rows + [row];
      }
      i := i + 1;
    }
    assert ds[i..] == [] && rows + RowsIn(f, [], year) == rows;
    return Report(short, long, rows);
  }

  lemma {:induction false} TermsAddUp(f: Filing, rows: seq<Row>)
    ensures TermSum(f, rows, false, Reportable) + TermSum(f, rows, true, Reportable) == FiledTotal(f, rows)
  {
    if rows != [] {
      TermsAddUp(f, rows[1..]);
    }
  }

  lemma {:induction false} TermConsistent(f: Filing, rows: seq<Row>, after: bool)
    ensures TermSum(f, rows, after, Reportable) ==
            TermSum(f, rows, after, Proceeds) - TermSum(f, rows, after, Basis) + TermSum(f, rows, after, Disallowance)
  {
    if rows != [] {
      TermConsistent(f, rows[1..], after);
    }
  }

  /** Schedule D is the sum of the filed rows: both terms together, and each term column by column. */
  lemma ScheduleDIsTheSumOfFiledRows(f: Filing, ds: seq<Disposal>, year: int, r: Report)
    requires ReportsYear(f, ds, year, r)
    ensures r.short.reportable + r.long.reportable == FiledTotal(f, r.rows)
    ensures r.short.reportable == r.short.proceeds - r.short.basis + r.short.disallowed
    ensures r.long.reportable == r.long.proceeds - r.long.basis + r.long.disallowed
  {
    TermsAddUp(f, r.rows);
    TermConsistent(f, r.rows, false);
    TermConsistent(f, r.rows, true);
  }

  // ---------------------------------------------------------------- grand totals

  function Realized(b: P.Book, s: string): real { P.PositionOf(b, s).realizedPnl }

  ghost function RealizedBy(b: P.Book, keys: set<string>): map<string, real> {
    map s | s in keys :: Realized(b, s)
  }

  ghost function ReportedBy(rows: seq<Disposal>, keys: set<string>): map<string, real> {
    map s | s in keys :: Column(rows, s, RowReported)
  }

  lemma {:induction false} ZeroTotal(m: map<string, real>)
    requires forall s :: s in m ==> m[s] == 0.0
    ensures Total(m) == 0.0
    decreases |m|
  {
    if m != map[] {
      var k :| k in m;
      TotalRemove(m, k);
      ZeroTotal(m - {k});
    }
  }

  lemma {:induction false} EventsTotal(txs: seq<Tx>, keys: set<string>)
    requires P.Replay(P.EMPTY, txs).Ok?
    requires forall i :: 0 <= i < |txs| && txs[i].Symbol().Some? ==> txs[i].Symbol().value in keys
    ensures var b := P.Replay(P.EMPTY, txs).value;
      Total(RealizedBy(b, keys)) == Sum(b.events, P.EventAmount)
  {
    if txs == [] {
      ZeroTotal(RealizedBy(P.EMPTY, keys));
    } else {
      var before, tx := txs[..|txs| - 1], txs[|txs| - 1];
      assert txs == before + [tx];
      P.ReplayAppend(P.EMPTY, before, [tx]);
      EventsTotal(before, keys);
      var b := P.Replay(P.EMPTY, before).value;
      EventsStep(b, tx, keys);
      assert P.Replay(P.EMPTY, txs) == Ok(P.Step(b, tx).book);
    }
  }

  lemma EventsStep(b: P.Book, tx: Tx, keys: set<string>)
    requires P.Step(b, tx).error.None? && (tx.Symbol().Some? ==> tx.Symbol().value in keys)
    ensures var r := P.Step(b, tx).book;
      Total(RealizedBy(r, keys)) - Sum(r.events, P.EventAmount) ==
      Total(RealizedBy(b, keys)) - Sum(b.events, P.EventAmount)
  {
    var r := P.Step(b, tx).book;
    if tx.kind == Sell {
      var sym := tx.Symbol().value;
      var pnl := tx.NetProceeds() - P.Consume(P.PositionOf(b, sym).lots, tx.qty).basis;
      SumSnoc(b.events, P.Event(tx.ts, pnl), P.EventAmount);
      assert RealizedBy(r, keys) == RealizedBy(b, keys)[sym := Realized(b, sym) + pnl];
      TotalUpdate(RealizedBy(b, keys), sym, Realized(b, sym) + pnl);
    } else {
      assert RealizedBy(r, keys) == RealizedBy(b, keys);
    }
  }

  lemma {:induction false} RowsTotal(rows: seq<Disposal>, keys: set<string>)
    requires forall i :: 0 <= i < |rows| ==> rows[i].symbol in keys
    ensures Total(ReportedBy(rows, keys)) == Sum(rows, RowReported)
  {
    if rows == [] {
      ZeroTotal(ReportedBy(rows, keys));
    } else {
      var sym := rows[0].symbol;
      RowsTotal(rows[1..], keys);
      var rest := ReportedBy(rows[1..], keys);
      assert ReportedBy(rows, keys) == rest[sym := rest[sym] + RowReported(rows[0])];
      TotalUpdate(rest, sym, rest[sym] + RowReported(rows[0]));
    }
  }

  lemma {:induction false} FlatLots(lots: seq<TaxLot>)
    requires Positive(lots) && Sum(lots, LotQty) <= 0.0
    ensures lots == []
  {
    if lots != [] {
      SumPositive(lots[1..]);
    }
  }

  lemma {:induction false} SumPositive(lots: seq<TaxLot>)
    requires Positive(lots)
    ensures Sum(lots, LotQty) >= 0.0
  {
    if lots != [] { SumPositive(lots[1..]); }
  }

  lemma {:induction false} BookSumPositive(lots: seq<P.Lot>)
    requires P.Positive(lots)
    ensures Sum(lots, P.LotQty) >= 0.0 && (lots != [] ==> Sum(lots, P.LotQty) > 0.0)
  {
    if lots != [] { BookSumPositive(lots[1..]); }
  }

  /** A symbol sold out completely: every deferred loss has re-emerged, and the engines agree on its profit. */
  lemma FlatSymbolAgrees(rules: Rules, txs: seq<Tx>, sym: string)
    requires LogOk(txs) && CalendarOk(rules) && P.Replay(P.EMPTY, txs).Ok?
    requires P.PositionOf(P.Replay(P.EMPTY, txs).value, sym).qty == 0.0
    ensures Disposals(rules, txs).Ok?
    ensures Column(Disposals(rules, txs).value, sym, RowReported) ==
            P.PositionOf(P.Replay(P.EMPTY, txs).value, sym).realizedPnl
  {
    var b := P.Replay(P.EMPTY, txs).value;
    V.SameReplay(rules, P.EMPTY, Start(rules, txs), txs) by {
      assert forall s: string :: V.SharesAgree(P.EMPTY, Start(rules, txs), s);
    }
    assert txs[..|txs|] == txs;
    var l := LedgerAt(rules, txs, |txs|).value;
    assert V.SharesAgree(b, l, sym) && P.GoodPosition(P.PositionOf(b, sym));
    FlatLots(LotsOf(l, sym));
    BookSumPositive(P.PositionOf(b, sym).lots);
    TaxableVersusEconomic(rules, txs, sym);
  }

  /** Once every position is flat, the whole tax report and the whole book report the same profit. */
  lemma AllFlatTotalsAgree(rules: Rules, txs: seq<Tx>)
    requires LogOk(txs) && CalendarOk(rules) && P.Replay(P.EMPTY, txs).Ok?
    requires forall s: string :: P.PositionOf(P.Replay(P.EMPTY, txs).value, s).qty == 0.0
    ensures Disposals(rules, txs).Ok?
    ensures Sum(Disposals(rules, txs).value, RowReported) ==
            Sum(P.Replay(P.EMPTY, txs).value.events, P.EventAmount)
  {
    V.SameVerdict(rules, txs);
    var b, rows := P.Replay(P.EMPTY, txs).value, Disposals(rules, txs).value;
    var keys := (set i | 0 <= i < |rows| :: rows[i].symbol)
              + (set i | 0 <= i < |txs| && txs[i].Symbol().Some? :: txs[i].Symbol().value);
    forall i | 0 <= i < |rows|
      ensures rows[i].symbol in keys
    {
    }
    RowsTotal(rows, keys);
    EventsTotal(txs, keys);
    forall s | s in keys
      ensures Column(rows, s, RowReported) == Realized(b, s)
    {
      FlatSymbolAgrees(rules, txs, s);
    }
    SameTotals(rows, b, keys);
  }

  lemma SameTotals(rows: seq<Disposal>, b: P.Book, keys: set<string>)
    requires forall s :: s in keys ==> Column(rows, s, RowReported) == Realized(b, s)
    ensures ReportedBy(rows, keys) == RealizedBy(b, keys)
  {
  }
}
