/**
 * `computePnl` (`src/lib/calc.ts`): daily income and expenses from sales and purchase
 * amounts. Each amount is added into the entry of its date in a map; the entries are
 * then sorted by date and added up into the totals.
 */
module Calc {
  import opened Base
  import opened Ledger
  import opened Sort

  /** `{ date, sales }`; an amount that is missing (or zero) counts as 0. */
  datatype Sale = Sale(date: string, sales: Option<int>)

  /** `{ date, purchases }` */
  datatype Purchase = Purchase(date: string, purchases: Option<int>)

  /** One point of the series: `{ date, income, expenses }`. */
  datatype DayEntry = DayEntry(date: string, income: int, expenses: int)

  /** `{ series, income, expenses, grossProfit }` */
  datatype Pnl = Pnl(series: seq<DayEntry>, income: int, expenses: int, grossProfit: int)

  /** Each sale as an amount booked on its date: `s.sales || 0`. */
  function SalePostings(sales: seq<Sale>): seq<Posting> {
    seq(|sales|, i requires 0 <= i < |sales| => Posting(sales[i].date, sales[i].sales.GetOr(0)))
  }

  /** Each purchase as an amount booked on its date: `p.purchases || 0`. */
  function PurchasePostings(purchases: seq<Purchase>): seq<Posting> {
    seq(|purchases|, i requires 0 <= i < |purchases| => Posting(purchases[i].date, purchases[i].purchases.GetOr(0)))
  }

  /** The key of an entry: its date. */
  function DateOf(e: DayEntry): string {
    e.date
  }

  function IncomeOf(e: DayEntry): int {
    e.income
  }

  function ExpensesOf(e: DayEntry): int {
    e.expenses
  }

  /** `(a, b) => a.date.localeCompare(b.date)` */
  function ByDate(a: DayEntry, b: DayEntry): int {
    Compare(a.date, b.date)
  }

  /**
   * The map after both loops: an entry for every date that occurs, holding that date,
   * its sales and its purchases.
   */
  ghost predicate Tallied(byDate: map<string, DayEntry>, ins: seq<Posting>, outs: seq<Posting>) {
    && (forall d :: d in byDate <==> d in KeysOf(ins) || d in KeysOf(outs))
    && (forall d :: d in byDate ==> byDate[d] == DayEntry(d, SumAt(ins, d), SumAt(outs, d)))
  }

  /**
   * What `computePnl` promises of its series: one entry per date that occurs, in
   * strictly ascending date order, each holding that date's sales and purchases.
   */
  ghost predicate DailySeries(series: seq<DayEntry>, ins: seq<Posting>, outs: seq<Posting>) {
    && (forall i :: 0 <= i < |series| ==>
          series[i].income == SumAt(ins, series[i].date) && series[i].expenses == SumAt(outs, series[i].date))
    && (forall d :: d in KeySeq(series, DateOf) <==> d in KeysOf(ins) || d in KeysOf(outs))
    && (forall i, j :: 0 <= i < j < |series| ==> Less(series[i].date, series[j].date))
  }

  /** The tallied entries, listed once each and sorted by date, form the daily series. */
  lemma SortedEntries(byDate: map<string, DayEntry>, keys: seq<string>, ins: seq<Posting>, outs: seq<Posting>)
    requires Tallied(byDate, ins, outs)
    requires (forall k :: k in byDate <==> k in keys) && Distinct(keys)
    ensures DailySeries(SortBy(Values(byDate, keys), ByDate), ins, outs)
  {
    assert KeyedBy(byDate, DateOf);
    assert OrdersBy(ByDate, DateOf);
    SortedGroups(byDate, keys, ByDate, DateOf);
  }

  /** Over a daily series the totals are the totals of all sales and of all purchases. */
  lemma DailyTotals(series: seq<DayEntry>, ins: seq<Posting>, outs: seq<Posting>)
    requires DailySeries(series, ins, outs)
    ensures SumOf(series, IncomeOf) == Total(ins)
    ensures SumOf(series, ExpensesOf) == Total(outs)
  {
    GroupedTotal(series, IncomeOf, DateOf, ins);
    GroupedTotal(series, ExpensesOf, DateOf, outs);
  }

  /** The entry of `date` before anything more is added: the existing one, or an empty one. */
  function EntryOr(byDate: map<string, DayEntry>, date: string): DayEntry {
    if date in byDate then byDate[date] else DayEntry(date, 0, 0)
  }

  /** Adding sale `i` into its date's entry extends the tally by that sale. */
  lemma BookSale(byDate: map<string, DayEntry>, ins: seq<Posting>, i: int, e: DayEntry)
    requires 0 <= i < |ins|
    requires Tallied(byDate, ins[..i], [])
    requires var prev := EntryOr(byDate, ins[i].key);
      e == prev.(income := prev.income + ins[i].amount)
    ensures Tallied(byDate[ins[i].key := e], ins[..i + 1], [])
  {
    if ins[i].key !in byDate {
      SumAtAbsent(ins[..i], ins[i].key);
    }
    PrefixStep(ins, i);
  }

  /** Adding purchase `j` into its date's entry extends the tally by that purchase. */
  lemma BookPurchase(byDate: map<string, DayEntry>, ins: seq<Posting>, outs: seq<Posting>, j: int, e: DayEntry)
    requires 0 <= j < |outs|
    requires Tallied(byDate, ins, outs[..j])
    requires var prev := EntryOr(byDate, outs[j].key);
      e == prev.(expenses := prev.expenses + outs[j].amount)
    ensures Tallied(byDate[outs[j].key := e], ins, outs[..j + 1])
  {
    if outs[j].key !in byDate {
      SumAtAbsent(ins, outs[j].key);
      SumAtAbsent(outs[..j], outs[j].key);
    }
    PrefixStep(outs, j);
  }

  /** `sales.forEach(...)`: the map holding each date's sales (and no purchases yet). */
  method TallySales(sales: seq<Sale>) returns (byDate: map<string, DayEntry>)
    ensures Tallied(byDate, SalePostings(sales), [])
  {
    var ins := SalePostings(sales);
    byDate := map[];
    var i := 0;
    while i < |sales|
      invariant 0 <= i <= |sales|
      invariant Tallied(byDate, ins[..i], [])
    {
      var s := sales[i];
      var e := EntryOr(byDate, s.date);
      e := e.(income := e.income + s.sales.GetOr(0));
      assert ins[i] == Posting(s.date, s.sales.GetOr(0));
      BookSale(byDate, ins, i, e);
      byDate := byDate[s.date := e];
      i := i + 1;
    }
    assert ins[..i] == ins;
  }

  /** `purchases.forEach(...)`: adds each date's purchases into the map. */
  method TallyPurchases(byDate: map<string, DayEntry>, ins: seq<Posting>, purchases: seq<Purchase>)
    returns (tallied: map<string, DayEntry>)
    requires Tallied(byDate, ins, [])
    ensures Tallied(tallied, ins, PurchasePostings(purchases))
  {
    var outs := PurchasePostings(purchases);
    tallied := byDate;
    var j := 0;
    while j < |purchases|
      invariant 0 <= j <= |purchases|
      invariant Tallied(tallied, ins, outs[..j])
    {
      var p := purchases[j];
      var e := EntryOr(tallied, p.date);
      e := e.(expenses := e.expenses + p.purchases.GetOr(0));
      assert outs[j] == Posting(p.date, p.purchases.GetOr(0));
      BookPurchase(tallied, ins, outs, j, e);
      tallied := tallied[p.date := e];
      j := j + 1;
    }
    assert outs[..j] == outs;
  }

  /**
   * `computePnl(sales, purchases)`: one entry per date that occurs, holding that day's
   * sales and purchases, in ascending date order; the totals are the sums of all sales
   * and of all purchases, and the gross profit is their difference.
   */
  method ComputePnl(sales: seq<Sale>, purchases: seq<Purchase>) returns (r: Pnl)
    ensures DailySeries(r.series, SalePostings(sales), PurchasePostings(purchases))
    ensures r.income == Total(SalePostings(sales))
    ensures r.expenses == Total(PurchasePostings(purchases))
    ensures r.grossProfit == r.income - r.expenses
  {
    var ins := SalePostings(sales);
    var outs := PurchasePostings(purchases);
    var bySales := TallySales(sales);
    var byDate := TallyPurchases(bySales, ins, purchases);
    var keys := Enumerate(byDate);
    var series := SortBy(Values(byDate, keys), ByDate);
    SortedEntries(byDate, keys, ins, outs);
    DailyTotals(series, ins, outs);
    var income := SumOf(series, IncomeOf);
    var expenses := SumOf(series, ExpensesOf);
    r := Pnl(series, income, expenses, income - expenses);
  }
}
