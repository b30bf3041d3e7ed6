/**
 * `buildMonthlyPnl` (`src/lib/reporting.ts`): the monthly profit and loss report. It
 * lists the invoices, purchases and items; books each invoice's total as income and
 * the purchase cost of its lines as cost of goods sold under the invoice's month, and
 * each purchase's total as operating expense under its month; then lists the months
 * in order and adds them up.
 */
module Reporting {
  import opened Base
  import opened Records
  import opened Store
  import opened Ledger
  import opened Sort

  /**
   * `ym(d)`: the `YYYY-MM` of a stored timestamp, or of `now` when there is none. Dates
   * are stored as `toISOString` writes them, so re-serialising one changes nothing.
   */
  function Month(date: Option<DateTime>, now: DateTime): string {
    (if date.Some? then date.value else now).day[..7]
  }

  /** `new Map(items.map(i => [i.id, i]))`: each item under its id, a later one winning. */
  function ItemsById(items: seq<Row>): (m: map<string, Row>)
    ensures forall k :: k in m <==> exists i :: 0 <= i < |items| && items[i].id == Some(k)
  {
    if items == [] then map[]
    else
      var front := items[..|items| - 1];
      var last := items[|items| - 1];
      assert forall i :: 0 <= i < |front| ==> front[i] == items[i];
      var m := ItemsById(front);
      if last.id.Some? then m[last.id.value := last] else m
  }

  /** With distinct ids, every item is found under its own id. */
  lemma {:induction false} ItemsByIdFinds(items: seq<Row>)
    requires forall i, j :: 0 <= i < j < |items| ==> items[i].id != items[j].id
    ensures forall i :: 0 <= i < |items| && items[i].id.Some? ==> ItemsById(items)[items[i].id.value] == items[i]
  {
    if items != [] {
      var front := items[..|items| - 1];
      ItemsByIdFinds(front);
      forall i | 0 <= i < |items| - 1 && items[i].id.Some?
        ensures ItemsById(items)[items[i].id.value] == items[i]
      {
        assert front[i] == items[i];
      }
    }
  }

  /** Built from a listing of a table whose rows sit under their own ids, the map is the table. */
  lemma ItemsByIdOfListing(rows: seq<Row>, table: map<string, Row>)
    requires Listing(rows, table)
    requires forall k :: k in table ==> table[k].id == Some(k)
    ensures ItemsById(rows) == table
  {
    ItemsByIdFinds(rows);
    var m := ItemsById(rows);
    forall k | k in table ensures k in m && m[k] == table[k] {
      var i :| 0 <= i < |rows| && rows[i] == table[k];
      assert rows[i].id == Some(k);
    }
    forall k | k in m ensures k in table {
      var i :| 0 <= i < |rows| && rows[i].id == Some(k);
    }
  }

  /**
   * The cost of one invoice line: the purchase price of the item it names times its
   * quantity, with a missing item, price or quantity counting as 0.
   */
  function LineCost(l: Line, items: map<string, Row>): int {
    var item := if Truthy(l.itemId) then Lookup(items, l.itemId.value) else None;
    var price := if item.Some? then item.value.purchasePrice.GetOr(0) else 0;
    price * l.qty.GetOr(0)
  }

  /** `(inv.lines || []).reduce(...)`: the cost of goods sold of one invoice. */
  function InvoiceCogs(lines: seq<Line>, items: map<string, Row>): int {
    if lines == [] then 0 else InvoiceCogs(lines[..|lines| - 1], items) + LineCost(lines[|lines| - 1], items)
  }

  /** The cost of two runs of lines is the sum of their costs. */
  lemma {:induction false} InvoiceCogsAppend(a: seq<Line>, b: seq<Line>, items: map<string, Row>)
    ensures InvoiceCogs(a + b, items) == InvoiceCogs(a, items) + InvoiceCogs(b, items)
  {
    if b == [] {
      assert a + b == a;
    } else {
      var front := b[..|b| - 1];
      assert (a + b)[..|a + b| - 1] == a + front;
      assert (a + b)[|a + b| - 1] == b[|b| - 1];
      InvoiceCogsAppend(a, front, items);
    }
  }

  /** Lines that name no known item cost nothing. */
  lemma {:induction false} UnknownItemsCostNothing(lines: seq<Line>, items: map<string, Row>)
    requires forall i :: 0 <= i < |lines| ==> !Truthy(lines[i].itemId) || lines[i].itemId.value !in items
    ensures InvoiceCogs(lines, items) == 0
  {
    if lines != [] {
      UnknownItemsCostNothing(lines[..|lines| - 1], items);
    }
  }

  /** With no negative purchase price or quantity, the cost of goods sold is not negative. */
  lemma {:induction false} InvoiceCogsNonNegative(lines: seq<Line>, items: map<string, Row>)
    requires forall k :: k in items ==> items[k].purchasePrice.GetOr(0) >= 0
    requires forall i :: 0 <= i < |lines| ==> lines[i].qty.GetOr(0) >= 0
    ensures InvoiceCogs(lines, items) >= 0
  {
    if lines != [] {
      InvoiceCogsNonNegative(lines[..|lines| - 1], items);
      var l := lines[|lines| - 1];
      assert LineCost(l, items) >= 0 by {
        if Truthy(l.itemId) && l.itemId.value in items {
          var price := items[l.itemId.value].purchasePrice.GetOr(0);
          assert price >= 0 && l.qty.GetOr(0) >= 0;
        }
      }
    }
  }

  /** Each invoice's total booked under its month: `inv.total || 0`. */
  function IncomePostings(invoices: seq<Row>, now: DateTime): seq<Posting> {
    seq(|invoices|, i requires 0 <= i < |invoices| => Posting(Month(invoices[i].date, now), invoices[i].total.GetOr(0)))
  }

  /** Each invoice's cost of goods sold booked under its month. */
  function CogsPostings(invoices: seq<Row>, items: map<string, Row>, now: DateTime): seq<Posting> {
    seq(|invoices|, i requires 0 <= i < |invoices| =>
      Posting(Month(invoices[i].date, now), InvoiceCogs(invoices[i].lines.GetOr([]), items)))
  }

  /** Each purchase's total booked under its month: `p.total || 0`. */
  function OpexPostings(purchases: seq<Row>, now: DateTime): seq<Posting> {
    seq(|purchases|, i requires 0 <= i < |purchases| => Posting(Month(purchases[i].date, now), purchases[i].total.GetOr(0)))
  }

  /** One month of the series: `{ date, income, cogs, opex }`, `date` being `YYYY-MM`. */
  datatype MonthEntry = MonthEntry(date: string, income: int, cogs: int, opex: int)

  /** One point of `incomeExpenses`: `{ date, income, expenses }`. */
  datatype ChartPoint = ChartPoint(date: string, income: int, expenses: int)

  /** The report `buildMonthlyPnl` returns. */
  datatype MonthlyPnl = MonthlyPnl(
    series: seq<MonthEntry>, income: int, cogs: int, opex: int, expenses: int,
    grossProfit: int, netProfit: int, incomeExpenses: seq<ChartPoint>)

  function MonthOf(e: MonthEntry): string {
    e.date
  }

  function IncomeOf(e: MonthEntry): int {
    e.income
  }

  function CogsOf(e: MonthEntry): int {
    e.cogs
  }

  function OpexOf(e: MonthEntry): int {
    e.opex
  }

  /** `(a, b) => a.date.localeCompare(b.date)` */
  function ByMonth(a: MonthEntry, b: MonthEntry): int {
    Compare(a.date, b.date)
  }

  /** `series.map(e => ({ date, income, expenses: e.cogs + e.opex }))` */
  function IncomeExpenses(series: seq<MonthEntry>): seq<ChartPoint> {
    seq(|series|, i requires 0 <= i < |series| => ChartPoint(series[i].date, series[i].income, series[i].cogs + series[i].opex))
  }

  /**
   * The map after both loops: an entry for every month that occurs, holding that month,
   * its income, its cost of goods sold and its operating expenses.
   */
  ghost predicate Tallied(byMonth: map<string, MonthEntry>, incs: seq<Posting>, cogs: seq<Posting>, opex: seq<Posting>) {
    && (forall d :: d in byMonth <==> d in KeysOf(incs) || d in KeysOf(cogs) || d in KeysOf(opex))
    && (forall d :: d in byMonth ==> byMonth[d] == MonthEntry(d, SumAt(incs, d), SumAt(cogs, d), SumAt(opex, d)))
  }

  /**
   * What the report promises of its series: one entry per month that occurs, in strictly
   * ascending order, each holding that month's income, cost of goods sold and expenses.
   */
  ghost predicate MonthlySeries(series: seq<MonthEntry>, incs: seq<Posting>, cogs: seq<Posting>, opex: seq<Posting>) {
    && (forall i :: 0 <= i < |series| ==>
          && series[i].income == SumAt(incs, series[i].date)
          && series[i].cogs == SumAt(cogs, series[i].date)
          && series[i].opex == SumAt(opex, series[i].date))
    && (forall d :: d in KeySeq(series, MonthOf) <==> d in KeysOf(incs) || d in KeysOf(cogs) || d in KeysOf(opex))
    && (forall i, j :: 0 <= i < j < |series| ==> Less(series[i].date, series[j].date))
  }

  /** The tallied entries, listed once each and sorted by month, form the monthly series. */
  lemma SortedMonths(byMonth: map<string, MonthEntry>, keys: seq<string>,
                     incs: seq<Posting>, cogs: seq<Posting>, opex: seq<Posting>)
    requires Tallied(byMonth, incs, cogs, opex)
    requires (forall k :: k in byMonth <==> k in keys) && Distinct(keys)
    ensures MonthlySeries(SortBy(Values(byMonth, keys), ByMonth), incs, cogs, opex)
  {
    assert KeyedBy(byMonth, MonthOf);
    assert OrdersBy(ByMonth, MonthOf);
    SortedGroups(byMonth, keys, ByMonth, MonthOf);
  }

  /** Over a monthly series the column totals are the totals of all bookings. */
  lemma MonthlyTotals(series: seq<MonthEntry>, incs: seq<Posting>, cogs: seq<Posting>, opex: seq<Posting>)
    requires MonthlySeries(series, incs, cogs, opex)
    ensures SumOf(series, IncomeOf) == Total(incs)
    ensures SumOf(series, CogsOf) == Total(cogs)
    ensures SumOf(series, OpexOf) == Total(opex)
  {
    GroupedTotal(series, IncomeOf, MonthOf, incs);
    GroupedTotal(series, CogsOf, MonthOf, cogs);
    GroupedTotal(series, OpexOf, MonthOf, opex);
  }

  /** The entry of `key` before anything more is added: the existing one, or an empty one. */
  function EntryOr(byMonth: map<string, MonthEntry>, key: string): MonthEntry {
    if key in byMonth then byMonth[key] else MonthEntry(key, 0, 0, 0)
  }

  /** Adding invoice `i` into its month's entry extends the tally by that invoice. */
  lemma BookInvoice(byMonth: map<string, MonthEntry>, incs: seq<Posting>, cogs: seq<Posting>, i: int, e: MonthEntry)
    requires 0 <= i < |incs| == |cogs| && incs[i].key == cogs[i].key
    requires Tallied(byMonth, incs[..i], cogs[..i], [])
    requires var prev := EntryOr(byMonth, incs[i].key);
      e == prev.(income := prev.income + incs[i].amount, cogs := prev.cogs + cogs[i].amount)
    ensures Tallied(byMonth[incs[i].key := e], incs[..i + 1], cogs[..i + 1], [])
  {
    var key := incs[i].key;
    if key !in byMonth {
      SumAtAbsent(incs[..i], key);
      SumAtAbsent(cogs[..i], key);
    }
    PrefixStep(incs, i);
    PrefixStep(cogs, i);
  }

  /** Adding purchase `j` into its month's entry extends the tally by that purchase. */
  lemma BookPurchase(byMonth: map<string, MonthEntry>, incs: seq<Posting>, cogs: seq<Posting>,
                     opex: seq<Posting>, j: int, e: MonthEntry)
    requires 0 <= j < |opex|
    requires Tallied(byMonth, incs, cogs, opex[..j])
    requires var prev := EntryOr(byMonth, opex[j].key);
      e == prev.(opex := prev.opex + opex[j].amount)
    ensures Tallied(byMonth[opex[j].key := e], incs, cogs, opex[..j + 1])
  {
    var key := opex[j].key;
    if key !in byMonth {
      SumAtAbsent(incs, key);
      SumAtAbsent(cogs, key);
      SumAtAbsent(opex[..j], key);
    }
    PrefixStep(opex, j);
  }

  /** `invoices.forEach(...)`: each month's income and cost of goods sold. */
  method TallyInvoices(invoices: seq<Row>, items: map<string, Row>, now: DateTime)
    returns (byMonth: map<string, MonthEntry>)
    ensures Tallied(byMonth, IncomePostings(invoices, now), CogsPostings(invoices, items, now), [])
  {
    var incs := IncomePostings(invoices, now);
    var cogs := CogsPostings(invoices, items, now);
    byMonth := map[];
    var i := 0;
    while i < |invoices|
      invariant 0 <= i <= |invoices|
      invariant Tallied(byMonth, incs[..i], cogs[..i], [])
    {
      var inv := invoices[i];
      var key := Month(inv.date, now);
      var e := EntryOr(byMonth, key);
      e := e.(income := e.income + inv.total.GetOr(0));
      var cost := InvoiceCogs(inv.lines.GetOr([]), items);
      e := e.(cogs := e.cogs + cost);
      assert incs[i] == Posting(key, inv.total.GetOr(0)) && cogs[i] == Posting(key, cost);
      BookInvoice(byMonth, incs, cogs, i, e);
      byMonth := byMonth[key := e];
      i := i + 1;
    }
    assert incs[..i] == incs && cogs[..i] == cogs;
  }

  /** `purchases.forEach(...)`: adds each month's operating expenses into the map. */
  method TallyPurchases(byMonth: map<string, MonthEntry>, incs: seq<Posting>, cogs: seq<Posting>,
                        purchases: seq<Row>, now: DateTime)
    returns (tallied: map<string, MonthEntry>)
    requires Tallied(byMonth, incs, cogs, [])
    ensures Tallied(tallied, incs, cogs, OpexPostings(purchases, now))
  {
    var opex := OpexPostings(purchases, now);
    tallied := byMonth;
    var j := 0;
    while j < |purchases|
      invariant 0 <= j <= |purchases|
      invariant Tallied(tallied, incs, cogs, opex[..j])
    {
      var p := purchases[j];
      var key := Month(p.date, now);
      var e := EntryOr(tallied, key);
      e := e.(opex := e.opex + p.total.GetOr(0));
      assert opex[j] == Posting(key, p.total.GetOr(0));
      BookPurchase(tallied, incs, cogs, opex, j, e);
      tallied := tallied[key := e];
      j := j + 1;
    }
    assert opex[..j] == opex;
  }

  /**
   * What `buildMonthlyPnl` answers for these rows: one entry per month in ascending
   * order, each with that month's bookings; column totals equal to the totals of all
   * bookings; expenses, gross and net profit derived from them; and one chart point per
   * month, in series order, pairing its income with its cost of goods plus operating costs.
   */
  ghost predicate Report(r: MonthlyPnl, incs: seq<Posting>, cogs: seq<Posting>, opex: seq<Posting>) {
    && MonthlySeries(r.series, incs, cogs, opex)
    && r.income == Total(incs) && r.cogs == Total(cogs) && r.opex == Total(opex)
    && r.expenses == r.cogs + r.opex
    && r.grossProfit == r.income - r.cogs
    && r.netProfit == r.income - r.expenses
    && |r.incomeExpenses| == |r.series|
    && (forall i :: 0 <= i < |r.series| ==>
          r.incomeExpenses[i] == ChartPoint(r.series[i].date, r.series[i].income, r.series[i].cogs + r.series[i].opex))
  }

  /** The report computed from listed invoices, purchases and items. */
  method SummarizeMonths(invoices: seq<Row>, purchases: seq<Row>, items: seq<Row>, now: DateTime)
    returns (r: MonthlyPnl)
    ensures Report(r, IncomePostings(invoices, now), CogsPostings(invoices, ItemsById(items), now),
                   OpexPostings(purchases, now))
  {
    var itemsMap := ItemsById(items);
    var incs := IncomePostings(invoices, now);
    var cogs := CogsPostings(invoices, itemsMap, now);
    var opex := OpexPostings(purchases, now);
    var byInvoice := TallyInvoices(invoices, itemsMap, now);
    var byMonth := TallyPurchases(byInvoice, incs, cogs, purchases, now);
    var keys := Enumerate(byMonth);
    var series := SortBy(Values(byMonth, keys), ByMonth);
    SortedMonths(byMonth, keys, incs, cogs, opex);
    MonthlyTotals(series, incs, cogs, opex);
    var income := SumOf(series, IncomeOf);
    var cogsTotal := SumOf(series, CogsOf);
    var opexTotal := SumOf(series, OpexOf);
    var expenses := cogsTotal + opexTotal;
    r := MonthlyPnl(series, income, cogsTotal, opexTotal, expenses, income - cogsTotal, income - expenses,
                    IncomeExpenses(series));
  }

  /**
   * `buildMonthlyPnl()`: lists the three tables (opening the store first) and reports on
   * them; `now` is the clock `ym` falls back to. The invoice and purchase listings are
   * returned alongside, since the report's sums range over them; the item prices come
   * from the items table itself.
   */
  method BuildMonthlyPnl(db: LocalStore, now: DateTime)
    returns (r: MonthlyPnl, ghost invoices: seq<Row>, ghost purchases: seq<Row>)
    requires db.Valid()
    modifies db
    ensures db.Valid() && db.isOpen
    ensures db.tables == old(db.AfterOpen()) && db.tombstones == old(db.tombstones)
    ensures Listing(invoices, db.tables[Synced(Invoices)])
    ensures Listing(purchases, db.tables[Synced(Purchases)])
    ensures Report(r, IncomePostings(invoices, now), CogsPostings(invoices, db.tables[Synced(Items)], now),
                   OpexPostings(purchases, now))
  {
    var invoiceRows := db.List(Synced(Invoices));
    var purchaseRows := db.List(Synced(Purchases));
    var items := db.List(Synced(Items));
    assert WellKeyed(db.tables);
    ItemsByIdOfListing(items, db.tables[Synced(Items)]);
    r := SummarizeMonths(invoiceRows, purchaseRows, items, now);
    invoices, purchases := invoiceRows, purchaseRows;
  }
}
