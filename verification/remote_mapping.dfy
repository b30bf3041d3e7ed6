/**
 * The field translation between local rows (camelCase, `src/lib/sync.ts` `fromRemote`)
 * and rows of the hosted database (snake_case, `toRemote`), table by table.
 */
module RemoteMapping {
  import opened Base
  import opened Records

  /**
   * A row of a remote table, under the remote column names. `payment_type` and
   * `payment_method` are the payment columns named `type` and `method`. Dates are
   * calendar days; `None` is SQL `null` or a column the row does not send.
   */
  datatype RemoteRow = RemoteRow(
    id: Option<string>, user_id: Option<string>,
    created_at: Option<string>, updated_at: Option<string>,
    name: Option<string>, email: Option<string>, phone: Option<string>,
    billing_address: Option<Address>, shipping_address: Option<Address>,
    tax_id: Option<string>, notes: Option<string>,
    sku: Option<string>, description: Option<string>, stock_qty: Option<int>,
    unit_price: Option<int>, purchase_price: Option<int>, tax_rate: Option<int>,
    category: Option<string>,
    number: Option<string>, customer_id: Option<string>, customer_name: Option<string>,
    customer_tax_id: Option<string>, date: Option<CalendarDay>, due_date: Option<CalendarDay>,
    status: Option<string>, lines: Option<seq<Line>>, subtotal: Option<int>,
    tax_total: Option<int>, discount: Option<int>, total: Option<int>,
    vendor: Option<string>,
    payment_type: Option<string>, amount: Option<int>, payment_method: Option<string>,
    invoice_id: Option<string>, purchase_id: Option<string>)

  const BlankRemote: RemoteRow := RemoteRow(
    None, None, None, None,
    None, None, None, None, None, None, None,
    None, None, None, None, None, None, None,
    None, None, None, None, None, None, None, None, None, None, None, None,
    None,
    None, None, None, None, None)

  /** `toDate`: a present timestamp becomes its calendar day, an absent one `null`. */
  function ToDate(d: Option<DateTime>): Option<CalendarDay> {
    match d
    case None => None
    case Some(t) => Some(t.day)
  }

  /** `new Date(day).toISOString()` for a remote calendar day: midnight UTC of that day. */
  function FromDate(d: Option<CalendarDay>): Option<DateTime> {
    match d
    case None => None
    case Some(day) => Some(DateTime(day, Midnight))
  }

  /** `Number(x ?? 0)` on an integer field. */
  function OrZero(x: Option<int>): Option<int> {
    Some(x.GetOr(0))
  }

  /** `toRemote(table, row, userId)` */
  function ToRemote(t: SyncTable, row: Row, userId: string): RemoteRow {
    var base := BlankRemote.(id := row.id, user_id := Some(userId),
      created_at := row.createdAt, updated_at := row.updatedAt);
    match t
    case Customers =>
      base.(name := row.name, email := row.email, phone := row.phone,
        billing_address := row.billingAddress, shipping_address := row.shippingAddress,
        tax_id := row.taxId, notes := row.notes)
    case Items =>
      base.(sku := row.sku, name := row.name, description := row.description,
        stock_qty := OrZero(row.stockQty), unit_price := OrZero(row.unitPrice),
        purchase_price := row.purchasePrice, tax_rate := row.taxRate, category := row.category)
    case Invoices =>
      base.(number := row.number, customer_id := row.customerId,
        customer_name := row.customerName, customer_tax_id := row.customerTaxId,
        date := ToDate(row.date), due_date := ToDate(row.dueDate),
        status := Some(row.status.GetOr("draft")), lines := Some(row.lines.GetOr([])),
        subtotal := OrZero(row.subtotal), tax_total := OrZero(row.taxTotal),
        discount := OrZero(row.discount), total := OrZero(row.total), notes := row.notes)
    case Purchases =>
      base.(vendor := row.vendor, date := ToDate(row.date), due_date := ToDate(row.dueDate),
        category := row.category, lines := Some(row.lines.GetOr([])), total := OrZero(row.total),
        status := Some(row.status.GetOr("unpaid")), notes := row.notes)
    case Payments =>
      base.(date := ToDate(row.date), payment_type := row.paymentType,
        amount := OrZero(row.amount), payment_method := row.paymentMethod,
        invoice_id := row.invoiceId, purchase_id := row.purchaseId)
  }

  /** `fromRemote(table, row)` */
  function FromRemote(t: SyncTable, r: RemoteRow): Row {
    var base := Blank.(id := r.id, createdAt := r.created_at, updatedAt := r.updated_at);
    match t
    case Customers =>
      base.(name := r.name, email := r.email, phone := r.phone,
        billingAddress := r.billing_address, shippingAddress := r.shipping_address,
        taxId := r.tax_id, notes := r.notes)
    case Items =>
      base.(sku := r.sku, name := r.name, description := r.description,
        stockQty := OrZero(r.stock_qty), unitPrice := OrZero(r.unit_price),
        purchasePrice := r.purchase_price, taxRate := r.tax_rate, category := r.category)
    case Invoices =>
      base.(number := r.number, customerId := r.customer_id,
        customerName := r.customer_name, customerTaxId := r.customer_tax_id,
        date := FromDate(r.date), dueDate := FromDate(r.due_date), status := r.status,
        lines := Some(r.lines.GetOr([])), subtotal := OrZero(r.subtotal),
        taxTotal := OrZero(r.tax_total), discount := OrZero(r.discount),
        total := OrZero(r.total), notes := r.notes)
    case Purchases =>
      base.(vendor := r.vendor, date := FromDate(r.date), dueDate := FromDate(r.due_date),
        category := r.category, lines := Some(r.lines.GetOr([])), total := OrZero(r.total),
        status := r.status, notes := r.notes)
    case Payments =>
      base.(date := FromDate(r.date), paymentType := r.payment_type,
        amount := OrZero(r.amount), paymentMethod := r.payment_method,
        invoiceId := r.invoice_id, purchaseId := r.purchase_id)
  }

  /** What a row of table `t` looks like after being pushed and pulled back. */
  function RoundTrip(t: SyncTable, row: Row, userId: string): Row {
    FromRemote(t, ToRemote(t, row, userId))
  }

  /**
   * The fields a row of table `t` carries, as the data model lists them: the row with
   * every other field absent.
   */
  function Shape(t: SyncTable, r: Row): Row {
    var base := Blank.(id := r.id, createdAt := r.createdAt, updatedAt := r.updatedAt);
    match t
    case Customers =>
      base.(name := r.name, email := r.email, phone := r.phone,
        billingAddress := r.billingAddress, shippingAddress := r.shippingAddress,
        taxId := r.taxId, notes := r.notes)
    case Items =>
      base.(sku := r.sku, name := r.name, description := r.description,
        stockQty := r.stockQty, unitPrice := r.unitPrice, purchasePrice := r.purchasePrice,
        taxRate := r.taxRate, category := r.category)
    case Invoices =>
      base.(number := r.number, customerId := r.customerId, customerName := r.customerName,
        customerTaxId := r.customerTaxId, date := r.date, dueDate := r.dueDate,
        status := r.status, lines := r.lines, subtotal := r.subtotal, taxTotal := r.taxTotal,
        discount := r.discount, total := r.total, notes := r.notes)
    case Purchases =>
      base.(vendor := r.vendor, date := r.date, dueDate := r.dueDate, category := r.category,
        lines := r.lines, total := r.total, status := r.status, notes := r.notes)
    case Payments =>
      base.(date := r.date, paymentType := r.paymentType, amount := r.amount,
        paymentMethod := r.paymentMethod, invoiceId := r.invoiceId, purchaseId := r.purchaseId)
  }

  predicate AtMidnight(d: Option<DateTime>) {
    d.Some? ==> d.value.time == Midnight
  }

  /**
   * A row of table `t` in the form the remote keeps: only that table's fields, dates at
   * midnight, and every field the push defaults already present.
   */
  predicate Canonical(t: SyncTable, r: Row) {
    && Shape(t, r) == r
    && AtMidnight(r.date) && AtMidnight(r.dueDate)
    && match t
       case Customers => true
       case Items => r.stockQty.Some? && r.unitPrice.Some?
       case Invoices =>
         && r.status.Some? && r.lines.Some? && r.subtotal.Some? && r.taxTotal.Some?
         && r.discount.Some? && r.total.Some?
       case Purchases => r.lines.Some? && r.total.Some? && r.status.Some?
       case Payments => r.amount.Some?
  }

  /** The record identity and both timestamps reach the remote and come back unchanged. */
  lemma ToRemoteBase(t: SyncTable, row: Row, userId: string)
    ensures var rr := ToRemote(t, row, userId);
      && rr.id == row.id && rr.user_id == Some(userId)
      && rr.created_at == row.createdAt && rr.updated_at == row.updatedAt
    ensures var back := RoundTrip(t, row, userId);
      && back.id == row.id && back.createdAt == row.createdAt && back.updatedAt == row.updatedAt
  {
  }

  /** A customer row loses nothing in the round trip except fields customers do not have. */
  lemma CustomerRoundTrip(row: Row, userId: string)
    ensures RoundTrip(Customers, row, userId) == Shape(Customers, row)
  {
  }

  /**
   * Dates keep their calendar day and lose their time of day; an absent date stays
   * absent.
   */
  lemma DatesCutToDay(t: SyncTable, row: Row, userId: string)
    requires t == Invoices || t == Purchases || t == Payments
    ensures var back := RoundTrip(t, row, userId);
      && (row.date.None? ==> back.date.None?)
      && (row.date.Some? ==> back.date == Some(DateTime(row.date.value.day, Midnight)))
      && (t != Payments && row.dueDate.None? ==> back.dueDate.None?)
      && (t != Payments && row.dueDate.Some? ==>
            back.dueDate == Some(DateTime(row.dueDate.value.day, Midnight)))
  {
  }

  /**
   * The push defaults: missing stock and unit price become 0 while missing purchase
   * price and tax rate stay absent; a missing status becomes `'draft'` on an invoice
   * and `'unpaid'` on a purchase; a present value is sent as it is.
   */
  lemma PushDefaults(row: Row, userId: string)
    ensures var it := ToRemote(Items, row, userId);
      && it.stock_qty == Some(if row.stockQty.Some? then row.stockQty.value else 0)
      && it.unit_price == Some(if row.unitPrice.Some? then row.unitPrice.value else 0)
      && it.purchase_price == row.purchasePrice && it.tax_rate == row.taxRate
    ensures ToRemote(Invoices, row, userId).status ==
      Some(if row.status.Some? then row.status.value else "draft")
    ensures ToRemote(Purchases, row, userId).status ==
      Some(if row.status.Some? then row.status.value else "unpaid")
    ensures RoundTrip(Items, row, userId).purchasePrice == row.purchasePrice
    ensures RoundTrip(Items, row, userId).taxRate == row.taxRate
  {
  }

  /** Rows that come back from the remote are canonical. */
  lemma RoundTripCanonical(t: SyncTable, row: Row, userId: string)
    ensures Canonical(t, RoundTrip(t, row, userId))
  {
  }

  /** A canonical row comes back exactly as it was sent. */
  lemma CanonicalRoundTrip(t: SyncTable, row: Row, userId: string)
    requires Canonical(t, row)
    ensures RoundTrip(t, row, userId) == row
  {
    assert Shape(t, row) == row;
    match t
    case Customers =>
    case Items =>
    case Invoices =>
      assert FromDate(ToDate(row.date)) == row.date;
      assert FromDate(ToDate(row.dueDate)) == row.dueDate;
    case Purchases =>
      assert FromDate(ToDate(row.date)) == row.date;
      assert FromDate(ToDate(row.dueDate)) == row.dueDate;
    case Payments =>
      assert FromDate(ToDate(row.date)) == row.date;
  }

  /**
   * The round trip is a projection: it fixes exactly the canonical rows, so a second
   * push and pull of a pulled row changes nothing.
   */
  lemma RoundTripFixesExactlyCanonical(t: SyncTable, row: Row, userId: string)
    ensures RoundTrip(t, row, userId) == row <==> Canonical(t, row)
    ensures RoundTrip(t, RoundTrip(t, row, userId), userId) == RoundTrip(t, row, userId)
  {
    RoundTripCanonical(t, row, userId);
    if Canonical(t, row) {
      CanonicalRoundTrip(t, row, userId);
    }
    CanonicalRoundTrip(t, RoundTrip(t, row, userId), userId);
  }
}
