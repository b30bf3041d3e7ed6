/**
 * The record model shared by the local store, the remote mapping and the reports.
 *
 * The code keeps rows as untyped objects (`type Row = any`), so a row of any table may
 * carry any field. `Row` is that object: one record holding every field any of the six
 * tables uses, each of which may be absent. A customer row simply leaves the item,
 * invoice, purchase, payment and settings fields absent.
 */
module Records {
  import opened Base

  /** The five tables the sync engine reconciles. */
  datatype SyncTable = Customers | Items | Invoices | Purchases | Payments

  /** The six object stores of the local database. */
  datatype Table = Settings | Synced(kind: SyncTable)

  function SyncTableName(t: SyncTable): string {
    match t
    case Customers => "customers"
    case Items => "items"
    case Invoices => "invoices"
    case Purchases => "purchases"
    case Payments => "payments"
  }

  function TableName(t: Table): string {
    match t
    case Settings => "settings"
    case Synced(k) => SyncTableName(k)
  }

  /** `TABLES`, in the order `syncNow` walks them. */
  const TABLES: seq<SyncTable> := [Customers, Items, Invoices, Purchases, Payments]

  /** `TABLES.includes(name)`, answering with the table so named. */
  function ParseSyncTable(name: string): (r: Option<SyncTable>)
    ensures r.Some? ==> SyncTableName(r.value) == name
    ensures forall t :: SyncTableName(t) == name ==> r == Some(t)
  {
    if name == "customers" then Some(Customers)
    else if name == "items" then Some(Items)
    else if name == "invoices" then Some(Invoices)
    else if name == "purchases" then Some(Purchases)
    else if name == "payments" then Some(Payments)
    else None
  }

  lemma TablesListsEverySyncTable(t: SyncTable)
    ensures t in TABLES
  {
  }

  /** The first ten characters of an ISO-8601 timestamp: `YYYY-MM-DD`. */
  type CalendarDay = s: string | |s| == 10 witness "1970-01-01"

  /**
   * An ISO-8601 timestamp as `toISOString` writes it, split at the `T`: the calendar
   * day and the time of day (`HH:mm:ss.sssZ`). Invoice, purchase and payment dates
   * are kept in this form.
   */
  datatype DateTime = DateTime(day: CalendarDay, time: string)

  /** The time of day `new Date('YYYY-MM-DD').toISOString()` yields. */
  const Midnight: string := "00:00:00.000Z"

  datatype Address = Address(
    line1: Option<string>, line2: Option<string>, city: Option<string>,
    state: Option<string>, zip: Option<string>, country: Option<string>)

  /** An invoice line or a purchase line (a purchase line uses only `description` and `amount`). */
  datatype Line = Line(
    itemId: Option<string>, description: Option<string>, qty: Option<int>,
    unitPrice: Option<int>, taxRate: Option<int>, purchasePrice: Option<int>,
    amount: Option<int>)

  /**
   * A local row. Amounts are whole numbers (cents). `paymentType` and `paymentMethod`
   * are the payment fields the code calls `type` and `method`.
   */
  datatype Row = Row(
    // every table
    id: Option<string>, createdAt: Option<string>, updatedAt: Option<string>,
    // customers
    name: Option<string>, email: Option<string>, phone: Option<string>,
    billingAddress: Option<Address>, shippingAddress: Option<Address>,
    taxId: Option<string>, notes: Option<string>,
    // items
    sku: Option<string>, description: Option<string>, stockQty: Option<int>,
    unitPrice: Option<int>, purchasePrice: Option<int>, taxRate: Option<int>,
    category: Option<string>,
    // invoices
    number: Option<string>, customerId: Option<string>, customerName: Option<string>,
    customerTaxId: Option<string>, date: Option<DateTime>, dueDate: Option<DateTime>,
    status: Option<string>, lines: Option<seq<Line>>, subtotal: Option<int>,
    taxTotal: Option<int>, discount: Option<int>, total: Option<int>,
    // purchases
    vendor: Option<string>,
    // payments
    paymentType: Option<string>, amount: Option<int>, paymentMethod: Option<string>,
    invoiceId: Option<string>, purchaseId: Option<string>,
    // settings
    companyName: Option<string>, address: Option<string>, currency: Option<string>,
    theme: Option<string>, invoiceTemplate: Option<string>, invoicePrefix: Option<string>,
    invoiceCounter: Option<int>, invoiceNumberWidth: Option<int>,
    contactName: Option<string>, contactEmail: Option<string>, contactPhone: Option<string>,
    website: Option<string>, logoDataUrl: Option<string>)

  /** The empty object `{}`. */
  const Blank: Row := Row(
    None, None, None,
    None, None, None, None, None, None, None,
    None, None, None, None, None, None, None,
    None, None, None, None, None, None, None, None, None, None, None, None,
    None,
    None, None, None, None, None,
    None, None, None, None, None, None, None, None, None, None, None, None, None)

  /** An entry of the tombstone log: key `table:id`, the table name, the record id, the deletion time. */
  datatype Tombstone = Tombstone(key: string, table: string, id: string, deletedAt: string)
}
