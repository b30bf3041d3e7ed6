/**
 * Invoice numbers (`src/lib/numbering.ts`). The next number is the settings row's
 * prefix followed by the incremented counter, zero-padded to the configured width.
 * Previewing only reads the settings row; consuming also writes the incremented
 * counter back. When the settings row is missing, reading `s.invoiceCounter` throws:
 * both operations then answer `None` and nothing is written.
 */
module Numbering {
  import opened Base
  import opened Records
  import opened JsNumbers
  import opened Store

  /** The filler `padStart` puts in front: `fill` repeated and cut to `n` characters. */
  function Filler(fill: string, n: nat): (f: string)
    requires fill != ""
    ensures |f| == n
    ensures forall i :: 0 <= i < n ==> f[i] == fill[i % |fill|]
  {
    if n == 0 then "" else Filler(fill, n - 1) + [fill[(n - 1) % |fill|]]
  }

  /** `s.padStart(width, fill)` */
  function PadStart(s: string, width: int, fill: string): string {
    if width <= |s| || fill == "" then s else Filler(fill, width - |s|) + s
  }

  /** `pad(num, width)`: `num.toString().padStart(width, '0')` */
  function Pad(num: int, width: int): string {
    PadStart(JsString(num), width, "0")
  }

  /** How many zeros `pad` puts in front of the digits. */
  function PadZeros(num: int, width: int): nat {
    if width <= |JsString(num)| then 0 else width - |JsString(num)|
  }

  /**
   * `pad(num, width)` is zeros followed by `String(num)`, as long as the longer of the
   * two; when `String(num)` is already that long it comes back unchanged.
   */
  lemma PadShape(num: int, width: int)
    ensures Pad(num, width) == Zeros(PadZeros(num, width)) + JsString(num)
    ensures |Pad(num, width)| == if width <= |JsString(num)| then |JsString(num)| else width
    ensures width <= |JsString(num)| ==> Pad(num, width) == JsString(num)
  {
    var k := PadZeros(num, width);
    if k == 0 {
      assert Zeros(0) + JsString(num) == JsString(num);
    } else {
      assert Filler("0", k) == Zeros(k);
    }
  }

  /** Dropping the padding zeros and reading the rest as a number gives `num` back. */
  lemma PadDecodes(num: int, width: int)
    ensures Number(DropZeros(Pad(num, width))) == Some(num)
  {
    PadShape(num, width);
    ZeroPaddedDecodes(PadZeros(num, width), num);
  }

  /** At a given width, different numbers pad to different strings. */
  lemma PadInjective(a: int, b: int, width: int)
    requires Pad(a, width) == Pad(b, width)
    ensures a == b
  {
    PadDecodes(a, width);
    PadDecodes(b, width);
  }

  /** `(s.invoiceCounter ?? 0) + 1` */
  function NextCounter(s: Row): int {
    s.invoiceCounter.GetOr(0) + 1
  }

  /** `s.invoiceNumberWidth ?? 5` */
  function NumberWidth(s: Row): int {
    s.invoiceNumberWidth.GetOr(5)
  }

  /** `s.invoicePrefix || ''` */
  function NumberPrefix(s: Row): string {
    if Truthy(s.invoicePrefix) then s.invoicePrefix.value else ""
  }

  /** `${prefix}${pad(next, width)}` for settings row `s`. */
  function InvoiceNumber(s: Row): string {
    NumberPrefix(s) + Pad(NextCounter(s), NumberWidth(s))
  }

  /** The number previewing or consuming answers on these tables; `None` when it throws. */
  function NextNumber(tables: Tables): Option<string>
    requires Settings in tables
  {
    match Lookup(tables[Settings], SettingsId)
    case None => None
    case Some(s) => Some(InvoiceNumber(s))
  }

  /** The tables after consuming: the settings row with its counter incremented. */
  function Consumed(tables: Tables): Tables
    requires Settings in tables
  {
    match Lookup(tables[Settings], SettingsId)
    case None => tables
    case Some(s) => tables[Settings := tables[Settings][SettingsId := s.(invoiceCounter := Some(NextCounter(s)))]]
  }

  /**
   * An invoice number starts with the prefix, and the rest is the next counter padded to
   * the width: reading it back (zeros dropped) gives the counter.
   */
  lemma InvoiceNumberParts(s: Row)
    ensures var n := InvoiceNumber(s);
      && n[..|NumberPrefix(s)|] == NumberPrefix(s)
      && Number(DropZeros(n[|NumberPrefix(s)|..])) == Some(s.invoiceCounter.GetOr(0) + 1)
      && |n| >= |NumberPrefix(s)| + NumberWidth(s)
  {
    var n := InvoiceNumber(s);
    assert n[|NumberPrefix(s)|..] == Pad(NextCounter(s), NumberWidth(s));
    PadDecodes(NextCounter(s), NumberWidth(s));
    PadShape(NextCounter(s), NumberWidth(s));
  }

  /** With no counter, width or prefix set, the first number is `00001`. */
  lemma DefaultNumber(s: Row)
    requires s.invoiceCounter.None? && s.invoiceNumberWidth.None? && !Truthy(s.invoicePrefix)
    ensures InvoiceNumber(s) == "00001"
  {
    PadShape(1, 5);
    assert JsString(1) == "1";
    assert Zeros(4) == "0000";
  }

  /** A store opened for the first time with no settings row numbers its first invoice `00001`. */
  lemma FirstNumberOfNewStore(tables: Tables)
    requires WellKeyed(tables) && SettingsId !in tables[Settings]
    ensures NextNumber(OpenedTables(tables)) == Some("00001")
  {
    assert OpenedTables(tables)[Settings][SettingsId] == DefaultSettings;
    assert NextCounter(DefaultSettings) == 1 && NumberWidth(DefaultSettings) == 5;
    assert NumberPrefix(DefaultSettings) == "";
    PadShape(1, 5);
    assert JsString(1) == "1";
    assert Zeros(4) == "0000";
    assert InvoiceNumber(DefaultSettings) == "" + Pad(1, 5) == "00001";
  }

  /** Consuming changes only the settings row, and of it only the counter, by one. */
  lemma ConsumedChangesOnlyTheCounter(tables: Tables, s: Row)
    requires Settings in tables && Lookup(tables[Settings], SettingsId) == Some(s)
    ensures Settings in Consumed(tables)
    ensures Lookup(Consumed(tables)[Settings], SettingsId) == Some(s.(invoiceCounter := Some(s.invoiceCounter.GetOr(0) + 1)))
    ensures forall t :: t != Settings ==> Lookup(Consumed(tables), t) == Lookup(tables, t)
    ensures forall k :: k != SettingsId ==> Lookup(Consumed(tables)[Settings], k) == Lookup(tables[Settings], k)
  {
  }

  /** Two consumes in a row hand out different numbers. */
  lemma SuccessiveNumbersDiffer(tables: Tables)
    requires Settings in tables && SettingsId in tables[Settings]
    ensures Settings in Consumed(tables)
    ensures NextNumber(tables).Some? && NextNumber(Consumed(tables)).Some?
    ensures NextNumber(Consumed(tables)).value != NextNumber(tables).value
  {
    var s := tables[Settings][SettingsId];
    var s' := s.(invoiceCounter := Some(NextCounter(s)));
    assert NumberPrefix(s') == NumberPrefix(s) && NumberWidth(s') == NumberWidth(s);
    var p := NumberPrefix(s);
    if InvoiceNumber(s') == InvoiceNumber(s) {
      assert InvoiceNumber(s')[|p|..] == Pad(NextCounter(s'), NumberWidth(s));
      assert InvoiceNumber(s)[|p|..] == Pad(NextCounter(s), NumberWidth(s));
      PadInjective(NextCounter(s'), NextCounter(s), NumberWidth(s));
    }
  }

  /** `previewNextInvoiceNumber()`: reads the settings row and changes nothing. */
  method PreviewNextInvoiceNumber(db: LocalStore) returns (r: Option<string>)
    requires db.Valid()
    modifies db
    ensures db.Valid() && db.isOpen && db.tombstones == old(db.tombstones)
    ensures db.tables == old(db.AfterOpen())
    ensures r == NextNumber(db.tables)
  {
    var s := db.GetSettings();
    if s.None? {
      return None;
    }
    r := Some(InvoiceNumber(s.value));
  }

  /**
   * `consumeNextInvoiceNumber()`: answers the number preview would answer and stores the
   * incremented counter; `now` is the time `upsert` would stamp with (it stamps no
   * settings row).
   */
  method ConsumeNextInvoiceNumber(db: LocalStore, now: string) returns (r: Option<string>)
    requires db.Valid()
    modifies db
    ensures db.Valid() && db.isOpen && db.tombstones == old(db.tombstones)
    ensures Settings in old(db.AfterOpen())
    ensures r == NextNumber(old(db.AfterOpen()))
    ensures db.tables == Consumed(old(db.AfterOpen()))
  {
    var s := db.GetSettings();
    if s.None? {
      return None;
    }
    var row := s.value;
    var next := NextCounter(row);
    assert row.id == Some(SettingsId);
    var stored := db.Upsert(Settings, row.(invoiceCounter := Some(next)), now, SettingsId);
    r := Some(InvoiceNumber(row));
  }
}
