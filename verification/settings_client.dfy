/**
 * `padInvoice` (`src/lib/settings-client.ts`): the settings screen's own zero padding
 * of an invoice counter, written with `'0'.repeat` instead of `padStart`.
 */
module SettingsClient {
  import opened Base
  import opened JsNumbers
  import opened Numbering

  /** `padInvoice(n, width = 5)`; an omitted width is `None`. */
  function PadInvoice(n: int, width: Option<int>): string {
    var w := width.GetOr(5);
    var s := JsString(n);
    if |s| >= w then s else Zeros(w - |s|) + s
  }

  /**
   * `padInvoice(n, w)` is `String(n)` when that is at least `w` long, and otherwise has
   * length exactly `w`, ending in `String(n)` with only zeros before it.
   */
  lemma PadInvoiceShape(n: int, w: int)
    ensures var s := JsString(n);
      var r := PadInvoice(n, Some(w));
      && (|s| >= w ==> r == s)
      && (|s| < w ==> |r| == w)
      && |r| >= |s| && r[|r| - |s|..] == s
      && forall i :: 0 <= i < |r| - |s| ==> r[i] == '0'
  {
    var s := JsString(n);
    var r := PadInvoice(n, Some(w));
    if |s| < w {
      assert r == Zeros(w - |s|) + s;
      assert r[|r| - |s|..] == s;
    }
  }

  /** Leaving the width out pads to five characters. */
  lemma PadInvoiceDefaultWidth(n: int)
    ensures PadInvoice(n, None) == PadInvoice(n, Some(5))
    ensures |JsString(n)| < 5 ==> |PadInvoice(n, None)| == 5
  {
    PadInvoiceShape(n, 5);
  }

  /** The two paddings agree: `padInvoice(n, w) == pad(n, w)`, and by default at width 5. */
  lemma PadInvoiceAgreesWithPad(n: int, w: int)
    ensures PadInvoice(n, Some(w)) == Pad(n, w)
    ensures PadInvoice(n, None) == Pad(n, 5)
  {
    PadShape(n, w);
    PadShape(n, 5);
  }
}
