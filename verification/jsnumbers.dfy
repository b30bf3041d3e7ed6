/**
 * The two JavaScript conversions between integer-valued numbers and strings that the
 * core relies on: `String(n)` / `n.toString()`, and `Number(s)` read back from
 * `localStorage`. Only integers are modelled; amounts and counters are whole numbers.
 */
module JsNumbers {
  import opened Base

  function DigitChar(d: nat): char
    requires d < 10
  {
    ('0' as int + d) as char
  }

  predicate IsDigit(c: char) {
    '0' <= c <= '9'
  }

  predicate AllDigits(s: string) {
    forall i :: 0 <= i < |s| ==> IsDigit(s[i])
  }

  /** The shortest decimal spelling of a natural number. */
  function Decimal(n: nat): string
    decreases n
  {
    if n < 10 then [DigitChar(n)] else Decimal(n / 10) + [DigitChar(n % 10)]
  }

  /** `String(n)` for an integer `n`. */
  function JsString(n: int): string {
    if n < 0 then "-" + Decimal(-n) else Decimal(n)
  }

  /** The value of a string of decimal digits (leading zeros allowed). */
  function DigitsValue(s: string): nat
    requires AllDigits(s)
  {
    if s == [] then 0
    else DigitsValue(s[..|s| - 1]) * 10 + (s[|s| - 1] as int - '0' as int)
  }

  /**
   * `Number(s)` for the decimal integer spellings: `""` is 0, digits with an optional
   * leading minus sign are their value, and every other string is NaN (`None`).
   */
  function Number(s: string): Option<int> {
    if s == "" then Some(0)
    else if AllDigits(s) then Some(DigitsValue(s))
    else if s[0] == '-' && 1 < |s| && AllDigits(s[1..]) then Some(-(DigitsValue(s[1..]) as int))
    else None
  }

  /** `'0'.repeat(k)` */
  function Zeros(k: nat): (z: string)
    ensures |z| == k && forall i :: 0 <= i < k ==> z[i] == '0'
  {
    if k == 0 then "" else "0" + Zeros(k - 1)
  }

  /** The string with its leading `'0'` characters removed. */
  function DropZeros(s: string): string {
    if 0 < |s| && s[0] == '0' then DropZeros(s[1..]) else s
  }

  /** `Decimal` spells `n` in digits, with no leading zero unless `n` is 0. */
  lemma {:induction false} DecimalSpellsValue(n: nat)
    ensures 0 < |Decimal(n)|
    ensures AllDigits(Decimal(n)) && DigitsValue(Decimal(n)) == n
    ensures 0 < n ==> Decimal(n)[0] != '0'
    decreases n
  {
    if 10 <= n {
      DecimalSpellsValue(n / 10);
      var s := Decimal(n);
      assert s[..|s| - 1] == Decimal(n / 10);
    }
  }

  /** Reading back what `String(n)` wrote gives `n`: `Number(String(n)) == n`. */
  lemma NumberOfString(n: int)
    ensures Number(JsString(n)) == Some(n)
  {
    if n < 0 {
      DecimalSpellsValue(-n);
      var s := JsString(n);
      assert s[1..] == Decimal(-n);
      assert !IsDigit(s[0]);
    } else {
      DecimalSpellsValue(n);
    }
  }

  /** `String(n)` never starts with a zero, except for `"0"` itself. */
  lemma JsStringLeadingChar(n: int)
    ensures 0 < |JsString(n)|
    ensures JsString(n)[0] == '0' <==> n == 0
    ensures JsString(n) == "0" <==> n == 0
  {
    if n < 0 {
      DecimalSpellsValue(-n);
    } else {
      DecimalSpellsValue(n);
      if n == 0 {
        assert JsString(n) == "0";
      }
    }
  }

  lemma {:induction false} DropZerosAfterZeros(k: nat, s: string)
    ensures DropZeros(Zeros(k) + s) == DropZeros(s)
    decreases k
  {
    if 0 < k {
      var padded := Zeros(k) + s;
      assert padded[0] == '0' && padded[1..] == Zeros(k - 1) + s;
      assert DropZeros(padded) == DropZeros(padded[1..]);
      DropZerosAfterZeros(k - 1, s);
    } else {
      assert Zeros(k) + s == s;
    }
  }

  /**
   * Left-padding `String(n)` with zeros loses nothing: dropping the zeros again and
   * reading the rest as a number gives back `n`.
   */
  lemma ZeroPaddedDecodes(k: nat, n: int)
    ensures Number(DropZeros(Zeros(k) + JsString(n))) == Some(n)
  {
    DropZerosAfterZeros(k, JsString(n));
    JsStringLeadingChar(n);
    if n == 0 {
      assert DropZeros("0") == DropZeros("");
    } else {
      NumberOfString(n);
    }
  }
}
