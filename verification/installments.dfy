/**
 * `getInstallmentValue`: the installment-quote request. The order amount is written
 * with exactly two decimals, the quote URL carries the session, the amount, the card
 * brand and, when given, the number of installments without interest, and the value
 * of the selected installment is read from the brand's list at index selection - 1.
 */
module Installments {
  import opened Php

  /** Installment amounts per card brand, as the gateway's JSON answer lists them. */
  type InstallmentTable = map<string, seq<string>>

  const Endpoint := "https://pagseguro.uol.com.br/checkout/v2/installments.json"

  /** Two digits, the hundredths of an amount. */
  function Cents2(c: nat): (s: string)
    requires c < 100
    ensures |s| == 2 && AllDigits(s)
  {
    [DigitChar(c / 10), DigitChar(c % 10)]
  }

  /**
   * `number_format($amount, 2, '.', '')` of an amount held in cents: an optional minus
   * sign, the whole units in decimal, a `.` and exactly two digits, with no thousands separator.
   */
  function FormatAmount(cents: int): (r: string)
    ensures |r| >= 4 && r[|r| - 3] == '.'
    ensures AllDigits(r[|r| - 2..])
    ensures forall k :: 0 <= k < |r| - 3 ==> IsDigit(r[k]) || (k == 0 && r[k] == '-')
    ensures (r[0] == '-') <==> cents < 0
  {
    var magnitude: nat := if cents < 0 then -cents else cents;
    var sign := if cents < 0 then "-" else "";
    sign + Digits(magnitude / 100) + "." + Cents2(magnitude % 100)
  }

  /** The shape FormatAmount writes. */
  predicate IsAmountText(s: string) {
    var body := if |s| > 0 && s[0] == '-' then s[1..] else s;
    |body| >= 4 && body[|body| - 3] == '.' && AllDigits(body[..|body| - 3]) && AllDigits(body[|body| - 2..])
  }

  /** Reading an amount text back into cents. */
  function ParseAmount(s: string): int
    requires IsAmountText(s)
  {
    var negative := |s| > 0 && s[0] == '-';
    var body := if negative then s[1..] else s;
    var magnitude := DigitsValue(body[..|body| - 3]) * 100 + DigitsValue(body[|body| - 2..]);
    if negative then -magnitude else magnitude
  }

  /** The amount in the query string denotes exactly the order amount: no rounding, no lost sign. */
  lemma {:induction false} FormatAmountRoundTrip(cents: int)
    ensures IsAmountText(FormatAmount(cents))
    ensures ParseAmount(FormatAmount(cents)) == cents
  {
    var magnitude: nat := if cents < 0 then -cents else cents;
    var units := Digits(magnitude / 100);
    var hundredths := Cents2(magnitude % 100);
    var body := units + "." + hundredths;
    var s := FormatAmount(cents);
    assert s == (if cents < 0 then "-" else "") + body;
    assert units[0] != '-';
    if cents < 0 {
      assert s[1..] == body;
    } else {
      assert s == body;
    }
    assert body[..|body| - 3] == units;
    assert body[|body| - 2..] == hundredths;
    DigitsRoundTrip(magnitude / 100);
    Cents2Value(magnitude % 100);
  }

  /** The two digits of the hundredths read back to the hundredths. */
  lemma Cents2Value(c: nat)
    requires c < 100
    ensures DigitsValue(Cents2(c)) == c
  {
    var h := Cents2(c);
    assert h[..1] == [DigitChar(c / 10)];
    assert DigitsValue(h[..1]) == c / 10 by {
      assert h[..1][..0] == [];
    }
  }

  /** Lines 267-272: the quote URL. */
  function InstallmentsUrl(sessionId: string, cents: int, brand: string, maxInstallmentNoInterest: Option<nat>): (url: string)
    ensures var base := Endpoint + "?sessionId=" + sessionId + "&amount=" + FormatAmount(cents) + "&creditCardBrand=" + brand;
            && |base| <= |url| && url[..|base|] == base
            && (maxInstallmentNoInterest.Some? && maxInstallmentNoInterest.value != 0 ==>
                  url[|base|..] == "&maxInstallmentNoInterest=" + Digits(maxInstallmentNoInterest.value))
            && (maxInstallmentNoInterest.None? || maxInstallmentNoInterest.value == 0 ==> url == base)
  {
    var withAmount := Endpoint + "?sessionId=" + sessionId + "&amount=" + FormatAmount(cents);
    var withBrand := withAmount + "&creditCardBrand=" + brand;
    withBrand + match maxInstallmentNoInterest {
      case Some(n) => if n != 0 then "&maxInstallmentNoInterest=" + Digits(n) else ""
      case None => ""
    }
  }

  /**
   * Line 292: the selected installment's amount from the brand's list at index
   * `selected - 1`, or false when the answer is missing, the brand is not listed or
   * the index falls outside the list.
   */
  function PickInstallment(answer: Option<InstallmentTable>, brand: string, selected: int): (v: Value)
    ensures v.Decimal? || v == Bool(false)
    ensures v.Decimal? <==> answer.Some? && brand in answer.value && 1 <= selected <= |answer.value[brand]|
    ensures v.Decimal? ==> v.text == answer.value[brand][selected - 1]
  {
    match answer
    case None => Bool(false)
    case Some(table) =>
      if brand in table && 0 <= selected - 1 < |table[brand]| then Decimal(table[brand][selected - 1])
      else Bool(false)
  }

  /**
   * Lines 261-299: ask the gateway (`fetch`, which answers None when the call or the
   * decoding fails) for the quote and pick the selected installment.
   */
  function GetInstallmentValue(
    fetch: string -> Option<InstallmentTable>, sessionId: string,
    cents: int, brand: string, selected: int, maxInstallmentNoInterest: Option<nat>): (v: Value)
    ensures var answer := fetch(InstallmentsUrl(sessionId, cents, brand, maxInstallmentNoInterest));
            && (v.Decimal? <==> answer.Some? && brand in answer.value && 1 <= selected <= |answer.value[brand]|)
            && (v.Decimal? ==> v.text == answer.value[brand][selected - 1])
            && (!v.Decimal? ==> v == Bool(false))
  {
    PickInstallment(fetch(InstallmentsUrl(sessionId, cents, brand, maxInstallmentNoInterest)), brand, selected)
  }

  /**
   * Amount 100.00, brand "visa", third installment: the third entry of the visa list;
   * the tenth installment of a five-entry list is unavailable.
   */
  lemma QuoteExamples(table: InstallmentTable)
    requires "visa" in table && |table["visa"]| == 5 && table["visa"][2] == "34.67"
    ensures PickInstallment(Some(table), "visa", 3) == Decimal("34.67")
    ensures PickInstallment(Some(table), "visa", 10) == Bool(false)
    ensures FormatAmount(10000) == "100.00"
  {
    assert Digits(100) == "100" by {
      assert Digits(10) == "10";
    }
    assert Cents2(0) == "00";
  }
}
