/**
 * `assignData`: copying the checkout form and the tokenised card data into the
 * payment's additional-information array, the card's last four digits, and the
 * `"count|value"` installment field split into its two keys.
 */
module Assignment {
  import opened Php

  const SenderHashKey := "sender_hash"
  const CardTokenKey := "credit_card_token"
  const CardOwnerKey := "credit_card_owner"
  const CpfKey := "rm_pagseguro_cc_cpf"
  const BirthdateKey := "credit_card_owner_birthdate"
  const InstallmentQuantityKey := "installment_quantity"
  const InstallmentValueKey := "installment_value"

  /** The form fields `assignData` reads; the birthdate arrives already written as d/m/Y. */
  datatype FormData = FormData(
    ccOwner: Value,
    ccNumber: string,
    installments: string,
    cpf: Value,
    ownerBirthdate: string)

  /** What the parameters helper reads from the checkout request (None when absent). */
  datatype PaymentHashes = PaymentHashes(senderHash: Option<string>, cardToken: Option<string>, ccType: Option<string>)

  /** The settings `assignData` consults. */
  datatype AssignSettings = AssignSettings(cpfVisible: bool, ownerDobAttribute: string)

  /**
   * The installment field split on `|`: a quantity (the integer cast of the first part)
   * and the unit value (the second part, verbatim). Present exactly when the field holds
   * a single `|`; an empty field or any other number of parts gives nothing.
   */
  function ParseInstallments(field: string): (r: Option<(int, string)>)
    ensures r.Some? <==> multiset(field)['|'] == 1
    ensures r.Some? ==>
              var i := FirstIndexOf('|', field);
              i < |field| && r.value == (IntCast(field[..i]), field[i + 1..])
  {
    if !StrTruthy(field) then
      assert field == "" || field == "0";
      assert multiset(field)['|'] == 0;
      None
    else
      var parts := Explode('|', field);
      if |parts| == 2 then
        assert Explode('|', field[FirstIndexOf('|', field) + 1..]) == parts[1..];
        Some((IntCast(parts[0]), parts[1]))
      else None
  }

  /** Lines 101-107: both installment keys are written together, or the array is left alone. */
  function AssignInstallments(info: Bag, field: string): Bag {
    match ParseInstallments(field)
    case None => info
    case Some((quantity, value)) => info[InstallmentQuantityKey := Int(quantity)][InstallmentValueKey := Str(value)]
  }

  /** Both installment keys are written from the parsed pair, or none is; no other entry changes. */
  lemma AssignInstallmentsContents(info: Bag, field: string)
    ensures var r := AssignInstallments(info, field);
            && (ParseInstallments(field).None? ==> r == info)
            && (ParseInstallments(field).Some? ==>
                  && r.Keys == info.Keys + {InstallmentQuantityKey, InstallmentValueKey}
                  && r[InstallmentQuantityKey] == Int(ParseInstallments(field).value.0)
                  && r[InstallmentValueKey] == Str(ParseInstallments(field).value.1))
            && (forall k :: k in info && k != InstallmentQuantityKey && k != InstallmentValueKey ==> k in r && r[k] == info[k])
  {
    match ParseInstallments(field)
    case None =>
    case Some((quantity, value)) =>
      var r := info[InstallmentQuantityKey := Int(quantity)][InstallmentValueKey := Str(value)];
      assert AssignInstallments(info, field) == r;
      assert r[InstallmentQuantityKey] == Int(quantity) by {
        assert InstallmentQuantityKey != InstallmentValueKey;
      }
  }


  /** The well-known keys are pairwise different. */
  lemma KeysDistinct()
    ensures SenderHashKey != CardTokenKey && SenderHashKey != CardOwnerKey && SenderHashKey != CpfKey && SenderHashKey != BirthdateKey && SenderHashKey != InstallmentQuantityKey && SenderHashKey != InstallmentValueKey
    ensures CardTokenKey != CardOwnerKey && CardTokenKey != CpfKey && CardTokenKey != BirthdateKey && CardTokenKey != InstallmentQuantityKey && CardTokenKey != InstallmentValueKey
    ensures CardOwnerKey != CpfKey && CardOwnerKey != BirthdateKey && CardOwnerKey != InstallmentQuantityKey && CardOwnerKey != InstallmentValueKey
    ensures CpfKey != BirthdateKey && CpfKey != InstallmentQuantityKey && CpfKey != InstallmentValueKey
    ensures BirthdateKey != InstallmentQuantityKey && BirthdateKey != InstallmentValueKey
    ensures InstallmentQuantityKey != InstallmentValueKey
  {
  }

  /** The keys lines 72-98 write, given the settings. */
  function CardDataKeys(settings: AssignSettings): set<string> {
    {SenderHashKey, CardTokenKey, CardOwnerKey}
    + (if settings.cpfVisible then {CpfKey} else {})
    + (if !StrTruthy(settings.ownerDobAttribute) then {BirthdateKey} else {})
  }

  /** The keys `assignData` may write, given the settings. */
  function AssignedKeys(settings: AssignSettings): set<string> {
    CardDataKeys(settings) + {InstallmentQuantityKey, InstallmentValueKey}
  }

  /**
   * Lines 72-98: the tokens, the card owner, the CPF when that field is shown, and the
   * birthdate when no customer attribute supplies it; every other entry is kept.
   */
  function CardDataInfo(info: Bag, form: FormData, hashes: PaymentHashes, settings: AssignSettings): Bag {
    var withTokens := info[SenderHashKey := OptionValue(hashes.senderHash)]
                         [CardTokenKey := OptionValue(hashes.cardToken)]
                         [CardOwnerKey := form.ccOwner];
    var withCpf := if settings.cpfVisible then withTokens[CpfKey := form.cpf] else withTokens;
    if !StrTruthy(settings.ownerDobAttribute) then withCpf[BirthdateKey := Str(form.ownerBirthdate)] else withCpf
  }

  /** Each card-data key holds its value, the key set grows by exactly those keys, and every other entry is kept. */
  lemma CardDataInfoContents(info: Bag, form: FormData, hashes: PaymentHashes, settings: AssignSettings)
    ensures var r := CardDataInfo(info, form, hashes, settings);
            && SenderHashKey in r && r[SenderHashKey] == OptionValue(hashes.senderHash)
            && CardTokenKey in r && r[CardTokenKey] == OptionValue(hashes.cardToken)
            && CardOwnerKey in r && r[CardOwnerKey] == form.ccOwner
            && (settings.cpfVisible ==> CpfKey in r && r[CpfKey] == form.cpf)
            && (!StrTruthy(settings.ownerDobAttribute) ==> BirthdateKey in r && r[BirthdateKey] == Str(form.ownerBirthdate))
            && r.Keys == info.Keys + CardDataKeys(settings)
            && (forall k :: k in info && k !in CardDataKeys(settings) ==> r[k] == info[k])
  {
    KeysDistinct();
  }

  /** The additional-information array after `assignData` (lines 72-107): the card data, then the installment pair. */
  function AssignedInfo(info: Bag, form: FormData, hashes: PaymentHashes, settings: AssignSettings): Bag {
    AssignInstallments(CardDataInfo(info, form, hashes, settings), form.installments)
  }

  /**
   * What `assignData` leaves in the array: the card data, both installment keys or
   * neither, and nothing outside the written keys changed.
   */
  lemma AssignedInfoContents(info: Bag, form: FormData, hashes: PaymentHashes, settings: AssignSettings)
    ensures var r := AssignedInfo(info, form, hashes, settings);
            && (forall k :: k in CardDataKeys(settings) && k != InstallmentQuantityKey && k != InstallmentValueKey ==>
                  k in r && r[k] == CardDataInfo(info, form, hashes, settings)[k])
            && (ParseInstallments(form.installments).Some? ==>
                  && InstallmentQuantityKey in r && r[InstallmentQuantityKey] == Int(ParseInstallments(form.installments).value.0)
                  && InstallmentValueKey in r && r[InstallmentValueKey] == Str(ParseInstallments(form.installments).value.1))
            && r.Keys == info.Keys + CardDataKeys(settings)
                         + (if ParseInstallments(form.installments).Some? then {InstallmentQuantityKey, InstallmentValueKey} else {})
            && (forall k :: k in info && k !in AssignedKeys(settings) ==> r[k] == info[k])
            && (ParseInstallments(form.installments).None? ==> forall k :: k in info && k !in CardDataKeys(settings) ==> r[k] == info[k])
  {
    KeysDistinct();
    CardDataInfoContents(info, form, hashes, settings);
    AssignInstallmentsContents(CardDataInfo(info, form, hashes, settings), form.installments);
  }

  /** A quantity written in decimal and a unit value without `|` come back unchanged. */
  lemma ParseInstallmentsRoundTrip(quantity: nat, value: string)
    requires '|' !in value
    ensures ParseInstallments(Digits(quantity) + "|" + value) == Some((quantity, value))
  {
    var d := Digits(quantity);
    assert '|' !in d by {
      assert AllDigits(d);
    }
    ExplodeImplode('|', [d, value]);
    assert Implode("|", [d, value]) == d + "|" + value;
    IntCastDigits(quantity, "");
    assert d + "" == d;
  }

  /** The form value "3|19.90" gives quantity 3 and the value "19.90" with its precision untouched. */
  lemma ParseThreeInstallments()
    ensures ParseInstallments("3|19.90") == Some((3, "19.90"))
  {
    assert Digits(3) == "3";
    assert Digits(3) + "|" + "19.90" == "3|19.90";
    ParseInstallmentsRoundTrip(3, "19.90");
  }
}
