# PagSeguro credit-card payment method, modelled in Dafny

This project models the decision logic of the Magento payment method
`RicardoMartins_PagSeguro_Model_Payment_Cc`. The method charges credit cards through
the PagSeguro gateway. The model covers five parts of it:

- **Availability** (`isAvailable`): the customer-group restriction.
- **Form assignment** (`assignData`): the tokens and card data copied into the payment's
  additional-information array, the last four card digits, and the `"count|value"`
  installment field.
- **Validation gate** (`validate`): the early exit without a shipping method, the
  card-token / sender-hash check, the exemption list of request paths, and the
  fatal / non-fatal decision.
- **Installment quote** (`getInstallmentValue`): the amount written with two decimals,
  the quote URL, and the 1-based selection read at index selection - 1.
- **Order placement** (`order` and `recalculateInstallmentsAndPlaceOrder`): the charge,
  the single retry after an invalid installment value guarded by `retried_installments`,
  the history comment, the rethrow, the finalisation flags and the transaction-id merge.

Files:

- `php.dfy` (module `Php`): the PHP behaviour the code relies on. This covers
  additional-information values and their truthiness, `explode`, the line split of
  `preg_split('/\r\n|[\r\n]/', ...)`, the `(int)` cast, `substr($s, -4)`, and decimal
  digit strings. Each splitting function is paired with `implode` and round-trip lemmas.
- `availability.dfy`, `assignment.dfy`, `validation.dfy`, `installments.dfy`: the pure
  parts, as functions with contracts and lemmas.
- `placement.dfy` (module `Placement`): the order workflow stated on values. `Place`
  writes one placement as an explicit unrolling of at most two charge attempts. The lemmas
  state its promises: the number of charges, the number of lookups, the guard, the
  failure branch, finalisation and the merge.
- `cc_payment.dfy` (module `CcPayment`): the imperative side. The classes are `Payment`
  (its additional-information map and flags), `SalesOrder` (its status history) and
  `CcMethod`. `CcMethod.Order` and `CcMethod.RecalculateInstallmentsAndPlaceOrder` call
  each other as the source does. Their termination measure is the guard: a call that
  finds `retried_installments` unset may call back once, after setting it. Each method
  is proved to leave the payment exactly as `Placement.Place` / `Placement.Recalculate`
  say, with the last-four field untouched. The code `order` runs after its retry check
  (the history comment, the throw and the finalisation) is the method
  `CcMethod.SettleCharge`, proved against `Placement.Settle`.

External collaborators become inputs:

- The gateway's charge answers are a function from (call number, additional-information
  array) to a response. A response holds an optional transaction code and an optional
  error with its message and its invalid-installment flag.
- The quote endpoint is a function from URL to an optional table of installment amounts
  per brand.
- `parent::isAvailable`, `isRetryActive`, `canRetryOrder`, the payment-review flag and
  the store settings are booleans and strings passed in.
- The order amount is an integer number of cents.

Points where the code's behaviour is easy to misread:

- The transaction-id merge keeps an existing `transaction_id`. `array_merge` lets the
  existing array win, so the new code never overwrites an existing id.
- The recalculation stores the lookup result in `installment_value` even when the
  lookup failed and gave `false`.
- `validate` returns false before any token check when no shipping method is chosen.
- The exemption setting is a newline-separated text, not a set. `\r\n`, `\r` and `\n`
  all separate lines, in any mix, and `\r\n` counts as a single break.
- With the group restriction on and `customer_groups` empty, `explode` still gives one
  empty entry, and PHP 5 and 7 compare the integer guest group 0 equal to it, so guests
  are served.

## Model

| member | source | states |
|---|---|---|
| `Php.Explode` | app/code/community/RicardoMartins/PagSeguro/Model/Payment/Cc.php:102-103 | `explode` on one character gives one part more than there are delimiters; no part holds the delimiter; imploding the parts gives the input back |
| `Php.ExplodeImplode` | app/code/community/RicardoMartins/PagSeguro/Model/Payment/Cc.php:46 | splitting parts glued by the delimiter gives those parts back when none holds it |
| `Php.SplitLines` | app/code/community/RicardoMartins/PagSeguro/Model/Payment/Cc.php:144-145 | the split on `\r\n`, `\r` or `\n` gives break-free lines, and the lines with the endings consumed between them (each one of the three, a lone `\r` never followed by `\n`) put back together give the text again, whatever mix of endings it uses |
| `Php.SplitLinesUnique` | app/code/community/RicardoMartins/PagSeguro/Model/Payment/Cc.php:144-145 | break-free lines joined by any sequence of line endings, mixed as they come, split back into exactly those lines and endings |
| `Php.SplitMixedEndings` | app/code/community/RicardoMartins/PagSeguro/Model/Payment/Cc.php:144-145 | a text with `\r\n`, `\n` and `\r` mixed and a blank line splits into the four expected lines |
| `Php.SplitLinesImplode` | app/code/community/RicardoMartins/PagSeguro/Model/Payment/Cc.php:144-145 | lines written with any of the three line endings split back into exactly those lines |
| `Php.IntCast` | app/code/community/RicardoMartins/PagSeguro/Model/Payment/Cc.php:104 | the `(int)` cast of a string of digits is the number it denotes |
| `Php.IntCastDigits` | app/code/community/RicardoMartins/PagSeguro/Model/Payment/Cc.php:104 | casting the decimal text of n, followed by a non-digit or nothing, gives n |
| `Php.DigitsRoundTrip` | app/code/community/RicardoMartins/PagSeguro/Model/Payment/Cc.php:104 | reading back the decimal text of a number gives the number |
| `Php.LastFour` | app/code/community/RicardoMartins/PagSeguro/Model/Payment/Cc.php:76 | `substr($s, -4)` is the suffix of the card number of length min(4, length) |
| `Availability.IsAvailable` | app/code/community/RicardoMartins/PagSeguro/Model/Payment/Cc.php:34-53 | with no quote or no restriction it is the parent's answer; otherwise it is true exactly when the parent says available and the group is listed; it is never true when the parent is false |
| `Availability.GroupListed` | app/code/community/RicardoMartins/PagSeguro/Model/Payment/Cc.php:45-48 | `in_array` of the group id in the exploded setting, with PHP 5/7 loose comparison; an empty setting lists exactly the guest group 0 |
| `Availability.RestrictedToListedGroups` | app/code/community/RicardoMartins/PagSeguro/Model/Payment/Cc.php:45-52 | for a setting saved as comma-joined group ids, a restricted quote is served exactly when the parent allows it and its group id is one of those ids |
| `Availability.EmptySettingServesOnlyGuests` | app/code/community/RicardoMartins/PagSeguro/Model/Payment/Cc.php:45-52 | with the restriction on and an empty `customer_groups` setting, a quote is served exactly when the parent allows it and its group is the guest group 0 |
| `Assignment.ParseInstallments` | app/code/community/RicardoMartins/PagSeguro/Model/Payment/Cc.php:101-103 | the installment field gives a pair exactly when it holds a single pipe character; the pair is the int cast of the text before it and the text after it verbatim |
| `Assignment.AssignInstallmentsContents` | app/code/community/RicardoMartins/PagSeguro/Model/Payment/Cc.php:100-107 | contract of `Assignment.AssignInstallments`: `installment_quantity` and `installment_value` are written together from the parsed pair, or the array is unchanged; other entries keep their values |
| `Assignment.CardDataInfoContents` | app/code/community/RicardoMartins/PagSeguro/Model/Payment/Cc.php:72-98 | contract of `Assignment.CardDataInfo`: sender hash, card token and owner are written; the CPF only when its field is shown; the birthdate only when no birthdate attribute is set; every other entry is kept |
| `Assignment.AssignedInfoContents` | app/code/community/RicardoMartins/PagSeguro/Model/Payment/Cc.php:61-109 | contract of `Assignment.AssignedInfo`, the array after `assignData`: card data as above, both installment keys or neither, exact key set, untouched entries keep their values |
| `Assignment.ParseInstallmentsRoundTrip` | app/code/community/RicardoMartins/PagSeguro/Model/Payment/Cc.php:101-105 | a decimal quantity and a value without a pipe, joined by a pipe, parse back to that quantity and that value |
| `Assignment.ParseThreeInstallments` | app/code/community/RicardoMartins/PagSeguro/Model/Payment/Cc.php:101-105 | `"3" + pipe + "19.90"` gives quantity 3 and value `"19.90"` |
| `Validation.Validate` | app/code/community/RicardoMartins/PagSeguro/Model/Payment/Cc.php:127-171 | false exactly when the shipping method is empty; a throw with the fixed message exactly when token or hash is missing, the path is not exempt and retry is inactive; log-and-continue in the same case with retry active |
| `Validation.ExemptPathNeverFails` | app/code/community/RicardoMartins/PagSeguro/Model/Payment/Cc.php:138-149 | a request whose `route/controller/action` is one of the exemption lines, whatever line endings, mixed or not, separate the lines, is neither rejected nor logged, whatever the credentials |
| `Validation.RetryOnlyDecidesFatality` | app/code/community/RicardoMartins/PagSeguro/Model/Payment/Cc.php:160-168 | the same inputs throw with retry inactive exactly when they are logged and let through with retry active; with retry active nothing throws |
| `Installments.FormatAmount` | app/code/community/RicardoMartins/PagSeguro/Model/Payment/Cc.php:267 | the amount text is an optional minus, digits, a `.` and exactly two digits, with no thousands separator; the minus appears exactly for negative amounts |
| `Installments.FormatAmountRoundTrip` | app/code/community/RicardoMartins/PagSeguro/Model/Payment/Cc.php:267 | the amount text reads back to exactly the amount in cents |
| `Installments.InstallmentsUrl` | app/code/community/RicardoMartins/PagSeguro/Model/Payment/Cc.php:267-272 | the URL is the endpoint with session, amount and brand; `&maxInstallmentNoInterest=` is appended exactly when that argument is truthy |
| `Installments.PickInstallment` | app/code/community/RicardoMartins/PagSeguro/Model/Payment/Cc.php:288-298 | the value is the brand's entry at index selection - 1 when the answer, the brand and that index exist, and false otherwise |
| `Installments.GetInstallmentValue` | app/code/community/RicardoMartins/PagSeguro/Model/Payment/Cc.php:261-299 | the value picked from the answer the quote endpoint gives for the built URL, or false |
| `Installments.QuoteExamples` | app/code/community/RicardoMartins/PagSeguro/Model/Payment/Cc.php:267-292 | amount 10000 cents is written `100.00`; the third visa installment is entry 2; the tenth of five is false |
| `Placement.InstallmentQuantity` | app/code/community/RicardoMartins/PagSeguro/Model/Payment/Cc.php:321-322 | the selection read back from the array: a missing entry counts as 0 and an integer entry is that integer |
| `Placement.SelectionReadBack` | app/code/community/RicardoMartins/PagSeguro/Model/Payment/Cc.php:101-105 | the selection read back before the re-quote is the quantity `assignData` stored from the `"count|value"` field |
| `Placement.MergeTransactionId` | app/code/community/RicardoMartins/PagSeguro/Model/Payment/Cc.php:221-229 | the merged array has exactly the existing keys plus `transaction_id`; existing entries keep their values, so an existing id wins; the code is stored only when no id existed |
| `Placement.Finalise` | app/code/community/RicardoMartins/PagSeguro/Model/Payment/Cc.php:219-236 | skip-order-processing is set unless payment review is on, in which case the transaction is pending; the code is merged when present; nothing else changes |
| `Placement.Settle` | app/code/community/RicardoMartins/PagSeguro/Model/Payment/Cc.php:194-238 | after the last charge: a throw with the charge's message exactly when it failed and retry is inactive; the history note exactly when it failed and order retry is allowed; finalised flags on return, untouched ones on a throw; on return the array is exactly the old one with the charge's code merged in when it has one (an existing `transaction_id` wins); no existing entry of the array lost or changed; counters and card type unchanged |
| `Placement.Recalculated` | app/code/community/RicardoMartins/PagSeguro/Model/Payment/Cc.php:313-326 | the guard is set, `installment_value` holds the quote for the payment's card type and its own stored selection (even when that is false), one lookup is made, every other entry and field is unchanged |
| `Placement.Place` | app/code/community/RicardoMartins/PagSeguro/Model/Payment/Cc.php:182-239 | one placement charges once or twice, looks the value up at most once and exactly once per extra charge, never changes the card type and never clears a set guard |
| `Placement.Recalculate` | app/code/community/RicardoMartins/PagSeguro/Model/Payment/Cc.php:306-334 | with the guard set nothing happens and it returns; otherwise exactly one more charge and one lookup are made and the guard ends up set |
| `Placement.PlaceRetries` | app/code/community/RicardoMartins/PagSeguro/Model/Payment/Cc.php:197-203 | a first answer that is an invalid installment value, with the guard unset, makes the placement exactly the recalculation of the charged payment |
| `Placement.AtMostTwoCharges` | app/code/community/RicardoMartins/PagSeguro/Model/Payment/Cc.php:198-202 | one placement makes one or two charge calls, two exactly when the first fails with an invalid installment value and the guard is unset |
| `Placement.AtMostOneLookup` | app/code/community/RicardoMartins/PagSeguro/Model/Payment/Cc.php:320-325 | the installment value is looked up once when the placement retries and never otherwise |
| `Placement.GuardedPlacementChargesOnce` | app/code/community/RicardoMartins/PagSeguro/Model/Payment/Cc.php:198-202 | with `retried_installments` already set, a placement charges once and looks nothing up |
| `Placement.GuardSetAfterRetry` | app/code/community/RicardoMartins/PagSeguro/Model/Payment/Cc.php:313-326 | after a retry the guard is set in the payment's array |
| `Placement.AlwaysInvalidInstallment` | app/code/community/RicardoMartins/PagSeguro/Model/Payment/Cc.php:198-216 | against a gateway that always reports an invalid installment value, a fresh payment is charged exactly twice, then throws when retry is inactive and returns when it is active |
| `Placement.ThrowsIffRetryInactive` | app/code/community/RicardoMartins/PagSeguro/Model/Payment/Cc.php:212-216 | the placement throws exactly when the last charge failed and retry is inactive, with that charge's message |
| `Placement.HistoryNoteIffRetryAllowed` | app/code/community/RicardoMartins/PagSeguro/Model/Payment/Cc.php:205-210 | one history comment carrying the error message is added exactly when the last charge failed and order retry is allowed |
| `Placement.FinalisedIffReturned` | app/code/community/RicardoMartins/PagSeguro/Model/Payment/Cc.php:219-236 | a returning placement has the finalised flags (order processing skipped unless under payment review; the pending flag set under payment review and otherwise as before); a throwing one leaves both flags as they were |
| `Placement.PlacementKeepsExistingInfo` | app/code/community/RicardoMartins/PagSeguro/Model/Payment/Cc.php:221-229 | every earlier entry but `retried_installments` and `installment_value` survives a placement with its value, including an existing transaction id; no keys appear besides `retried_installments`, `installment_value` and `transaction_id` |
| `Placement.SuccessRecordsTransactionId` | app/code/community/RicardoMartins/PagSeguro/Model/Payment/Cc.php:221-229 | a returning placement's array is exactly the array before its last charge (the recalculated one after a retry) with that charge's code merged in when it has one: an existing `transaction_id` is kept, a new one holds the code, and without a code the key is present exactly when it was before |
| `Placement.RecalculateIdempotent` | app/code/community/RicardoMartins/PagSeguro/Model/Payment/Cc.php:308-313 | a second recalculation right after the first changes nothing and returns |
| `CcPayment.CcMethod.AssignData` | app/code/community/RicardoMartins/PagSeguro/Model/Payment/Cc.php:61-109 | the payment's array becomes `AssignedInfo` of the old one, the card type is the hash helper's, the last-four field is `LastFour` of the card number, and the flags are unchanged |
| `CcPayment.CcMethod.CallApi` | app/code/community/RicardoMartins/PagSeguro/Model/Payment/Cc.php:192-195 | one charge call: the gateway's answer for the current call number and array |
| `CcPayment.CcMethod.GetInstallmentValue` | app/code/community/RicardoMartins/PagSeguro/Model/Payment/Cc.php:261-299 | one quote call returning `Installments.GetInstallmentValue` of the arguments |
| `CcPayment.CcMethod.Order` | app/code/community/RicardoMartins/PagSeguro/Model/Payment/Cc.php:182-239 | the recursive `order` leaves the payment, the order history, the counters and the outcome exactly as the two-attempt `Placement.Place` says, so every Placement lemma holds of it; the last-four field is untouched |
| `CcPayment.CcMethod.SettleCharge` | app/code/community/RicardoMartins/PagSeguro/Model/Payment/Cc.php:196-238 | the payment and order history after the last charge are exactly `Placement.Settle` of the old ones, outcome included; the last-four field is untouched |
| `CcPayment.CcMethod.RecalculateInstallmentsAndPlaceOrder` | app/code/community/RicardoMartins/PagSeguro/Model/Payment/Cc.php:306-334 | does nothing once the guard is set; otherwise sets it, stores the looked-up value and places once more, passing on the outcome and message, as `Placement.Recalculate` says; the last-four field is untouched |

## Left out

- Magento host access (`Mage::helper`, store configuration, checkout session, request routing, `parent::isAvailable`, `parent::validate`): the answers are parameters. Exceptions thrown by `parent::validate` itself are not modelled.
- `Mage::unregister('sales_order_invoice_save_after_event_triggered')` (line 327): the global registry is not part of this model.
- `getCreditCardApiCallParams`, `callApi`, `proccessNotificatonResult` and `getIsInvalidInstallmentValueError` live in the parent class and helpers, which are not part of this model. A charge is the gateway function's response. The invalid-installment flag is read from the failed response itself, so a flag left over from an earlier call is not modelled. An exception thrown by `callApi` itself (outside the `try`) is not modelled.
- Networking in `getInstallmentValue` (curl options, disabled TLS verification, the 45-second timeout, JSON decoding): the quote endpoint is a function from URL to an optional table.
- Installments.PickInstallment: an unavailable quote gives `false`. In PHP, reading a missing index or property raises a notice and gives null unless the host turns notices into exceptions; that null is not distinguished from `false`. PHP 5 parses `->$creditCardBrand[...]` differently; the model follows PHP 7 here, as it does for the group comparison.
- Birthdate formatting with `strtotime`/`date` (lines 84-98) depends on PHP's date parser; the formatted d/m/Y text is an input.
- Logging (`writeLog`, `Mage::log`, `Mage::logException`): side effects only.
- Floating point: the order amount is integer cents, so `number_format` rounding is not modelled. Installment amounts are the decimal text the gateway sent.
- Php.IntCast: exponent notation (`"1e3"`) and 64-bit saturation are not modelled; its contract states only the all-digits case, while its body follows the leading-whitespace, sign and digit-run rule.
- Availability.IsAvailable: `in_array` is modelled with the PHP 5 and 7 comparison of an integer group id with a string entry: the entry is read as `(int)` reads it, so an empty or non-numeric entry equals 0. An entry with a decimal point or an exponent, which PHP compares as a float, is read only up to that character. PHP 8 compares a non-numeric entry as a string, so there the empty setting would serve no one. A group id that the quote holds as a numeric string rather than an integer is compared as a string against a non-numeric entry, which is not modelled.
- Placement.MergeTransactionId: the renumbering of integer keys by `array_merge` and the key order of the PHP array are not modelled; the additional-information keys are names.
- After a retry the outer `order` returns null instead of the method object; both are the outcome `Returned`.
