/**
 * The order-placement workflow of `order` and `recalculateInstallmentsAndPlaceOrder`,
 * stated on values. The source retries through a re-entrant call guarded by the
 * `retried_installments` entry; `Place` below writes the same behaviour as an explicit
 * unrolling of at most two charge attempts, and the lemmas state what the workflow
 * promises: at most two charges and one installment lookup, the guard set after a
 * retry, the failure branch decided by the two retry settings, and the
 * transaction-id merge that keeps every existing entry.
 */
module Placement {
  import opened Php
  import Installments
  import Assignment

  const RetriedKey := "retried_installments"
  const TransactionIdKey := "transaction_id"
  const RetryNotePrefix := "A retentativa de pedido está ativa. O pedido foi concluído mesmo com o seguite erro: "

  /** A failed charge: the gateway's message and whether it was an invalid installment value. */
  datatype ChargeError = ChargeError(message: string, invalidInstallmentValue: bool)

  /** What a charge call gives back: the transaction code when the answer has one, and the error raised while processing it. */
  datatype Response = Response(code: Option<string>, error: Option<ChargeError>)

  /** How `order` ends: it returns, or it throws with a message. */
  datatype Outcome = Returned | Thrown(message: string)

  /**
   * What the workflow consults but does not own: the retry settings (`isRetryActive`,
   * `canRetryOrder`), the payment-review flag, the gateway session, the gateway's answer
   * to the n-th charge made with a given additional-information array, and the quote
   * endpoint (`fetch`, None when the call fails).
   */
  datatype Config = Config(
    retryActive: bool,
    canRetryOrder: bool,
    paymentReview: bool,
    sessionId: string,
    gateway: (nat, Bag) -> Response,
    fetch: string -> Option<Installments.InstallmentTable>)

  /**
   * The payment and order state the workflow touches, with the number of charge calls
   * and installment lookups made so far.
   */
  datatype State = State(
    info: Bag,
    ccType: string,
    skipOrderProcessing: bool,
    isTransactionPending: bool,
    history: seq<string>,
    charges: nat,
    lookups: nat)

  /** The guard: `getAdditionalInformation('retried_installments')` is truthy. */
  predicate Retried(info: Bag) {
    RetriedKey in info && Truthy(info[RetriedKey])
  }

  /** The selection read back from the array; a missing entry is null, which counts as 0. */
  function InstallmentQuantity(info: Bag): (n: int)
    ensures Assignment.InstallmentQuantityKey !in info ==> n == 0
    ensures Assignment.InstallmentQuantityKey in info && info[Assignment.InstallmentQuantityKey].Int? ==> n == info[Assignment.InstallmentQuantityKey].i
  {
    if Assignment.InstallmentQuantityKey !in info then 0
    else match info[Assignment.InstallmentQuantityKey]
      case Null => 0
      case Bool(b) => if b then 1 else 0
      case Int(i) => i
      case Str(s) => IntCast(s)
      case Decimal(t) => IntCast(t)
  }

  /**
   * The selection the retry reads back is the one `assignData` stored from a
   * `"count|value"` field, so the quote is asked for the installment the buyer chose.
   */
  lemma SelectionReadBack(info: Bag, quantity: nat, value: string)
    requires '|' !in value
    ensures InstallmentQuantity(Assignment.AssignInstallments(info, Digits(quantity) + "|" + value)) == quantity
  {
    Assignment.ParseInstallmentsRoundTrip(quantity, value);
    Assignment.AssignInstallmentsContents(info, Digits(quantity) + "|" + value);
  }

  /**
   * Lines 221-229: `array_merge(['transaction_id' => code], $existing)`. Every existing
   * entry is kept with its value, `transaction_id` is added, and since the later array
   * wins, an existing `transaction_id` is not replaced.
   */
  function MergeTransactionId(code: string, existing: Bag): (r: Bag)
    ensures r.Keys == existing.Keys + {TransactionIdKey}
    ensures forall k :: k in existing ==> r[k] == existing[k]
    ensures TransactionIdKey !in existing ==> r[TransactionIdKey] == Str(code)
  {
    map[TransactionIdKey := Str(code)] + existing
  }

  /** The comment added to the order's history when order retry lets a failed charge through. */
  function RetryNote(message: string): string {
    RetryNotePrefix + message
  }

  /**
   * Lines 219-236: the order is handed over without further processing, the transaction
   * code is merged in, and with payment review on the transaction is left pending instead.
   */
  function Finalise(c: Config, s: State, resp: Response): (t: State)
    ensures t.skipOrderProcessing == !c.paymentReview
    ensures t.isTransactionPending == (c.paymentReview || s.isTransactionPending)
    ensures resp.code.None? ==> t.info == s.info
    ensures resp.code.Some? ==> t.info == MergeTransactionId(resp.code.value, s.info)
    ensures t.ccType == s.ccType && t.history == s.history && t.charges == s.charges && t.lookups == s.lookups
  {
    var handedOver := s.(skipOrderProcessing := true);
    var merged := if resp.code.Some? then handedOver.(info := MergeTransactionId(resp.code.value, s.info)) else handedOver;
    if c.paymentReview then merged.(skipOrderProcessing := false, isTransactionPending := true) else merged
  }

  /**
   * Lines 194-238 when no retry is made: a successful charge is finalised; a failed one
   * gets a history comment when order retry is allowed for the order, and then either
   * throws (retry inactive) or is finalised all the same.
   */
  function Settle(c: Config, s: State, resp: Response): (r: (State, Outcome))
    ensures r.1.Thrown? <==> resp.error.Some? && !c.retryActive
    ensures r.1.Thrown? ==> r.1.message == resp.error.value.message
    ensures r.0.history == s.history + if resp.error.Some? && c.canRetryOrder then [RetryNote(resp.error.value.message)] else []
    ensures r.1 == Returned ==> r.0.skipOrderProcessing == !c.paymentReview && r.0.isTransactionPending == (c.paymentReview || s.isTransactionPending)
    ensures r.1.Thrown? ==> r.0.info == s.info && r.0.skipOrderProcessing == s.skipOrderProcessing && r.0.isTransactionPending == s.isTransactionPending
    ensures s.info.Keys <= r.0.info.Keys && forall k :: k in s.info ==> r.0.info[k] == s.info[k]
    ensures r.0.charges == s.charges && r.0.lookups == s.lookups && r.0.ccType == s.ccType
    ensures r.1 == Returned && resp.code.Some? ==> TransactionIdKey in r.0.info
    ensures r.1 == Returned ==> r.0.info == if resp.code.Some? then MergeTransactionId(resp.code.value, s.info) else s.info
  {
    match resp.error
    case None => (Finalise(c, s, resp), Returned)
    case Some(e) =>
      var noted := if c.canRetryOrder then s.(history := s.history + [RetryNote(e.message)]) else s;
      if c.retryActive then (Finalise(c, noted, resp), Returned) else (noted, Thrown(e.message))
  }

  /** Line 198-201: the charge failed with an invalid installment value and no retry was made yet. */
  predicate TriggersRetry(resp: Response, info: Bag) {
    resp.error.Some? && resp.error.value.invalidInstallmentValue && !Retried(info)
  }

  /**
   * Lines 313-326: the guard is set, the installment value is looked up again for the
   * payment's brand and selection, and stored, even when the lookup gave false.
   */
  function Recalculated(c: Config, s: State, cents: int): (t: State)
    ensures Retried(t.info)
    ensures t.info.Keys == s.info.Keys + {RetriedKey, Assignment.InstallmentValueKey}
    ensures t.info[Assignment.InstallmentValueKey]
            == Installments.GetInstallmentValue(c.fetch, c.sessionId, cents, s.ccType, InstallmentQuantity(s.info), None)
    ensures forall k :: k in s.info && k != RetriedKey && k != Assignment.InstallmentValueKey ==> t.info[k] == s.info[k]
    ensures t.lookups == s.lookups + 1
    ensures t.charges == s.charges && t.ccType == s.ccType && t.history == s.history
    ensures t.skipOrderProcessing == s.skipOrderProcessing && t.isTransactionPending == s.isTransactionPending
  {
    var guarded := s.info[RetriedKey := Bool(true)];
    var value := Installments.GetInstallmentValue(c.fetch, c.sessionId, cents, s.ccType, InstallmentQuantity(guarded), None);
    s.(info := guarded[Assignment.InstallmentValueKey := value], lookups := s.lookups + 1)
  }

  /** The charge call: the gateway's answer to the next call with the current array. */
  function NextResponse(c: Config, s: State): Response {
    c.gateway(s.charges, s.info)
  }

  function Charged(s: State): State {
    s.(charges := s.charges + 1)
  }

  /**
   * One placement (`order`), unrolled: a first charge; if it triggers the retry, a
   * recalculation and one more charge; then the settlement of the last charge.
   */
  function Place(c: Config, s: State, cents: int): (r: (State, Outcome))
    ensures s.charges + 1 <= r.0.charges <= s.charges + 2
    ensures s.lookups <= r.0.lookups <= s.lookups + 1
    ensures r.0.lookups - s.lookups == r.0.charges - s.charges - 1
    ensures r.0.ccType == s.ccType
    ensures Retried(s.info) ==> Retried(r.0.info)
  {
    var first := NextResponse(c, s);
    if TriggersRetry(first, s.info) then
      var again := Recalculated(c, Charged(s), cents);
      Settle(c, Charged(again), NextResponse(c, again))
    else
      Settle(c, Charged(s), first)
  }

  /** `recalculateInstallmentsAndPlaceOrder`: nothing once the guard is set, else recalculate and place again. */
  function Recalculate(c: Config, s: State, cents: int): (r: (State, Outcome))
    ensures Retried(s.info) ==> r == (s, Returned)
    ensures !Retried(s.info) ==> r.0.charges == s.charges + 1 && r.0.lookups == s.lookups + 1 && Retried(r.0.info)
  {
    if Retried(s.info) then (s, Returned)
    else Place(c, Recalculated(c, s, cents), cents)
  }

  /** A first answer that triggers the retry hands the placement over to the recalculation. */
  lemma PlaceRetries(c: Config, s: State, cents: int)
    requires TriggersRetry(NextResponse(c, s), s.info)
    ensures Place(c, s, cents) == Recalculate(c, Charged(s), cents)
  {
    assert !Retried(Charged(s).info);
    var again := Recalculated(c, Charged(s), cents);
    assert !TriggersRetry(NextResponse(c, again), again.info);
  }

  /** Otherwise the placement settles on the first answer. */
  lemma PlaceSettles(c: Config, s: State, cents: int)
    requires !TriggersRetry(NextResponse(c, s), s.info)
    ensures Place(c, s, cents) == Settle(c, Charged(s), NextResponse(c, s))
  {
  }

  /** The answer the placement settles on: the retry's when there was one, else the first. */
  function LastResponse(c: Config, s: State, cents: int): Response {
    var first := NextResponse(c, s);
    if TriggersRetry(first, s.info) then NextResponse(c, Recalculated(c, Charged(s), cents)) else first
  }

  /**
   * One placement makes one charge call, or two when the first answer is an invalid
   * installment value and the guard is not yet set; never more, whatever the gateway says.
   */
  lemma AtMostTwoCharges(c: Config, s: State, cents: int)
    ensures var t := Place(c, s, cents).0;
            && s.charges + 1 <= t.charges <= s.charges + 2
            && (t.charges == s.charges + 2 <==> TriggersRetry(NextResponse(c, s), s.info))
  {
  }

  /** The installment value is looked up at most once per placement, and only for a retry. */
  lemma AtMostOneLookup(c: Config, s: State, cents: int)
    ensures var t := Place(c, s, cents).0;
            t.lookups == s.lookups + (if TriggersRetry(NextResponse(c, s), s.info) then 1 else 0)
  {
  }

  /** Once the guard is set, a placement charges exactly once and looks nothing up. */
  lemma GuardedPlacementChargesOnce(c: Config, s: State, cents: int)
    requires Retried(s.info)
    ensures Place(c, s, cents).0.charges == s.charges + 1
    ensures Place(c, s, cents).0.lookups == s.lookups
  {
  }

  /** After a retry the guard stays set, so no later call can retry again. */
  lemma GuardSetAfterRetry(c: Config, s: State, cents: int)
    requires TriggersRetry(NextResponse(c, s), s.info)
    ensures Retried(Place(c, s, cents).0.info)
  {
  }

  /**
   * A gateway that always answers with an invalid installment value: exactly two charges
   * from a fresh payment, then a throw when order retry is inactive and a normal return
   * when it is active.
   */
  lemma AlwaysInvalidInstallment(c: Config, s: State, cents: int, message: string)
    requires forall n, info :: c.gateway(n, info) == Response(None, Some(ChargeError(message, true)))
    requires !Retried(s.info)
    ensures Place(c, s, cents).0.charges == s.charges + 2
    ensures Place(c, s, cents).1 == if c.retryActive then Returned else Thrown(message)
  {
  }

  /** The placement throws exactly when the last charge failed and order retry is inactive, with that charge's message. */
  lemma ThrowsIffRetryInactive(c: Config, s: State, cents: int)
    ensures var last := LastResponse(c, s, cents);
            Place(c, s, cents).1 == if last.error.Some? && !c.retryActive then Thrown(last.error.value.message) else Returned
  {
  }

  /** One history comment is added, exactly when the last charge failed and order retry is allowed for the order. */
  lemma HistoryNoteIffRetryAllowed(c: Config, s: State, cents: int)
    ensures var last := LastResponse(c, s, cents);
            Place(c, s, cents).0.history ==
              s.history + if last.error.Some? && c.canRetryOrder then [RetryNote(last.error.value.message)] else []
  {
  }

  /**
   * A placement that returns has the finalised flags: the order is then handed
   * over (or left pending under payment review); a throw leaves both flags as they were.
   */
  lemma FinalisedIffReturned(c: Config, s: State, cents: int)
    ensures var (t, outcome) := Place(c, s, cents);
            && (outcome == Returned ==>
                  t.skipOrderProcessing == !c.paymentReview && t.isTransactionPending == (c.paymentReview || s.isTransactionPending))
            && (outcome.Thrown? ==>
                  t.skipOrderProcessing == s.skipOrderProcessing && t.isTransactionPending == s.isTransactionPending)
  {
  }

  /**
   * Every entry the payment had before is still there with the same value, except the two
   * a retry rewrites; in particular an existing transaction id is never replaced.
   */
  lemma PlacementKeepsExistingInfo(c: Config, s: State, cents: int)
    ensures var t := Place(c, s, cents).0;
            forall k :: k in s.info && k != RetriedKey && k != Assignment.InstallmentValueKey ==> k in t.info && t.info[k] == s.info[k]
    ensures var t := Place(c, s, cents).0;
            t.info.Keys <= s.info.Keys + {RetriedKey, Assignment.InstallmentValueKey, TransactionIdKey}
  {
    var first := NextResponse(c, s);
    if TriggersRetry(first, s.info) {
      var again := Recalculated(c, Charged(s), cents);
      assert Place(c, s, cents) == Settle(c, Charged(again), NextResponse(c, again));
    } else {
      assert Place(c, s, cents) == Settle(c, Charged(s), first);
    }
  }

  /**
   * A placement that returns is finalised by its last charge, and only by it: the array
   * holds what it held before that charge, with that charge's code merged in when there
   * is one. An existing `transaction_id` wins over the new code; without a code the
   * key is present exactly when it was before.
   */
  lemma SuccessRecordsTransactionId(c: Config, s: State, cents: int)
    requires Place(c, s, cents).1 == Returned
    ensures var last := LastResponse(c, s, cents);
            var before := if TriggersRetry(NextResponse(c, s), s.info) then Recalculated(c, Charged(s), cents).info else s.info;
            Place(c, s, cents).0.info == if last.code.Some? then MergeTransactionId(last.code.value, before) else before
    ensures var last := LastResponse(c, s, cents);
            last.code.Some? ==> TransactionIdKey in Place(c, s, cents).0.info
    ensures var last := LastResponse(c, s, cents);
            TransactionIdKey !in s.info && last.code.Some? ==> Place(c, s, cents).0.info[TransactionIdKey] == Str(last.code.value)
    ensures var last := LastResponse(c, s, cents);
            last.code.None? ==> (TransactionIdKey in Place(c, s, cents).0.info <==> TransactionIdKey in s.info)
  {
    var first := NextResponse(c, s);
    if TriggersRetry(first, s.info) {
      var again := Recalculated(c, Charged(s), cents);
      assert Place(c, s, cents) == Settle(c, Charged(again), NextResponse(c, again));
    } else {
      assert Place(c, s, cents) == Settle(c, Charged(s), first);
    }
  }

  /**
   * Recalculating twice in a row is recalculating once: the second call finds the guard
   * set and changes nothing, so the installment value is looked up only once.
   */
  lemma RecalculateIdempotent(c: Config, s: State, cents: int)
    ensures var (t, _) := Recalculate(c, s, cents);
            Recalculate(c, t, cents) == (t, Returned)
  {
  }
}
