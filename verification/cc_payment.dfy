/**
 * The credit-card payment method acting on a payment in place: `assignData` fills the
 * payment's additional-information array, and `order` with
 * `recalculateInstallmentsAndPlaceOrder` charge through the gateway, calling each other
 * at most once. Each method's effect is tied to the value-level definitions of
 * Assignment and Placement.
 */
module CcPayment {
  import opened Php
  import Assignment
  import Installments
  import opened Placement

  /** The order a payment belongs to; only its status history is touched. */
  class SalesOrder {
    var history: seq<string>

    constructor ()
      ensures history == []
    {
      history := [];
    }
  }

  /** The host's payment object: its additional-information array and the fields the method sets. */
  class Payment {
    const order: SalesOrder
    var info: Bag
    var ccType: string
    var ccLast4: string
    var skipOrderProcessing: bool
    var isTransactionPending: bool

    constructor (order: SalesOrder)
      ensures this.order == order && info == map[] && ccType == "" && ccLast4 == ""
      ensures !skipOrderProcessing && !isTransactionPending
    {
      this.order := order;
      info := map[];
      ccType := "";
      ccLast4 := "";
      skipOrderProcessing := false;
      isTransactionPending := false;
    }
  }

  /**
   * The payment method. `charges` and `lookups` count the calls made to the charge and
   * quote endpoints; the gateway's answer to the n-th charge is `config.gateway(n, info)`.
   */
  class CcMethod {
    const config: Config
    var charges: nat
    var lookups: nat

    constructor (config: Config)
      ensures this.config == config && charges == 0 && lookups == 0
    {
      this.config := config;
      charges := 0;
      lookups := 0;
    }

    /** The part of the heap the placement workflow reads and writes, as a value; `ccLast4` is never touched by it. */
    ghost function Snapshot(p: Payment): State
      reads this, p, p.order
    {
      State(p.info, p.ccType, p.skipOrderProcessing, p.isTransactionPending, p.order.history, charges, lookups)
    }

    /** Lines 61-109: the payment after `assignData`. */
    method AssignData(p: Payment, form: Assignment.FormData, hashes: Assignment.PaymentHashes, settings: Assignment.AssignSettings)
      modifies p
      ensures p.info == Assignment.AssignedInfo(old(p.info), form, hashes, settings)
      ensures p.ccType == match hashes.ccType { case Some(t) => t case None => "" }
      ensures p.ccLast4 == LastFour(form.ccNumber)
      ensures p.skipOrderProcessing == old(p.skipOrderProcessing) && p.isTransactionPending == old(p.isTransactionPending)
    {
      var info := Assignment.AssignedInfo(p.info, form, hashes, settings);
      var ccType := match hashes.ccType { case Some(t) => t case None => "" };
      var last4 := LastFour(form.ccNumber);
      p.info, p.ccType, p.ccLast4 := info, ccType, last4;
    }

    /** `callApi` and the processing of its answer: one charge call. */
    method CallApi(p: Payment) returns (resp: Response)
      modifies this`charges
      ensures resp == config.gateway(old(charges), p.info)
      ensures charges == old(charges) + 1
    {
      resp := config.gateway(charges, p.info);
      charges := charges + 1;
    }

    /** Lines 261-299: one call to the quote endpoint. */
    method GetInstallmentValue(cents: int, brand: string, selected: int, maxInstallmentNoInterest: Option<nat>) returns (v: Value)
      modifies this`lookups
      ensures v == Installments.GetInstallmentValue(config.fetch, config.sessionId, cents, brand, selected, maxInstallmentNoInterest)
      ensures lookups == old(lookups) + 1
    {
      v := Installments.GetInstallmentValue(config.fetch, config.sessionId, cents, brand, selected, maxInstallmentNoInterest);
      lookups := lookups + 1;
    }

    /**
     * Lines 182-239: charge, and on an invalid installment value with the guard unset,
     * hand over to the recalculation; otherwise note and throw or finalise as configured.
     * The recursion ends because the recalculation sets the guard before calling back.
     */
    method Order(p: Payment, cents: int) returns (outcome: Outcome)
      modifies this, p, p.order
      ensures (Snapshot(p), outcome) == Place(config, old(Snapshot(p)), cents)
      ensures p.ccLast4 == old(p.ccLast4)
      decreases if Retried(p.info) then 0 else 1, 1
    {
      ghost var before := Snapshot(p);
      var resp := CallApi(p);
      assert Snapshot(p) == Charged(before);
      if resp.error.Some? && resp.error.value.invalidInstallmentValue && !Retried(p.info) {
        PlaceRetries(config, before, cents);
        outcome := RecalculateInstallmentsAndPlaceOrder(p, cents);
        return;
      }
      PlaceSettles(config, before, cents);
      outcome := SettleCharge(p, resp);
    }

    /**
     * Lines 194-238 once no retry is made: a failed charge gets the history comment when
     * order retry is allowed for the order and throws when retry is inactive; otherwise
     * the order is handed over, the transaction code merged in, and under payment review
     * the transaction left pending.
     */
    method SettleCharge(p: Payment, resp: Response) returns (outcome: Outcome)
      modifies p, p.order
      ensures (Snapshot(p), outcome) == Settle(config, old(Snapshot(p)), resp)
      ensures p.ccLast4 == old(p.ccLast4)
    {
      if resp.error.Some? {
        var e := resp.error.value;
        if config.canRetryOrder {
          p.order.history := p.order.history + [RetryNote(e.message)];
        }
        if !config.retryActive {
          return Thrown(e.message);
        }
      }
      p.skipOrderProcessing := true;
      if resp.code.Some? {
        p.info := MergeTransactionId(resp.code.value, p.info);
      }
      if config.paymentReview {
        p.skipOrderProcessing := false;
        p.isTransactionPending := true;
      }
      outcome := Returned;
    }

    /**
     * Lines 306-334: unless the guard is already set, set it, look the installment value
     * up again, store it, and place the order once more, passing its exception on with
     * the same message.
     */
    method RecalculateInstallmentsAndPlaceOrder(p: Payment, cents: int) returns (outcome: Outcome)
      modifies this, p, p.order
      ensures (Snapshot(p), outcome) == Recalculate(config, old(Snapshot(p)), cents)
      ensures p.ccLast4 == old(p.ccLast4)
      decreases if Retried(p.info) then 0 else 1, 0
    {
      if Retried(p.info) {
        return Returned;
      }
      ghost var before := Snapshot(p);
      p.info := p.info[RetriedKey := Bool(true)];
      var value := GetInstallmentValue(cents, p.ccType, InstallmentQuantity(p.info), None);
      p.info := p.info[Assignment.InstallmentValueKey := value];
      ghost var stored := p.info;
      p.info := p.info[RetriedKey := Bool(true)];
      assert p.info == stored by {
        assert RetriedKey != Assignment.InstallmentValueKey;
      }
      assert Snapshot(p) == Recalculated(config, before, cents);
      var inner := Order(p, cents);
      outcome := match inner {
        case Returned => Returned
        case Thrown(message) => Thrown(message)
      };
    }
  }
}
