/**
 * `validate`: the gate run before a credit-card order is placed. Without a shipping
 * method it answers false at once; otherwise a missing card token or sender hash is a
 * failure unless the current request path is listed, one per line, in the exemption
 * setting. The failure is fatal only when order retry is inactive.
 */
module Validation {
  import opened Php

  /** The routing triple of the current request. */
  datatype Request = Request(route: string, controller: string, action: string)

  /** How `validate` ends. */
  datatype Verdict =
    | NoShippingMethod                 // returns false, nothing else is looked at
    | Passed                           // returns the method object
    | PassedWithMissingCredentials     // logs the missing token or hash, then returns the method object
    | Rejected(message: string)        // throws

  const FailureMessage := "Falha ao processar seu pagamento. Por favor, entre em contato com nossa equipe."

  /** `route/controller/action`, the form the exemption lines are written in. */
  function RequestPath(request: Request): string {
    request.route + "/" + request.controller + "/" + request.action
  }

  /** A credential the parameters helper returns: missing, empty or "0" is false in PHP. */
  predicate Present(credential: Option<string>) {
    credential.Some? && StrTruthy(credential.value)
  }

  /** The request path is one of the lines of the exemption setting. */
  predicate Exempt(request: Request, exemptPaths: string) {
    RequestPath(request) in SplitLines(exemptPaths)
  }

  /** The verdict of `validate` on the checkout state, the request and the two settings. */
  function Validate(
    shippingMethod: string, senderHash: Option<string>, cardToken: Option<string>,
    request: Request, exemptPaths: string, retryActive: bool): (v: Verdict)
    ensures v == NoShippingMethod <==> !StrTruthy(shippingMethod)
    ensures v.Rejected? ==> v.message == FailureMessage
    ensures v.Rejected? <==>
              StrTruthy(shippingMethod) && !(Present(cardToken) && Present(senderHash))
              && !Exempt(request, exemptPaths) && !retryActive
    ensures v == PassedWithMissingCredentials <==>
              StrTruthy(shippingMethod) && !(Present(cardToken) && Present(senderHash))
              && !Exempt(request, exemptPaths) && retryActive
  {
    if !StrTruthy(shippingMethod) then NoShippingMethod
    else if (!Present(cardToken) || !Present(senderHash)) && !Exempt(request, exemptPaths) then
      if !retryActive then Rejected(FailureMessage) else PassedWithMissingCredentials
    else Passed
  }

  /**
   * A request whose path is one of the configured lines, whatever line endings the
   * setting uses between them, is never rejected and never logged, even with both
   * credentials missing.
   */
  lemma ExemptPathNeverFails(
    shippingMethod: string, senderHash: Option<string>, cardToken: Option<string>,
    request: Request, lines: seq<string>, ends: seq<string>, retryActive: bool)
    requires Separated(lines, ends)
    requires RequestPath(request) in lines
    ensures Validate(shippingMethod, senderHash, cardToken, request, Interleave(lines, ends), retryActive)
            in {NoShippingMethod, Passed}
  {
    SplitLinesUnique(lines, ends);
  }

  /**
   * The retry setting decides only whether the failure is fatal: the same inputs are
   * rejected with retry inactive exactly when they are logged and let through with it active.
   */
  lemma RetryOnlyDecidesFatality(
    shippingMethod: string, senderHash: Option<string>, cardToken: Option<string>,
    request: Request, exemptPaths: string)
    ensures Validate(shippingMethod, senderHash, cardToken, request, exemptPaths, false).Rejected?
            <==> Validate(shippingMethod, senderHash, cardToken, request, exemptPaths, true) == PassedWithMissingCredentials
    ensures !Validate(shippingMethod, senderHash, cardToken, request, exemptPaths, true).Rejected?
  {
  }
}
