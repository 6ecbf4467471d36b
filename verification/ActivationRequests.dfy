/** What a caller asks of the activation service, and the bounds it has to keep. */
module ActivationRequests {
  import opened Identifiers

  datatype ActivationRequest = ActivationRequest(
    operationId: string, revision: nat, authorizationReference: string, probeTimeout: int, confirmationTimeout: int)

  const MINIMUM_CONFIRMATION_TIMEOUT := 1000
  const MAXIMUM_CONFIRMATION_TIMEOUT := 600000
  const MINIMUM_PROBE_TIMEOUT := 100
  const MAXIMUM_PROBE_TIMEOUT := 60000

  predicate ValidRequest(r: ActivationRequest) {
    && ValidIdentifier(r.operationId) && r.revision != 0 && ValidIdentifier(r.authorizationReference)
    && MINIMUM_PROBE_TIMEOUT <= r.probeTimeout <= MAXIMUM_PROBE_TIMEOUT
    && MINIMUM_CONFIRMATION_TIMEOUT <= r.confirmationTimeout <= MAXIMUM_CONFIRMATION_TIMEOUT
  }
}
