// Types shared by every module: identifiers, times, results, and the small
// integer helpers the billing arithmetic needs.
module Prelude {

  // Database identifiers and external references. Only equality is used.
  type Ref = nat

  // Points in time, in the clock's own unit.
  type Time = int

  datatype Option<+T> = None | Some(value: T)

  // The outcome of an operation that commits or leaves the state unchanged.
  datatype Result<+T> = Ok(value: T) | Err(error: Error) {
    predicate IsFailure() {
      Err?
    }

    function PropagateFailure<U>(): Result<U>
      requires Err?
    {
      Err(error)
    }

    function Extract(): T
      requires Ok?
    {
      value
    }
  }

  // A payload field that may be missing, unreadable, or given.
  datatype Field<+T> = Missing | Malformed | Given(value: T)

  datatype Error =
    | BillingCatalogUnavailable
    | FeaturePricingUnavailable
    | FeatureLimitExceeded
    | CreditAccountRestricted
    | InsufficientCredits
    | ReservationNotCapturable
    | ReservationCorrupt
    | ReservationNotFound
    | ReservationNotRefundable
    | TrialPolicyUnavailable
    | ZeroLedgerEntry
    | UserNotFound
    | PaymentEventInvalid
    | PaymentEventConflict
    | PaymentEventNotReceived
    | CheckoutSessionNotFound
    | SubscriptionIdRequired
    | SubscriptionNotFound
    | BillingOfferNotFound
    | PaymentAmountRequired
    | InvalidPaymentTimestamp
    | PaymentAmountMismatch
    | PaymentOfferMismatch
    | BillingPeriodRequired
    | PaymentReversalStateConflict
    | PaymentPeriodRequired
    | PaymentGrantNotFound
    | PaymentReversalAmountInvalid
    | PaymentReversalStateCorrupt
    | ReviewAlreadyRecorded
    | ZeroCreditAdjustment
    | AdjustmentExceedsBalance
    | AdjustmentNotFound
    | AdjustmentAlreadyDecided
    | SelfApprovalForbidden
    | IdempotencyKeyReused
    | CommandInProgress
    | CatalogNotFound
    | CatalogImmutable
    | EffectiveTimeConflict
    | SessionLimitReached
    | ModelConfigurationNotFound
    | EvaluationReportInvalid
    | EvaluationGateFailed
    | CanaryBaselineRequired

  function Min(a: int, b: int): int {
    if a <= b then a else b
  }

  function Max(a: int, b: int): int {
    if a <= b then b else a
  }
}
