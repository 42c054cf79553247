/** Option and Result, and the ways a service call can be refused. */
module Wrappers {

  datatype Option<+T> = None | Some(value: T)

  /** Every refusal a modelled service can raise, one constructor per message of the source. */
  datatype Error =
    | AccountNotFound | SystemAccount | NonZeroBalance | InvalidAccount
    | NoPeriod | PeriodClosed
    | JournalNotFound | NotDraft | NotPosted | NotEditable | PostedNeedsReversal
    | TooFewLines | BothSides | NoAmount | Unbalanced
    | ConstraintViolation
    | LocationNotFound | ItemNotFound | ItemInactive | NotTracked | MissingAccount
    | NegativeInventory | ReversalNeedsOriginal | ZeroQuantity | UnitCostRequired | NegativeUnitCost | NonPositiveQuantity
    | DocumentNotFound | WrongStatus | AlreadyPosted | InactiveCustomer | InactiveSupplier | SupplierNotFound | DueBeforeIssue | MissingSettings | NoLines | CustomerMismatch | OverAllocated | ExceedsDue | HasPayments
    | TransactionNotFound | AlreadyReconciled | NoBankLine | AmountMismatch | ZeroAmount | MissingTarget
    | BadCondition

  datatype Result<+T> = Ok(value: T) | Err(error: Error)
  {
    predicate IsFailure() { Err? }
    function PropagateFailure<U>(): Result<U>
      requires Err?
    {
      Err(error)
    }
    function Extract(): T
      requires Ok?
    {
      value
    }
  }

  /** What a method that only changes state reports to its caller. */
  datatype Outcome = Done | Refused(error: Error)

  /** A call that is refused leaves the state it started from; a call that is done reaches the specified one. */
  predicate Agrees<S(==)>(before: S, spec: Result<S>, outcome: Outcome, after: S) {
    match spec
    case Ok(s) => outcome.Done? && after == s
    case Err(e) => outcome == Refused(e) && after == before
  }
}
