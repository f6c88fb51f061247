/** Values shared by the transaction queue and the oracle: optional values and the transaction statuses. */
module Transactions {

  datatype Option<+T> = None | Some(value: T)

  /** The eight statuses of a transaction row, in the numeric order of the status table. */
  datatype TxStatus =
    | Initial
    | Pending
    | Complete
    | FailedTimeout
    | FailedGas
    | FailedInitial
    | FailedReceipt
    | FailedPending

  /** The number both services use for a status. */
  function StatusCode(status: TxStatus): (code: nat)
  {
    match status
    case Initial => 0
    case Pending => 1
    case Complete => 2
    case FailedTimeout => 3
    case FailedGas => 4
    case FailedInitial => 5
    case FailedReceipt => 6
    case FailedPending => 7
  }

  /** Statuses from which the queue still moves a transaction. */
  predicate Live(status: TxStatus) {
    status.Initial? || status.Pending?
  }

  /** Statuses whose rows the restart routine puts back on the queue. */
  predicate Reloaded(status: TxStatus) {
    !status.Complete? && !status.FailedTimeout?
  }
}
