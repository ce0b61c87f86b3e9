/** The delivery lifecycle states shared by the executor, the runner and the notifier. */
module Lifecycle {
  datatype Status = Pending | Accepted | Sent | Delivered | Failed | Retrying | DeadLetter

  /** The statuses that the recovery scan re-enqueues. */
  predicate Recoverable(status: Status) { status == Pending || status == Retrying }

  /** What a backend may report through its status map, by the lifecycle documented on `DeliveryStatus`. */
  predicate BackendStatus(status: Status) {
    status == Accepted || status == Sent || status == Delivered || status == Failed
  }
}
