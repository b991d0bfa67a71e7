/** Atomic replacement of one durable file (saveLocked in live-runner/store.go and
    abr-runner/workload_store_v2.go). */
module Durable {
  /** What becomes of one atomic replace: confirmed, lost before the rename, or done with the confirmation lost. */
  datatype SaveResult = Confirmed | Lost | Unconfirmed
}
