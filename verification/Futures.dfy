/** The `concurrent.futures.Future` states that the capacity limiter drives. */
module Futures {

  datatype FutureState = Pending | Running | Cancelled | CancelledAndNotified | Finished {

    /** A future whose `cancel()` reports success: it never ran and never will. */
    predicate CanCancel() {
      Pending? || Cancelled? || CancelledAndNotified?
    }

    /** The state that `cancel()` leaves behind; a running or finished future is untouched. */
    function AfterCancel(): FutureState {
      if Pending? then Cancelled else this
    }

    /** The two states `set_running_or_notify_cancel()` accepts. */
    predicate Claimable() {
      Pending? || Cancelled?
    }
  }
}
