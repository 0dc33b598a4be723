/** The state of one `AsyncCapacityLease` and the effect of each of its critical sections. */
module LeaseCore {

  datatype Lease = Lease(pendingHolds: int, releaseRequested: bool, released: bool)

  /** A critical section either raises and changes nothing, or says whether the slot must be returned now. */
  datatype Outcome = Raised | Done(lease: Lease, returnSlot: bool)

  /** What every critical section keeps. */
  predicate Consistent(l: Lease) {
    l.pendingHolds >= 0 && (l.released <==> l.releaseRequested && l.pendingHolds == 0)
  }

  /** The slot is returned by the very step that marks the lease released, and by no other. */
  predicate ReturnsOnce(l: Lease, o: Outcome) {
    Consistent(l) && o.Done? ==> Consistent(o.lease) && (o.returnSlot <==> o.lease.released && !l.released)
  }

  const FRESH := Lease(0, false, false)

  /** `hold_until_complete`, up to registering the callback. */
  function Retain(l: Lease): (o: Outcome)
    ensures ReturnsOnce(l, o)
  {
    if l.releaseRequested then Raised
    else Done(l.(pendingHolds := l.pendingHolds + 1), false)
  }

  /** `_finish_hold`, up to the limiter's release. */
  function FinishHold(l: Lease): (o: Outcome)
    ensures ReturnsOnce(l, o)
  {
    if l.pendingHolds < 1 then Raised
    else
      var l' := l.(pendingHolds := l.pendingHolds - 1);
      if l'.releaseRequested && l'.pendingHolds == 0 && !l'.released then
        Done(l'.(released := true), true)
      else
        Done(l', false)
  }

  /** `release`, up to the limiter's release; a second call changes nothing. */
  function RequestRelease(l: Lease): (o: Outcome)
    ensures ReturnsOnce(l, o)
  {
    if l.releaseRequested then Done(l, false)
    else
      var l' := l.(releaseRequested := true);
      if l'.pendingHolds == 0 then Done(l'.(released := true), true) else Done(l', false)
  }
}
