/**
 * Phaser timer events, as far as the game logic depends on them: whether one is armed,
 * with which delay, and whether it was cancelled. Time itself does not pass in this
 * model; a timer "fires" when the scene's handler for it is called.
 */
module Timers {
  datatype Timer =
    | NoTimer                              // the field was never set (undefined)
    | Pending(delay: real, looping: bool)  // armed with this delay in milliseconds
    | Cancelled                            // destroy() / remove() was called on it
    | Fired                                // a one-shot timer whose callback ran

  predicate IsArmed(t: Timer)
  {
    t.Pending?
  }

  /**
   * `if (t) t.destroy()`: cancelling leaves an unset timer unset and cancels any
   * other; a cancelled timer is never armed.
   */
  function Cancel(t: Timer): (r: Timer)
    ensures !IsArmed(r)
    ensures t.NoTimer? <==> r.NoTimer?
  {
    if t.NoTimer? then NoTimer else Cancelled
  }

  /** Cancelling twice is cancelling once. */
  lemma CancelIdempotent(t: Timer)
    ensures Cancel(Cancel(t)) == Cancel(t)
  {
  }
}
