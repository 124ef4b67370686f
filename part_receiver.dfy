/**
 * IPartReceiver.onHitPart (src/boilerplate/entities/IPartReceiver.ts) and the closure
 * attachPart installs on every attached part: the touched part is attached at its
 * displacement from the receiver, so the constraint holds it where it was touched.
 */
module PartReceiver {
  /** The vector from the receiver's position to the part's position. */
  function Displacement(partX: real, partY: real, receiverX: real, receiverY: real): (d: (real, real))
    ensures receiverX + d.0 == partX && receiverY + d.1 == partY
  {
    (partX - receiverX, partY - receiverY)
  }

  /** The displacement is the only offset that keeps the part in place. */
  lemma DisplacementIsUnique(partX: real, partY: real, receiverX: real, receiverY: real, dx: real, dy: real)
    requires receiverX + dx == partX && receiverY + dy == partY
    ensures (dx, dy) == Displacement(partX, partY, receiverX, receiverY)
  {
  }
}
