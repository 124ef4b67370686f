/**
 * A ship part (src/boilerplate/entities/Part.ts). A part floats free under the name
 * 'part' until the player or an attached part touches it; the scene then renames it
 * 'player_part' and links it to its new parent. Everything a part does that reaches
 * into the scene's lists lives in MainScene.Scene; the methods here change the part's
 * own fields only.
 */
module PartEntity {
  import opened Names
  import opened Timers
  import opened GameConfig
  import CC = CollisionCategory

  /** The two-phase self-destruct timer of a scattered part. */
  datatype DestroyTimer =
    | NoDestroyTimer                         // never armed (the starting part)
    | Warning(delay: real, thenLast: real)   // fades after `delay`, is destroyed `thenLast` later
    | Final(delay: real)                     // destroys the part after `delay`
    | DestroyCancelled                       // destroy() was called on the timer

  predicate DestroyArmed(t: DestroyTimer)
  {
    t.Warning? || t.Final?
  }

  /** `if (destroyTimer) destroyTimer.destroy()`. */
  function CancelDestroy(t: DestroyTimer): (r: DestroyTimer)
    ensures !DestroyArmed(r)
    ensures t.NoDestroyTimer? <==> r.NoDestroyTimer?
  {
    if t.NoDestroyTimer? then NoDestroyTimer else DestroyCancelled
  }

  /** How long a part warned of its end stays fully visible: all but the last two seconds, or a fifth of a short life. */
  function WarningDelay(timeToLive: real): real
  {
    if timeToLive > 2000.0 then timeToLive - 2000.0 else timeToLive * 0.2
  }

  /** How long a faded part lasts: two seconds, or half of a short life. */
  function FadeDelay(timeToLive: real): real
  {
    if timeToLive > 2000.0 then 2000.0 else timeToLive * 0.5
  }

  /** A life longer than two seconds ends exactly on time and fades for its last two seconds. */
  lemma LongLifeEndsOnTime(timeToLive: real)
    requires timeToLive > 2000.0
    ensures WarningDelay(timeToLive) + FadeDelay(timeToLive) == timeToLive
    ensures FadeDelay(timeToLive) == 2000.0 && WarningDelay(timeToLive) > 0.0
  {
  }

  /** A life of at most two seconds ends after 70% of it: a fifth visible, then half faded. */
  lemma ShortLifeEndsEarly(timeToLive: real)
    requires 0.0 <= timeToLive <= 2000.0
    ensures WarningDelay(timeToLive) + FadeDelay(timeToLive) == timeToLive * 0.7
    ensures WarningDelay(timeToLive) + FadeDelay(timeToLive) <= timeToLive
  {
  }

  /** Both phases are never negative for a non-negative life, and fading never takes longer than two seconds. */
  lemma PhasesAreBounded(timeToLive: real)
    requires timeToLive >= 0.0
    ensures 0.0 <= WarningDelay(timeToLive) && 0.0 <= FadeDelay(timeToLive) <= 2000.0
  {
  }

  class Part {
    var name: Name
    var x: real
    var y: real
    var hp: int
    var maxHP: int
    var mass: real
    var bounce: real
    var category: bv8
    var mask: bv8
    var alpha: real
    var undoTintEvent: Timer
    var destroyTimer: DestroyTimer
    /** attachPart replaced onHitPart with a closure that attaches the touched part to this one. */
    var receiverInstalled: bool
    /** destroy() has not been called. */
    var alive: bool

    /** `new Part(scene, gm)` as added to the physics world: named 'part', in the default category 1 colliding with everything. */
    constructor()
      ensures name == PartName && alive && !receiverInstalled && alpha == 1.0
      ensures category == 1 && mask == 0xFF
      ensures undoTintEvent == NoTimer && destroyTimer == NoDestroyTimer
    {
      name := PartName;
      x, y := 0.0, 0.0;
      hp, maxHP := 0, 0;
      mass, bounce := 1.0, 0.0;
      category, mask := 1, 0xFF;
      alpha := 1.0;
      undoTintEvent := NoTimer;
      destroyTimer := NoDestroyTimer;
      receiverInstalled := false;
      alive := true;
    }

    /** init: place the part and give it the PLAYER's hit points (config.player.hp, not config.playerPart.hp). */
    method Init(x0: real, y0: real, cfg: Config)
      modifies this`x, this`y, this`hp, this`maxHP
      ensures x == x0 && y == y0
      ensures hp == cfg.playerHP && maxHP == cfg.playerHP
    {
      x, y := x0, y0;
      hp, maxHP := cfg.playerHP, cfg.playerHP;
    }

    /** initPhysics: a free part collides with the world, the player and other parts. */
    method InitPhysics(cfg: Config)
      modifies this`mass, this`bounce, this`category, this`mask
      ensures mass == cfg.partMass && bounce == cfg.partBounce
      ensures category == CC.Bit(CC.Part) && mask == CC.FreePartMask
    {
      mass, bounce := cfg.partMass, cfg.partBounce;
      category, mask := CC.Bit(CC.Part), CC.FreePartMask;
    }

    /**
     * The part's own half of takeDamage: lose the hit points and start the 200 ms
     * untint timer, which is cancelled again when the part dies. `dead` tells the caller
     * to remove the part from the scene.
     */
    method TakeDamage(amount: int) returns (dead: bool)
      modifies this`hp, this`undoTintEvent
      ensures hp == old(hp) - amount
      ensures dead <==> hp <= 0
      ensures undoTintEvent == if dead then Cancelled else Pending(200.0, false)
    {
      hp := hp - amount;
      undoTintEvent := Pending(200.0, false);
      dead := hp <= 0;
      if dead {
        undoTintEvent := Cancel(undoTintEvent);
      }
    }

    /** setDestroyTimerWithWarning: arm the first phase; the second one is armed when it fires. */
    method SetDestroyTimerWithWarning(timeToLive: real)
      modifies this`destroyTimer
      ensures destroyTimer == Warning(WarningDelay(timeToLive), FadeDelay(timeToLive))
      ensures DestroyArmed(destroyTimer)
    {
      destroyTimer := Warning(WarningDelay(timeToLive), FadeDelay(timeToLive));
    }

    /** The warning callback: fade to half alpha and arm the final timer for the remaining time. */
    method OnDestroyWarning()
      requires destroyTimer.Warning?
      modifies this`alpha, this`destroyTimer
      ensures alpha == 0.5
      ensures destroyTimer == Final(old(destroyTimer.thenLast))
    {
      alpha := 0.5;
      SetDestroyTimer(destroyTimer.thenLast);
    }

    /** setDestroyTimer: destroy the part after timeToLive milliseconds. */
    method SetDestroyTimer(timeToLive: real)
      modifies this`destroyTimer
      ensures destroyTimer == Final(timeToLive)
    {
      destroyTimer := Final(timeToLive);
    }
  }
}
