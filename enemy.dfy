/**
 * An enemy ship (src/boilerplate/entities/Enemy.ts). The enemy's own fields live here;
 * what its handlers do to the scene (the kill bookkeeping, the enemy list, the bullets
 * it fires) is in MainScene.Scene.
 */
module EnemyEntity {
  import opened Timers
  import opened GameConfig
  import CC = CollisionCategory

  /** Every enemy bows out this long after it spawned, whatever the caller asks for. */
  const BowOutDelay: real := 20000.0

  class Enemy {
    var x: real
    var y: real
    var hp: int
    var maxHP: int
    var mass: real
    var category: bv8
    var mask: bv8
    var undoTintEvent: Timer
    var canShootEvent: Timer
    var bowOutEvent: Timer
    /** destroy() has not been called. */
    var alive: bool

    /** Both timers that takeDamage and bowOut destroy without checking are set. */
    predicate TimersSet()
      reads this`canShootEvent, this`bowOutEvent
    {
      !canShootEvent.NoTimer? && !bowOutEvent.NoTimer?
    }

    /** `new Enemy(scene, gm)` as added to the physics world: default category 1, colliding with everything, no timers. */
    constructor()
      ensures alive && category == 1 && mask == 0xFF
      ensures undoTintEvent == NoTimer && canShootEvent == NoTimer && bowOutEvent == NoTimer
    {
      x, y := 0.0, 0.0;
      hp, maxHP := 0, 0;
      mass := 1.0;
      category, mask := 1, 0xFF;
      undoTintEvent, canShootEvent, bowOutEvent := NoTimer, NoTimer, NoTimer;
      alive := true;
    }

    /** init: place the enemy with config.enemy.hp hit points (the scene's per-wave enemyHP is not consulted). */
    method Init(x0: real, y0: real, cfg: Config)
      modifies this`x, this`y, this`hp, this`maxHP
      ensures x == x0 && y == y0
      ensures hp == cfg.enemyHP && maxHP == cfg.enemyHP
    {
      x, y := x0, y0;
      hp, maxHP := cfg.enemyHP, cfg.enemyHP;
    }

    /** initPhysics: an enemy collides with player bullets, the player and attached parts. */
    method InitPhysics(cfg: Config)
      modifies this`mass, this`category, this`mask
      ensures mass == cfg.enemyMass
      ensures category == CC.Bit(CC.Enemy) && mask == CC.EnemyMask
    {
      mass := cfg.enemyMass;
      category, mask := CC.Bit(CC.Enemy), CC.EnemyMask;
    }

    /** startShooting: fire every config.enemy.shootRate milliseconds, looping. */
    method StartShooting(cfg: Config)
      modifies this`canShootEvent
      ensures canShootEvent == Pending(cfg.enemyShootRate, true)
    {
      canShootEvent := Pending(cfg.enemyShootRate, true);
    }

    /** setBowOutEvent: the time to live passed in is ignored; the delay is always BowOutDelay. */
    method SetBowOutEvent(timeToLive: real)
      modifies this`bowOutEvent
      ensures bowOutEvent == Pending(BowOutDelay, false)
    {
      bowOutEvent := Pending(20.0 * 1000.0, false);
    }

    /**
     * The enemy's own half of takeDamage: lose the hit points and start the 10 ms
     * untint timer; on death cancel it and destroy the bow-out and shooting timers,
     * which must exist because they are destroyed without a check.
     */
    method TakeDamage(amount: int) returns (dead: bool)
      requires hp - amount <= 0 ==> TimersSet()
      modifies this`hp, this`undoTintEvent, this`bowOutEvent, this`canShootEvent
      ensures hp == old(hp) - amount
      ensures dead <==> hp <= 0
      ensures undoTintEvent == if dead then Cancelled else Pending(10.0, false)
      ensures bowOutEvent == if dead then Cancelled else old(bowOutEvent)
      ensures canShootEvent == if dead then Cancelled else old(canShootEvent)
    {
      hp := hp - amount;
      undoTintEvent := Pending(10.0, false);
      dead := hp <= 0;
      if dead {
        undoTintEvent := Cancel(undoTintEvent);
        bowOutEvent := Cancel(bowOutEvent);
        canShootEvent := Cancel(canShootEvent);
      }
    }

    /** The enemy's own half of bowOut: destroy the shooting and bow-out timers. */
    method CancelTimers()
      requires TimersSet()
      modifies this`bowOutEvent, this`canShootEvent
      ensures canShootEvent == Cancelled && bowOutEvent == Cancelled
    {
      canShootEvent := Cancel(canShootEvent);
      bowOutEvent := Cancel(bowOutEvent);
    }
  }
}
