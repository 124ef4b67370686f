/**
 * The player's ship (src/entities/Player.ts; src/boilerplate/entities/Player.ts holds
 * the same logic and differs only in how it redraws the hit-point bar, which this model
 * leaves out). The scene-side effect of the player's death, ending the game, is in
 * MainScene.Scene.PlayerTakeDamage.
 */
module PlayerEntity {
  import opened Timers
  import opened GameConfig
  import CC = CollisionCategory

  class Player {
    var x: real
    var y: real
    var hp: int
    var maxHP: int
    var mass: real
    var category: bv8
    var mask: bv8
    var visible: bool
    var undoTintEvent: Timer

    /** `new Player(scene, gm)` as added to the physics world: default category 1, colliding with everything. */
    constructor()
      ensures visible && category == 1 && mask == 0xFF && undoTintEvent == NoTimer
    {
      x, y := 0.0, 0.0;
      hp, maxHP := 0, 0;
      mass := 1.0;
      category, mask := 1, 0xFF;
      visible := true;
      undoTintEvent := NoTimer;
    }

    /** init: place the player with config.player.hp hit points. */
    method Init(x0: real, y0: real, cfg: Config)
      modifies this`x, this`y, this`hp, this`maxHP
      ensures x == x0 && y == y0
      ensures hp == cfg.playerHP && maxHP == cfg.playerHP
    {
      x, y := x0, y0;
      hp, maxHP := cfg.playerHP, cfg.playerHP;
    }

    /** initPhysics: a quarter of the configured mass; collides with the world, enemies, enemy bullets and free parts. */
    method InitPhysics(cfg: Config)
      modifies this`mass, this`category, this`mask
      ensures mass == cfg.playerMass / 4.0
      ensures category == CC.Bit(CC.Player) && mask == CC.PlayerMask
    {
      mass := cfg.playerMass / 4.0;
      category, mask := CC.Bit(CC.Player), CC.PlayerMask;
    }

    /**
     * The player's own half of takeDamage: lose the hit points and start the 200 ms
     * untint timer; on death cancel it, hide the ship and take it out of every
     * collision (category 0).
     */
    method TakeDamage(amount: int) returns (dead: bool)
      modifies this`hp, this`undoTintEvent, this`visible, this`category
      ensures hp == old(hp) - amount
      ensures dead <==> hp <= 0
      ensures undoTintEvent == if dead then Cancelled else Pending(200.0, false)
      ensures visible == (old(visible) && !dead)
      ensures category == if dead then CC.Disabled else old(category)
    {
      hp := hp - amount;
      undoTintEvent := Pending(200.0, false);
      dead := hp <= 0;
      if dead {
        undoTintEvent := Cancel(undoTintEvent);
        visible := false;
        category := 0;
      }
    }
  }
}
