/**
 * The game scene of src/scenes/mainScene.ts: the lists of live bullets, parts and
 * enemies, the constraints that make up the player's ship, the score and kill
 * bookkeeping, and the timer callbacks and collision handlers that change them.
 */
module MainScene {
  import opened Names
  import opened Wrappers
  import opened Timers
  import opened GameConfig
  import CC = CollisionCategory
  import opened PartEntity
  import opened EnemyEntity
  import opened PlayerEntity
  import opened CompositionGraph
  import Registry
  import Metrics
  import Difficulty
  import PartReceiver

  const PlayerBulletRapid: real := 150.0
  const InitialEnemySpawnInterval: real := 1000.0
  const InitialEnemyHP: int := 6
  const StartingParts: nat := 1
  const PartSpawnChance: real := 0.21
  const PartScatterLife: real := 10000.0
  const MetricsInterval: real := 1000.0
  const PlayerBulletLife: real := 1000.0
  const EnemyBulletLife: real := 10000.0
  const FlyAwayDelay: real := 4000.0

  /** A player or enemy bullet; its hit handlers are the scene's methods. */
  class Bullet {
    var name: Name
    var category: bv8
    var mask: bv8
    var bowOutEvent: Timer
    var alive: bool

    constructor(n: Name)
      ensures name == n && alive && bowOutEvent == NoTimer
      ensures category == 1 && mask == 0xFF
    {
      name := n;
      category, mask := 1, 0xFF;
      bowOutEvent := NoTimer;
      alive := true;
    }
  }

  /** `parts.filter(part => part.name === n)`: the parts called n, in list order. */
  function FilterNamed(parts: seq<Part>, n: Name): (r: seq<Part>)
    reads parts`name
    ensures forall p <- r :: p in parts && p.name == n
    ensures forall p <- parts :: p.name == n ==> p in r
    decreases |parts|
  {
    if |parts| == 0 then []
    else
      var init, last := parts[..|parts| - 1], parts[|parts| - 1];
      assert forall p <- parts :: p in init || p == last;
      FilterNamed(init, n) + (if last.name == n then [last] else [])
  }

  /** `parts.filter(part => part.name === n).length`. */
  function CountNamed(parts: seq<Part>, n: Name): nat
    reads parts`name
  {
    |FilterNamed(parts, n)|
  }

  /**
   * In a list without repeats, the entries called n are counted once each: when they are
   * exactly the listed members of s, and every member of s is listed, there are |s| of them.
   */
  lemma {:induction false} CountNamedMatches(parts: seq<Part>, s: set<Part>, n: Name)
    requires Registry.Distinct(parts)
    requires forall p <- parts :: p.name == n <==> p in s
    requires forall p <- s :: p in parts
    ensures CountNamed(parts, n) == |s|
    decreases |parts|
  {
    if |parts| == 0 {
      assert forall p :: p !in s;
    } else {
      var q := parts[|parts| - 1];
      var init := parts[..|parts| - 1];
      assert q !in init by {
        forall k | 0 <= k < |init| ensures init[k] != q {
          assert init[k] == parts[k];
        }
      }
      forall p <- s - {q} ensures p in init {
        var k :| 0 <= k < |parts| && parts[k] == p;
        assert init[k] == p;
      }
      CountNamedMatches(init, s - {q}, n);
      if q.name == n {
        assert s == (s - {q}) + {q};
      } else {
        assert s - {q} == s;
      }
    }
  }

  /**
   * The kill window holds the current second and at most ten seconds before it; the
   * difficulty index stays within the curve, and a pending difficulty timer waits for
   * the stage it indexes; the spawn timer is always set.
   */
  ghost predicate FlowOk(killCount: seq<int>, difficulty: nat, curve: seq<Difficulty.Stage>,
                         difficultyTimer: Timer, spawnTimer: Timer)
  {
    && 1 <= |killCount| <= Metrics.WindowSeconds + 1
    && difficulty <= |curve|
    && (difficultyTimer.Pending? ==> difficulty < |curve| && difficultyTimer == Pending(curve[difficulty].wait, false))
    && !spawnTimer.NoTimer?
  }

  /** A bullet list entry for each shot, each pushed twice in a row. */
  function Doubled(shots: seq<Bullet>): (r: seq<Bullet>)
    ensures |r| == 2 * |shots|
    ensures forall i | 0 <= i < |shots| :: r[2 * i] == shots[i] && r[2 * i + 1] == shots[i]
  {
    if |shots| == 0 then [] else Doubled(shots[..|shots| - 1]) + [shots[|shots| - 1], shots[|shots| - 1]]
  }

  /** The entries for two runs of shots are those of the first run, then of the second. */
  lemma {:induction false} DoubledAppend(a: seq<Bullet>, b: seq<Bullet>)
    ensures Doubled(a + b) == Doubled(a) + Doubled(b)
    decreases |b|
  {
    if |b| > 0 {
      var b' := b[..|b| - 1];
      assert (a + b)[..|a + b| - 1] == a + b';
      DoubledAppend(a, b');
    } else {
      assert a + b == a;
    }
  }

  /** A bullet pushed twice is still listed once after destroyBullet removes it. */
  lemma DoublePushedBulletStaysListed(list: seq<Bullet>, b: Bullet)
    requires b !in list
    ensures Registry.RemoveViaIndexOf(list + [b, b], b) == list + [b]
  {
    var s := list + [b, b];
    assert s[|list|] == b && b !in s[..|list|];
    assert s[..|list|] == list;
    assert s[|list| + 1..] == [b];
  }

  /**
   * A part's body as attachPart leaves it: opaque, at (x0, y0), with the attached parts'
   * mass (a four-hundredth of the configured one), hit points and collision category.
   * `setCircle` gives the part a new body, so the free part's mask and bounce are gone:
   * the new body has Matter's default mask (every category) and no restitution.
   */
  predicate Rigged(cfg: Config, part: Part, x0: real, y0: real)
    reads part`alpha, part`mass, part`x, part`y, part`hp, part`maxHP, part`category
    reads part`mask, part`bounce
  {
    && part.alpha == 1.0 && part.mass == cfg.partMass / 400.0 && part.x == x0 && part.y == y0
    && part.hp == cfg.partHP && part.maxHP == cfg.partHP
    && part.category == CC.Bit(CC.PlayerPart)
    && part.mask == CC.DefaultMask && part.bounce == 0.0
  }

  /** attachPart's changes to the part's body that do not depend on the ship's shape. */
  method RigAttachedPart(cfg: Config, part: Part, x0: real, y0: real)
    modifies part`alpha, part`mass, part`x, part`y, part`hp, part`maxHP, part`category
    modifies part`mask, part`bounce
    ensures Rigged(cfg, part, x0, y0)
  {
    part.mask, part.bounce := CC.DefaultMask, 0.0;
    part.alpha := 1.0;
    part.mass := cfg.partMass / 400.0;
    part.x, part.y := x0, y0;
    part.hp, part.maxHP := cfg.partHP, cfg.partHP;
    part.category := CC.Bit(CC.PlayerPart);
  }

  /** A part as recursiveDetachPart leaves it: a free part with the free parts' physics. */
  predicate Loose(cfg: Config, q: Part)
    reads q`name, q`mass, q`bounce, q`category, q`mask
  {
    q.name == PartName && q.mass == cfg.partMass && q.bounce == 1.0
    && q.category == CC.Bit(CC.Part) && q.mask == CC.FreePartMask
  }

  /** recursiveDetachPart's last step: rename the part and restore the free parts' physics. */
  method Loosen(cfg: Config, q: Part)
    modifies q`name, q`mass, q`bounce, q`category, q`mask
    ensures Loose(cfg, q)
  {
    q.name := PartName;
    q.mass := cfg.partMass;
    q.bounce := 1.0;
    q.category := CC.Bit(CC.Part);
    q.mask := CC.FreePartMask;
  }

  class Scene {
    const cfg: Config
    const player: Player
    const difficultyCurve: seq<Difficulty.Stage>

    var partList: seq<Part>
    var enemyList: seq<Enemy>
    var bulletList: seq<Bullet>
    var constraintList: seq<Link>

    var gameIsOver: bool
    var score: int
    var powerLevel: int
    var totalKill: nat
    var highestPartCount: nat
    var killCount: seq<int>
    var crashDamage: int
    var allowedEnemies: int
    var enemyHP: int
    var enemySpawnInterval: real
    var difficulty: nat

    var shootTimerEvent: Timer
    var spawnEnemyTimerEvent: Timer
    var metricsTimerEvent: Timer
    var difficultyTimerEvent: Timer
    var flyAwayTimer: Timer

    /** Every part the scene ever made. */
    ghost var Repr: set<Part>
    /** When each part was made or last attached; it orders every parent before its children. */
    ghost var stamp: map<Part, nat>
    ghost var clock: nat
    /** The parts on the ship. */
    ghost var attached: set<Part>

    /** The ship's links form a tree rooted at the player over the attached parts. */
    ghost predicate GraphValid()
      reads this`constraintList, this`Repr, this`attached, this`stamp, this`clock
    {
      ShapedBy(constraintList, Repr, attached) && Stamped(constraintList, stamp, clock)
    }

    /**
     * What the scene keeps true of each part it made: it is on the ship exactly when it
     * is called 'player_part'; a part on the ship has its receiver installed and no
     * destroy timer armed; a part with an armed destroy timer is listed; a listed part
     * is alive.
     */
    ghost predicate PartOk(p: Part)
      reads this`attached, this`partList, p`name, p`alive, p`receiverInstalled, p`destroyTimer
    {
      && (p in attached <==> p.name == PlayerPartName)
      && (p in attached ==> p.receiverInstalled && !DestroyArmed(p.destroyTimer))
      && (DestroyArmed(p.destroyTimer) ==> p in partList)
      && (p in partList ==> p.alive)
    }

    /**
     * The part list holds parts the scene made, each once; both ends of every constraint
     * are listed parts (or the player); every part the scene made is PartOk.
     */
    ghost predicate PartsValid()
      reads this`partList, this`constraintList, this`Repr, this`attached, this`stamp, this`clock
      reads Repr`name, Repr`alive, Repr`receiverInstalled, Repr`destroyTimer
    {
      && GraphValid()
      && Registry.Distinct(partList)
      && (forall p <- partList :: p in Repr)
      && (forall l <- constraintList :: l.child in partList && (l.parent.PartNode? ==> l.parent.part in partList))
      && (forall p <- Repr :: PartOk(p))
    }

    ghost predicate EnemiesValid()
      reads this`enemyList, enemyList`alive, enemyList`canShootEvent, enemyList`bowOutEvent
    {
      && Registry.Distinct(enemyList)
      && forall e <- enemyList :: e.alive && e.TimersSet()
    }

    ghost predicate FlowValid()
      reads this`killCount, this`difficulty, this`difficultyTimerEvent, this`spawnEnemyTimerEvent
    {
      FlowOk(killCount, difficulty, difficultyCurve, difficultyTimerEvent, spawnEnemyTimerEvent)
    }

    ghost predicate Valid()
      reads this, Repr`name, Repr`alive, Repr`receiverInstalled, Repr`destroyTimer
      reads enemyList`alive, enemyList`canShootEvent, enemyList`bowOutEvent
    {
      PartsValid() && EnemiesValid() && FlowValid()
    }

    /** `partList.filter(part => part.name === 'player_part').length`. */
    function PlayerPartCount(): nat
      reads this`partList, partList`name
    {
      CountNamed(partList, PlayerPartName)
    }

    /** The count of listed 'player_part' parts is the number of parts on the ship. */
    lemma PlayerPartCountIsShipSize()
      requires Valid()
      ensures PlayerPartCount() == |attached|
    {
      forall p <- attached ensures p in partList {
        ParentCountZeroIffUnlinked(constraintList, p);
      }
      CountNamedMatches(partList, attached, PlayerPartName);
    }

    /**
     * The scene as its field initializers leave it, before create() runs: nothing listed,
     * nothing scored or killed, the kill window holding one empty second, difficulty 0,
     * one enemy allowed, and no timers yet.
     */
    ghost predicate Initialized()
      reads this`partList, this`enemyList, this`bulletList, this`constraintList, this`gameIsOver, this`score
      reads this`powerLevel, this`totalKill, this`highestPartCount, this`killCount, this`crashDamage
      reads this`allowedEnemies, this`enemyHP, this`enemySpawnInterval, this`difficulty, this`shootTimerEvent
      reads this`spawnEnemyTimerEvent, this`metricsTimerEvent, this`difficultyTimerEvent, this`flyAwayTimer
      reads this`Repr, this`stamp, this`clock, this`attached
    {
      && partList == [] && enemyList == [] && bulletList == [] && constraintList == []
      && !gameIsOver && score == 0 && powerLevel == 0 && totalKill == 0 && highestPartCount == 0
      && killCount == [0] && crashDamage == 0 && allowedEnemies == 1 && difficulty == 0
      && enemyHP == InitialEnemyHP && enemySpawnInterval == InitialEnemySpawnInterval
      && shootTimerEvent == NoTimer && spawnEnemyTimerEvent == NoTimer && metricsTimerEvent == NoTimer
      && difficultyTimerEvent == NoTimer && flyAwayTimer == NoTimer
      && Repr == {} && stamp == map[] && clock == 0 && attached == {}
    }

    /** The scene object with its field initializers; the player object is allocated here and set up by create(). */
    constructor(config: Config, curve: seq<Difficulty.Stage>)
      ensures cfg == config && difficultyCurve == curve && fresh(player)
      ensures Initialized()
    {
      cfg := config;
      difficultyCurve := curve;
      player := new Player();
      partList, enemyList, bulletList, constraintList := [], [], [], [];
      gameIsOver := false;
      score, powerLevel, totalKill, highestPartCount := 0, 0, 0, 0;
      killCount := [0];
      crashDamage := 0;
      allowedEnemies := 1;
      enemyHP := InitialEnemyHP;
      enemySpawnInterval := InitialEnemySpawnInterval;
      difficulty := 0;
      shootTimerEvent, spawnEnemyTimerEvent, metricsTimerEvent := NoTimer, NoTimer, NoTimer;
      difficultyTimerEvent, flyAwayTimer := NoTimer, NoTimer;
      Repr, stamp, clock, attached := {}, map[], 0, {};
    }

    /**
     * create: the player in the lower middle of a width-by-height field, the looping
     * shoot and metrics timers, the first spawn and difficulty timers, and the starting
     * part in the middle with no time limit. Indexing the curve at difficulty 0 needs a
     * stage.
     */
    method Create(width: real, height: real)
      requires Initialized() && |difficultyCurve| > 0
      modifies player`x, player`y, player`hp, player`maxHP, player`mass, player`category, player`mask
      modifies this`shootTimerEvent, this`spawnEnemyTimerEvent, this`metricsTimerEvent, this`difficultyTimerEvent
      modifies this`partList, this`Repr
      ensures Valid()
      ensures player.x == width / 2.0 && player.y == height * 4.0 / 5.0
      ensures player.hp == cfg.playerHP && player.maxHP == cfg.playerHP && player.mass == cfg.playerMass / 4.0
      ensures player.category == CC.Bit(CC.Player) && player.mask == CC.PlayerMask
      ensures |partList| == StartingParts
      ensures forall p <- partList :: fresh(p) && p.name == PartName && p.x == width / 2.0 && p.y == height / 2.0 && p.destroyTimer == NoDestroyTimer
      ensures shootTimerEvent == Pending(PlayerBulletRapid, true)
      ensures spawnEnemyTimerEvent == Pending(InitialEnemySpawnInterval, false)
      ensures metricsTimerEvent == Pending(MetricsInterval, true)
      ensures difficultyTimerEvent == Pending(difficultyCurve[0].wait, false)
    {
      player.InitPhysics(cfg);
      player.Init(width / 2.0, height * 4.0 / 5.0, cfg);
      StartTimers();
      MakeStartingParts(width / 2.0, height / 2.0);
    }

    /** create's four addEvent calls; with them the scene's invariant holds. */
    method StartTimers()
      requires Initialized() && |difficultyCurve| > 0
      modifies this`shootTimerEvent, this`spawnEnemyTimerEvent, this`metricsTimerEvent, this`difficultyTimerEvent
      ensures Valid() && partList == [] && constraintList == []
      ensures shootTimerEvent == Pending(PlayerBulletRapid, true)
      ensures spawnEnemyTimerEvent == Pending(InitialEnemySpawnInterval, false)
      ensures metricsTimerEvent == Pending(MetricsInterval, true)
      ensures difficultyTimerEvent == Pending(difficultyCurve[0].wait, false)
    {
      shootTimerEvent := Pending(PlayerBulletRapid, true);
      spawnEnemyTimerEvent := Pending(InitialEnemySpawnInterval, false);
      metricsTimerEvent := Pending(MetricsInterval, true);
      difficultyTimerEvent := Pending(difficultyCurve[difficulty].wait, false);
    }

    /** create's loop: startingParts free parts at (x0, y0) that never expire. */
    method MakeStartingParts(x0: real, y0: real)
      requires Valid() && partList == [] && constraintList == []
      modifies this`partList, this`Repr
      ensures Valid() && |partList| == StartingParts
      ensures forall p <- partList :: fresh(p) && p.name == PartName && p.x == x0 && p.y == y0 && p.destroyTimer == NoDestroyTimer
    {
      var i := 0;
      while i < StartingParts
        invariant 0 <= i <= StartingParts && |partList| == i
        invariant Valid()
        invariant forall p <- partList :: fresh(p) && p.name == PartName && p.x == x0 && p.y == y0 && p.destroyTimer == NoDestroyTimer
      {
        var p := MakePart(x0, y0, -1.0);
        i := i + 1;
      }
    }

    /**
     * makePart: a free part at (x0, y0) in the part list; a time to live above -1 arms
     * its two-phase destroy timer. The scatter velocity is not modelled.
     */
    method MakePart(x0: real, y0: real, timeToLive: real) returns (p: Part)
      requires Valid()
      modifies this`partList, this`Repr
      ensures Valid()
      ensures fresh(p) && partList == old(partList) + [p] && Repr == old(Repr) + {p}
      ensures p.name == PartName && p.alive && !p.receiverInstalled && p.alpha == 1.0
      ensures p.x == x0 && p.y == y0 && p.hp == cfg.playerHP && p.maxHP == cfg.playerHP
      ensures p.mass == cfg.partMass && p.bounce == cfg.partBounce
      ensures p.category == CC.Bit(CC.Part) && p.mask == CC.FreePartMask
      ensures p.destroyTimer == if timeToLive > -1.0 then Warning(WarningDelay(timeToLive), FadeDelay(timeToLive)) else NoDestroyTimer
    {
      p := NewPart(x0, y0, timeToLive);
      AddFreePart(p);
    }

    /** The part makePart builds, before it is listed. */
    method NewPart(x0: real, y0: real, timeToLive: real) returns (p: Part)
      ensures fresh(p)
      ensures p.name == PartName && p.alive && !p.receiverInstalled && p.alpha == 1.0
      ensures p.x == x0 && p.y == y0 && p.hp == cfg.playerHP && p.maxHP == cfg.playerHP
      ensures p.mass == cfg.partMass && p.bounce == cfg.partBounce
      ensures p.category == CC.Bit(CC.Part) && p.mask == CC.FreePartMask
      ensures p.destroyTimer == if timeToLive > -1.0 then Warning(WarningDelay(timeToLive), FadeDelay(timeToLive)) else NoDestroyTimer
    {
      p := new Part();
      p.InitPhysics(cfg);
      p.Init(x0, y0, cfg);
      if timeToLive > -1.0 {
        p.SetDestroyTimerWithWarning(timeToLive);
      }
    }

    /** `this.partList.push(part)` for a new free part. */
    method AddFreePart(p: Part)
      requires Valid()
      requires p !in Repr && p.name == PartName && p.alive
      modifies this`partList, this`Repr
      ensures Valid()
      ensures partList == old(partList) + [p] && Repr == old(Repr) + {p}
    {
      partList := partList + [p];
      Repr := Repr + {p};
      Registry.AppendFreshDistinct(old(partList), p);
      forall l <- constraintList ensures l.child != p {
        assert l.child in old(Repr);
      }
      ParentCountZeroIffUnlinked(constraintList, p);
      assert partList[..|partList| - 1] == old(partList);
    }

    /** The position of a constraint's parent body. */
    function NodeX(n: Node): real
      reads player`x, if n.PartNode? then {n.part} else {}
    {
      if n.PlayerNode? then player.x else n.part.x
    }

    function NodeY(n: Node): real
      reads player`y, if n.PartNode? then {n.part} else {}
    {
      if n.PlayerNode? then player.y else n.part.y
    }

    /**
     * attachPart: the touched free part becomes an attached 'player_part' at the given
     * offset from its parent, with the attached parts' hit points, mass and category, its
     * own receiver installed and its destroy timer cancelled; the constraint is recorded
     * and the highest part count kept. The part's new circular body collides with every
     * category and does not bounce.
     */
    method AttachPart(parent: Node, part: Part, dx: real, dy: real)
      requires Valid()
      requires part in partList && part.name == PartName
      requires parent.PartNode? ==> parent.part in partList && parent.part.name == PlayerPartName
      modifies this`constraintList, this`highestPartCount, this`stamp, this`clock, this`attached
      modifies part`name, part`alpha, part`mass, part`x, part`y, part`hp, part`maxHP, part`receiverInstalled
      modifies part`category, part`destroyTimer, part`mask, part`bounce
      ensures Valid()
      ensures Joined(parent, part, old(constraintList), old(attached), old(highestPartCount))
      ensures Rigged(cfg, part, old(NodeX(parent)) + dx, old(NodeY(parent)) + dy)
      ensures part.destroyTimer == CancelDestroy(old(part.destroyTimer))
    {
      var px, py := NodeX(parent), NodeY(parent);
      ghost var links0, attached0, highest0 := constraintList, attached, highestPartCount;
      JoinShip(parent, part, links0, attached0, highest0);
      RigPart(part, px + dx, py + dy);
    }

    /**
     * What attachPart leaves in the scene's bookkeeping, against the constraints links0,
     * the ship attached0 and the count highest0 before: one more constraint from parent
     * to part, the part on the ship as a 'player_part' with its receiver, and the highest
     * part count raised to the new ship size if that is larger.
     */
    ghost predicate Joined(parent: Node, part: Part, links0: seq<Link>, attached0: set<Part>, highest0: nat)
      reads this`constraintList, this`attached, this`highestPartCount, part`name, part`receiverInstalled
    {
      && constraintList == links0 + [Link(parent, part)] && attached == attached0 + {part}
      && |attached| == |attached0| + 1
      && part.name == PlayerPartName && part.receiverInstalled
      && highestPartCount == if highest0 >= |attached| then highest0 else |attached|
    }

    /** attachPart's changes to the scene's bookkeeping: the receiver, the constraint and the highest part count. */
    method JoinShip(parent: Node, part: Part, ghost links0: seq<Link>, ghost attached0: set<Part>, ghost highest0: nat)
      requires Valid() && constraintList == links0 && attached == attached0 && highestPartCount == highest0
      requires part in partList && part.name == PartName
      requires parent.PartNode? ==> parent.part in partList && parent.part.name == PlayerPartName
      modifies this`constraintList, this`highestPartCount, this`stamp, this`clock, this`attached
      modifies part`name, part`receiverInstalled, part`destroyTimer
      ensures Valid()
      ensures Joined(parent, part, links0, attached0, highest0)
      ensures part.destroyTimer == CancelDestroy(old(part.destroyTimer))
    {
      InstallReceiver(part);
      LinkPart(parent, part);
      RecordHighestPartCount();
    }

    /** attachPart's changes to the part's body, which the scene's invariant does not depend on. */
    method RigPart(part: Part, x0: real, y0: real)
      requires Valid()
      modifies part`alpha, part`mass, part`x, part`y, part`hp, part`maxHP, part`category
      modifies part`mask, part`bounce
      ensures Valid() && Rigged(cfg, part, x0, y0)
      ensures part.name == old(part.name) && part.receiverInstalled == old(part.receiverInstalled)
      ensures part.destroyTimer == old(part.destroyTimer)
    {
      RigAttachedPart(cfg, part, x0, y0);
    }

    /** `highestPartCount = max(highestPartCount, number of attached parts)`. */
    method RecordHighestPartCount()
      requires Valid()
      modifies this`highestPartCount
      ensures Valid()
      ensures highestPartCount == if old(highestPartCount) >= |attached| then old(highestPartCount) else |attached|
    {
      var count := CountNamed(partList, PlayerPartName);
      PlayerPartCountIsShipSize();
      highestPartCount := if highestPartCount >= count then highestPartCount else count;
    }

    /** attachPart's new onHitPart closure and the destroying of the part's destroy timer. */
    method InstallReceiver(part: Part)
      requires Valid() && part in Repr
      modifies part`receiverInstalled, part`destroyTimer
      ensures Valid()
      ensures part.receiverInstalled && part.destroyTimer == CancelDestroy(old(part.destroyTimer))
    {
      part.receiverInstalled := true;
      part.destroyTimer := CancelDestroy(part.destroyTimer);
    }

    /**
     * attachPart's rename and constraint: the free part joins the ship under its parent,
     * and the ship counts one more part.
     */
    method LinkPart(parent: Node, part: Part)
      requires Valid()
      requires part in partList && part.name == PartName
      requires part.receiverInstalled && !DestroyArmed(part.destroyTimer)
      requires parent.PartNode? ==> parent.part in partList && parent.part.name == PlayerPartName
      modifies this`constraintList, this`stamp, this`clock, this`attached, part`name
      ensures Valid()
      ensures constraintList == old(constraintList) + [Link(parent, part)] && attached == old(attached) + {part}
      ensures |attached| == old(|attached|) + 1
      ensures part.name == PlayerPartName && part.receiverInstalled
    {
      assert part !in attached;
      ConnectPart(parent, part);
    }

    /** LinkPart's change to the part bookkeeping; the enemies and the timers are not involved. */
    method ConnectPart(parent: Node, part: Part)
      requires PartsValid()
      requires part in partList && part.name == PartName
      requires part.receiverInstalled && !DestroyArmed(part.destroyTimer)
      requires parent.PartNode? ==> parent.part in partList && parent.part.name == PlayerPartName
      modifies this`constraintList, this`stamp, this`clock, this`attached, part`name
      ensures PartsValid()
      ensures constraintList == old(constraintList) + [Link(parent, part)] && attached == old(attached) + {part}
      ensures part.name == PlayerPartName
    {
      AttachKeepsShape(constraintList, Repr, attached, parent, part);
      AttachKeepsStamps(constraintList, Repr, attached, stamp, clock, parent, part);
      constraintList, stamp, clock, attached, part.name :=
        constraintList + [Link(parent, part)], stamp[part := clock], clock + 1, attached + {part}, PlayerPartName;
      forall p <- Repr ensures PartOk(p) {
        if p != part { assert old(PartOk(p)); }
      }
    }

    /** The physics fields recursiveDetachPart may change are as they were in old for q. */
    twostate predicate Untouched(q: Part)
      reads q`name, q`mass, q`bounce, q`category, q`mask
    {
      q.name == old(q.name) && q.mass == old(q.mass) && q.bounce == old(q.bounce)
      && q.category == old(q.category) && q.mask == old(q.mask)
    }

    /**
     * recursiveDetachPart: every child's subtree is detached first, in the order of the
     * constraints naming the part as parent, then the part's own parent constraint is
     * removed and the part becomes a free part. The ghost result is the detached set:
     * it is the part's subtree in the constraints as they were, its constraints are
     * gone, and no other part changed.
     */
    method RecursiveDetachPart(part: Part) returns (ghost sub: set<Part>)
      requires GraphValid() && part in Repr
      modifies this`constraintList, this`attached, Repr`name, Repr`mass, Repr`bounce, Repr`category, Repr`mask
      ensures GraphValid()
      ensures part in sub && sub <= Repr
      ensures Closed(old(constraintList), sub) && Rooted(old(constraintList), sub, part)
      ensures constraintList == Without(old(constraintList), sub) && attached == old(attached) - sub
      ensures forall q <- sub :: Loose(cfg, q)
      ensures forall q <- Repr :: q in sub || Untouched(q)
      decreases if part in stamp && stamp[part] < clock then clock - stamp[part] else 0, 2
    {
      ghost var links0, attached0 := constraintList, attached;
      var children := ChildrenOf(constraintList, part);
      ghost var acc := DetachChildren(part, children);
      sub := DetachSelf(part, links0, attached0, children, acc);
    }

    /** recursiveDetachPart after its loop: with the children's subtrees gone, the part itself goes. */
    method DetachSelf(part: Part, ghost links0: seq<Link>, ghost attached0: set<Part>, children: seq<Part>, ghost acc: set<Part>)
      returns (ghost sub: set<Part>)
      requires GraphValid() && part in Repr && acc <= Repr
      requires children == ChildrenOf(links0, part)
      requires constraintList == Without(links0, acc) && attached == attached0 - acc
      requires Closed(links0, acc) && HangsFrom(links0, acc, children)
      requires forall c <- children :: c in acc
      requires forall q <- acc :: Loose(cfg, q)
      modifies this`constraintList, this`attached, part`name, part`mass, part`bounce, part`category, part`mask
      ensures GraphValid()
      ensures sub == acc + {part} && sub <= Repr
      ensures Closed(links0, sub) && Rooted(links0, sub, part)
      ensures constraintList == Without(links0, sub) && attached == attached0 - sub
      ensures forall q <- sub :: Loose(cfg, q)
    {
      DetachFinish(links0, acc, part, children);
      forall l <- constraintList ensures l.parent != PartNode(part) {
        assert l in links0;
      }
      DetachFromParent(part);
      WithoutWithout(links0, acc, {part});
      sub := acc + {part};
    }

    /** recursiveDetachPart's loop: `byeByeList.forEach(c => recursiveDetachPart(c.bodyB))`. */
    method DetachChildren(part: Part, children: seq<Part>) returns (ghost acc: set<Part>)
      requires GraphValid() && part in Repr
      requires children == ChildrenOf(constraintList, part)
      modifies this`constraintList, this`attached, Repr`name, Repr`mass, Repr`bounce, Repr`category, Repr`mask
      ensures GraphValid() && acc <= Repr
      ensures constraintList == Without(old(constraintList), acc) && attached == old(attached) - acc
      ensures Closed(old(constraintList), acc) && HangsFrom(old(constraintList), acc, children)
      ensures forall c <- children :: c in acc
      ensures forall q <- acc :: Loose(cfg, q)
      ensures forall q <- Repr :: q in acc || Untouched(q)
      decreases if part in stamp && stamp[part] < clock then clock - stamp[part] else 0, 1
    {
      ghost var links0, attached0 := constraintList, attached;
      acc := {};
      WithoutNothing(links0, acc);
      for i := 0 to |children|
        invariant GraphValid()
        invariant acc <= Repr
        invariant constraintList == Without(links0, acc) && attached == attached0 - acc
        invariant Closed(links0, acc) && HangsFrom(links0, acc, children[..i])
        invariant forall c <- children[..i] :: c in acc
        invariant forall q <- acc :: Loose(cfg, q)
        invariant forall q <- Repr :: q in acc || Untouched(q)
      {
        acc := DetachChild(part, links0, attached0, children, i, acc);
      }
      assert children[..|children|] == children;
    }

    /** One round of recursiveDetachPart's loop: the subtree of the i-th child goes. */
    method DetachChild(part: Part, ghost links0: seq<Link>, ghost attached0: set<Part>, children: seq<Part>, i: nat,
                       ghost acc: set<Part>)
      returns (ghost acc': set<Part>)
      requires GraphValid() && part in Repr && acc <= Repr
      requires children == ChildrenOf(links0, part) && i < |children|
      requires Stamped(links0, stamp, clock)
      requires constraintList == Without(links0, acc) && attached == attached0 - acc
      requires Closed(links0, acc) && HangsFrom(links0, acc, children[..i])
      requires forall c <- children[..i] :: c in acc
      requires forall q <- acc :: Loose(cfg, q)
      modifies this`constraintList, this`attached, Repr`name, Repr`mass, Repr`bounce, Repr`category, Repr`mask
      ensures GraphValid() && acc' <= Repr && acc <= acc'
      ensures constraintList == Without(links0, acc') && attached == attached0 - acc'
      ensures Closed(links0, acc') && HangsFrom(links0, acc', children[..i + 1])
      ensures forall c <- children[..i + 1] :: c in acc'
      ensures forall q <- acc' :: Loose(cfg, q)
      ensures forall q <- Repr :: q in acc' || Untouched(q)
      decreases if part in stamp && stamp[part] < clock then clock - stamp[part] else 0, 0
    {
      var child := children[i];
      assert Link(PartNode(part), child) in links0;
      ghost var subC := RecursiveDetachPart(child);
      DetachStep(links0, acc, subC, children, i);
      acc' := acc + subC;
    }

    /**
     * recursiveDetachPart's own step, once the part has no children: the constraint that
     * `find` returns for it as child is spliced out, and the part is renamed and loosened.
     */
    method DetachFromParent(part: Part)
      requires GraphValid() && part in Repr
      requires forall l <- constraintList :: l.parent != PartNode(part)
      modifies this`constraintList, this`attached, part`name, part`mass, part`bounce, part`category, part`mask
      ensures GraphValid()
      ensures constraintList == Without(old(constraintList), {part}) && attached == old(attached) - {part}
      ensures Loose(cfg, part)
    {
      UnlinkFromParent(part);
      Loosen(cfg, part);
    }

    /** The splice of the part's parent constraint, with the rename to 'part' that goes with it. */
    method UnlinkFromParent(part: Part)
      requires GraphValid() && part in Repr
      requires forall l <- constraintList :: l.parent != PartNode(part)
      modifies this`constraintList, this`attached, part`name
      ensures GraphValid()
      ensures constraintList == Without(old(constraintList), {part}) && attached == old(attached) - {part}
      ensures part.name == PartName
    {
      DetachKeepsShape(constraintList, Repr, attached, {part});
      StampedWithout(constraintList, stamp, clock, {part});
      RemoveSoleParentLink(constraintList, part);
      match ParentLinkIndex(constraintList, part) {
        case Some(k) =>
          constraintList := Registry.RemoveViaIndexOf(constraintList, constraintList[k]);
        case None =>
      }
      attached := attached - {part};
      part.name := PartName;
    }

    /**
     * destroyPart, the callback of a scattered part's final timer: the timer is
     * destroyed, the part leaves the part list and is destroyed. Only a free part can
     * have an armed timer, so the ship is unchanged.
     */
    method DestroyPart(p: Part)
      requires Valid() && p in Repr && p.destroyTimer.Final?
      modifies this`partList, p`destroyTimer, p`alive
      ensures Valid()
      ensures partList == Registry.RemoveViaIndexOf(old(partList), p)
      ensures forall q :: q in partList <==> q in old(partList) && q != p
      ensures p.destroyTimer == DestroyCancelled && !p.alive
    {
      CancelPartTimer(p);
      RetireFreePart(p);
    }

    /** `if (this.destroyTimer) this.destroyTimer.destroy()`. */
    method CancelPartTimer(p: Part)
      requires Valid() && p in Repr
      modifies p`destroyTimer
      ensures Valid() && p.destroyTimer == CancelDestroy(old(p.destroyTimer))
    {
      p.destroyTimer := CancelDestroy(p.destroyTimer);
    }

    /** `partList.splice(partList.indexOf(part), 1)` for a listed part that is not on the ship. */
    method UnlistFreePart(p: Part)
      requires Valid() && p in partList && p.name != PlayerPartName && !DestroyArmed(p.destroyTimer)
      modifies this`partList
      ensures Valid()
      ensures partList == Registry.RemoveViaIndexOf(old(partList), p)
      ensures forall q :: q in partList <==> q in old(partList) && q != p
    {
      Registry.RemoveFromDistinct(partList, p);
      ParentCountZeroIffUnlinked(constraintList, p);
      partList := Registry.RemoveViaIndexOf(partList, p);
    }

    /** `partList.splice(partList.indexOf(part), 1)` and then `part.destroy()`. */
    method RetireFreePart(p: Part)
      requires Valid() && p in partList && p.name != PlayerPartName && !DestroyArmed(p.destroyTimer)
      modifies this`partList, p`alive
      ensures Valid() && !p.alive
      ensures partList == Registry.RemoveViaIndexOf(old(partList), p)
      ensures forall q :: q in partList <==> q in old(partList) && q != p
    {
      UnlistFreePart(p);
      DestroyUnlisted(p);
    }

    /** `part.destroy()` for a part that is no longer listed. */
    method DestroyUnlisted(p: Part)
      requires Valid() && p in Repr && p !in partList
      modifies p`alive
      ensures Valid() && !p.alive
    {
      p.alive := false;
    }

    // ---- enemies ----

    /**
     * spawnEnemy: a new enemy at (x0, y0) with its physics, pushed onto the enemy list,
     * with its bow-out timer and its looping shooting timer.
     */
    method SpawnEnemy(x0: real, y0: real) returns (e: Enemy)
      requires Valid()
      modifies this`enemyList
      ensures Valid()
      ensures fresh(e) && enemyList == old(enemyList) + [e] && e.alive
      ensures e.x == x0 && e.y == y0 && e.hp == cfg.enemyHP && e.maxHP == cfg.enemyHP && e.mass == cfg.enemyMass
      ensures e.category == CC.Bit(CC.Enemy) && e.mask == CC.EnemyMask
      ensures e.bowOutEvent == Pending(BowOutDelay, false) && e.canShootEvent == Pending(cfg.enemyShootRate, true)
    {
      e := NewEnemy(x0, y0);
      ListEnemy(e);
    }

    /** The enemy spawnEnemy builds, before it is listed. */
    method NewEnemy(x0: real, y0: real) returns (e: Enemy)
      ensures fresh(e) && e.alive
      ensures e.x == x0 && e.y == y0 && e.hp == cfg.enemyHP && e.maxHP == cfg.enemyHP && e.mass == cfg.enemyMass
      ensures e.category == CC.Bit(CC.Enemy) && e.mask == CC.EnemyMask
      ensures e.bowOutEvent == Pending(BowOutDelay, false) && e.canShootEvent == Pending(cfg.enemyShootRate, true)
    {
      e := new Enemy();
      e.InitPhysics(cfg);
      e.Init(x0, y0, cfg);
      e.SetBowOutEvent(BowOutDelay);
      e.StartShooting(cfg);
    }

    /** `this.enemyList.push(enemy)` for a new enemy whose timers are set. */
    method ListEnemy(e: Enemy)
      requires Valid() && e !in enemyList && e.alive && e.TimersSet()
      modifies this`enemyList
      ensures Valid() && enemyList == old(enemyList) + [e]
    {
      Registry.AppendFreshDistinct(enemyList, e);
      enemyList := enemyList + [e];
    }

    /**
     * onCanSpawnEnemy: an enemy at the top of the field at the given x (the source draws
     * it at random), whatever the number already alive, and the spawn timer re-armed
     * with the current interval.
     */
    method OnCanSpawnEnemy(x0: real) returns (e: Enemy)
      requires Valid()
      modifies this`enemyList, this`spawnEnemyTimerEvent
      ensures Valid()
      ensures fresh(e) && enemyList == old(enemyList) + [e] && e.x == x0 && e.y == 0.0
      ensures spawnEnemyTimerEvent == Pending(enemySpawnInterval, false)
    {
      e := SpawnEnemy(x0, 0.0);
      spawnEnemyTimerEvent := Pending(enemySpawnInterval, false);
    }

    /** The enemy's own half of takeDamage, run against the scene's invariant. */
    method HurtEnemy(e: Enemy, amount: int) returns (dead: bool)
      requires Valid() && (e.hp - amount <= 0 ==> e.TimersSet())
      modifies e`hp, e`undoTintEvent, e`bowOutEvent, e`canShootEvent
      ensures Valid()
      ensures e.hp == old(e.hp) - amount && (dead <==> e.hp <= 0)
      ensures e.undoTintEvent == if dead then Cancelled else Pending(10.0, false)
      ensures e.bowOutEvent == if dead then Cancelled else old(e.bowOutEvent)
      ensures e.canShootEvent == if dead then Cancelled else old(e.canShootEvent)
    {
      dead := e.TakeDamage(amount);
    }

    /**
     * Enemy.takeDamage: the enemy loses amount hit points. On the hit that takes it to
     * zero or below, onEnemyKilled runs (roll is the random draw deciding the part
     * drop), both of its timers are destroyed, and it is spliced out of the enemy list
     * and destroyed.
     */
    method EnemyTakeDamage(e: Enemy, amount: int, roll: real) returns (killed: bool, drop: Option<Part>)
      requires Valid() && (e.hp - amount <= 0 ==> e.TimersSet())
      modifies e`hp, e`undoTintEvent, e`bowOutEvent, e`canShootEvent, e`alive
      modifies this`enemyList, this`killCount, this`totalKill, this`score, this`partList, this`Repr
      ensures Valid()
      ensures e.hp == old(e.hp) - amount && (killed <==> e.hp <= 0)
      ensures e.undoTintEvent == if killed then Cancelled else Pending(10.0, false)
      ensures killed ==> e.bowOutEvent == Cancelled && e.canShootEvent == Cancelled && !e.alive
      ensures killed ==> enemyList == Registry.RemoveViaIndexOf(old(enemyList), e) && e !in enemyList
      ensures killed ==> Killed(e, roll, drop)
      ensures !killed ==> e.bowOutEvent == old(e.bowOutEvent) && e.canShootEvent == old(e.canShootEvent)
      ensures !killed ==> e.alive == old(e.alive) && enemyList == old(enemyList) && NothingKilled(drop)
    {
      killed := HurtEnemy(e, amount);
      drop := None;
      if killed {
        drop := OnEnemyKilled(e, roll);
        UnlistEnemy(e);
        DestroyEnemy(e);
      }
    }

    /**
     * What onEnemyKilled did: one more kill in the current second and in total, the
     * enemy's maximum hit points times the power level added to the score, and a part
     * dropped where the enemy was exactly when the draw is at most PartSpawnChance.
     */
    twostate predicate Killed(e: Enemy, roll: real, new drop: Option<Part>)
      reads this`killCount, this`totalKill, this`score, this`powerLevel, this`partList, this`Repr, e`x, e`y, e`maxHP
      reads if drop.Some? then {drop.value} else {}
    {
      && KillCounted(e, roll, drop)
      && (drop.Some? ==> partList == old(partList) + [drop.value] && Repr == old(Repr) + {drop.value})
      && (drop.None? ==> partList == old(partList) && Repr == old(Repr))
    }

    /** Killed without the part list and the footprint: the counts, the score and the drop itself. */
    twostate predicate KillCounted(e: Enemy, roll: real, new drop: Option<Part>)
      reads this`killCount, this`totalKill, this`score, this`powerLevel, e`x, e`y, e`maxHP
      reads if drop.Some? then {drop.value} else {}
    {
      && |old(killCount)| > 0 && killCount == Metrics.CountKill(old(killCount))
      && totalKill == old(totalKill) + 1
      && score == old(score) + powerLevel * e.maxHP
      && (drop.Some? <==> roll <= PartSpawnChance)
      && (drop.Some? ==> var p := drop.value;
            && fresh(p) && p.name == PartName && p.x == e.x && p.y == e.y
            && p.destroyTimer == Warning(WarningDelay(PartScatterLife), FadeDelay(PartScatterLife)))
    }

    /** No kill was counted and no part was dropped. */
    twostate predicate NothingKilled(new drop: Option<Part>)
      reads this`killCount, this`totalKill, this`score, this`partList, this`Repr
    {
      killCount == old(killCount) && totalKill == old(totalKill) && score == old(score)
      && partList == old(partList) && Repr == old(Repr) && drop.None?
    }

    /** onEnemyKilled: the kill bookkeeping, then the chance of a part that expires after PartScatterLife. */
    method OnEnemyKilled(e: Enemy, roll: real) returns (drop: Option<Part>)
      requires Valid()
      modifies this`killCount, this`totalKill, this`score, this`partList, this`Repr
      ensures Valid() && Killed(e, roll, drop)
    {
      CountKill(e);
      if roll <= PartSpawnChance {
        var p := MakePart(e.x, e.y, PartScatterLife);
        drop := Some(p);
      } else {
        drop := None;
      }
    }

    /** `killCount[last]++`, `totalKill++` and `score += powerLevel * enemy.maxHP`. */
    method CountKill(e: Enemy)
      requires Valid()
      modifies this`killCount, this`totalKill, this`score
      ensures Valid()
      ensures killCount == Metrics.CountKill(old(killCount)) && totalKill == old(totalKill) + 1
      ensures score == old(score) + powerLevel * e.maxHP
    {
      killCount := Metrics.CountKill(killCount);
      totalKill := totalKill + 1;
      score := score + powerLevel * e.maxHP;
    }

    /** `enemyList.splice(enemyList.indexOf(this), 1)`; the enemy is no longer listed afterwards. */
    method UnlistEnemy(e: Enemy)
      requires Valid()
      modifies this`enemyList
      ensures Valid()
      ensures enemyList == Registry.RemoveViaIndexOf(old(enemyList), e) && e !in enemyList
    {
      Registry.RemoveKeepsDistinct(enemyList, e);
      enemyList := Registry.RemoveViaIndexOf(enemyList, e);
    }

    /** `enemy.destroy()` for an enemy that is no longer listed. */
    method DestroyEnemy(e: Enemy)
      requires Valid() && e !in enemyList
      modifies e`alive
      ensures Valid() && !e.alive
    {
      e.alive := false;
    }

    /**
     * Enemy.bowOut, twenty seconds after the spawn: both timers are destroyed and the
     * enemy leaves the list and the game, without being counted as a kill.
     */
    method BowOut(e: Enemy)
      requires Valid() && e.TimersSet()
      modifies e`bowOutEvent, e`canShootEvent, e`alive, this`enemyList
      ensures Valid()
      ensures e.bowOutEvent == Cancelled && e.canShootEvent == Cancelled && !e.alive
      ensures enemyList == Registry.RemoveViaIndexOf(old(enemyList), e) && e !in enemyList
    {
      CancelEnemyTimers(e);
      UnlistEnemy(e);
      DestroyEnemy(e);
    }

    /** The enemy's own half of bowOut, run against the scene's invariant. */
    method CancelEnemyTimers(e: Enemy)
      requires Valid() && e.TimersSet()
      modifies e`bowOutEvent, e`canShootEvent
      ensures Valid() && e.bowOutEvent == Cancelled && e.canShootEvent == Cancelled
    {
      e.CancelTimers();
    }

    // ---- bullets ----

    /**
     * makeBullet: a player bullet pushed onto the bullet list, in the player-bullet
     * category and colliding with enemies and enemy bullets, gone after PlayerBulletLife
     * unless it hits first.
     */
    method MakePlayerBullet() returns (b: Bullet)
      requires Valid()
      modifies this`bulletList
      ensures Valid()
      ensures fresh(b) && bulletList == old(bulletList) + [b]
      ensures b.name == PlayerBulletName && b.alive
      ensures b.category == CC.Bit(CC.PlayerBullet) && b.mask == CC.PlayerBulletMask
      ensures b.bowOutEvent == Pending(PlayerBulletLife, false)
    {
      b := new Bullet(PlayerBulletName);
      bulletList := bulletList + [b];
      b.category, b.mask := CC.Bit(CC.PlayerBullet), CC.PlayerBulletMask;
      b.bowOutEvent := Pending(PlayerBulletLife, false);
    }

    /**
     * makeEnemyBullet: an enemy bullet pushed onto the bullet list, colliding with the
     * player and the attached parts, gone after EnemyBulletLife unless it hits first.
     */
    method MakeEnemyBullet() returns (b: Bullet)
      requires Valid()
      modifies this`bulletList
      ensures Valid()
      ensures fresh(b) && bulletList == old(bulletList) + [b]
      ensures b.name == EnemyBulletName && b.alive
      ensures b.category == CC.Bit(CC.EnemyBullet) && b.mask == CC.EnemyBulletMask
      ensures b.bowOutEvent == Pending(EnemyBulletLife, false)
    {
      b := new Bullet(EnemyBulletName);
      bulletList := bulletList + [b];
      b.category, b.mask := CC.Bit(CC.EnemyBullet), CC.EnemyBulletMask;
      b.bowOutEvent := Pending(EnemyBulletLife, false);
    }

    /**
     * A bullet's destroyBullet, on its bow-out timer or on a hit: the timer is
     * destroyed, one entry is spliced out of the bullet list by indexOf, and the bullet
     * is destroyed.
     */
    method DestroyBullet(b: Bullet)
      requires Valid()
      modifies this`bulletList, b`bowOutEvent, b`alive
      ensures Valid()
      ensures b.bowOutEvent == Cancel(old(b.bowOutEvent)) && !b.alive
      ensures bulletList == Registry.RemoveViaIndexOf(old(bulletList), b)
    {
      b.bowOutEvent := Cancel(b.bowOutEvent);
      bulletList := Registry.RemoveViaIndexOf(bulletList, b);
      b.alive := false;
    }

    /** doWingManShoot: a player bullet, pushed a second time onto the bullet list. */
    method DoWingManShoot() returns (b: Bullet)
      requires Valid()
      modifies this`bulletList
      ensures Valid()
      ensures fresh(b) && bulletList == old(bulletList) + [b, b]
      ensures b.name == PlayerBulletName && b.bowOutEvent == Pending(PlayerBulletLife, false)
    {
      b := MakePlayerBullet();
      bulletList := bulletList + [b];
    }

    /**
     * The player's onCanShoot: nothing once the game is over; otherwise a bullet for the
     * player and one for each listed 'player_part', each pushed twice. There is one shot
     * per part on the ship, plus the player's own.
     */
    method OnCanShoot() returns (shots: seq<Bullet>)
      requires Valid()
      modifies this`bulletList
      ensures Valid()
      ensures old(gameIsOver) ==> shots == [] && bulletList == old(bulletList)
      ensures !old(gameIsOver) ==> |shots| == 1 + |attached| && bulletList == old(bulletList) + Doubled(shots)
      ensures forall b <- shots :: b.name == PlayerBulletName
    {
      if gameIsOver {
        shots := [];
      } else {
        shots := Volley();
      }
    }

    /** onCanShoot while the game runs: the player's shot, then one per wing. */
    method Volley() returns (shots: seq<Bullet>)
      requires Valid()
      modifies this`bulletList
      ensures Valid()
      ensures |shots| == 1 + |attached| && bulletList == old(bulletList) + Doubled(shots)
      ensures forall b <- shots :: b.name == PlayerBulletName
    {
      ghost var list0 := bulletList;
      PlayerPartCountIsShipSize();
      var count := |FilterNamed(partList, PlayerPartName)|;
      var b := DoWingManShoot();
      assert Doubled([b]) == [b, b];
      shots := WingShots(count, [b], list0);
    }

    /**
     * `partList.filter(...).forEach(part => this.doWingManShoot(...))` for count wings,
     * after the shots in first.
     */
    method WingShots(count: nat, first: seq<Bullet>, ghost list0: seq<Bullet>) returns (shots: seq<Bullet>)
      requires Valid() && bulletList == list0 + Doubled(first)
      requires forall b <- first :: b.name == PlayerBulletName
      modifies this`bulletList
      ensures Valid()
      ensures |shots| == |first| + count && bulletList == list0 + Doubled(shots)
      ensures forall b <- shots :: b.name == PlayerBulletName
    {
      shots := first;
      for i := 0 to count
        invariant Valid()
        invariant |shots| == |first| + i && bulletList == list0 + Doubled(shots)
        invariant forall b <- shots :: b.name == PlayerBulletName
      {
        var b := DoWingManShoot();
        assert (shots + [b])[..|shots|] == shots;
        shots := shots + [b];
      }
    }

    /** An enemy's onCanShoot: nothing once the game is over; otherwise an enemy bullet, pushed twice. */
    method EnemyOnCanShoot() returns (shot: Option<Bullet>)
      requires Valid()
      modifies this`bulletList
      ensures Valid()
      ensures old(gameIsOver) <==> shot.None?
      ensures shot.None? ==> bulletList == old(bulletList)
      ensures shot.Some? ==> var b := shot.value;
        fresh(b) && bulletList == old(bulletList) + [b, b]
        && b.name == EnemyBulletName && b.bowOutEvent == Pending(EnemyBulletLife, false)
    {
      if gameIsOver {
        return None;
      }
      var b := MakeEnemyBullet();
      bulletList := bulletList + [b];
      shot := Some(b);
    }

    // ---- damage ----

    /**
     * Player.takeDamage: the player loses amount hit points; the hit that takes them to
     * zero or below ends the game, hides the ship and takes it out of every collision.
     */
    method PlayerTakeDamage(amount: int) returns (dead: bool)
      requires Valid()
      modifies player`hp, player`undoTintEvent, player`visible, player`category, this`gameIsOver
      ensures Valid()
      ensures player.hp == old(player.hp) - amount && (dead <==> player.hp <= 0)
      ensures gameIsOver == (old(gameIsOver) || dead)
      ensures player.visible == (old(player.visible) && !dead)
      ensures player.category == if dead then CC.Disabled else old(player.category)
      ensures player.undoTintEvent == if dead then Cancelled else Pending(200.0, false)
    {
      dead := player.TakeDamage(amount);
      if dead {
        gameIsOver := true;
      }
    }

    /** Every part on the ship is listed and carries attachPart's receiver. */
    lemma ShipPartsAreListed(p: Part)
      requires Valid() && p in attached
      ensures p in partList && p.receiverInstalled && p.alive
    {
      ParentCountZeroIffUnlinked(constraintList, p);
    }

    /**
     * What the death of a ship part did: it left the part list and the game, and the
     * tree below it, itself included, left the ship as free parts; the constraints of
     * that tree are gone.
     */
    twostate predicate ShipPartRemoved(p: Part, new sub: set<Part>)
      reads this`partList, this`constraintList, this`attached, p`alive
      reads sub`name, sub`mass, sub`bounce, sub`category, sub`mask
    {
      partList == Registry.RemoveViaIndexOf(old(partList), p) && Detached(old(constraintList), old(attached), p, sub)
    }

    /**
     * ShipPartRemoved without the part list, against the constraints links0 and the ship
     * attached0 before: the part is gone and its tree is loose.
     */
    ghost predicate Detached(links0: seq<Link>, attached0: set<Part>, p: Part, sub: set<Part>)
      reads this`constraintList, this`attached, p`alive
      reads sub`name, sub`mass, sub`bounce, sub`category, sub`mask
    {
      && !p.alive
      && p in sub && Closed(links0, sub) && Rooted(links0, sub, p)
      && constraintList == Without(links0, sub) && attached == attached0 - sub
      && forall q <- sub :: Loose(cfg, q)
    }

    /**
     * A ship part's takeDamage (attachPart's closure): the part loses amount hit points;
     * on the hit that takes it to zero or below the untint timer is destroyed, the part
     * leaves the part list, its subtree is detached and the part is destroyed. The
     * ghost result is the detached subtree.
     */
    method PartTakeDamage(p: Part, amount: int) returns (dead: bool, ghost sub: set<Part>)
      requires Valid() && p in Repr && p.name == PlayerPartName
      modifies p`hp, p`undoTintEvent, p`alive, this`partList, this`constraintList, this`attached
      modifies Repr`name, Repr`mass, Repr`bounce, Repr`category, Repr`mask
      ensures Valid()
      ensures p.hp == old(p.hp) - amount && (dead <==> p.hp <= 0)
      ensures p.undoTintEvent == if dead then Cancelled else Pending(200.0, false)
      ensures dead ==> ShipPartRemoved(p, sub)
      ensures !dead ==> sub == {} && partList == old(partList) && p.alive
      ensures !dead ==> constraintList == old(constraintList) && attached == old(attached)
      ensures forall q <- Repr :: q in sub || Untouched(q)
    {
      ShipPartsAreListed(p);
      dead := HurtPart(p, amount);
      sub := {};
      if dead {
        sub := RemoveShipPart(p);
      }
    }

    /** The part's own half of takeDamage, run against the scene's invariant. */
    method HurtPart(p: Part, amount: int) returns (dead: bool)
      requires Valid() && p in Repr
      modifies p`hp, p`undoTintEvent
      ensures Valid()
      ensures p.hp == old(p.hp) - amount && (dead <==> p.hp <= 0)
      ensures p.undoTintEvent == if dead then Cancelled else Pending(200.0, false)
    {
      dead := p.TakeDamage(amount);
    }

    /**
     * The rest of the dying ship part's takeDamage: `partList.splice(...)`,
     * recursiveDetachPart, `destroy()`. The splice and the detach change disjoint state,
     * so the model detaches first and splices the part, by then a free part, after.
     */
    method RemoveShipPart(p: Part) returns (ghost sub: set<Part>)
      requires Valid() && p in Repr && p.name == PlayerPartName
      modifies p`alive, this`partList, this`constraintList, this`attached
      modifies Repr`name, Repr`mass, Repr`bounce, Repr`category, Repr`mask
      ensures Valid() && ShipPartRemoved(p, sub)
      ensures forall q <- Repr :: q in sub || Untouched(q)
    {
      ShipPartsAreListed(p);
      sub := DetachShipPart(p);
      RetireFreePart(p);
    }

    /** recursiveDetachPart on a ship part keeps the scene's invariant: the detached parts are free parts. */
    method DetachShipPart(p: Part) returns (ghost sub: set<Part>)
      requires Valid() && p in Repr && p.name == PlayerPartName
      modifies this`constraintList, this`attached, Repr`name, Repr`mass, Repr`bounce, Repr`category, Repr`mask
      ensures Valid() && p in sub && sub <= old(attached)
      ensures Closed(old(constraintList), sub) && Rooted(old(constraintList), sub, p)
      ensures constraintList == Without(old(constraintList), sub) && attached == old(attached) - sub
      ensures forall q <- sub :: Loose(cfg, q)
      ensures forall q <- Repr :: q in sub || Untouched(q)
    {
      sub := FreeSubtree(p);
    }

    /** DetachShipPart's change to the part bookkeeping; the enemies and the timers are not involved. */
    method FreeSubtree(p: Part) returns (ghost sub: set<Part>)
      requires PartsValid() && p in Repr && p.name == PlayerPartName
      modifies this`constraintList, this`attached, Repr`name, Repr`mass, Repr`bounce, Repr`category, Repr`mask
      ensures PartsValid() && p in sub && sub <= old(attached)
      ensures Closed(old(constraintList), sub) && Rooted(old(constraintList), sub, p)
      ensures constraintList == Without(old(constraintList), sub) && attached == old(attached) - sub
      ensures forall q <- sub :: Loose(cfg, q)
      ensures forall q <- Repr :: q in sub || Untouched(q)
    {
      ghost var links0, attached0 := constraintList, attached;
      sub := RecursiveDetachPart(p);
      SubtreeIsAttached(links0, Repr, attached0, p, sub);
      forall l <- constraintList ensures l.child in partList && (l.parent.PartNode? ==> l.parent.part in partList) {
        assert l in links0;
      }
      forall q <- Repr ensures PartOk(q) {
        assert old(PartOk(q));
      }
    }

    // ---- collision handlers (registerCollisionEvents) ----

    /** A player bullet's onHitEnemy: one hit point off the enemy, then destroyBullet. */
    method BulletHitsEnemy(b: Bullet, e: Enemy, roll: real) returns (killed: bool, drop: Option<Part>)
      requires Valid() && (e.hp - 1 <= 0 ==> e.TimersSet())
      modifies e`hp, e`undoTintEvent, e`bowOutEvent, e`canShootEvent, e`alive
      modifies this`enemyList, this`killCount, this`totalKill, this`score, this`partList, this`Repr
      modifies this`bulletList, b`bowOutEvent, b`alive
      ensures Valid()
      ensures e.hp == old(e.hp) - 1 && (killed <==> e.hp <= 0) && (killed ==> !e.alive)
      ensures killed ==> enemyList == Registry.RemoveViaIndexOf(old(enemyList), e) && Killed(e, roll, drop)
      ensures !killed ==> enemyList == old(enemyList) && NothingKilled(drop)
      ensures bulletList == Registry.RemoveViaIndexOf(old(bulletList), b) && !b.alive
    {
      killed, drop := EnemyTakeDamage(e, 1, roll);
      DestroyBullet(b);
    }

    /** An enemy bullet's onHitPlayer: three hit points off the player, then destroyBullet. */
    method EnemyBulletHitsPlayer(b: Bullet) returns (dead: bool)
      requires Valid()
      modifies player`hp, player`undoTintEvent, player`visible, player`category, this`gameIsOver
      modifies this`bulletList, b`bowOutEvent, b`alive
      ensures Valid()
      ensures player.hp == old(player.hp) - 3 && (dead <==> player.hp <= 0)
      ensures gameIsOver == (old(gameIsOver) || dead)
      ensures bulletList == Registry.RemoveViaIndexOf(old(bulletList), b) && !b.alive
    {
      dead := PlayerTakeDamage(3);
      DestroyBullet(b);
    }

    /** An enemy bullet's onHitPlayerPart: two hit points off the ship part, then destroyBullet. */
    method EnemyBulletHitsPlayerPart(b: Bullet, p: Part) returns (dead: bool, ghost sub: set<Part>)
      requires Valid() && p in Repr && p.name == PlayerPartName
      modifies p`hp, p`undoTintEvent, p`alive, this`partList, this`constraintList, this`attached
      modifies Repr`name, Repr`mass, Repr`bounce, Repr`category, Repr`mask
      modifies this`bulletList, b`bowOutEvent, b`alive
      ensures Valid()
      ensures p.hp == old(p.hp) - 2 && (dead <==> p.hp <= 0)
      ensures dead ==> ShipPartRemoved(p, sub)
      ensures !dead ==> partList == old(partList) && constraintList == old(constraintList) && attached == old(attached)
      ensures bulletList == Registry.RemoveViaIndexOf(old(bulletList), b) && !b.alive
    {
      dead, sub := PartTakeDamage(p, 2);
      DestroyBullet(b);
    }

    /**
     * An enemy's onHitPlayer, when it rams the player: six hit points off the player, ten
     * crash damage scored, and ten hit points off the enemy itself.
     */
    method EnemyHitsPlayer(e: Enemy, roll: real) returns (dead: bool, killed: bool, drop: Option<Part>)
      requires Valid() && (e.hp - 10 <= 0 ==> e.TimersSet())
      modifies player`hp, player`undoTintEvent, player`visible, player`category, this`gameIsOver, this`crashDamage
      modifies e`hp, e`undoTintEvent, e`bowOutEvent, e`canShootEvent, e`alive
      modifies this`enemyList, this`killCount, this`totalKill, this`score, this`partList, this`Repr
      ensures Valid()
      ensures player.hp == old(player.hp) - 6 && (dead <==> player.hp <= 0)
      ensures gameIsOver == (old(gameIsOver) || dead)
      ensures crashDamage == old(crashDamage) + 10
      ensures e.hp == old(e.hp) - 10 && (killed <==> e.hp <= 0) && (killed ==> !e.alive)
      ensures killed ==> enemyList == Registry.RemoveViaIndexOf(old(enemyList), e) && Killed(e, roll, drop)
      ensures !killed ==> enemyList == old(enemyList) && NothingKilled(drop)
    {
      dead := PlayerTakeDamage(6);
      killed, drop := Rams(e, roll, {});
    }

    /**
     * An enemy's onHitPlayerPart, when it rams a ship part: three hit points off the
     * part, ten crash damage scored, and ten hit points off the enemy itself. The results
     * say whether the part died (with its detached subtree as a ghost), whether the enemy
     * died, and the part it dropped, if any.
     */
    method EnemyHitsPlayerPart(e: Enemy, p: Part, roll: real)
      returns (dead: bool, ghost sub: set<Part>, killed: bool, drop: Option<Part>)
      requires Valid() && p in Repr && p.name == PlayerPartName && (e.hp - 10 <= 0 ==> e.TimersSet())
      modifies p`hp, p`undoTintEvent, p`alive, this`partList, this`constraintList, this`attached
      modifies Repr`name, Repr`mass, Repr`bounce, Repr`category, Repr`mask, this`crashDamage
      modifies e`hp, e`undoTintEvent, e`bowOutEvent, e`canShootEvent, e`alive
      modifies this`enemyList, this`killCount, this`totalKill, this`score, this`Repr
      ensures Valid()
      ensures p.hp == old(p.hp) - 3 && (dead <==> p.hp <= 0)
      ensures dead ==> Detached(old(constraintList), old(attached), p, sub)
      ensures !dead ==> sub == {} && p.alive && constraintList == old(constraintList) && attached == old(attached)
      ensures var kept := if dead then Registry.RemoveViaIndexOf(old(partList), p) else old(partList);
        && (drop.Some? ==> partList == kept + [drop.value] && Repr == old(Repr) + {drop.value})
        && (drop.None? ==> partList == kept && Repr == old(Repr))
      ensures crashDamage == old(crashDamage) + 10
      ensures e.hp == old(e.hp) - 10 && (killed <==> e.hp <= 0) && (killed ==> !e.alive)
      ensures killed ==> enemyList == Registry.RemoveViaIndexOf(old(enemyList), e) && KillCounted(e, roll, drop)
      ensures !killed ==> enemyList == old(enemyList) && drop.None?
      ensures !killed ==> killCount == old(killCount) && totalKill == old(totalKill) && score == old(score)
    {
      dead, sub := PartTakeDamage(p, 3);
      // The part's damage leaves the enemy's half of the crash alone.
      assert killCount == old(killCount) && totalKill == old(totalKill) && score == old(score) && Repr == old(Repr);
      assert enemyList == old(enemyList) && crashDamage == old(crashDamage) && e.hp == old(e.hp);
      killed, drop := Rams(e, roll, sub);
    }

    /**
     * The enemy's own share of a crash: `crashDamage += 10` and `this.takeDamage(10)`.
     * It touches no part other than the one it may drop, so the free parts in the ghost
     * set loose stay free parts.
     */
    method Rams(e: Enemy, roll: real, ghost loose: set<Part>) returns (killed: bool, drop: Option<Part>)
      requires Valid() && (e.hp - 10 <= 0 ==> e.TimersSet())
      requires forall q <- loose :: Loose(cfg, q)
      modifies this`crashDamage, e`hp, e`undoTintEvent, e`bowOutEvent, e`canShootEvent, e`alive
      modifies this`enemyList, this`killCount, this`totalKill, this`score, this`partList, this`Repr
      ensures Valid()
      ensures crashDamage == old(crashDamage) + 10
      ensures e.hp == old(e.hp) - 10 && (killed <==> e.hp <= 0) && (killed ==> !e.alive)
      ensures killed ==> enemyList == Registry.RemoveViaIndexOf(old(enemyList), e) && Killed(e, roll, drop)
      ensures !killed ==> enemyList == old(enemyList) && NothingKilled(drop)
      ensures constraintList == old(constraintList) && attached == old(attached)
      ensures forall q <- loose :: Loose(cfg, q)
    {
      crashDamage := crashDamage + 10;
      killed, drop := EnemyTakeDamage(e, 10, roll);
    }

    // ---- receiving parts (IPartReceiver.onHitPart) ----

    /**
     * onHitPart of a receiver, the player (IPartReceiver) or a ship part (attachPart's
     * closure): the touched free part is attached to the receiver at its current
     * displacement from it, so it joins the ship where it touched.
     */
    method ReceivePart(receiver: Node, part: Part)
      requires Valid() && part in partList && part.name == PartName
      requires receiver.PartNode? ==> receiver.part in Repr && receiver.part.name == PlayerPartName
      modifies this`constraintList, this`highestPartCount, this`stamp, this`clock, this`attached
      modifies part`name, part`alpha, part`mass, part`x, part`y, part`hp, part`maxHP, part`receiverInstalled
      modifies part`category, part`destroyTimer, part`mask, part`bounce
      ensures Valid()
      ensures constraintList == old(constraintList) + [Link(receiver, part)] && attached == old(attached) + {part}
      ensures part.name == PlayerPartName && part.receiverInstalled
      ensures part.x == old(part.x) && part.y == old(part.y)
    {
      if receiver.PartNode? {
        ShipPartsAreListed(receiver.part);
      }
      var d := PartReceiver.Displacement(part.x, part.y, NodeX(receiver), NodeY(receiver));
      AttachPart(receiver, part, d.0, d.1);
    }

    /**
     * A receiver is never a part that lacks attachPart's closure: every 'player_part' has
     * it, so Part's own onHitPart, which throws, is never the one that runs.
     */
    lemma ReceiversAreInstalled(p: Part)
      requires Valid() && p in Repr && p.name == PlayerPartName
      ensures p.receiverInstalled && p in partList
    {
      ShipPartsAreListed(p);
    }

    // ---- timers ----

    /**
     * onMetrics, every second: the kill window moves on by one second, and the power
     * level is recomputed from the number of parts on the ship. The local allowedEnemies
     * it computes does not change the scene's field.
     */
    method OnMetrics()
      requires Valid()
      modifies this`killCount, this`powerLevel
      ensures Valid()
      ensures killCount == Metrics.RollKillWindow(old(killCount))
      ensures powerLevel == Metrics.PowerLevel(|attached|)
    {
      Metrics.RollKeepsWindowBounded(killCount);
      killCount := Metrics.RollKillWindow(killCount);
      var playerPartCount := CountNamed(partList, PlayerPartName);
      PlayerPartCountIsShipSize();
      var combatLevel := playerPartCount;
      var allowed := Metrics.AllowedEnemiesFor(combatLevel);
      powerLevel := combatLevel * 150 + allowed * 100;
    }

    /** A destroy timer's warning callback: the part fades and its last timer is armed. */
    method PartDestroyWarning(p: Part)
      requires Valid() && p in Repr && p.destroyTimer.Warning?
      modifies p`alpha, p`destroyTimer
      ensures Valid()
      ensures p.alpha == 0.5 && p.destroyTimer == Final(old(p.destroyTimer.thenLast))
    {
      p.OnDestroyWarning();
    }

    /**
     * updateDifficulty, when the difficulty timer fires at stage `difficulty`. At the end
     * stage the game is won: the player and every listed part leave all collisions, the
     * game is over, the fly-away timer starts and the spawn timer is destroyed. At a
     * wave, its enemy settings are copied, the index moves on, and the timer is re-armed
     * with the next stage's wait when there is a next stage.
     */
    method UpdateDifficulty()
      requires Valid() && difficultyTimerEvent.Pending?
      modifies this`allowedEnemies, this`enemyHP, this`enemySpawnInterval, this`difficulty, this`difficultyTimerEvent
      modifies this`gameIsOver, this`flyAwayTimer, this`spawnEnemyTimerEvent, player`category, Repr`category
      ensures Valid()
      ensures old(difficulty) < |difficultyCurve|
      ensures difficulty == Difficulty.NextDifficulty(difficultyCurve, old(difficulty))
      ensures difficultyTimerEvent == match Difficulty.NextWait(difficultyCurve, old(difficulty))
        case Some(w) => Pending(w, false)
        case None => Fired
      ensures difficultyCurve[old(difficulty)].Ending? ==>
        && gameIsOver && player.category == CC.Disabled && (forall p <- partList :: p.category == CC.Disabled)
        && flyAwayTimer == Pending(FlyAwayDelay, false) && spawnEnemyTimerEvent == Cancel(old(spawnEnemyTimerEvent))
        && allowedEnemies == old(allowedEnemies) && enemyHP == old(enemyHP) && enemySpawnInterval == old(enemySpawnInterval)
      ensures difficultyCurve[old(difficulty)].Wave? ==>
        && allowedEnemies == difficultyCurve[old(difficulty)].allowedEnemies
        && enemyHP == difficultyCurve[old(difficulty)].enemyHP
        && enemySpawnInterval == difficultyCurve[old(difficulty)].enemySpawnInterval
        && gameIsOver == old(gameIsOver) && player.category == old(player.category)
        && flyAwayTimer == old(flyAwayTimer) && spawnEnemyTimerEvent == old(spawnEnemyTimerEvent)
      ensures forall q <- Repr :: q.category == if q in partList && difficultyCurve[old(difficulty)].Ending? then CC.Disabled else old(q.category)
    {
      var diff := difficultyCurve[difficulty];
      if diff.Ending? {
        EndGame();
      } else {
        NextWave();
      }
    }

    /** updateDifficulty at the end stage. */
    method EndGame()
      requires Valid() && difficultyTimerEvent.Pending? && difficultyCurve[difficulty].Ending?
      modifies this`difficultyTimerEvent, this`gameIsOver, this`flyAwayTimer, this`spawnEnemyTimerEvent
      modifies player`category, Repr`category
      ensures Valid()
      ensures gameIsOver && player.category == CC.Disabled
      ensures forall q <- Repr :: q.category == if q in partList then CC.Disabled else old(q.category)
      ensures flyAwayTimer == Pending(FlyAwayDelay, false)
      ensures difficultyTimerEvent == Fired && spawnEnemyTimerEvent == Cancel(old(spawnEnemyTimerEvent))
    {
      player.category := 0;
      DisableCollisions();
      EndSpawning();
    }

    /** `partList.forEach(part => part.setCollisionCategory(0))`. */
    method DisableCollisions()
      requires Valid()
      modifies Repr`category
      ensures Valid()
      ensures forall q <- Repr :: q.category == if q in partList then CC.Disabled else old(q.category)
    {
      for i := 0 to |partList|
        invariant forall q <- Repr :: q.category == if q in partList[..i] then CC.Disabled else old(q.category)
      {
        partList[i].category := 0;
        assert partList[..i + 1] == partList[..i] + [partList[i]];
      }
      assert partList[..|partList|] == partList;
    }

    /**
     * The rest of the end stage: gameIsOver, the fly-away timer, the fired difficulty
     * timer, and `spawnEnemyTimerEvent.destroy()`.
     */
    method EndSpawning()
      requires Valid() && difficultyTimerEvent.Pending? && difficultyCurve[difficulty].Ending?
      modifies this`difficultyTimerEvent, this`gameIsOver, this`flyAwayTimer, this`spawnEnemyTimerEvent
      ensures Valid() && gameIsOver && flyAwayTimer == Pending(FlyAwayDelay, false)
      ensures difficultyTimerEvent == Fired && spawnEnemyTimerEvent == Cancel(old(spawnEnemyTimerEvent))
    {
      gameIsOver := true;
      flyAwayTimer := Pending(FlyAwayDelay, false);
      difficultyTimerEvent := Fired;
      spawnEnemyTimerEvent := Cancel(spawnEnemyTimerEvent);
    }

    /** updateDifficulty at a wave: the wave's settings, the next index, and the re-armed timer. */
    method NextWave()
      requires Valid() && difficultyTimerEvent.Pending? && difficultyCurve[difficulty].Wave?
      modifies this`allowedEnemies, this`enemyHP, this`enemySpawnInterval, this`difficulty, this`difficultyTimerEvent
      ensures Valid()
      ensures difficulty == old(difficulty) + 1
      ensures difficultyTimerEvent == match Difficulty.NextWait(difficultyCurve, old(difficulty))
        case Some(w) => Pending(w, false)
        case None => Fired
      ensures allowedEnemies == difficultyCurve[old(difficulty)].allowedEnemies
      ensures enemyHP == difficultyCurve[old(difficulty)].enemyHP
      ensures enemySpawnInterval == difficultyCurve[old(difficulty)].enemySpawnInterval
    {
      var diff := difficultyCurve[difficulty];
      var next := difficulty + 1;
      // `if (!nextDiff) return;` leaves the fired timer as it is
      var timer := if next < |difficultyCurve| then Pending(difficultyCurve[next].wait, false) else Fired;
      allowedEnemies, enemyHP, enemySpawnInterval := diff.allowedEnemies, diff.enemyHP, diff.enemySpawnInterval;
      difficulty, difficultyTimerEvent := next, timer;
    }
  }
}
