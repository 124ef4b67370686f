/**
 * Collision-pair dispatch (registerCollisionEvents and checkPairGameObjectName in
 * src/scenes/mainScene.ts). The physics engine reports an unordered pair of bodies; the
 * scene tries seven name rules in a fixed order and calls the handler of a rule with the
 * bodies in the rule's order. What a handler does to the bodies (destroying one, renaming
 * a captured part) is a parameter here: the dispatcher re-reads the names and the
 * presence of the game objects after every handler, exactly as the listener does.
 */
module CollisionDispatch {
  import opened Names
  import opened Wrappers

  /** One body of a pair: its physics id and the game object it carries, if any (world bounds carry none). */
  datatype Body = Body(id: nat, gameObject: Option<Name>)

  predicate HasGameObject(b: Body)
  {
    b.gameObject.Some?
  }

  predicate Named(b: Body, n: Name)
  {
    b.gameObject == Some(n)
  }

  /**
   * checkPairGameObjectName: the pair in the order (nameA, nameB) if it matches in
   * either order, trying the reported order first; None when neither order matches.
   * Returning at most one pair is calling the callback at most once.
   */
  function CheckPairGameObjectName(nameA: Name, nameB: Name, bodyA: Body, bodyB: Body): (r: Option<(Body, Body)>)
    requires HasGameObject(bodyA) && HasGameObject(bodyB)
    ensures r.Some? <==> (Named(bodyA, nameA) && Named(bodyB, nameB)) || (Named(bodyB, nameA) && Named(bodyA, nameB))
    ensures r.Some? ==> Named(r.value.0, nameA) && Named(r.value.1, nameB)
    ensures r.Some? ==> r.value == (bodyA, bodyB) || r.value == (bodyB, bodyA)
    ensures Named(bodyA, nameA) && Named(bodyB, nameB) ==> r == Some((bodyA, bodyB))
  {
    if bodyA.gameObject.value == nameA && bodyB.gameObject.value == nameB then
      Some((bodyA, bodyB))
    else if bodyB.gameObject.value == nameA && bodyA.gameObject.value == nameB then
      Some((bodyB, bodyA))
    else
      None
  }

  /** For two different names the order in which the engine reports the pair does not matter. */
  lemma CheckPairIgnoresReportOrder(nameA: Name, nameB: Name, a: Body, b: Body)
    requires HasGameObject(a) && HasGameObject(b) && nameA != nameB
    ensures CheckPairGameObjectName(nameA, nameB, a, b) == CheckPairGameObjectName(nameA, nameB, b, a)
  {
  }

  /** The seven rules of registerCollisionEvents. */
  datatype Rule =
    | BulletHitsEnemy            // ('player_bullet', 'enemy'): bullet.onHitEnemy(enemy)
    | EnemyHitsPlayerPart        // ('enemy', 'player_part'): enemy.onHitPlayerPart(part)
    | EnemyHitsPlayer            // ('enemy', 'player'): enemy.onHitPlayer(player)
    | EnemyBulletHitsPlayer      // ('enemy_bullet', 'player'): bullet.onHitPlayer(player)
    | EnemyBulletHitsPlayerPart  // ('enemy_bullet', 'player_part'): bullet.onHitPlayerPart(part)
    | PlayerCapturesPart         // ('player', 'part'): player.onHitPart(player, part)
    | PlayerPartCapturesPart     // ('player_part', 'part'): playerPart.onHitPart(playerPart, part)

  /** The order in which the listener tries the rules. */
  const Rules: seq<Rule> := [BulletHitsEnemy, EnemyHitsPlayerPart, EnemyHitsPlayer,
    EnemyBulletHitsPlayer, EnemyBulletHitsPlayerPart, PlayerCapturesPart, PlayerPartCapturesPart]

  function RuleIndex(r: Rule): (k: nat)
    ensures k < |Rules| && Rules[k] == r
  {
    match r
    case BulletHitsEnemy => 0
    case EnemyHitsPlayerPart => 1
    case EnemyHitsPlayer => 2
    case EnemyBulletHitsPlayer => 3
    case EnemyBulletHitsPlayerPart => 4
    case PlayerCapturesPart => 5
    case PlayerPartCapturesPart => 6
  }

  lemma RuleIndexOfRules(i: nat)
    requires i < |Rules|
    ensures RuleIndex(Rules[i]) == i
  {
  }

  /** The (nameA, nameB) a rule matches. */
  function RuleNames(r: Rule): (Name, Name)
  {
    match r
    case BulletHitsEnemy => (PlayerBulletName, EnemyName)
    case EnemyHitsPlayerPart => (EnemyName, PlayerPartName)
    case EnemyHitsPlayer => (EnemyName, PlayerName)
    case EnemyBulletHitsPlayer => (EnemyBulletName, PlayerName)
    case EnemyBulletHitsPlayerPart => (EnemyBulletName, PlayerPartName)
    case PlayerCapturesPart => (PlayerName, PartName)
    case PlayerPartCapturesPart => (PlayerPartName, PartName)
  }

  /** Whether two bodies match a rule in one order or the other. */
  predicate Matches(r: Rule, a: Body, b: Body)
  {
    var (nameA, nameB) := RuleNames(r);
    (Named(a, nameA) && Named(b, nameB)) || (Named(b, nameA) && Named(a, nameB))
  }

  /** A handler invocation: the rule and the bodies in the rule's order. */
  datatype Call = Call(rule: Rule, first: Body, second: Body)

  /** What a handler leaves of the two bodies it was given, in the order it was given them. */
  type Effect = Call -> (Body, Body)

  /** The call rule i makes for the reported pair (a, b), if the rule matches it. */
  function TryRule(i: nat, a: Body, b: Body): (r: Option<Call>)
    requires i < |Rules| && HasGameObject(a) && HasGameObject(b)
    ensures r.Some? <==> Matches(Rules[i], a, b)
    ensures r.Some? ==> r.value.rule == Rules[i]
  {
    var names := RuleNames(Rules[i]);
    match CheckPairGameObjectName(names.0, names.1, a, b)
    case None => None
    case Some(pair) => Some(Call(Rules[i], pair.0, pair.1))
  }

  /** The reported pair after the handler of c ran, still in the order the engine reported it. */
  function After(c: Call, a: Body, b: Body, effect: Effect): (Body, Body)
  {
    var after := effect(c);
    if Named(a, RuleNames(c.rule).0) && Named(b, RuleNames(c.rule).1) then after else (after.1, after.0)
  }

  /** The rules from index i on, as the listener runs them for one pair. */
  function DispatchFrom(i: nat, a: Body, b: Body, effect: Effect): seq<Call>
    requires i <= |Rules|
    decreases |Rules| - i
  {
    if !(HasGameObject(a) && HasGameObject(b)) || i == |Rules| then []
    else
      match TryRule(i, a, b)
      case None => DispatchFrom(i + 1, a, b, effect)
      case Some(c) =>
        var next := After(c, a, b, effect);
        [c] + DispatchFrom(i + 1, next.0, next.1, effect)
  }

  /** The handler calls the 'collisionstart' listener makes for one reported pair. */
  function OnCollisionPair(a: Body, b: Body, effect: Effect): seq<Call>
  {
    DispatchFrom(0, a, b, effect)
  }

  /** A pair where either body lacks a game object is skipped. */
  lemma SkipsBodiesWithoutGameObject(a: Body, b: Body, effect: Effect)
    requires !HasGameObject(a) || !HasGameObject(b)
    ensures OnCollisionPair(a, b, effect) == []
  {
  }

  /** A call that names its rule's bodies in the rule's order. */
  predicate Canonical(c: Call)
  {
    Named(c.first, RuleNames(c.rule).0) && Named(c.second, RuleNames(c.rule).1)
  }

  /** Every call in calls is canonical and comes from a rule at index i or later. */
  predicate CanonicalFrom(calls: seq<Call>, i: nat)
  {
    forall k | 0 <= k < |calls| :: Canonical(calls[k]) && RuleIndex(calls[k].rule) >= i
  }

  /** The calls' rules have strictly increasing indices. */
  predicate InRuleOrder(calls: seq<Call>)
  {
    forall k, m | 0 <= k < m < |calls| :: RuleIndex(calls[k].rule) < RuleIndex(calls[m].rule)
  }

  lemma TryRuleIsCanonical(i: nat, a: Body, b: Body)
    requires i < |Rules| && HasGameObject(a) && HasGameObject(b)
    ensures TryRule(i, a, b).Some? ==> Canonical(TryRule(i, a, b).value) && RuleIndex(TryRule(i, a, b).value.rule) == i
  {
    RuleIndexOfRules(i);
  }

  /** Every call is canonical and comes from a rule at index i or later. */
  lemma {:induction false} DispatchFromCallsAreCanonical(i: nat, a: Body, b: Body, effect: Effect)
    requires i <= |Rules|
    ensures CanonicalFrom(DispatchFrom(i, a, b, effect), i)
    decreases |Rules| - i
  {
    if HasGameObject(a) && HasGameObject(b) && i < |Rules| {
      TryRuleIsCanonical(i, a, b);
      match TryRule(i, a, b)
      case None =>
        DispatchFromCallsAreCanonical(i + 1, a, b, effect);
      case Some(c) =>
        var next := After(c, a, b, effect);
        var rest := DispatchFrom(i + 1, next.0, next.1, effect);
        DispatchFromCallsAreCanonical(i + 1, next.0, next.1, effect);
        var calls := [c] + rest;
        assert DispatchFrom(i, a, b, effect) == calls;
        forall k | 0 <= k < |calls| ensures Canonical(calls[k]) && RuleIndex(calls[k].rule) >= i {
          if k > 0 {
            assert calls[k] == rest[k - 1];
          }
        }
    }
  }

  /** The calls follow the fixed rule order, so every rule fires at most once per pair. */
  lemma {:induction false} DispatchFromFollowsRuleOrder(i: nat, a: Body, b: Body, effect: Effect)
    requires i <= |Rules|
    ensures InRuleOrder(DispatchFrom(i, a, b, effect))
    decreases |Rules| - i
  {
    if HasGameObject(a) && HasGameObject(b) && i < |Rules| {
      TryRuleIsCanonical(i, a, b);
      match TryRule(i, a, b)
      case None =>
        DispatchFromFollowsRuleOrder(i + 1, a, b, effect);
      case Some(c) =>
        var next := After(c, a, b, effect);
        var rest := DispatchFrom(i + 1, next.0, next.1, effect);
        DispatchFromFollowsRuleOrder(i + 1, next.0, next.1, effect);
        DispatchFromCallsAreCanonical(i + 1, next.0, next.1, effect);
        assert DispatchFrom(i, a, b, effect) == [c] + rest;
        InRuleOrderCons(c, rest, i);
    }
  }

  /** A call from rule i in front of calls in rule order from rules after i is still in rule order. */
  lemma InRuleOrderCons(c: Call, rest: seq<Call>, i: nat)
    requires RuleIndex(c.rule) == i && InRuleOrder(rest) && CanonicalFrom(rest, i + 1)
    ensures InRuleOrder([c] + rest)
  {
    var calls := [c] + rest;
    forall k, m | 0 <= k < m < |calls| ensures RuleIndex(calls[k].rule) < RuleIndex(calls[m].rule) {
      assert calls[m] == rest[m - 1];
      if k > 0 {
        assert calls[k] == rest[k - 1];
      }
    }
  }

  /** The canonical-order promise for a whole pair: the body named nameA always comes first. */
  lemma CallsAreCanonical(a: Body, b: Body, effect: Effect)
    ensures forall c <- OnCollisionPair(a, b, effect) :: Canonical(c)
  {
    DispatchFromCallsAreCanonical(0, a, b, effect);
  }

  /** Each rule fires at most once per pair, in the order of Rules. */
  lemma CallsFollowRuleOrder(a: Body, b: Body, effect: Effect)
    ensures InRuleOrder(OnCollisionPair(a, b, effect))
  {
    DispatchFromFollowsRuleOrder(0, a, b, effect);
  }

  /** No two rules match the same pair of names. */
  lemma RulesAreDisjoint(r: Rule, s: Rule, a: Body, b: Body)
    requires Matches(r, a, b) && Matches(s, a, b)
    ensures r == s
  {
  }

  /**
   * A handler that settles the pair: what it leaves matches no rule after its own, or
   * has lost a game object.
   */
  ghost predicate Settles(effect: Effect)
  {
    forall c: Call {:trigger effect(c)} | Canonical(c) ::
      var after := effect(c);
      !HasGameObject(after.0) || !HasGameObject(after.1) ||
      forall s: Rule :: Matches(s, after.0, after.1) ==> RuleIndex(s) <= RuleIndex(c.rule)
  }

  /** From rule i on nothing fires when the pair's names match no rule from i on. */
  lemma {:induction false} NothingLaterMatches(i: nat, a: Body, b: Body, effect: Effect)
    requires i <= |Rules|
    requires forall s: Rule :: Matches(s, a, b) ==> RuleIndex(s) < i
    ensures DispatchFrom(i, a, b, effect) == []
    decreases |Rules| - i
  {
    if HasGameObject(a) && HasGameObject(b) && i < |Rules| {
      RuleIndexOfRules(i);
      assert !Matches(Rules[i], a, b);
      NothingLaterMatches(i + 1, a, b, effect);
    }
  }

  /** With settling handlers every pair gets at most one handler call: the first and only matching rule. */
  lemma {:induction false} SettlingHandlersFireAtMostOnce(i: nat, a: Body, b: Body, effect: Effect)
    requires i <= |Rules|
    requires Settles(effect)
    ensures |DispatchFrom(i, a, b, effect)| <= 1
    decreases |Rules| - i
  {
    if HasGameObject(a) && HasGameObject(b) && i < |Rules| {
      TryRuleIsCanonical(i, a, b);
      match TryRule(i, a, b)
      case None =>
        SettlingHandlersFireAtMostOnce(i + 1, a, b, effect);
      case Some(c) =>
        var after := effect(c);
        var next := After(c, a, b, effect);
        if HasGameObject(next.0) && HasGameObject(next.1) {
          forall s: Rule | Matches(s, next.0, next.1) ensures RuleIndex(s) < i + 1 {
            assert Matches(s, after.0, after.1);
          }
          NothingLaterMatches(i + 1, next.0, next.1, effect);
        }
    }
  }

  /** When the pair matches rule r, the first call is r's handler with the bodies in r's order. */
  lemma FirstMatchingRuleFiresFirst(r: Rule, a: Body, b: Body, effect: Effect)
    requires HasGameObject(a) && HasGameObject(b) && Matches(r, a, b)
    ensures var calls := OnCollisionPair(a, b, effect);
      && |calls| >= 1
      && calls[0].rule == r
      && (if Named(a, RuleNames(r).0) && Named(b, RuleNames(r).1) then calls[0].first == a && calls[0].second == b
          else calls[0].first == b && calls[0].second == a)
  {
    var k := RuleIndex(r);
    forall j | 0 <= j < k ensures DispatchFrom(j, a, b, effect) == DispatchFrom(j + 1, a, b, effect) {
      RuleIndexOfRules(j);
      if Matches(Rules[j], a, b) {
        RulesAreDisjoint(Rules[j], r, a, b);
      }
    }
    PrefixOfRulesSkipped(0, k, a, b, effect);
  }

  lemma {:induction false} PrefixOfRulesSkipped(j: nat, k: nat, a: Body, b: Body, effect: Effect)
    requires j <= k <= |Rules|
    requires forall m | j <= m < k :: DispatchFrom(m, a, b, effect) == DispatchFrom(m + 1, a, b, effect)
    ensures DispatchFrom(j, a, b, effect) == DispatchFrom(k, a, b, effect)
    decreases k - j
  {
    if j < k {
      PrefixOfRulesSkipped(j + 1, k, a, b, effect);
    }
  }

  /**
   * The game's handlers only ever remove game objects, keep names, or (the two capture
   * rules) turn the captured 'part' into a 'player_part'.
   */
  ghost predicate GameHandler(effect: Effect)
  {
    forall c: Call {:trigger effect(c)} | Canonical(c) ::
      var after := effect(c);
      && (after.0.gameObject == c.first.gameObject || after.0.gameObject == None)
      && (after.1.gameObject == c.second.gameObject || after.1.gameObject == None ||
          ((c.rule == PlayerCapturesPart || c.rule == PlayerPartCapturesPart) && after.1.gameObject == Some(PlayerPartName)))
  }

  /** After a capture the pair is (player or player_part, player_part), which no rule matches. */
  lemma CapturedPairMatchesNoRule(x: Body, y: Body, s: Rule)
    requires Named(x, PlayerName) || Named(x, PlayerPartName)
    requires Named(y, PlayerPartName)
    ensures !Matches(s, x, y)
  {
  }

  /**
   * Handlers with the effects GameHandler allows settle every pair, so each reported
   * pair reaches at most one handler. That the scene's handler methods have only such
   * effects is an assumption here, not part of this lemma.
   */
  lemma GameHandlersFireAtMostOnce(a: Body, b: Body, effect: Effect)
    requires GameHandler(effect)
    ensures |OnCollisionPair(a, b, effect)| <= 1
  {
    forall c: Call | Canonical(c) ensures
      var after := effect(c);
      !HasGameObject(after.0) || !HasGameObject(after.1) ||
      forall s: Rule :: Matches(s, after.0, after.1) ==> RuleIndex(s) <= RuleIndex(c.rule)
    {
      var after := effect(c);
      if HasGameObject(after.0) && HasGameObject(after.1) {
        forall s: Rule | Matches(s, after.0, after.1) ensures RuleIndex(s) <= RuleIndex(c.rule) {
          if after.1.gameObject == c.second.gameObject {
            assert Matches(s, c.first, c.second);
            assert Matches(c.rule, c.first, c.second);
            RulesAreDisjoint(s, c.rule, c.first, c.second);
          } else {
            CapturedPairMatchesNoRule(after.0, after.1, s);
          }
        }
      }
    }
    SettlingHandlersFireAtMostOnce(0, a, b, effect);
  }
}
