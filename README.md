# extra-laser: the game rules, in Dafny

extra-laser is a vertical space shooter built on Phaser and its Matter physics. The
player's ship grows by touching the free parts that killed enemies drop. Each part it
touches stays linked to the ship by a physics constraint and fires its own gun. This
project models the rules of the game scene (`src/scenes/mainScene.ts`) and of its
entities (player, part, enemy, part receiver and collision categories), and proves what
they keep true.

The model covers:

- **The scene** (`MainScene.Scene`). This class holds the part, enemy and bullet lists, the
  constraint list that makes up the ship, the score and kill bookkeeping, the difficulty
  stage and the timers. Each timer callback and each collision handler is a method. The
  invariant `Valid()` is kept by every method. It says several things:
  - the links form a tree rooted at the player over the attached parts;
  - a part is on the ship exactly when it is named `'player_part'`;
  - a part on the ship has its part receiver installed and no self-destruct timer armed;
  - every part and every enemy appears once in its list and is alive;
  - every listed enemy has both of its timers set;
  - the kill window holds between one and eleven seconds.
- **The ship tree** (`CompositionGraph`). The constraint list is modelled as a sequence of
  parent/child links. `attachPart` appends a link. `recursiveDetachPart` removes each
  child's subtree and then the part's own parent link through the scene's
  `splice(indexOf)` idiom. It leaves exactly the part's subtree free, with the free-part
  physics restored, and changes no other part.
- **List removal** (`Registry`). All the scene's lists remove entries with
  `splice(indexOf(x), 1)`. For an absent x this removes the last entry, and the model
  keeps that behaviour. Player bullets are pushed twice: once inside `makeBullet` and once
  by its caller. The model keeps both pushes and proves that one removal leaves one copy
  behind (`DoublePushedBulletStaysListed`).
- **Kills and score** (`Metrics`):
  - the per-second kill window is rolled by `onMetrics`;
  - the power level is computed from the number of attached parts;
  - every kill adds `powerLevel * enemy.maxHP` to the score.
- **Difficulty** (`Difficulty`). The curve is walked one stage per timer firing. A wave
  stage copies its spawn settings and arms the next stage's wait. The ending stage stops
  spawning, disables collisions and arms the fly-away timer.
- **Collision dispatch** (`CollisionDispatch`): the seven name rules of
  `registerCollisionEvents` are tried in order, and calls go out with the bodies in each
  rule's order. Each reported pair reaches at most one handler, provided every handler
  only destroys bodies or renames the captured part. The model takes that as an
  assumption about the handlers' effects; it does not prove it of the scene's methods.

Randomness (the part-drop draw, the enemy's spawn column) enters as parameters. The game
configuration is a `Config` parameter. Nothing in the model runs a clock: a timer is a
value that records its delay, and its callback is a method that the caller invokes.

Where a reading of the game's intent and its code differ, the model follows the code:

- The ending stage zeroes the collision **categories** of the player and the listed parts
  (`setCollisionCategory(0)`, mainScene.ts:1020-1021). It does not zero their masks.
- `attachPart` sets the category to PLAYER_PART (mainScene.ts:818-820) and no mask. Its
  `setCircle(15, {})` (mainScene.ts:803) gives the part a new body first, with Matter's
  default filter and no restitution. An attached part therefore collides with every
  category and does not bounce. Only that lets enemies and enemy bullets reach it
  (`AttachedPartContacts`).

## Model

| member | source | states |
|---|---|---|
| CollisionCategory.Index | src/entities/collisionCategory.ts:1-10 | every category has a bit position below 8 |
| CollisionCategory.BitValues | src/entities/collisionCategory.ts:2-9 | the eight categories are the bits 1, 2, 4, … 128 in declaration order |
| CollisionCategory.ExactlyEightCategories | src/entities/collisionCategory.ts:1-10 | the category list has all eight categories, each at its own bit position |
| CollisionCategory.AttachedPartContacts | src/scenes/mainScene.ts:803-820 | with the all-category mask of its new body, an attached part touches enemies, enemy bullets and free parts but not the player's bullets; with the free parts' mask it would touch neither enemies nor their bullets |
| CollisionCategory.DistinctCategoriesDisjoint | src/entities/collisionCategory.ts:2-9 | two different categories share no bit |
| CollisionCategory.NoCategoryIsDisabled | src/entities/collisionCategory.ts:2-9 | no category equals the disabled category 0, so an object set to 0 collides with no mask |
| CollisionCategory.MaskHasBitIffListed | src/entities/collisionCategory.ts:2-9 | an or-ed mask contains a category's bit if and only if the category is one of those or-ed |
| CollisionCategory.AllCategoriesFillOneByte | src/entities/collisionCategory.ts:2-9 | all eight categories together make the mask 0xFF |
| CollisionCategory.MaskValues | src/entities/Player.ts:56 | the masks set by the player (0x59), free part (0xC3), enemy (0x86), player bullet (0x18) and enemy bullet (0x82) |
| CollisionDispatch.CheckPairGameObjectName | src/scenes/mainScene.ts:943-953 | a match exists if and only if the two names fit the bodies in either order; the match is in the rule's (nameA, nameB) order, and the reported order wins when it fits |
| CollisionDispatch.CheckPairIgnoresReportOrder | src/scenes/mainScene.ts:943-953 | for two different names, the result does not depend on the order in which the engine reports the bodies |
| CollisionDispatch.TryRule | src/scenes/mainScene.ts:904-936 | trying one rule yields a call exactly when that rule matches the pair, and the call names that rule |
| CollisionDispatch.SkipsBodiesWithoutGameObject | src/scenes/mainScene.ts:901 | a pair with a body that carries no game object (a world bound) calls no handler |
| CollisionDispatch.DispatchFromCallsAreCanonical | src/scenes/mainScene.ts:904-937 | every call made from rule i onwards passes its bodies in that rule's name order |
| CollisionDispatch.DispatchFromFollowsRuleOrder | src/scenes/mainScene.ts:904-937 | the calls from rule i onwards come in strictly increasing rule order |
| CollisionDispatch.CallsAreCanonical | src/scenes/mainScene.ts:894-941 | every handler call for a pair gets the bodies named as its rule expects |
| CollisionDispatch.CallsFollowRuleOrder | src/scenes/mainScene.ts:894-941 | each rule fires at most once per pair, in the listener's order |
| CollisionDispatch.RulesAreDisjoint | src/scenes/mainScene.ts:904-936 | no pair matches two different rules |
| CollisionDispatch.NothingLaterMatches | src/scenes/mainScene.ts:904-937 | when no rule from i onwards matches, no handler is called |
| CollisionDispatch.SettlingHandlersFireAtMostOnce | src/scenes/mainScene.ts:904-937 | when every handler leaves its pair matching no rule, at most one handler is called |
| CollisionDispatch.FirstMatchingRuleFiresFirst | src/scenes/mainScene.ts:904-953 | the rule a pair matches is the first call, with the bodies in that rule's order |
| CollisionDispatch.CapturedPairMatchesNoRule | src/scenes/mainScene.ts:929-936 | once a captured part is renamed 'player_part', its pair with the player or a player part matches no rule |
| CollisionDispatch.GameHandlersFireAtMostOnce | src/scenes/mainScene.ts:894-941 | for any handler effect that only destroys bodies or renames the captured part, each reported pair reaches at most one handler; that the scene's handlers have such effects is assumed |
| CompositionGraph.Without | src/scenes/mainScene.ts:865-875 | the links left are exactly those whose child is not removed, and there are no more of them than before |
| CompositionGraph.ChildrenOf | src/scenes/mainScene.ts:866 | the filtered children are exactly the children of links that name the part as parent |
| CompositionGraph.ParentLinkIndex | src/scenes/mainScene.ts:869 | `find` gives the first link whose child is the part, or nothing exactly when there is none |
| CompositionGraph.ParentCountZeroIffUnlinked | src/scenes/mainScene.ts:869-875 | a part has no parent link if and only if no link names it as child |
| CompositionGraph.ParentCountAppend | src/scenes/mainScene.ts:857 | pushing a link adds one parent to its child and none to any other part |
| CompositionGraph.ParentCountWithout | src/scenes/mainScene.ts:865-875 | removing a set's links leaves its members with no parent and every other part's count unchanged |
| CompositionGraph.WithoutNothing | src/scenes/mainScene.ts:869-875 | removing parts with no links leaves the list as it is |
| CompositionGraph.WithoutWithout | src/scenes/mainScene.ts:865-875 | removing one set of parts and then another is removing both at once |
| CompositionGraph.WithoutAppend | src/scenes/mainScene.ts:857 | removal distributes over a pushed link |
| CompositionGraph.RemoveSoleParentLink | src/scenes/mainScene.ts:869-875 | for a part with at most one parent link, `find` followed by `splice(indexOf)` removes exactly that link |
| CompositionGraph.SoleLinkSplice | src/scenes/mainScene.ts:874 | splicing out a part's only parent link is removing the part's links |
| CompositionGraph.ChildrenOfDistinct | src/scenes/mainScene.ts:866 | in a tree, no child is listed twice under one parent |
| CompositionGraph.SubtreeIsUnique | src/scenes/mainScene.ts:865-892 | a part has only one subtree, i.e. one closed set reached from it |
| CompositionGraph.DetachStep | src/scenes/mainScene.ts:867 | detaching the next child's subtree extends the detached set, keeps it closed under the original links, and keeps the removed links the detached set's |
| CompositionGraph.DetachFinish | src/scenes/mainScene.ts:865-892 | once every child's subtree is detached, adding the part gives the part's closed subtree |
| CompositionGraph.LinkedChildIsAttached | src/scenes/mainScene.ts:851-857 | the child of every link is on the ship |
| CompositionGraph.SubtreeIsAttached | src/scenes/mainScene.ts:865-892 | the subtree of a ship part lies on the ship |
| CompositionGraph.AttachKeepsShape | src/scenes/mainScene.ts:851-857 | linking a free part to the player or to a ship part keeps the links a tree over the ship, now with the new part |
| CompositionGraph.AttachKeepsStamps | src/scenes/mainScene.ts:851-857 | after the link is pushed, every parent still precedes its children in attach order |
| CompositionGraph.DetachKeepsShape | src/scenes/mainScene.ts:865-892 | removing a closed subtree leaves a tree over the remaining ship |
| CompositionGraph.StampedWithout | src/scenes/mainScene.ts:865-875 | removing links keeps every parent ahead of its children |
| Difficulty.NextDifficulty | src/scenes/mainScene.ts:1003-1036 | a wave stage advances the index by one; the ending stage leaves it unchanged |
| Difficulty.NextWait | src/scenes/mainScene.ts:1031-1034 | the next timer is armed exactly when a wave stage is followed by another stage, with that stage's wait |
| Difficulty.StopIndex | src/scenes/mainScene.ts:1003-1036 | the index where firings stop: just after the first ending stage, or the end of the curve |
| Difficulty.FiringsStopAtFirstEnding | src/scenes/mainScene.ts:1003-1036 | the stages fired from d are the curve from d up to and including the first ending stage |
| Difficulty.WellFormedCurveFiresEveryStage | src/scenes/mainScene.ts:1003-1036 | on a curve of waves closed by one ending stage, every stage fires and the last one ends the game |
| Difficulty.CurveWithoutEndingNeverWins | src/scenes/mainScene.ts:1031-1033 | on a curve without an ending stage, every stage fires and none ends the game; the timer simply stops |
| Metrics.RollKillWindow | src/scenes/mainScene.ts:304-308 | a new zero second is appended, and the oldest second is dropped once more than ten are kept |
| Metrics.RollKeepsWindowBounded | src/scenes/mainScene.ts:304-308 | a window of one to eleven seconds stays one of two to eleven seconds |
| Metrics.WindowFillsUpToElevenSeconds | src/scenes/mainScene.ts:101 | from the initial [0], n ticks give min(n + 1, 11) seconds |
| Metrics.CountKill | src/scenes/mainScene.ts:340 | a kill changes only the current second |
| Metrics.CountKillAddsOne | src/scenes/mainScene.ts:340 | a kill adds exactly one to the window's total |
| Metrics.AllowedEnemiesFor | src/scenes/mainScene.ts:315 | `Math.ceil(parts * 0.7)`: the least k with 10k ≥ 7·parts |
| Metrics.AllowedEnemiesIsLeast | src/scenes/mainScene.ts:315 | no smaller number covers 0.7 of the parts |
| Metrics.PowerLevel | src/scenes/mainScene.ts:310-318 | the power level is between 150 and 220 per part (plus 90) |
| Metrics.PowerLevelMonotone | src/scenes/mainScene.ts:310-318 | more attached parts never lower the power level |
| Metrics.NoPartNoPower | src/scenes/mainScene.ts:318 | with no attached part the power level, and so every kill's score, is 0 |
| Names.TagsAreDistinct | src/scenes/mainScene.ts:943-953 | two name tags are equal strings if and only if they are the same name |
| PartEntity.CancelDestroy | src/boilerplate/entities/Part.ts:116 | a cancelled self-destruct timer is never armed, and an unset one stays unset |
| PartEntity.LongLifeEndsOnTime | src/boilerplate/entities/Part.ts:96-105 | a life over two seconds ends exactly on time, with a two-second faded phase |
| PartEntity.ShortLifeEndsEarly | src/boilerplate/entities/Part.ts:96-105 | a life of at most two seconds ends after 70% of it |
| PartEntity.PhasesAreBounded | src/boilerplate/entities/Part.ts:96-105 | neither phase is negative, and the faded phase is at most two seconds |
| PartEntity.Part.constructor | src/boilerplate/entities/Part.ts:26-32 | a new part is named 'part', alive and opaque, with no timers and no receiver |
| PartEntity.Part.Init | src/boilerplate/entities/Part.ts:34-42 | the part is placed at (x, y) with the player's configured hit points |
| PartEntity.Part.InitPhysics | src/boilerplate/entities/Part.ts:44-56 | the part gets the configured mass and bounce, category PART and the free-part mask |
| PartEntity.Part.TakeDamage | src/boilerplate/entities/Part.ts:71-85 | hit points drop by the amount; dead exactly when they reach 0 or below, and then the untint timer is cancelled |
| PartEntity.Part.SetDestroyTimerWithWarning | src/boilerplate/entities/Part.ts:96-105 | the self-destruct timer is armed in its warning phase with both phase lengths |
| PartEntity.Part.OnDestroyWarning | src/boilerplate/entities/Part.ts:99-102 | the part fades to half alpha and the final timer is armed for the remaining phase |
| PartEntity.Part.SetDestroyTimer | src/boilerplate/entities/Part.ts:107-113 | the final self-destruct timer is armed with the given delay |
| PartReceiver.Displacement | src/boilerplate/entities/IPartReceiver.ts:11-13 | adding the displacement to the receiver's position gives the part's position |
| PartReceiver.DisplacementIsUnique | src/boilerplate/entities/IPartReceiver.ts:9-16 | the displacement is the only offset that keeps the touched part where it is |
| PlayerEntity.Player.constructor | src/entities/Player.ts:33-39 | a new player is visible, with the default category and mask and no untint timer |
| PlayerEntity.Player.Init | src/entities/Player.ts:40-48 | the player is placed at (x, y) with the configured hit points |
| PlayerEntity.Player.InitPhysics | src/entities/Player.ts:50-59 | the player gets a quarter of the configured mass, category PLAYER and the player mask |
| PlayerEntity.Player.TakeDamage | src/entities/Player.ts:70-96 | hit points drop by the amount; dead exactly when they reach 0 or below, and then the player turns invisible, stops colliding and the untint timer is cancelled |
| Registry.IndexOf | src/scenes/mainScene.ts:446 | `indexOf` is -1 exactly when x is absent, and otherwise the first index holding x |
| Registry.SpliceOne | src/scenes/mainScene.ts:446 | `splice(start, 1)` takes out exactly one entry and keeps the others in order: the one at start, or at `length + start` for a negative start, or the first when that is still negative; a start past the end, or an empty list, leaves the list as it was |
| Registry.RemovePresent | src/scenes/mainScene.ts:446 | removing a listed entry takes out one occurrence of it, keeps the rest in order, and shortens the list by one |
| Registry.RemoveUnique | src/boilerplate/entities/Enemy.ts:89 | an entry listed once is gone afterwards, and every other entry stays or stays absent |
| Registry.RemoveAbsentDropsLast | src/boilerplate/entities/Enemy.ts:144 | removing an entry that is not listed drops the last entry of the list |
| Registry.RemoveFromEmpty | src/boilerplate/entities/Part.ts:117 | removing from an empty list leaves it empty |
| Registry.RemoveOnlyShrinks | src/scenes/mainScene.ts:503 | removal never adds an entry, and it shortens a nonempty list by exactly one |
| Registry.RemoveFromDistinct | src/scenes/mainScene.ts:843 | in a list without repeats, removing a listed entry keeps it without repeats and removes exactly that entry |
| Registry.RemoveKeepsDistinct | src/boilerplate/entities/Enemy.ts:89 | listed or not, the removed entry is absent afterwards, no entry is added, and no repeat appears |
| Registry.AppendFreshDistinct | src/scenes/mainScene.ts:572 | pushing an entry that is not listed keeps the list without repeats |
| Timers.Cancel | src/boilerplate/entities/Enemy.ts:84 | a cancelled timer is not armed, and an unset one stays unset |
| Timers.CancelIdempotent | src/scenes/mainScene.ts:445 | cancelling twice is cancelling once |
| EnemyEntity.Enemy.constructor | src/boilerplate/entities/Enemy.ts:28-34 | a new enemy is alive, with the default category and mask and no timers |
| EnemyEntity.Enemy.Init | src/boilerplate/entities/Enemy.ts:35-43 | the enemy is placed at (x, y) with the configured enemy hit points |
| EnemyEntity.Enemy.InitPhysics | src/boilerplate/entities/Enemy.ts:45-56 | the enemy gets the configured mass, category ENEMY and the enemy mask |
| EnemyEntity.Enemy.StartShooting | src/boilerplate/entities/Enemy.ts:123-131 | a looping shoot timer is armed with the configured shoot rate |
| EnemyEntity.Enemy.SetBowOutEvent | src/boilerplate/entities/Enemy.ts:133-139 | a one-shot bow-out timer is armed for 20 seconds, whatever it is asked for |
| EnemyEntity.Enemy.TakeDamage | src/boilerplate/entities/Enemy.ts:72-93 | hit points drop by the amount; dead exactly when they reach 0 or below, and then the untint, bow-out and shoot timers are all cancelled, otherwise the last two are unchanged |
| EnemyEntity.Enemy.CancelTimers | src/boilerplate/entities/Enemy.ts:142-143 | both the shoot and the bow-out timers are cancelled |
| MainScene.Bullet.constructor | src/scenes/mainScene.ts:411-415 | a new bullet carries its name, is alive, has no timer and the default category and mask |
| MainScene.FilterNamed | src/scenes/mainScene.ts:276-277 | the filter keeps exactly the listed parts with the name |
| MainScene.CountNamedMatches | src/scenes/mainScene.ts:857 | in a list without repeats, the number of entries with a name is the size of the set they form |
| MainScene.Doubled | src/scenes/mainScene.ts:262-277 | every shot takes two consecutive list entries, in firing order |
| MainScene.DoubledAppend | src/scenes/mainScene.ts:262-277 | the entries of two volleys are those of the first followed by those of the second |
| MainScene.DoublePushedBulletStaysListed | src/scenes/mainScene.ts:444-447 | destroying a bullet that was pushed twice leaves one copy of it in the list |
| MainScene.RigAttachedPart | src/scenes/mainScene.ts:800-820 | an attached part is opaque and in place; it has the attached parts' hit points and mass, category PLAYER_PART, and the new body's all-category mask and zero bounce |
| MainScene.Loosen | src/scenes/mainScene.ts:877-887 | a detached part is again a 'part' with the free parts' mass, bounce, category and mask |
| MainScene.Scene.PlayerPartCountIsShipSize | src/scenes/mainScene.ts:859 | the count of listed 'player_part' parts is the number of parts on the ship |
| MainScene.Scene.constructor | src/scenes/mainScene.ts:82-106 | the scene starts with empty lists, no score and no kills, a one-second kill window, difficulty 0 and no timers |
| MainScene.Scene.Create | src/scenes/mainScene.ts:128-206 | the player is placed and set up, the four game timers are armed (with the first stage's wait for difficulty), and the starting free part is made at the centre; the invariant holds from here on |
| MainScene.Scene.StartTimers | src/scenes/mainScene.ts:166-170 | the shoot, spawn, metrics and difficulty timers are armed with their delays |
| MainScene.Scene.MakeStartingParts | src/scenes/mainScene.ts:174-180 | the loop makes `startingParts` free parts at the given point, none with a self-destruct timer |
| MainScene.Scene.MakePart | src/scenes/mainScene.ts:528-586 | a fresh free part is appended to the part list, set up as a 'part', with a self-destruct timer exactly when timeToLive > -1 |
| MainScene.Scene.NewPart | src/scenes/mainScene.ts:564-578 | the new part is a free 'part' at the point, and has a warning timer exactly when timeToLive > -1 |
| MainScene.Scene.AddFreePart | src/scenes/mainScene.ts:572 | a new free part is appended, and the invariant still holds |
| MainScene.Scene.AttachPart | src/scenes/mainScene.ts:798-863 | the part is moved to the parent's position plus the offset, given a new body that collides with every category and does not bounce, rigged, renamed 'player_part' with its receiver installed and destroy timer cancelled, linked to the parent; the ship grows by that part and the highest part count is kept |
| MainScene.Scene.JoinShip | src/scenes/mainScene.ts:811-862 | the receiver is installed, the destroy timer cancelled, the link pushed and the record part count updated |
| MainScene.Scene.RigPart | src/scenes/mainScene.ts:800-820 | rigging the part gives it the attached parts' body (opaque, in place, their hit points and mass, category PLAYER_PART, all-category mask, zero bounce), keeps the invariant, and leaves its name, receiver and destroy timer alone |
| MainScene.Scene.RecordHighestPartCount | src/scenes/mainScene.ts:859-862 | the record becomes the larger of itself and the ship size |
| MainScene.Scene.InstallReceiver | src/scenes/mainScene.ts:811-851 | the part gets its receiver and the destroy timer is cancelled |
| MainScene.Scene.LinkPart | src/scenes/mainScene.ts:852-857 | a link from the parent to the part is pushed, the part is renamed 'player_part' and the ship grows by one |
| MainScene.Scene.ConnectPart | src/scenes/mainScene.ts:852-857 | the same, over the part and ship invariant alone |
| MainScene.Scene.RecursiveDetachPart | src/scenes/mainScene.ts:865-892 | the detached set is the part's subtree in the links as they were; its links are gone and it leaves the ship; each of its parts is a free part again and no other part changes |
| MainScene.Scene.DetachSelf | src/scenes/mainScene.ts:869-887 | with the children's subtrees gone, removing the part's own link gives its whole subtree |
| MainScene.Scene.DetachChildren | src/scenes/mainScene.ts:866-867 | the loop over the children detaches exactly the children's subtrees |
| MainScene.Scene.DetachChild | src/scenes/mainScene.ts:867 | one more child's subtree is detached |
| MainScene.Scene.DetachFromParent | src/scenes/mainScene.ts:869-887 | the part's only parent link is removed and the part is a free part again |
| MainScene.Scene.UnlinkFromParent | src/scenes/mainScene.ts:869-875 | `find` and `splice(indexOf)` remove exactly the part's parent link, and the ship loses the part |
| MainScene.Scene.DestroyPart | src/boilerplate/entities/Part.ts:115-120 | the destroy timer is cancelled and the part leaves the part list, and is destroyed; no other entry leaves |
| MainScene.Scene.CancelPartTimer | src/boilerplate/entities/Part.ts:116 | the part's destroy timer is cancelled |
| MainScene.Scene.UnlistFreePart | src/boilerplate/entities/Part.ts:117 | the free part leaves the part list and no other entry does |
| MainScene.Scene.RetireFreePart | src/boilerplate/entities/Part.ts:117-119 | the free part leaves the part list and is destroyed |
| MainScene.Scene.DestroyUnlisted | src/boilerplate/entities/Part.ts:119 | destroying an unlisted part keeps the invariant |
| MainScene.Scene.SpawnEnemy | src/scenes/mainScene.ts:378-403 | a fresh enemy is appended to the enemy list, set up with the configured values, with its bow-out and shoot timers armed |
| MainScene.Scene.NewEnemy | src/scenes/mainScene.ts:389-402 | the new enemy is set up and both its timers are armed |
| MainScene.Scene.ListEnemy | src/scenes/mainScene.ts:397 | a new enemy is appended to the enemy list |
| MainScene.Scene.OnCanSpawnEnemy | src/scenes/mainScene.ts:280-291 | an enemy is spawned at the top of the screen in the drawn column, and the spawn timer is re-armed with the current interval |
| MainScene.Scene.HurtEnemy | src/boilerplate/entities/Enemy.ts:72-82 | the enemy's takeDamage, inside the scene: hit points drop, and a dying enemy's timers are all cancelled |
| MainScene.Scene.EnemyTakeDamage | src/boilerplate/entities/Enemy.ts:72-93 | a dying enemy is counted as killed (with a possible part drop), leaves the enemy list and is destroyed; otherwise the lists, the score and the enemy's timers are unchanged |
| MainScene.Scene.OnEnemyKilled | src/scenes/mainScene.ts:339-351 | one kill more in the current second and in total, `powerLevel * maxHP` added to the score, and a part dropped where the enemy was exactly when the draw is at most 0.21 |
| MainScene.Scene.CountKill | src/scenes/mainScene.ts:340-344 | the current second's count and the total go up by one, the score by power level times maximum hit points |
| MainScene.Scene.UnlistEnemy | src/boilerplate/entities/Enemy.ts:89 | the enemy leaves the enemy list |
| MainScene.Scene.DestroyEnemy | src/boilerplate/entities/Enemy.ts:90 | the unlisted enemy is destroyed |
| MainScene.Scene.BowOut | src/boilerplate/entities/Enemy.ts:141-146 | the enemy's timers are cancelled, it leaves the enemy list and is destroyed, all without a kill |
| MainScene.Scene.CancelEnemyTimers | src/boilerplate/entities/Enemy.ts:142-143 | both of the enemy's timers are cancelled |
| MainScene.Scene.MakePlayerBullet | src/scenes/mainScene.ts:405-459 | a fresh 'player_bullet' is pushed once, with category PLAYER_BULLET, its mask and a one-second bow-out timer |
| MainScene.Scene.MakeEnemyBullet | src/scenes/mainScene.ts:462-526 | a fresh 'enemy_bullet' is pushed once, with category ENEMY_BULLET, its mask and a ten-second bow-out timer |
| MainScene.Scene.DestroyBullet | src/scenes/mainScene.ts:444-448 | the bullet's timer is cancelled, one copy leaves the bullet list, and the bullet is destroyed |
| MainScene.Scene.DoWingManShoot | src/scenes/mainScene.ts:256-265 | a part's shot is pushed twice, once by makeBullet and once by the caller |
| MainScene.Scene.OnCanShoot | src/scenes/mainScene.ts:267-278 | once the game is over nothing is fired; otherwise the player and every ship part fire one player bullet each, every shot listed twice |
| MainScene.Scene.Volley | src/scenes/mainScene.ts:268-277 | one shot per ship part plus the player's, every one listed twice in firing order |
| MainScene.Scene.WingShots | src/scenes/mainScene.ts:276-277 | the loop over the ship parts adds one doubly listed shot per part |
| MainScene.Scene.EnemyOnCanShoot | src/boilerplate/entities/Enemy.ts:148-157 | an enemy fires exactly when the game is not over; its shot is a fresh 'enemy_bullet' listed twice |
| MainScene.Scene.PlayerTakeDamage | src/entities/Player.ts:70-96 | on top of the player's own takeDamage, the game is over exactly when it was or the player died |
| MainScene.Scene.ShipPartsAreListed | src/scenes/mainScene.ts:811-817 | every part on the ship is listed, alive and can receive parts |
| MainScene.Scene.PartTakeDamage | src/scenes/mainScene.ts:823-849 | a ship part loses hit points; on the killing hit it leaves the part list and the game, and its whole subtree leaves the ship as free parts; otherwise lists and links are unchanged |
| MainScene.Scene.HurtPart | src/scenes/mainScene.ts:824-838 | hit points drop, and a dead part's untint timer is cancelled |
| MainScene.Scene.RemoveShipPart | src/scenes/mainScene.ts:840-846 | the dead part leaves the part list and the game, and its subtree, itself included, leaves the ship as free parts |
| MainScene.Scene.DetachShipPart | src/scenes/mainScene.ts:845 | the part's subtree, which lies on the ship, is detached |
| MainScene.Scene.FreeSubtree | src/scenes/mainScene.ts:845 | the same, over the part and ship invariant alone |
| MainScene.Scene.BulletHitsEnemy | src/scenes/mainScene.ts:450-457 | the enemy takes one point of damage (with the kill rules above) and the bullet is destroyed |
| MainScene.Scene.EnemyBulletHitsPlayer | src/scenes/mainScene.ts:507-514 | the player takes three points of damage and the bullet is destroyed |
| MainScene.Scene.EnemyBulletHitsPlayerPart | src/scenes/mainScene.ts:517-524 | the ship part takes two points of damage (with the removal rules above) and the bullet is destroyed |
| MainScene.Scene.EnemyHitsPlayer | src/boilerplate/entities/Enemy.ts:110-121 | the player takes six points of damage, the crash damage grows by ten, and the enemy takes ten points of damage with the kill rules |
| MainScene.Scene.EnemyHitsPlayerPart | src/boilerplate/entities/Enemy.ts:96-108 | the part takes three points of damage; if it dies, it leaves the part list and its subtree leaves the ship as free parts with its links removed, otherwise the ship is unchanged. The crash damage grows by ten and the enemy takes ten: on a kill it is unlisted, the kill is counted and scored, and a dropped part is appended after the removal; otherwise nothing is counted or dropped |
| MainScene.Scene.Rams | src/boilerplate/entities/Enemy.ts:101-103 | the crash damage grows by ten and the enemy takes ten points of damage with the kill rules; the ship's links and the given free parts are left as they were |
| MainScene.Scene.ReceivePart | src/scenes/mainScene.ts:811-817 | a touched free part is attached to the receiver where it is: one link more, the ship grows by it, and its position is unchanged |
| MainScene.Scene.ReceiversAreInstalled | src/boilerplate/entities/Part.ts:122-124 | every ship part, which the capture rule may call, has attachPart's receiver installed in place of the throwing stub |
| MainScene.Scene.OnMetrics | src/scenes/mainScene.ts:303-329 | the kill window is rolled, and the power level is set from the current ship size |
| MainScene.Scene.PartDestroyWarning | src/boilerplate/entities/Part.ts:99-102 | the part's warning callback: half alpha and the final timer armed, keeping the invariant |
| MainScene.Scene.UpdateDifficulty | src/scenes/mainScene.ts:1003-1036 | the stage is consumed, and the timer is armed for the next stage exactly when there is one after a wave; a wave sets the spawn settings and touches nothing else; the ending stage ends the game, disables the player's and the listed parts' collisions, arms the fly-away timer and cancels spawning |
| MainScene.Scene.EndGame | src/scenes/mainScene.ts:1008-1024 | the game is over, the player and every listed part collide with nothing, the fly-away timer is armed and spawning is cancelled |
| MainScene.Scene.DisableCollisions | src/scenes/mainScene.ts:1021 | exactly the listed parts get category 0 |
| MainScene.Scene.EndSpawning | src/scenes/mainScene.ts:1022-1024 | the game is over, the fly-away timer is armed and the spawn timer cancelled |
| MainScene.Scene.NextWave | src/scenes/mainScene.ts:1025-1034 | the wave's spawn settings are copied, the index advances, and the next stage's timer is armed if there is one |

## Left out

- Rendering is not modelled: sprites, tints (only the untint timers are kept), HP bars, explosions, sparks, camera shake, titles, toasts, the power meter and the debug labels.
- Stars, `initStars` and `onCanSpawnStars` are decoration with no effect on the rules.
- Keyboard and mouse input and the per-frame `update` movement are not modelled. Neither are velocities, friction, the physics simulation, or bullet positions and angles. Only the positions the rules set (a spawn point, an attach point) are kept.
- The physics constraint object is not modelled: its distance, stiffness, damping and `removeConstraint`. A link records only its parent and child.
- Randomness enters as parameters: the part-drop draw `roll`, the enemy's spawn column and the scatter angle. The sprite choices and gun offsets of `makePart` only affect the picture.
- `killPerSecond` needs the clock, floating-point division and the console. It is shown on the debug label only.
- Timers do not run. A timer is a value that records its delay and whether it loops, and its callback is a scene method that the caller invokes.
- Collision detection itself is not modelled. `CollisionDispatch` takes the reported pair as input and the handlers' effect on the bodies as a parameter. The loop over `event.pairs` dispatches each pair independently and is not modelled.
- `destroy()` is modelled as the object's `alive` flag turning false. Phaser's removal from the display list and the physics world is not modelled.
- Collision categories and masks are 32-bit numbers in Matter; the model keeps them as `bv8`, because every category and mask the game sets fits in one byte. The default mask 0xFFFFFFFF of a new body is kept as 0xFF, the eight category bits.
- The new circular body that `attachPart` makes with `setCircle(15, {})` is modelled only by its filter and restitution. Its radius, friction, density and the fixed rotation of mainScene.ts:804 are physics and are not modelled.
- `initAttachments` only adds sprites and HP bars to containers.
- `applyMixins` is not part of this model. Neither is the Utils module it comes from. That `Player.onHitPart` is IPartReceiver's method is taken from the mixin call in src/entities/Player.ts:102.
- src/boilerplate/scenes/mainScene.ts (the boilerplate's own scene) is not part of this model.
- src/boilerplate/entities/Player.ts is the earlier copy of src/entities/Player.ts. Its `init` (42-50), `initPhysics` (52-61) and `takeDamage` (72-98) are the same code and are modelled by the same `PlayerEntity.Player` members. The copies differ only in how the hit-point bar is redrawn, which is rendering.
- PartEntity.Part.TakeDamage: the dead branch's splice, `recursiveDetachPart` and `destroy` (Part.ts:86-91) are not in this member. `attachPart` replaces a part's `takeDamage` with its own closure before anything can damage the part, because free parts do not collide with bullets or enemies. That closure removes a dead part in the same way and is modelled by MainScene.Scene.PartTakeDamage.
- The configuration values come in as a `Config` parameter rather than the constants of src/config.ts. The difficulty curve is a parameter of the scene's constructor.
- The model follows a different order of events in three places:
  - `SpawnEnemy` arms the enemy's timers before it lists the enemy, because the invariant says listed enemies have them. In the source the push comes first.
  - `EnemyTakeDamage` cancels the dying enemy's timers before counting the kill. The two steps change disjoint state.
  - `RemoveShipPart` detaches the subtree before splicing the part out of the part list. The two steps change disjoint state.
- The guards `if (this.takeDamage)`, `if (part.partWing)` and `if (part.partHP)` are taken as always true. The closure and the sprites are always set by the time they are read.
- MainScene.Scene.OnCanShoot: the contract does not state that the shots are fresh and distinct objects.
- MainScene.Scene.Volley: the contract does not state that the shots are fresh and distinct objects.
- MainScene.Scene.WingShots: the contract does not state that the shots are fresh and distinct objects.
