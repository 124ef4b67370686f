/**
 * The collision categories of the game (src/entities/collisionCategory.ts): one bit per
 * category, combined with bitwise OR into the masks that say what a body collides with.
 * The physics engine stores categories in 32 bits; every category and mask the game sets
 * fits in the low byte, so the model keeps them as `bv8`. The engine's default mask
 * 0xFFFFFFFF becomes 0xFF: its upper bits name no category.
 */
module CollisionCategory {

  /** The eight categories, in declaration order. */
  datatype Category = World | Player | PlayerBullet | Enemy | EnemyBullet | Star | Part | PlayerPart

  /** The position of a category in the declaration. */
  function Index(c: Category): (k: nat)
    ensures k < 8
  {
    match c
    case World => 0
    case Player => 1
    case PlayerBullet => 2
    case Enemy => 3
    case EnemyBullet => 4
    case Star => 5
    case Part => 6
    case PlayerPart => 7
  }

  /** The enum value: the single bit `1 << k` for the k-th declared category. */
  function Bit(c: Category): bv8
  {
    (1 as bv8) << Index(c)
  }

  /** The value the code passes to switch collisions off (`setCollisionCategory(0)`). */
  const Disabled: bv8 := 0

  /** Every category, in declaration order. */
  const AllCategories: seq<Category> :=
    [World, Player, PlayerBullet, Enemy, EnemyBullet, Star, Part, PlayerPart]

  /** The bitwise OR of the categories in `cs`: how the code writes a collision mask. */
  function Mask(cs: seq<Category>): bv8
  {
    if cs == [] then 0 else Bit(cs[0]) | Mask(cs[1..])
  }

  /** What the player collides with (Player.initPhysics). */
  const PlayerMask: bv8 := Mask([World, Enemy, EnemyBullet, Part])
  /** What a free part collides with (Part.initPhysics and recursiveDetachPart). */
  const FreePartMask: bv8 := Mask([World, Player, Part, PlayerPart])
  /** What an enemy collides with (Enemy.initPhysics). */
  const EnemyMask: bv8 := Mask([PlayerBullet, Player, PlayerPart])
  /** What a player bullet collides with (makeBullet). */
  const PlayerBulletMask: bv8 := Mask([Enemy, EnemyBullet])
  /** What an enemy bullet collides with (makeEnemyBullet). */
  const EnemyBulletMask: bv8 := Mask([Player, PlayerPart])
  /** The mask of a newly made body, which collides with every category. */
  const DefaultMask: bv8 := 0xFF

  /** The declared values are the literals 1, 2, 4, ..., 128. */
  lemma BitValues()
    ensures Bit(World) == 1 && Bit(Player) == 2 && Bit(PlayerBullet) == 4 && Bit(Enemy) == 8
    ensures Bit(EnemyBullet) == 16 && Bit(Star) == 32 && Bit(Part) == 64 && Bit(PlayerPart) == 128
  {
  }

  /** There are exactly eight categories, listed once each in declaration order. */
  lemma ExactlyEightCategories()
    ensures |AllCategories| == 8
    ensures forall c: Category :: c in AllCategories
    ensures forall i | 0 <= i < |AllCategories| :: Index(AllCategories[i]) == i
  {
    forall c: Category ensures c in AllCategories {
      assert AllCategories[Index(c)] == c;
    }
  }

  /** Distinct categories have no bit in common. */
  lemma DistinctCategoriesDisjoint(a: Category, b: Category)
    requires a != b
    ensures Bit(a) & Bit(b) == 0
  {
    BitValues();
  }

  /** No category is the value 0 that the code uses to disable collisions. */
  lemma NoCategoryIsDisabled(c: Category)
    ensures Bit(c) != Disabled
  {
    BitValues();
  }

  /** A mask contains a category's bit exactly when the category was listed. */
  lemma {:induction false} MaskHasBitIffListed(cs: seq<Category>, c: Category)
    ensures (Mask(cs) & Bit(c) != 0) <==> c in cs
  {
    if cs != [] {
      MaskHasBitIffListed(cs[1..], c);
      NoCategoryIsDisabled(c);
      if cs[0] != c {
        DistinctCategoriesDisjoint(cs[0], c);
      }
      assert (Bit(cs[0]) | Mask(cs[1..])) & Bit(c) == (Bit(cs[0]) & Bit(c)) | (Mask(cs[1..]) & Bit(c));
      assert c in cs <==> c == cs[0] || c in cs[1..];
    }
  }

  /** The OR of all eight categories is 255, so every mask built from them fits in one byte. */
  lemma AllCategoriesFillOneByte()
    ensures Mask(AllCategories) == 255
  {
    BitValues();
    assert Mask(AllCategories[7..]) == 128;
    assert Mask(AllCategories[6..]) == 192;
    assert Mask(AllCategories[5..]) == 224;
    assert Mask(AllCategories[4..]) == 240;
    assert Mask(AllCategories[3..]) == 248;
    assert Mask(AllCategories[2..]) == 252;
    assert Mask(AllCategories[1..]) == 254;
  }

  /** The concrete masks the entities are given. */
  lemma MaskValues()
    ensures PlayerMask == 0x59 && FreePartMask == 0xC3 && EnemyMask == 0x86
    ensures PlayerBulletMask == 0x18 && EnemyBulletMask == 0x82
  {
    BitValues();
    var pm: seq<Category> := [World, Enemy, EnemyBullet, Part];
    assert Mask(pm[3..]) == 64 && Mask(pm[2..]) == 80 && Mask(pm[1..]) == 88;
    var fm: seq<Category> := [World, Player, Part, PlayerPart];
    assert Mask(fm[3..]) == 128 && Mask(fm[2..]) == 192 && Mask(fm[1..]) == 194;
    var em: seq<Category> := [PlayerBullet, Player, PlayerPart];
    assert Mask(em[2..]) == 128 && Mask(em[1..]) == 130;
    var bm: seq<Category> := [Enemy, EnemyBullet];
    assert Mask(bm[1..]) == 16;
    var ebm: seq<Category> := [Player, PlayerPart];
    assert Mask(ebm[1..]) == 128;
  }

  /**
   * The engine's filter rule for bodies outside any collision group: two bodies touch
   * when each one's mask has the other's category bit.
   */
  predicate Collides(catA: bv8, maskA: bv8, catB: bv8, maskB: bv8)
  {
    maskA & catB != 0 && maskB & catA != 0
  }

  /**
   * An attached part, with the default mask of the body attachPart makes for it, touches
   * enemies, enemy bullets and free parts, and not the player's bullets; with the free
   * part's mask it would touch neither enemies nor their bullets.
   */
  lemma AttachedPartContacts()
    ensures Collides(Bit(PlayerPart), DefaultMask, Bit(Enemy), EnemyMask)
    ensures Collides(Bit(PlayerPart), DefaultMask, Bit(EnemyBullet), EnemyBulletMask)
    ensures Collides(Bit(PlayerPart), DefaultMask, Bit(Part), FreePartMask)
    ensures !Collides(Bit(PlayerPart), DefaultMask, Bit(PlayerBullet), PlayerBulletMask)
    ensures !Collides(Bit(PlayerPart), FreePartMask, Bit(Enemy), EnemyMask)
    ensures !Collides(Bit(PlayerPart), FreePartMask, Bit(EnemyBullet), EnemyBulletMask)
  {
    BitValues();
    MaskValues();
  }
}
