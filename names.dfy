/** The name tags the scene gives its physics-backed game objects with `setName`. */
module Names {

  datatype Name =
    | PlayerName        // 'player'
    | PlayerPartName    // 'player_part': a part attached to the ship
    | PartName          // 'part': a free part
    | EnemyName         // 'enemy'
    | PlayerBulletName  // 'player_bullet'
    | EnemyBulletName   // 'enemy_bullet'
    | StarName          // 'star'

  /** The string the source compares with `===`. */
  function Tag(n: Name): string
  {
    match n
    case PlayerName => "player"
    case PlayerPartName => "player_part"
    case PartName => "part"
    case EnemyName => "enemy"
    case PlayerBulletName => "player_bullet"
    case EnemyBulletName => "enemy_bullet"
    case StarName => "star"
  }

  /** Comparing tags is comparing names. */
  lemma TagsAreDistinct(a: Name, b: Name)
    ensures Tag(a) == Tag(b) <==> a == b
  {
    if a != b {
      assert Tag(a) != Tag(b) by {
        match a
        case PlayerName => assert Tag(a)[1] == 'l' && |Tag(a)| == 6;
        case PlayerPartName => assert |Tag(a)| == 11;
        case PartName => assert Tag(a)[0] == 'p' && |Tag(a)| == 4;
        case EnemyName => assert Tag(a)[0] == 'e' && |Tag(a)| == 5;
        case PlayerBulletName => assert |Tag(a)| == 13;
        case EnemyBulletName => assert |Tag(a)| == 12;
        case StarName => assert Tag(a)[0] == 's';
      }
    }
  }
}
