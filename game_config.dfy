/**
 * The fields of the game's configuration object that the modelled code reads
 * (config.player, config.playerPart and config.enemy). Speeds, drag and acceleration
 * only steer movement and are not part of this model.
 */
module GameConfig {
  datatype Config = Config(
    playerHP: int,          // config.player.hp
    playerMass: real,       // config.player.mass
    partHP: int,            // config.playerPart.hp
    partMass: real,         // config.playerPart.mass
    partBounce: real,       // config.playerPart.bounce
    enemyHP: int,           // config.enemy.hp
    enemyMass: real,        // config.enemy.mass
    enemyShootRate: real,   // config.enemy.shootRate, in milliseconds
    enemyBowOutTime: real)  // config.enemy.bowOutTime, in seconds
}
