# Better Respawn (hardcore edition): respawn manager and capability record

A Dafny model of the two parts of the mod that hold logic of their own.

**`RespawnManager`** (module `Respawn`, file `respawn_manager.dfy`)
- **On death.** The player's respawn point is first copied into its capability record. The manager then does one of three things:
  - leaves the point alone when the player died close to its bed or anchor;
  - leaves it alone when the dimension has a ceiling or beds do not work there;
  - otherwise searches at most 16 random chunks around the place of death for a spawnable position inside the world border, and makes the first one found a temporary forced respawn point.
- **On an explicit change of respawn point.** The point is mirrored into the record. Unless the point is a bed, the cooldown check runs: the player's health is set to half its maximum when its previous check came at most nine minutes earlier.

**`AbilitiesMixin`** (module `Abilities`, file `abilities.dfy`)
- The record holds five fields (dimension, position, angle, forced flag, last-death time).
- Its save hook writes them under `abilities` → `better_respawn` in the player's save tag, and its load hook reads them back. Every missing key falls back to its own default.

**Supporting modules**
- `Game` (`game.dfy`): the host types the two parts use. These are block and chunk positions, dimension keys with their `namespace:path` text form and its parse, Manhattan distance, and the player's respawn point.
- `Nbt` (`nbt.dfy`): the save-tag tree, a map from string to a sum of tag kinds. Typed getters return a default on a missing key or a kind mismatch.
- `JavaInt` (`java_int.dfy`): Java's `int` and `long` ranges, with two's-complement wrap-around.

**Host state and queries are inputs**
- The random source is a stream of draws. Attempt `i` uses draw `2i` for x and draw `2i + 1` for z. Each draw holds the result of `nextBoolean` and a value whose remainder by the bound is the result of `nextInt`.
- The clock's two readings (the one compared and the one recorded) are parameters.
- The world is two oracles: the chunk spawn-position lookup and the world-border test.
- The host also supplies:
  - whether a block is a bed in the overworld;
  - the dimension's ceiling and bed flags;
  - the spawn position next to the player's respawn block, or none when that block is missing.
- A player whose abilities object is not the mod's capability is a `null` capability.

**Integer arithmetic is Java's**
- The `nextInt` bound `max - min` wraps at 32 bits. As a result, `min = 2147483647, max = -2147483648` gives bound 1 and does not throw (`RandomRangeThrows`).
- A bound that is not positive makes `nextInt` throw. That is the error result `SearchThrew`.
- The cooldown difference `now - last` is a 64-bit subtraction.

**Where the code and its comments disagree, the model follows the code.** RespawnManager.java:114 speaks of 15 minutes, but the constant at RespawnManager.java:31 is 9 minutes.

## Model

| member | source | states |
|---|---|---|
| Respawn.RandomRangeThrows | common/src/main/java/de/maxhenkel/betterrespawn/RespawnManager.java:185-187 | nextInt throws exactly when the 32-bit bound `max - min` is not positive. Without overflow, that is exactly when `max <= min`. With overflow, min = 2^31-1 and max = -2^31 do not throw. |
| Respawn.RandomRangeDistance | common/src/main/java/de/maxhenkel/betterrespawn/RespawnManager.java:185-187 | For `0 <= min < max` without overflow, the result is `actual ± d` with `min <= d < max`, on the side the coin flip chose. |
| Respawn.RandomRangeReachesEveryDistance | common/src/main/java/de/maxhenkel/betterrespawn/RespawnManager.java:185-187 | Conversely, every distance in `[min, max)` in either direction is produced by some draw. |
| Respawn.RunSearch | common/src/main/java/de/maxhenkel/betterrespawn/RespawnManager.java:168-175 | The attempt loop equals the search specification: it stops at the first thrown exception or at the first candidate that exists and is inside the border. A returned position is inside the border. |
| Respawn.RespawnManager.FindValidRespawnLocation | common/src/main/java/de/maxhenkel/betterrespawn/RespawnManager.java:164-183 | The result is the search over the random attempts, and a position it returns is inside the world border. |
| Respawn.SearchFoundIsFirstAcceptable | common/src/main/java/de/maxhenkel/betterrespawn/RespawnManager.java:169-175 | A found position is inside the border. It is the candidate of one of the 16 attempts, and every earlier attempt ran and gave nothing acceptable. |
| Respawn.SearchFoundNearDeath | common/src/main/java/de/maxhenkel/betterrespawn/RespawnManager.java:171 | Without overflow, a found position is the spawn position of the chunk around a point whose x and z each lie at a distance in `[min, max)` from the place of death. |
| Respawn.SearchNotFound | common/src/main/java/de/maxhenkel/betterrespawn/RespawnManager.java:169-182 | The search returns null exactly when all 16 attempts run and none gives a candidate inside the border. |
| Respawn.SearchThrows | common/src/main/java/de/maxhenkel/betterrespawn/RespawnManager.java:185-187 | The search throws exactly when the configured distances give a bound that is not positive. |
| Respawn.SearchUsesAtMostSixteenAttempts | common/src/main/java/de/maxhenkel/betterrespawn/RespawnManager.java:169 | At most 16 attempts: two random sources that agree on their first 32 draws give the same result. |
| Respawn.RespawnManager.CheckRecentRespawn | common/src/main/java/de/maxhenkel/betterrespawn/RespawnManager.java:113-128 | The penalty is applied exactly when the penalty test holds on the old map. The map afterwards is the old map with the player's entry set to the second clock reading. |
| Respawn.PenaltyDueIff | common/src/main/java/de/maxhenkel/betterrespawn/RespawnManager.java:115-124 | For non-negative clock readings, the penalty applies exactly when a recorded time other than 0 exists and `now` is at most 540000 ms after it. A player with no entry is never penalised. |
| Respawn.PenaltyAfterRecord | common/src/main/java/de/maxhenkel/betterrespawn/RespawnManager.java:119-127 | After a time is recorded, a later check of the same player within nine minutes applies the penalty, and one later than that does not. |
| Respawn.PenaltyPerPlayer | common/src/main/java/de/maxhenkel/betterrespawn/RespawnManager.java:127 | Recording a time for one player leaves every other player's penalty test unchanged. |
| Respawn.RespawnManager.OnSetRespawnPosition | common/src/main/java/de/maxhenkel/betterrespawn/RespawnManager.java:78-109 | A forced change, or a player without the capability, changes nothing and applies no penalty. Otherwise the record gets the dimension (the overworld when the position is null), position, angle and forced = false. A bed position skips the cooldown check; any other position runs it. |
| Respawn.RespawnManager.OnPlayerDeath | common/src/main/java/de/maxhenkel/betterrespawn/RespawnManager.java:38-76 | The outcome is the death decision. The record receives the player's old respawn point. The player's respawn point becomes (death dimension, found position, angle 0, forced) exactly on a temporary point, and is unchanged otherwise. |
| Respawn.TemporaryPointSetIff | common/src/main/java/de/maxhenkel/betterrespawn/RespawnManager.java:52-74 | A temporary point is set exactly when all of these hold: the capability is there, the player is not near its respawn block, the dimension has no ceiling and beds work, and the search finds a position. That position is inside the border. |
| Abilities.RespawnAbilities.SetRespawnDimension | common/src/main/java/de/maxhenkel/betterrespawn/mixin/AbilitiesMixin.java:107-130 | The getter then returns the set dimension, and no other field changes. |
| Abilities.RespawnAbilities.SetRespawnPos | common/src/main/java/de/maxhenkel/betterrespawn/mixin/AbilitiesMixin.java:112-135 | The getter then returns the set position, and no other field changes. |
| Abilities.RespawnAbilities.SetRespawnAngle | common/src/main/java/de/maxhenkel/betterrespawn/mixin/AbilitiesMixin.java:117-140 | The getter then returns the set angle, and no other field changes. |
| Abilities.RespawnAbilities.SetRespawnForced | common/src/main/java/de/maxhenkel/betterrespawn/mixin/AbilitiesMixin.java:122-145 | The getter then returns the set flag, and no other field changes. |
| Abilities.RespawnAbilities.SetLastDeathTime | common/src/main/java/de/maxhenkel/betterrespawn/mixin/AbilitiesMixin.java:147-154 | The getter then returns the set time, and no other field changes. |
| Abilities.RespawnAbilities.AddSaveData | common/src/main/java/de/maxhenkel/betterrespawn/mixin/AbilitiesMixin.java:31-56 | The caller's tag becomes the save of the record's fields into the old tag. |
| Abilities.RespawnAbilities.LoadSaveData | common/src/main/java/de/maxhenkel/betterrespawn/mixin/AbilitiesMixin.java:58-104 | The fields become the load of the tag from the old fields. The dimension text is read from the key it is saved under (see Findings). |
| Abilities.SaveWritesFixedKeys | common/src/main/java/de/maxhenkel/betterrespawn/mixin/AbilitiesMixin.java:49-55 | `respawn_angle`, `respawn_forced` (as byte 1 or 0) and `last_death_time` are always written, with the field values. |
| Abilities.SaveWritesOptionalKeys | common/src/main/java/de/maxhenkel/betterrespawn/mixin/AbilitiesMixin.java:37-47 | `respawn_dimension` is written exactly when the dimension is non-null, as its `namespace:path` text. `respawn_pos` is written exactly when the position is non-null, as exactly `x`, `y`, `z`. Nothing else is written, and `respawn_level` never is. |
| Abilities.SaveWithoutAbilitiesIsLost | common/src/main/java/de/maxhenkel/betterrespawn/mixin/AbilitiesMixin.java:33-55 | Without an `abilities` compound, getCompound hands back a detached compound, so the tag is unchanged. |
| Abilities.SaveKeepsOtherData | common/src/main/java/de/maxhenkel/betterrespawn/mixin/AbilitiesMixin.java:33-55 | Saving changes only `abilities.better_respawn`. Every other key of the tag and of `abilities` keeps its value. |
| Abilities.SaveIdempotent | common/src/main/java/de/maxhenkel/betterrespawn/mixin/AbilitiesMixin.java:31-56 | Saving twice gives what saving once gave. |
| Abilities.LoadWithoutAbilitiesKeepsFields | common/src/main/java/de/maxhenkel/betterrespawn/mixin/AbilitiesMixin.java:60-62 | With no `abilities` compound, loading leaves every field unchanged. |
| Abilities.LoadWithoutRespawnDataResets | common/src/main/java/de/maxhenkel/betterrespawn/mixin/AbilitiesMixin.java:96-102 | With `abilities` but no `better_respawn`, loading sets the defaults: overworld, null, 0, false, 0. |
| Abilities.FieldsReadIndependently | common/src/main/java/de/maxhenkel/betterrespawn/mixin/AbilitiesMixin.java:65-95 | Each field depends only on its own key(s). Each falls back to its own default when its key is missing, whatever the other keys hold. |
| Abilities.RoundTripAsWritten | common/src/main/java/de/maxhenkel/betterrespawn/mixin/AbilitiesMixin.java:37-95 | Save then load, as written, restores position, angle, forced flag and last-death time. When a dimension was saved, the dimension comes back as the parse of the empty string; otherwise it comes back as the overworld. |
| Abilities.DimensionLostAsWritten | common/src/main/java/de/maxhenkel/betterrespawn/mixin/AbilitiesMixin.java:67-68 | A saved `minecraft:overworld` loads back as `minecraft:` (an empty path), which differs from what was saved. |
| Abilities.RoundTrip | common/src/main/java/de/maxhenkel/betterrespawn/mixin/AbilitiesMixin.java:37-95 | With the dimension read from `respawn_dimension`, save then load restores every field. A null dimension comes back as the overworld. |
| Game.ParseLocationInverse | common/src/main/java/de/maxhenkel/betterrespawn/mixin/AbilitiesMixin.java:68 | Parsing the `namespace:path` text of a dimension key gives back the key, for every key whose namespace is non-empty and contains no colon. |

## Left out

- MessageRespawnDelay.java: a one-int network packet and a death-screen update. It is network and user-interface code and is not part of this model.
- isAllowedBiome (RespawnManager.java:134-162) always returns true and is never called.
- The health change at RespawnManager.java:122 (`getMaxHealth() / 2.0f`, floating point) is modelled as the boolean `penalty` result.
- Angles are `float` in Java and `real` here. They are copied and stored, never computed with.
- Respawn.WithinRespawnBlockRange: the Manhattan distance is exact integer arithmetic. It does not model the double-to-int cast of the spawn position (RespawnManager.java:56) or the rounding and overflow of the host's distance computation.
- `findRespawnPositionAndUseSpawnBlock` is an input: the spawn position next to the respawn block, or none when the block is missing. Its own side effects are not modelled; it may use an anchor charge.
- `respawnDimension == player.serverLevel()` compares two level objects. The model compares the dimension keys of the two levels.
- The showMessage parameter of onSetRespawnPosition is unused there and is left out.
- Logging, and the mixin injection itself (the hooks run at the end of the host's own save and load), are left out.
- ResourceLocation validation is left out. The parse only splits at the first colon and defaults the namespace to `minecraft`.
- Respawn.RespawnManager.FindValidRespawnLocation: java.util.Random's actual generator is not modelled. Any stream of draws is allowed, and `nextInt(bound)` is the draw's value modulo the bound.
- The host's setRespawnPosition (Game.ServerPlayer.SetRespawnPosition) is modelled only for a non-null position, the only case the manager uses.
- Nbt getters do not convert between numeric tag kinds. A key holding another kind yields the getter's default.
- Abilities.RespawnAbilities.AddSaveData: the shared nested compound is modelled by writing the updated `abilities` compound back into the caller's tag. That write-back happens only when the compound was already there.
- Abilities.RespawnAbilities.LoadSaveData: this member follows the corrected load (see Findings). The code as written is `Abilities.LoadAsWritten`.

## Findings

| source | as written | input that shows it | evidently intended | confidence | as-written member | corrected member |
|---|---|---|---|---|---|---|
| common/src/main/java/de/maxhenkel/betterrespawn/mixin/AbilitiesMixin.java:68 | After checking that `respawn_dimension` is present, the dimension text is read from `respawn_level`, a key that save never writes. getString gives `""`, which parses to `minecraft:`. | A record with dimension `minecraft:overworld`, saved into a tag holding an `abilities` compound and loaded back, has dimension `minecraft:` | Read the text from `respawn_dimension`, so that the saved dimension comes back | high, not executed | Abilities.DimensionLostAsWritten | Abilities.RoundTrip |
