/**
 * The respawn manager. On death it keeps the player's bed or anchor respawn point
 * when the player died close to it, and otherwise picks a temporary respawn point
 * at a random distance from the place of death. On an explicit change of respawn
 * point it mirrors the point into the capability record and sets the player's health
 * to half its maximum when the previous such change came within the cooldown.
 *
 * The host's queries are inputs: the random source is a stream of draws, the
 * world is a pair of oracles, and the clock readings are parameters.
 */
module Respawn {
  import opened Wrappers
  import opened JavaInt
  import opened Game
  import Abilities

  const FIND_SPAWN_ATTEMPTS: nat := 16
  /** Nine minutes, in milliseconds. */
  const RESPAWN_COOLDOWN: Int64 := 9 * 60 * 1000
  /** The message of the exception Random.nextInt throws for a bound that is not positive. */
  const BOUND_MUST_BE_POSITIVE: string := "bound must be positive"

  /** The server configuration values the manager reads. */
  datatype Config = Config(minRespawnDistance: Int32, maxRespawnDistance: Int32, respawnBlockRange: Int32)

  /**
   * The level the player died in: a spawnable position in a chunk (or none), and
   * whether a position lies inside the world border.
   */
  datatype World = World(spawnPosInChunk: ChunkPos -> Option<BlockPos>, withinBorder: BlockPos -> bool)

  /**
   * One use of the random source by the offset computation: the result of nextBoolean,
   * and a raw value whose remainder modulo the bound is the result of nextInt(bound).
   * Every value nextInt can return is the remainder of some raw value.
   */
  datatype Draw = Draw(negative: bool, pick: nat)

  // ---------------------------------------------------------- random offset

  /** The bound passed to nextInt, computed in 32-bit arithmetic. */
  function Bound(minDistance: Int32, maxDistance: Int32): Int32 {
    Wrap32(maxDistance - minDistance)
  }

  /**
   * The coordinate `actual` moved by `minDistance` plus a random amount below
   * `maxDistance - minDistance`, in a random direction; None when nextInt throws.
   */
  function RandomRange(actual: Int32, minDistance: Int32, maxDistance: Int32, draw: Draw): Option<Int32> {
    var bound := Bound(minDistance, maxDistance);
    if bound <= 0 then None
    else
      var distance := Wrap32(minDistance + draw.pick % bound);
      // Multiplying by -1 in 32-bit arithmetic is negation with wrap-around.
      var offset := if draw.negative then Wrap32(-(distance as int)) else distance;
      Some(Wrap32(actual + offset))
  }

  /**
   * The offset computation throws exactly when the 32-bit bound is not positive: when
   * max <= min as long as max - min does not overflow, but not for every max <= min.
   */
  lemma RandomRangeThrows(actual: Int32, minDistance: Int32, maxDistance: Int32, draw: Draw)
    ensures RandomRange(actual, minDistance, maxDistance, draw).None? <==> Bound(minDistance, maxDistance) <= 0
    ensures InInt32(maxDistance - minDistance) ==>
              (RandomRange(actual, minDistance, maxDistance, draw).None? <==> maxDistance <= minDistance)
    ensures minDistance == 0x7fff_ffff && maxDistance == -0x8000_0000 ==>
              RandomRange(actual, minDistance, maxDistance, draw).Some?
  {
  }

  /**
   * Without overflow, the result lies at a distance in [min, max) from `actual`, on
   * the side the coin flip chose.
   */
  lemma RandomRangeDistance(actual: Int32, minDistance: Int32, maxDistance: Int32, draw: Draw)
    requires 0 <= minDistance < maxDistance
    requires InInt32(actual - maxDistance) && InInt32(actual + maxDistance)
    ensures var r := RandomRange(actual, minDistance, maxDistance, draw);
      && r.Some?
      && minDistance <= Abs(r.value - actual) < maxDistance
      && (draw.negative ==> r.value <= actual)
      && (!draw.negative ==> r.value >= actual)
  {
    var bound := Bound(minDistance, maxDistance);
    assert bound == maxDistance - minDistance;
    var k := draw.pick % bound;
    assert 0 <= k < bound;
    var distance := minDistance + k;
    assert Wrap32(minDistance + k) == distance;
    assert Wrap32(-distance) == -distance;
  }

  /** Every distance in [min, max), in either direction, is the result of some draw. */
  lemma RandomRangeReachesEveryDistance(actual: Int32, minDistance: Int32, maxDistance: Int32, negative: bool, distance: int)
    requires 0 <= minDistance <= distance < maxDistance
    requires InInt32(actual - maxDistance) && InInt32(actual + maxDistance)
    ensures RandomRange(actual, minDistance, maxDistance, Draw(negative, distance - minDistance))
         == Some(if negative then actual - distance else actual + distance)
  {
    var bound := Bound(minDistance, maxDistance);
    assert bound == maxDistance - minDistance;
    var pick: nat := distance - minDistance;
    SmallRemainder(pick, bound);
    assert Wrap32(minDistance + pick % bound) == distance;
    assert Wrap32(-distance) == -distance;
  }

  lemma SmallRemainder(a: nat, b: int)
    requires a < b
    ensures a % b == a
  {
  }

  // ---------------------------------------------------------- bounded search

  /**
   * Attempt `i` draws an x offset (draw 2i) and then a z offset (draw 2i + 1) from the
   * place of death and asks the world for a spawn position in the chunk there.
   */
  function Attempt(death: BlockPos, cfg: Config, world: World, rng: nat -> Draw, i: nat): Result<Option<BlockPos>> {
    var x := RandomRange(death.x, cfg.minRespawnDistance, cfg.maxRespawnDistance, rng(2 * i));
    var z := RandomRange(death.z, cfg.minRespawnDistance, cfg.maxRespawnDistance, rng(2 * i + 1));
    if x.None? || z.None? then Err(BOUND_MUST_BE_POSITIVE)
    else Ok(world.spawnPosInChunk(ChunkAt(x.value, z.value)))
  }

  /** The attempts of one search, as a function of the attempt number. */
  function Attempts(death: BlockPos, cfg: Config, world: World, rng: nat -> Draw): nat -> Result<Option<BlockPos>> {
    (i: nat) => Attempt(death, cfg, world, rng, i)
  }

  /** A candidate is kept when it exists and lies inside the world border. */
  predicate Accepted(withinBorder: BlockPos -> bool, candidate: Option<BlockPos>) {
    candidate.Some? && withinBorder(candidate.value)
  }

  /** Attempt `i` ran and produced no acceptable candidate. */
  predicate Rejected(attempt: nat -> Result<Option<BlockPos>>, withinBorder: BlockPos -> bool, i: nat) {
    attempt(i).Ok? && !Accepted(withinBorder, attempt(i).value)
  }

  /** The search from attempt `i` on: the first accepted candidate, if any attempt is left. */
  function SearchFrom(attempt: nat -> Result<Option<BlockPos>>, withinBorder: BlockPos -> bool, i: nat): Result<Option<BlockPos>>
    requires i <= FIND_SPAWN_ATTEMPTS
    decreases FIND_SPAWN_ATTEMPTS - i
  {
    if i == FIND_SPAWN_ATTEMPTS then Ok(None)
    else match attempt(i)
      case Err(e) => Err(e)
      case Ok(candidate) =>
        if Accepted(withinBorder, candidate) then Ok(candidate) else SearchFrom(attempt, withinBorder, i + 1)
  }

  /** findValidRespawnLocation's result. */
  function Search(death: BlockPos, cfg: Config, world: World, rng: nat -> Draw): Result<Option<BlockPos>> {
    SearchFrom(Attempts(death, cfg, world, rng), world.withinBorder, 0)
  }

  lemma {:induction false} SearchFromFound(attempt: nat -> Result<Option<BlockPos>>, withinBorder: BlockPos -> bool, i: nat, p: BlockPos)
    requires i <= FIND_SPAWN_ATTEMPTS
    requires SearchFrom(attempt, withinBorder, i) == Ok(Some(p))
    ensures withinBorder(p)
    ensures exists j :: i <= j < FIND_SPAWN_ATTEMPTS && attempt(j) == Ok(Some(p))
                        && forall k :: i <= k < j ==> Rejected(attempt, withinBorder, k)
    decreases FIND_SPAWN_ATTEMPTS - i
  {
    if !(attempt(i).Ok? && Accepted(withinBorder, attempt(i).value)) {
      SearchFromFound(attempt, withinBorder, i + 1, p);
      var j :| i + 1 <= j < FIND_SPAWN_ATTEMPTS && attempt(j) == Ok(Some(p))
               && forall k :: i + 1 <= k < j ==> Rejected(attempt, withinBorder, k);
      assert Rejected(attempt, withinBorder, i);
      assert forall k :: i <= k < j ==> Rejected(attempt, withinBorder, k);
    }
  }

  /**
   * A position found by the search lies inside the world border, and is the candidate
   * of one of the 16 attempts, every earlier attempt having produced nothing acceptable.
   */
  lemma SearchFoundIsFirstAcceptable(death: BlockPos, cfg: Config, world: World, rng: nat -> Draw, p: BlockPos)
    requires Search(death, cfg, world, rng) == Ok(Some(p))
    ensures world.withinBorder(p)
    ensures exists j :: 0 <= j < FIND_SPAWN_ATTEMPTS && Attempt(death, cfg, world, rng, j) == Ok(Some(p))
                        && forall k :: 0 <= k < j ==> Rejected(Attempts(death, cfg, world, rng), world.withinBorder, k)
  {
    SearchFromFound(Attempts(death, cfg, world, rng), world.withinBorder, 0, p);
  }

  /**
   * Without overflow, a position found by the search is the spawn position of the chunk
   * around a point whose x and z each lie at a distance in [min, max) from the place of death.
   */
  lemma SearchFoundNearDeath(death: BlockPos, cfg: Config, world: World, rng: nat -> Draw, p: BlockPos)
    requires Search(death, cfg, world, rng) == Ok(Some(p))
    requires 0 <= cfg.minRespawnDistance < cfg.maxRespawnDistance
    requires InInt32(death.x - cfg.maxRespawnDistance) && InInt32(death.x + cfg.maxRespawnDistance)
    requires InInt32(death.z - cfg.maxRespawnDistance) && InInt32(death.z + cfg.maxRespawnDistance)
    ensures exists x: Int32, z: Int32 ::
              && cfg.minRespawnDistance <= Abs(x - death.x) < cfg.maxRespawnDistance
              && cfg.minRespawnDistance <= Abs(z - death.z) < cfg.maxRespawnDistance
              && world.spawnPosInChunk(ChunkAt(x, z)) == Some(p)
  {
    SearchFoundIsFirstAcceptable(death, cfg, world, rng, p);
    var j :| 0 <= j < FIND_SPAWN_ATTEMPTS && Attempt(death, cfg, world, rng, j) == Ok(Some(p));
    var min, max := cfg.minRespawnDistance, cfg.maxRespawnDistance;
    RandomRangeDistance(death.x, min, max, rng(2 * j));
    RandomRangeDistance(death.z, min, max, rng(2 * j + 1));
    var x := RandomRange(death.x, min, max, rng(2 * j)).value;
    var z := RandomRange(death.z, min, max, rng(2 * j + 1)).value;
    assert world.spawnPosInChunk(ChunkAt(x, z)) == Some(p);
  }

  lemma {:induction false} SearchFromNotFound(attempt: nat -> Result<Option<BlockPos>>, withinBorder: BlockPos -> bool, i: nat)
    requires i <= FIND_SPAWN_ATTEMPTS
    ensures SearchFrom(attempt, withinBorder, i) == Ok(None)
        <==> forall k :: i <= k < FIND_SPAWN_ATTEMPTS ==> Rejected(attempt, withinBorder, k)
    decreases FIND_SPAWN_ATTEMPTS - i
  {
    if i < FIND_SPAWN_ATTEMPTS {
      SearchFromNotFound(attempt, withinBorder, i + 1);
      if Rejected(attempt, withinBorder, i) {
        assert SearchFrom(attempt, withinBorder, i) == SearchFrom(attempt, withinBorder, i + 1);
      } else {
        assert SearchFrom(attempt, withinBorder, i) != Ok(None);
      }
    }
  }

  /** The search finds nothing exactly when all 16 attempts produce nothing acceptable. */
  lemma SearchNotFound(death: BlockPos, cfg: Config, world: World, rng: nat -> Draw)
    ensures Search(death, cfg, world, rng) == Ok(None)
        <==> forall k :: 0 <= k < FIND_SPAWN_ATTEMPTS ==> Rejected(Attempts(death, cfg, world, rng), world.withinBorder, k)
  {
    SearchFromNotFound(Attempts(death, cfg, world, rng), world.withinBorder, 0);
  }

  lemma {:induction false} SearchFromOk(attempt: nat -> Result<Option<BlockPos>>, withinBorder: BlockPos -> bool, i: nat)
    requires i <= FIND_SPAWN_ATTEMPTS
    requires forall k: nat :: attempt(k).Ok?
    ensures SearchFrom(attempt, withinBorder, i).Ok?
    decreases FIND_SPAWN_ATTEMPTS - i
  {
    if i < FIND_SPAWN_ATTEMPTS {
      SearchFromOk(attempt, withinBorder, i + 1);
    }
  }

  /** The search throws exactly when the configured distances give a bound that is not positive. */
  lemma SearchThrows(death: BlockPos, cfg: Config, world: World, rng: nat -> Draw)
    ensures Search(death, cfg, world, rng).Err?
        <==> Bound(cfg.minRespawnDistance, cfg.maxRespawnDistance) <= 0
  {
    var attempt := Attempts(death, cfg, world, rng);
    if Bound(cfg.minRespawnDistance, cfg.maxRespawnDistance) > 0 {
      forall k: nat ensures attempt(k).Ok? {
        assert attempt(k) == Attempt(death, cfg, world, rng, k);
      }
      SearchFromOk(attempt, world.withinBorder, 0);
    } else {
      assert attempt(0).Err?;
    }
  }

  lemma {:induction false} SearchFromUsesFirstAttempts(attempt1: nat -> Result<Option<BlockPos>>, attempt2: nat -> Result<Option<BlockPos>>,
                                                      withinBorder: BlockPos -> bool, i: nat)
    requires i <= FIND_SPAWN_ATTEMPTS
    requires forall k: nat :: k < FIND_SPAWN_ATTEMPTS ==> attempt1(k) == attempt2(k)
    ensures SearchFrom(attempt1, withinBorder, i) == SearchFrom(attempt2, withinBorder, i)
    decreases FIND_SPAWN_ATTEMPTS - i
  {
    if i < FIND_SPAWN_ATTEMPTS {
      SearchFromUsesFirstAttempts(attempt1, attempt2, withinBorder, i + 1);
    }
  }

  /** At most 16 attempts: only the first 32 draws of the random source matter. */
  lemma SearchUsesAtMostSixteenAttempts(death: BlockPos, cfg: Config, world: World, rng1: nat -> Draw, rng2: nat -> Draw)
    requires forall n: nat :: n < 2 * FIND_SPAWN_ATTEMPTS ==> rng1(n) == rng2(n)
    ensures Search(death, cfg, world, rng1) == Search(death, cfg, world, rng2)
  {
    var attempt1, attempt2 := Attempts(death, cfg, world, rng1), Attempts(death, cfg, world, rng2);
    forall k: nat | k < FIND_SPAWN_ATTEMPTS ensures attempt1(k) == attempt2(k) {
      assert rng1(2 * k) == rng2(2 * k) && rng1(2 * k + 1) == rng2(2 * k + 1);
    }
    SearchFromUsesFirstAttempts(attempt1, attempt2, world.withinBorder, 0);
  }

  // ------------------------------------------------------ cooldown penalty

  /** The recorded time of a player's last respawn-point change, 0 when none is recorded. */
  function LastDeathTime(times: map<Uuid, Int64>, player: Uuid): Int64 {
    if player in times then times[player] else 0
  }

  /** The penalty test: a recorded time that is not 0 and at most the cooldown old (64-bit difference). */
  predicate PenaltyDue(times: map<Uuid, Int64>, player: Uuid, now: Int64) {
    var last := LastDeathTime(times, player);
    last != 0 && Wrap64(now - last) <= RESPAWN_COOLDOWN
  }

  /**
   * For clock readings that are not negative, the penalty applies exactly when a time
   * other than 0 is recorded and `now` is at most nine minutes after it; a player
   * without a record never gets it.
   */
  lemma PenaltyDueIff(times: map<Uuid, Int64>, player: Uuid, now: Int64)
    requires 0 <= now
    requires player in times ==> 0 <= times[player]
    ensures PenaltyDue(times, player, now)
        <==> player in times && times[player] != 0 && now - times[player] <= 540_000
    ensures player !in times ==> !PenaltyDue(times, player, now)
  {
  }

  /**
   * After a check recorded `stamp`, a later check of the same player at most nine
   * minutes after it applies the penalty, and one more than nine minutes after does not.
   */
  lemma PenaltyAfterRecord(times: map<Uuid, Int64>, player: Uuid, stamp: Int64, now: Int64)
    requires 0 < stamp <= now
    ensures PenaltyDue(times[player := stamp], player, now) <==> now - stamp <= RESPAWN_COOLDOWN
  {
  }

  /** Recording a time for one player does not change the penalty test of another. */
  lemma PenaltyPerPlayer(times: map<Uuid, Int64>, player: Uuid, other: Uuid, stamp: Int64, now: Int64)
    requires other != player
    ensures PenaltyDue(times[other := stamp], player, now) == PenaltyDue(times, player, now)
  {
  }

  // ------------------------------------------------------------ death event

  /** What the host reports about the death. */
  datatype DeathContext = DeathContext(
    position: BlockPos,                    // where the player died
    level: Dimension,                      // the dimension it died in
    hasCeiling: bool,
    bedWorks: bool,
    respawnBlockSpawn: Option<BlockPos>)   // the spawn next to its bed or anchor; None when that block is missing

  datatype DeathOutcome =
    | NoCapability
    | NearRespawnBlock
    | UnsupportedDimension
    | SearchThrew(message: string)
    | NoLocationFound
    | TemporaryPointSet(pos: BlockPos)

  /**
   * The player has a respawn position whose block is still there, in the dimension it
   * died in, and died within the configured Manhattan distance of it.
   */
  predicate WithinRespawnBlockRange(spawn: RespawnPoint, ctx: DeathContext, cfg: Config) {
    && spawn.pos.Some?
    && ctx.respawnBlockSpawn.Some?
    && spawn.dimension == ctx.level
    && Manhattan(ctx.position, ctx.respawnBlockSpawn.value) <= cfg.respawnBlockRange
  }

  /** The branch the death handler takes. */
  function DeathDecision(hasCapability: bool, spawn: RespawnPoint, ctx: DeathContext, cfg: Config, world: World, rng: nat -> Draw): DeathOutcome {
    if !hasCapability then NoCapability
    else if WithinRespawnBlockRange(spawn, ctx, cfg) then NearRespawnBlock
    else if ctx.hasCeiling || !ctx.bedWorks then UnsupportedDimension
    else match Search(ctx.position, cfg, world, rng)
      case Err(e) => SearchThrew(e)
      case Ok(None) => NoLocationFound
      case Ok(Some(p)) => TemporaryPointSet(p)
  }

  /**
   * The respawn point is replaced exactly when the capability is there, the player is not
   * near its respawn block, the dimension supports beds and has no ceiling, and the search
   * finds a position; that position is inside the world border.
   */
  lemma TemporaryPointSetIff(hasCapability: bool, spawn: RespawnPoint, ctx: DeathContext, cfg: Config, world: World, rng: nat -> Draw)
    ensures DeathDecision(hasCapability, spawn, ctx, cfg, world, rng).TemporaryPointSet?
        <==> hasCapability && !WithinRespawnBlockRange(spawn, ctx, cfg) && !ctx.hasCeiling && ctx.bedWorks
             && Search(ctx.position, cfg, world, rng).Ok? && Search(ctx.position, cfg, world, rng).value.Some?
    ensures DeathDecision(hasCapability, spawn, ctx, cfg, world, rng).TemporaryPointSet? ==>
              world.withinBorder(DeathDecision(hasCapability, spawn, ctx, cfg, world, rng).pos)
  {
    var r := Search(ctx.position, cfg, world, rng);
    if r.Ok? && r.value.Some? {
      SearchFoundIsFirstAcceptable(ctx.position, cfg, world, rng, r.value.value);
    }
  }

  // ------------------------------------------------------------ the manager

  /**
   * The loop of findValidRespawnLocation, over the attempts: stop at the first thrown
   * exception or at the first candidate inside the border, after 16 attempts at most.
   */
  method RunSearch(attempt: nat -> Result<Option<BlockPos>>, withinBorder: BlockPos -> bool)
    returns (r: Result<Option<BlockPos>>)
    ensures r == SearchFrom(attempt, withinBorder, 0)
    ensures r.Ok? && r.value.Some? ==> withinBorder(r.value.value)
  {
    var pos: Option<BlockPos> := None;
    var i := 0;
    while i < FIND_SPAWN_ATTEMPTS && pos.None?
      invariant 0 <= i <= FIND_SPAWN_ATTEMPTS
      invariant pos.None? ==> SearchFrom(attempt, withinBorder, 0) == SearchFrom(attempt, withinBorder, i)
      invariant pos.Some? ==> SearchFrom(attempt, withinBorder, 0) == Ok(pos) && withinBorder(pos.value)
    {
      var candidate := attempt(i);
      if candidate.Err? {
        return Err(candidate.error);
      }
      pos := candidate.value;
      if pos.Some? && !withinBorder(pos.value) {
        pos := None;
      }
      i := i + 1;
    }
    r := Ok(pos);
  }

  class RespawnManager {
    /** The time of each player's last penalty check. */
    var lastDeathTimes: map<Uuid, Int64>

    constructor ()
      ensures lastDeathTimes == map[]
    {
      lastDeathTimes := map[];
    }

    /**
     * Up to 16 attempts; each draws a random offset on x and z and keeps the chunk's
     * spawn position when there is one inside the world border.
     */
    method FindValidRespawnLocation(deathLocation: BlockPos, cfg: Config, world: World, rng: nat -> Draw)
      returns (r: Result<Option<BlockPos>>)
      ensures r == Search(deathLocation, cfg, world, rng)
      ensures r.Ok? && r.value.Some? ==> world.withinBorder(r.value.value)
    {
      r := RunSearch(Attempts(deathLocation, cfg, world, rng), world.withinBorder);
    }

    /**
     * Applies the penalty when the player's last recorded time is recent (`now` is the
     * first clock reading), then records the second clock reading `stamp`.
     */
    method CheckRecentRespawn(player: Uuid, now: Int64, stamp: Int64) returns (penalty: bool)
      modifies this
      ensures penalty == PenaltyDue(old(lastDeathTimes), player, now)
      ensures lastDeathTimes == old(lastDeathTimes)[player := stamp]
    {
      var lastDeathTime := if player in lastDeathTimes then lastDeathTimes[player] else 0;
      penalty := false;
      if lastDeathTime != 0 {
        if Wrap64(now - lastDeathTime) <= RESPAWN_COOLDOWN {
          penalty := true;
        }
      }
      lastDeathTimes := lastDeathTimes[player := stamp];
    }

    /**
     * The host changed the player's respawn point. A forced change, or a player without
     * the capability, changes nothing. Otherwise the point is mirrored into the capability
     * (the overworld when there is no position) and, unless the position holds a bed in
     * the overworld, the cooldown check runs.
     */
    method OnSetRespawnPosition(player: ServerPlayer, abilities: Abilities.RespawnAbilities?,
                                dimension: Dimension, pos: Option<BlockPos>, angle: real, forced: bool,
                                bedInOverworld: BlockPos -> bool, now: Int64, stamp: Int64)
      returns (penalty: bool)
      modifies this, abilities
      ensures forced || abilities == null ==> !penalty && lastDeathTimes == old(lastDeathTimes)
      ensures forced && abilities != null ==> abilities.Snapshot() == old(abilities.Snapshot())
      ensures !forced && abilities != null ==>
        abilities.Snapshot() == old(abilities.Snapshot()).(
          dimension := Some(if pos.None? then OVERWORLD else dimension),
          pos := pos, angle := angle, forced := false)
      ensures !forced && abilities != null && pos.Some? && bedInOverworld(pos.value) ==>
        !penalty && lastDeathTimes == old(lastDeathTimes)
      ensures !forced && abilities != null && !(pos.Some? && bedInOverworld(pos.value)) ==>
        penalty == PenaltyDue(old(lastDeathTimes), player.uuid, now)
        && lastDeathTimes == old(lastDeathTimes)[player.uuid := stamp]
    {
      penalty := false;
      if forced {
        return;
      }
      if abilities == null {
        return;
      }
      var dim := dimension;
      if pos.None? {
        dim := OVERWORLD;
      }
      abilities.SetRespawnDimension(dim);
      abilities.SetRespawnPos(pos);
      abilities.SetRespawnAngle(angle);
      abilities.SetRespawnForced(forced);
      if pos.Some? && bedInOverworld(pos.value) {
        return;
      }
      penalty := CheckRecentRespawn(player.uuid, now, stamp);
    }

    /**
     * The player died. Its current respawn point is copied into the capability; then,
     * unless it died near its respawn block or in a dimension without working beds, a
     * temporary forced respawn point is searched for and set.
     */
    method OnPlayerDeath(player: ServerPlayer, abilities: Abilities.RespawnAbilities?,
                         ctx: DeathContext, cfg: Config, world: World, rng: nat -> Draw)
      returns (outcome: DeathOutcome)
      modifies player, abilities
      ensures outcome == DeathDecision(abilities != null, old(player.Respawn()), ctx, cfg, world, rng)
      ensures abilities != null ==>
        abilities.Snapshot() == old(abilities.Snapshot()).(
          dimension := Some(old(player.respawnDimension)), pos := old(player.respawnPosition),
          angle := old(player.respawnAngle), forced := old(player.respawnForced))
      ensures player.Respawn() ==
        if outcome.TemporaryPointSet? then RespawnPoint(ctx.level, Some(outcome.pos), 0.0, true)
        else old(player.Respawn())
    {
      if abilities == null {
        return NoCapability;
      }
      abilities.SetRespawnDimension(player.respawnDimension);
      abilities.SetRespawnPos(player.respawnPosition);
      abilities.SetRespawnAngle(player.respawnAngle);
      abilities.SetRespawnForced(player.respawnForced);

      if player.respawnPosition.Some? && ctx.respawnBlockSpawn.Some? {
        if player.respawnDimension == ctx.level && Manhattan(ctx.position, ctx.respawnBlockSpawn.value) <= cfg.respawnBlockRange {
          return NearRespawnBlock;
        }
      }

      if ctx.hasCeiling || !ctx.bedWorks {
        return UnsupportedDimension;
      }

      var found := FindValidRespawnLocation(ctx.position, cfg, world, rng);
      if found.Err? {
        return SearchThrew(found.error);
      }
      if found.value.None? {
        return NoLocationFound;
      }
      player.SetRespawnPosition(ctx.level, found.value.value, 0.0, true);
      outcome := TemporaryPointSet(found.value.value);
    }
  }
}
