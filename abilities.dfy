/**
 * The respawn capability added to each player's abilities record: the player's
 * own respawn point (dimension, position, angle, forced flag) and the time of
 * its last death, saved under `abilities` -> `better_respawn` in the player's
 * save tag and read back from there.
 */
module Abilities {
  import opened Wrappers
  import opened JavaInt
  import opened Game
  import opened Nbt

  const ABILITIES: string := "abilities"
  const BETTER_RESPAWN: string := "better_respawn"
  const RESPAWN_DIMENSION: string := "respawn_dimension"
  const RESPAWN_LEVEL: string := "respawn_level"
  const RESPAWN_POS: string := "respawn_pos"
  const RESPAWN_ANGLE: string := "respawn_angle"
  const RESPAWN_FORCED: string := "respawn_forced"
  const LAST_DEATH_TIME: string := "last_death_time"

  /** The five fields of the capability; `None` stands for a null reference. */
  datatype AbilitiesState = AbilitiesState(
    dimension: Option<Dimension>,
    pos: Option<BlockPos>,
    angle: real,
    forced: bool,
    lastDeathTime: Int64)

  /** What loading gives for a player whose save carries no respawn data. */
  const DEFAULTS: AbilitiesState := AbilitiesState(Some(OVERWORLD), None, 0.0, false, 0)

  // ---------------------------------------------------------------- saving

  function PosTag(p: BlockPos): Tag {
    Compound(map["x" := IntTag(p.x), "y" := IntTag(p.y), "z" := IntTag(p.z)])
  }

  /** The `better_respawn` compound built from the fields. */
  function BetterRespawnTag(s: AbilitiesState): Entries {
    var withDimension: Entries :=
      if s.dimension.Some? then map[RESPAWN_DIMENSION := StringTag(Location(s.dimension.value))] else map[];
    var withPos := if s.pos.Some? then withDimension[RESPAWN_POS := PosTag(s.pos.value)] else withDimension;
    PutBoolean(withPos[RESPAWN_ANGLE := FloatTag(s.angle)], RESPAWN_FORCED, s.forced)
      [LAST_DEATH_TIME := LongTag(s.lastDeathTime)]
  }

  /**
   * The save tag after the hook: `better_respawn` replaces any earlier one inside the
   * `abilities` compound. The hook fetches that compound with getCompound, which hands
   * back a detached empty compound when there is none, so without one nothing is saved.
   */
  function Save(s: AbilitiesState, root: Entries): Entries {
    if ContainsOfType(root, ABILITIES, TAG_COMPOUND) then
      root[ABILITIES := Compound(GetCompound(root, ABILITIES)[BETTER_RESPAWN := Compound(BetterRespawnTag(s))])]
    else
      root
  }

  /** The `better_respawn` compound inside a save tag, empty when there is none. */
  function SavedRespawnData(root: Entries): Entries {
    GetCompound(GetCompound(root, ABILITIES), BETTER_RESPAWN)
  }

  // --------------------------------------------------------------- loading

  function PosFrom(c: Entries): BlockPos {
    BlockPos(GetInt(c, "x"), GetInt(c, "y"), GetInt(c, "z"))
  }

  /**
   * The fields read from a `better_respawn` compound, each key falling back to its
   * own default. The dimension is present when `respawn_dimension` is, and its text
   * is read from `levelKey`.
   */
  function FieldsFrom(br: Entries, levelKey: string): AbilitiesState {
    AbilitiesState(
      Some(if RESPAWN_DIMENSION in br then ParseLocation(GetString(br, levelKey)) else OVERWORLD),
      if RESPAWN_POS in br then Some(PosFrom(GetCompound(br, RESPAWN_POS))) else None,
      if RESPAWN_ANGLE in br then GetFloat(br, RESPAWN_ANGLE) else 0.0,
      if RESPAWN_FORCED in br then GetBoolean(br, RESPAWN_FORCED) else false,
      if LAST_DEATH_TIME in br then GetLong(br, LAST_DEATH_TIME) else 0)
  }

  /** The fields after the load hook ran on `root`, starting from `s`. */
  function LoadReading(s: AbilitiesState, root: Entries, levelKey: string): AbilitiesState {
    if !ContainsOfType(root, ABILITIES, TAG_COMPOUND) then s
    else
      var abilities := GetCompound(root, ABILITIES);
      if BETTER_RESPAWN in abilities then FieldsFrom(GetCompound(abilities, BETTER_RESPAWN), levelKey)
      else DEFAULTS
  }

  /** The load hook as written: the dimension text is read from `respawn_level`. */
  function LoadAsWritten(s: AbilitiesState, root: Entries): AbilitiesState {
    LoadReading(s, root, RESPAWN_LEVEL)
  }

  /** The load hook as intended: the dimension text is read from `respawn_dimension`. */
  function Load(s: AbilitiesState, root: Entries): AbilitiesState {
    LoadReading(s, root, RESPAWN_DIMENSION)
  }

  // ------------------------------------------------------ save properties

  /** Angle, forced flag and last-death time are always written, with their values. */
  lemma SaveWritesFixedKeys(s: AbilitiesState, root: Entries)
    requires ContainsOfType(root, ABILITIES, TAG_COMPOUND)
    ensures var br := SavedRespawnData(Save(s, root));
      && RESPAWN_ANGLE in br && br[RESPAWN_ANGLE] == FloatTag(s.angle)
      && RESPAWN_FORCED in br && br[RESPAWN_FORCED] == ByteTag(if s.forced then 1 else 0)
      && LAST_DEATH_TIME in br && br[LAST_DEATH_TIME] == LongTag(s.lastDeathTime)
  {
  }

  /**
   * The dimension is written exactly when it is non-null, the position exactly when
   * it is non-null (as x, y, z), and nothing else is written; `respawn_level` never is.
   */
  lemma SaveWritesOptionalKeys(s: AbilitiesState, root: Entries)
    requires ContainsOfType(root, ABILITIES, TAG_COMPOUND)
    ensures var br := SavedRespawnData(Save(s, root));
      && (RESPAWN_DIMENSION in br <==> s.dimension.Some?)
      && (s.dimension.Some? ==> br[RESPAWN_DIMENSION] == StringTag(Location(s.dimension.value)))
      && (RESPAWN_POS in br <==> s.pos.Some?)
      && (s.pos.Some? ==> var pos := GetCompound(br, RESPAWN_POS);
                            pos.Keys == {"x", "y", "z"} && PosFrom(pos) == s.pos.value)
      && br.Keys <= {RESPAWN_DIMENSION, RESPAWN_POS, RESPAWN_ANGLE, RESPAWN_FORCED, LAST_DEATH_TIME}
      && RESPAWN_LEVEL !in br
  {
  }

  /** Without an `abilities` compound in the tag, saving leaves the tag as it was. */
  lemma SaveWithoutAbilitiesIsLost(s: AbilitiesState, root: Entries)
    requires !ContainsOfType(root, ABILITIES, TAG_COMPOUND)
    ensures Save(s, root) == root
  {
  }

  /** Saving touches only `abilities.better_respawn`. */
  lemma SaveKeepsOtherData(s: AbilitiesState, root: Entries)
    ensures var saved := Save(s, root);
      && saved.Keys == root.Keys
      && (forall k :: k in root && k != ABILITIES ==> saved[k] == root[k])
      && (forall k :: k in GetCompound(root, ABILITIES) && k != BETTER_RESPAWN ==>
            k in GetCompound(saved, ABILITIES) && GetCompound(saved, ABILITIES)[k] == GetCompound(root, ABILITIES)[k])
  {
  }

  /** Saving twice gives what saving once gave. */
  lemma SaveIdempotent(s: AbilitiesState, root: Entries)
    ensures Save(s, Save(s, root)) == Save(s, root)
  {
    if ContainsOfType(root, ABILITIES, TAG_COMPOUND) {
      var br := Compound(BetterRespawnTag(s));
      var abilities := GetCompound(root, ABILITIES)[BETTER_RESPAWN := br];
      assert GetCompound(Save(s, root), ABILITIES) == abilities;
      assert abilities[BETTER_RESPAWN := br] == abilities;
    }
  }

  // ------------------------------------------------------ load properties

  /** Without an `abilities` compound, loading leaves every field as it was. */
  lemma LoadWithoutAbilitiesKeepsFields(s: AbilitiesState, root: Entries, levelKey: string)
    requires !ContainsOfType(root, ABILITIES, TAG_COMPOUND)
    ensures LoadReading(s, root, levelKey) == s
  {
  }

  /** With `abilities` but no `better_respawn`, loading resets every field to its default. */
  lemma LoadWithoutRespawnDataResets(s: AbilitiesState, root: Entries, levelKey: string)
    requires ContainsOfType(root, ABILITIES, TAG_COMPOUND)
    requires BETTER_RESPAWN !in GetCompound(root, ABILITIES)
    ensures LoadReading(s, root, levelKey) == DEFAULTS
  {
  }

  /** Compounds `a` and `b` agree on `key`: both lack it or both hold the same tag. */
  predicate SameAt(a: Entries, b: Entries, key: string) {
    (key in a <==> key in b) && (key in a ==> a[key] == b[key])
  }

  /**
   * Each field is read from its own key only and falls back to its own default when
   * that key is missing, whatever the other keys hold.
   */
  lemma FieldsReadIndependently(a: Entries, b: Entries, levelKey: string)
    ensures var fa, fb := FieldsFrom(a, levelKey), FieldsFrom(b, levelKey);
      && (SameAt(a, b, RESPAWN_DIMENSION) && SameAt(a, b, levelKey) ==> fa.dimension == fb.dimension)
      && (SameAt(a, b, RESPAWN_POS) ==> fa.pos == fb.pos)
      && (SameAt(a, b, RESPAWN_ANGLE) ==> fa.angle == fb.angle)
      && (SameAt(a, b, RESPAWN_FORCED) ==> fa.forced == fb.forced)
      && (SameAt(a, b, LAST_DEATH_TIME) ==> fa.lastDeathTime == fb.lastDeathTime)
      && (RESPAWN_DIMENSION !in a ==> fa.dimension == DEFAULTS.dimension)
      && (RESPAWN_POS !in a ==> fa.pos == DEFAULTS.pos)
      && (RESPAWN_ANGLE !in a ==> fa.angle == DEFAULTS.angle)
      && (RESPAWN_FORCED !in a ==> fa.forced == DEFAULTS.forced)
      && (LAST_DEATH_TIME !in a ==> fa.lastDeathTime == DEFAULTS.lastDeathTime)
  {
  }

  // ------------------------------------------------------------ round trip

  /** The dimension text a save-then-load as written yields: the saved text is never read. */
  const UNSET_LOCATION: Dimension := ParseLocation("")

  /**
   * Save then load as written restores position, angle, forced flag and last-death
   * time, but the dimension comes back as the parse of the empty string whenever one
   * was saved, and as the overworld when none was.
   */
  lemma RoundTripAsWritten(s0: AbilitiesState, s: AbilitiesState, root: Entries)
    requires ContainsOfType(root, ABILITIES, TAG_COMPOUND)
    ensures var t := LoadAsWritten(s0, Save(s, root));
      && t.pos == s.pos && t.angle == s.angle && t.forced == s.forced
      && t.lastDeathTime == s.lastDeathTime
      && t.dimension == Some(if s.dimension.Some? then UNSET_LOCATION else OVERWORLD)
  {
    var br := SavedRespawnData(Save(s, root));
    assert GetString(br, RESPAWN_LEVEL) == "";
  }

  /** A player whose respawn point is in the overworld loads back a different dimension. */
  lemma DimensionLostAsWritten(s0: AbilitiesState, s: AbilitiesState, root: Entries)
    requires ContainsOfType(root, ABILITIES, TAG_COMPOUND)
    requires s.dimension == Some(OVERWORLD)
    ensures LoadAsWritten(s0, Save(s, root)).dimension != s.dimension
    ensures LoadAsWritten(s0, Save(s, root)).dimension == Some(Dimension(DEFAULT_NAMESPACE, ""))
  {
    RoundTripAsWritten(s0, s, root);
    assert FirstIndexOf("", ':') == None;
  }

  /**
   * With the dimension read from the key it was written under, save then load restores
   * every field; a null dimension comes back as the overworld.
   */
  lemma RoundTrip(s0: AbilitiesState, s: AbilitiesState, root: Entries)
    requires ContainsOfType(root, ABILITIES, TAG_COMPOUND)
    requires s.dimension.Some? ==> WellFormed(s.dimension.value)
    ensures Load(s0, Save(s, root)) == s.(dimension := Some(s.dimension.GetOr(OVERWORLD)))
  {
    if s.dimension.Some? {
      ParseLocationInverse(s.dimension.value);
    }
  }

  // ------------------------------------------------- the capability record

  class RespawnAbilities {
    var respawnDimension: Option<Dimension>
    var respawnPos: Option<BlockPos>
    var respawnAngle: real
    var respawnForced: bool
    var lastDeathTime: Int64

    function Snapshot(): AbilitiesState
      reads this
    {
      AbilitiesState(respawnDimension, respawnPos, respawnAngle, respawnForced, lastDeathTime)
    }

    /** Fresh fields hold Java's defaults: null, null, 0, false, 0. */
    constructor ()
      ensures Snapshot() == AbilitiesState(None, None, 0.0, false, 0)
    {
      respawnDimension := None;
      respawnPos := None;
      respawnAngle := 0.0;
      respawnForced := false;
      lastDeathTime := 0;
    }

    function GetRespawnDimension(): Option<Dimension> reads this { respawnDimension }
    function GetRespawnPos(): Option<BlockPos> reads this { respawnPos }
    function GetRespawnAngle(): real reads this { respawnAngle }
    function GetRespawnForced(): bool reads this { respawnForced }
    function GetLastDeathTime(): Int64 reads this { lastDeathTime }

    method SetRespawnDimension(dimension: Dimension)
      modifies this
      ensures GetRespawnDimension() == Some(dimension)
      ensures Snapshot() == old(Snapshot()).(dimension := Some(dimension))
    {
      respawnDimension := Some(dimension);
    }

    method SetRespawnPos(pos: Option<BlockPos>)
      modifies this
      ensures GetRespawnPos() == pos
      ensures Snapshot() == old(Snapshot()).(pos := pos)
    {
      respawnPos := pos;
    }

    method SetRespawnAngle(angle: real)
      modifies this
      ensures GetRespawnAngle() == angle
      ensures Snapshot() == old(Snapshot()).(angle := angle)
    {
      respawnAngle := angle;
    }

    method SetRespawnForced(forced: bool)
      modifies this
      ensures GetRespawnForced() == forced
      ensures Snapshot() == old(Snapshot()).(forced := forced)
    {
      respawnForced := forced;
    }

    method SetLastDeathTime(time: Int64)
      modifies this
      ensures GetLastDeathTime() == time
      ensures Snapshot() == old(Snapshot()).(lastDeathTime := time)
    {
      lastDeathTime := time;
    }

    /** The save hook: puts the `better_respawn` compound into the caller's tag. */
    method AddSaveData(compoundTag: CompoundTag)
      modifies compoundTag
      ensures compoundTag.tags == Save(Snapshot(), old(compoundTag.tags))
    {
      var abilities := GetCompound(compoundTag.tags, ABILITIES);
      var betterRespawn: Entries := map[];
      if respawnDimension.Some? {
        betterRespawn := betterRespawn[RESPAWN_DIMENSION := StringTag(Location(respawnDimension.value))];
      }
      if respawnPos.Some? {
        var pos: Entries := map[];
        pos := pos["x" := IntTag(respawnPos.value.x)];
        pos := pos["y" := IntTag(respawnPos.value.y)];
        pos := pos["z" := IntTag(respawnPos.value.z)];
        betterRespawn := betterRespawn[RESPAWN_POS := Compound(pos)];
      }
      betterRespawn := betterRespawn[RESPAWN_ANGLE := FloatTag(respawnAngle)];
      betterRespawn := PutBoolean(betterRespawn, RESPAWN_FORCED, respawnForced);
      betterRespawn := betterRespawn[LAST_DEATH_TIME := LongTag(lastDeathTime)];
      abilities := abilities[BETTER_RESPAWN := Compound(betterRespawn)];
      // Only a compound already stored under "abilities" is shared with the caller's tag.
      if ContainsOfType(compoundTag.tags, ABILITIES, TAG_COMPOUND) {
        compoundTag.tags := compoundTag.tags[ABILITIES := Compound(abilities)];
      }
    }

    /** The load hook, reading the dimension from the key it is saved under. */
    method LoadSaveData(compoundTag: CompoundTag)
      modifies this
      ensures Snapshot() == Load(old(Snapshot()), compoundTag.tags)
    {
      if !ContainsOfType(compoundTag.tags, ABILITIES, TAG_COMPOUND) {
        return;
      }
      var abilities := GetCompound(compoundTag.tags, ABILITIES);
      if BETTER_RESPAWN in abilities {
        var betterRespawn := GetCompound(abilities, BETTER_RESPAWN);
        if RESPAWN_DIMENSION in betterRespawn {
          respawnDimension := Some(ParseLocation(GetString(betterRespawn, RESPAWN_DIMENSION)));
        } else {
          respawnDimension := Some(OVERWORLD);
        }
        if RESPAWN_POS in betterRespawn {
          var pos := GetCompound(betterRespawn, RESPAWN_POS);
          respawnPos := Some(BlockPos(GetInt(pos, "x"), GetInt(pos, "y"), GetInt(pos, "z")));
        } else {
          respawnPos := None;
        }
        if RESPAWN_ANGLE in betterRespawn {
          respawnAngle := GetFloat(betterRespawn, RESPAWN_ANGLE);
        } else {
          respawnAngle := 0.0;
        }
        if RESPAWN_FORCED in betterRespawn {
          respawnForced := GetBoolean(betterRespawn, RESPAWN_FORCED);
        } else {
          respawnForced := false;
        }
        if LAST_DEATH_TIME in betterRespawn {
          lastDeathTime := GetLong(betterRespawn, LAST_DEATH_TIME);
        } else {
          lastDeathTime := 0;
        }
      } else {
        respawnDimension := Some(OVERWORLD);
        respawnPos := None;
        respawnAngle := 0.0;
        respawnForced := false;
        lastDeathTime := 0;
      }
    }
  }
}
