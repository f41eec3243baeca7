/**
 * The host game's types that the respawn logic reads and writes: block and chunk
 * positions, dimension keys (a ResourceLocation such as "minecraft:overworld") and
 * the respawn settings the host keeps on each player.
 */
module Game {
  import opened Wrappers
  import opened JavaInt

  datatype BlockPos = BlockPos(x: Int32, y: Int32, z: Int32)

  /** A chunk is a 16x16 column of blocks. */
  datatype ChunkPos = ChunkPos(x: int, z: int)

  /** The chunk that holds block column (x, z): the host shifts each coordinate right by 4. */
  function ChunkAt(x: Int32, z: Int32): (c: ChunkPos)
    ensures 16 * c.x <= x < 16 * c.x + 16
    ensures 16 * c.z <= z < 16 * c.z + 16
  {
    ChunkPos(x / 16, z / 16)
  }

  datatype Uuid = Uuid(mostSignificantBits: Int64, leastSignificantBits: Int64)

  /** A dimension key, identified by its ResourceLocation `namespace:path`. */
  datatype Dimension = Dimension(namespace: string, path: string)

  const DEFAULT_NAMESPACE: string := "minecraft"
  const OVERWORLD: Dimension := Dimension(DEFAULT_NAMESPACE, "overworld")

  /** A key whose text form parses back to it: a non-empty namespace without a separator. */
  predicate WellFormed(d: Dimension) {
    d.namespace != [] && ':' !in d.namespace
  }

  /** ResourceLocation.toString. */
  function Location(d: Dimension): string {
    d.namespace + ":" + d.path
  }

  /** The position of the first `c` in `s`, if any. */
  function FirstIndexOf(s: string, c: char): (r: Option<nat>)
    ensures r.Some? ==> r.value < |s| && s[r.value] == c && c !in s[..r.value]
    ensures r.None? ==> c !in s
  {
    if s == [] then None
    else if s[0] == c then Some(0)
    else match FirstIndexOf(s[1..], c)
      case None => None
      case Some(i) => Some(i + 1)
  }

  /**
   * ResourceLocation.parse: split at the first ':'; with no separator, or with
   * nothing before it, the namespace is "minecraft".
   */
  function ParseLocation(s: string): Dimension {
    match FirstIndexOf(s, ':')
    case None => Dimension(DEFAULT_NAMESPACE, s)
    case Some(i) => Dimension(if i == 0 then DEFAULT_NAMESPACE else s[..i], s[i + 1..])
  }

  /** Parsing the text form of a well-formed key gives the key back. */
  lemma ParseLocationInverse(d: Dimension)
    requires WellFormed(d)
    ensures ParseLocation(Location(d)) == d
  {
    var s := Location(d);
    var n := |d.namespace|;
    assert s[n] == ':';
    assert forall k :: 0 <= k < n ==> s[k] == d.namespace[k] != ':';
    var r := FirstIndexOf(s, ':');
    assert r.Some? by {
      assert s[n] in s;
    }
    var i := r.value;
    assert forall k :: 0 <= k < i ==> s[..i][k] == s[k] != ':';
    assert i == n;
    assert s[..n] == d.namespace;
    assert s[n + 1..] == d.path;
  }

  function Abs(v: int): nat {
    if v < 0 then -v else v
  }

  /** Vec3i.distManhattan, on exact integers. */
  function Manhattan(a: BlockPos, b: BlockPos): nat {
    Abs(a.x - b.x) + Abs(a.y - b.y) + Abs(a.z - b.z)
  }

  /** What the host stores on a player about where it respawns. */
  datatype RespawnPoint = RespawnPoint(dimension: Dimension, pos: Option<BlockPos>, angle: real, forced: bool)

  /** The respawn settings of a host player; only the part the respawn logic touches. */
  class ServerPlayer {
    const uuid: Uuid
    var respawnDimension: Dimension
    var respawnPosition: Option<BlockPos>
    var respawnAngle: real
    var respawnForced: bool

    function Respawn(): RespawnPoint
      reads this
    {
      RespawnPoint(respawnDimension, respawnPosition, respawnAngle, respawnForced)
    }

    /** A new player respawns at the world spawn in the overworld. */
    constructor (uuid: Uuid)
      ensures this.uuid == uuid
      ensures Respawn() == RespawnPoint(OVERWORLD, None, 0.0, false)
    {
      this.uuid := uuid;
      respawnDimension := OVERWORLD;
      respawnPosition := None;
      respawnAngle := 0.0;
      respawnForced := false;
    }

    /** ServerPlayer.setRespawnPosition with a non-null position. */
    method SetRespawnPosition(dimension: Dimension, pos: BlockPos, angle: real, forced: bool)
      modifies this
      ensures Respawn() == RespawnPoint(dimension, Some(pos), angle, forced)
    {
      respawnDimension := dimension;
      respawnPosition := Some(pos);
      respawnAngle := angle;
      respawnForced := forced;
    }
  }
}
