/**
 * The host's binary tag tree (NBT): a compound tag maps names to tags, and the
 * typed getters fall back to a default when a key is missing or holds a tag of
 * another type.
 */
module Nbt {
  import opened JavaInt

  datatype Tag =
    | ByteTag(b: Int8)
    | IntTag(i: Int32)
    | LongTag(l: Int64)
    | FloatTag(f: real)
    | StringTag(s: string)
    | Compound(tags: map<string, Tag>)

  type Entries = map<string, Tag>

  /** The host's numeric tag type ids. */
  function TypeId(t: Tag): nat {
    match t
    case ByteTag(_) => 1
    case IntTag(_) => 3
    case LongTag(_) => 4
    case FloatTag(_) => 5
    case StringTag(_) => 8
    case Compound(_) => 10
  }

  const TAG_COMPOUND: nat := 10

  /** CompoundTag.contains(key, type). */
  predicate ContainsOfType(c: Entries, key: string, id: nat) {
    key in c && TypeId(c[key]) == id
  }

  /** CompoundTag.getCompound: a fresh, empty compound unless `key` holds a compound. */
  function GetCompound(c: Entries, key: string): Entries {
    if ContainsOfType(c, key, TAG_COMPOUND) then c[key].tags else map[]
  }

  function GetByte(c: Entries, key: string): Int8 {
    if key in c && c[key].ByteTag? then c[key].b else 0
  }

  function GetBoolean(c: Entries, key: string): bool {
    GetByte(c, key) != 0
  }

  function GetInt(c: Entries, key: string): Int32 {
    if key in c && c[key].IntTag? then c[key].i else 0
  }

  function GetLong(c: Entries, key: string): Int64 {
    if key in c && c[key].LongTag? then c[key].l else 0
  }

  function GetFloat(c: Entries, key: string): real {
    if key in c && c[key].FloatTag? then c[key].f else 0.0
  }

  function GetString(c: Entries, key: string): string {
    if key in c && c[key].StringTag? then c[key].s else ""
  }

  function PutBoolean(c: Entries, key: string, v: bool): Entries {
    c[key := ByteTag(if v then 1 else 0)]
  }

  /** A compound tag object; the host hands it to save and load hooks and they change it in place. */
  class CompoundTag {
    var tags: Entries

    constructor (tags: Entries)
      ensures this.tags == tags
    {
      this.tags := tags;
    }
  }
}
