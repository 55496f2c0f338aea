/** The browser's key/value medium as the repository uses it: each key either
    is absent or holds one whole serialized collection. Serialization itself
    is not modelled; a present key holds the collection directly. */
module RecordStore {
  import opened Wrappers

  /** One key of the medium: `None` when the key is absent. */
  type Slot<T> = Option<seq<T>>

  /** Reading a collection: an absent key reads as the empty collection. */
  function Read<T>(slot: Slot<T>): (r: seq<T>)
    ensures slot.None? ==> r == []
    ensures slot.Some? ==> r == slot.value
  {
    match slot
    case None => []
    case Some(s) => s
  }

  /** Writing replaces the whole collection. */
  function Write<T>(s: seq<T>): (slot: Slot<T>)
    ensures Read(slot) == s
  {
    Some(s)
  }

  /** Removing the key. */
  function Remove<T>(): (slot: Slot<T>)
    ensures Read(slot) == []
  {
    None
  }
}
