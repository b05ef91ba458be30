/** Best-effort persistence of the collection in one storage slot
    (`saveFeedbacks`, `loadFeedbacks`) and the deep-copy export. The slot's
    content is `None` when nothing is stored under the key. */
module Persistence {
  import opened Options
  import opened Records

  /** `JSON.stringify` and `JSON.parse` restricted to feedback collections;
      `parse` is `None` where `JSON.parse` throws. */
  datatype Codec = Codec(
    serialise: seq<Feedback> -> string,
    parse: string -> Option<seq<Feedback>>)

  /** What JSON guarantees for well-formed records: parsing the text of a
      collection gives it back, and that text is never empty (an array
      serialises to at least `[]`). */
  ghost predicate Faithful(c: Codec) {
    forall fbs :: c.parse(c.serialise(fbs)) == Some(fbs) && c.serialise(fbs) != ""
  }

  /** `saveFeedbacks`: write the serialised collection to the slot. A write that
      throws (storage full or disabled) is swallowed and the slot keeps its
      old content. */
  function Write(slot: Option<string>, c: Codec, fbs: seq<Feedback>, writeOk: bool): (r: Option<string>)
    ensures r.Some? || slot.None?
    ensures r != slot ==> writeOk && r == Some(c.serialise(fbs))
    ensures writeOk ==> r == Some(c.serialise(fbs))
  {
    if writeOk then Some(c.serialise(fbs)) else slot
  }

  /** `loadFeedbacks`: the collection after reading the slot into it. The
      collection is kept when reading throws (`readOk` false), when nothing or an
      empty string is stored, or when the text does not parse; otherwise it is
      replaced by the parsed value. */
  function Load(fbs: seq<Feedback>, slot: Option<string>, readOk: bool, c: Codec): (r: seq<Feedback>)
    ensures !readOk || slot.None? || slot == Some("") ==> r == fbs
    ensures readOk && slot.Some? && c.parse(slot.value).None? ==> r == fbs
    ensures LoadReplaces(slot, readOk, c) ==> r == c.parse(slot.value).value
  {
    if readOk && slot.Some? && slot.value != "" then
      match c.parse(slot.value)
      case Some(parsed) => parsed
      case None => fbs
    else
      fbs
  }

  /** Whether `Load` replaces the collection. */
  predicate LoadReplaces(slot: Option<string>, readOk: bool, c: Codec) {
    readOk && slot.Some? && slot.value != "" && c.parse(slot.value).Some?
  }

  /** A successful write followed by a successful read restores the written
      collection, whatever the reader held before. */
  lemma WriteThenLoad(c: Codec, slot: Option<string>, fbs: seq<Feedback>, before: seq<Feedback>)
    requires Faithful(c)
    ensures LoadReplaces(Write(slot, c, fbs, true), true, c)
    ensures Load(before, Write(slot, c, fbs, true), true, c) == fbs
  {
    assert c.parse(c.serialise(fbs)) == Some(fbs) && c.serialise(fbs) != "";
  }

  /** `exportFeedbacks`: a deep copy made by a serialise/parse round trip. */
  function Export(fbs: seq<Feedback>, c: Codec): (r: Option<seq<Feedback>>)
    ensures Faithful(c) ==> r == Some(fbs)
  {
    c.parse(c.serialise(fbs))
  }
}
