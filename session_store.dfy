/** The session the page keeps in local storage under the key "cr-spy-session". */
module SessionStore {
  import opened Wrappers
  import opened Domain

  /** The persisted triple. */
  datatype Session = Session(playerId: Option<string>, room: Option<RoomPublic>, isHost: bool)

  /** The state a fresh page starts in, and the one every failed restore leaves. */
  const EMPTY := Session(None, None, false)

  /** What the stored text parses to. `Unparsable`: `JSON.parse` throws (this covers the empty
      string too). `NullValue`: the text is `null`, so reading a field of it throws. Otherwise
      the fields the page reads, each possibly missing or `null`. */
  datatype Parsed =
    | Unparsable
    | NullValue
    | Record(playerId: Option<string>, room: Option<RoomPublic>, isHost: JsonField)

  /** `JSON.stringify({ playerId, room, isHost })`, given as the value it parses back to. */
  function Save(s: Session): (p: Parsed)
    ensures p.Record? && p.isHost.Bool?
    ensures p.playerId == s.playerId && p.room == s.room && p.isHost.b == s.isHost
  {
    Record(s.playerId, s.room, Bool(s.isHost))
  }

  /** The restore effect: `slot` is the stored item (`None` when there is none). Anything but
      a parsed record leaves the defaults; a record gives `playerId ?? null`, `room ?? null`
      and `!!isHost`. */
  function Restore(slot: Option<Parsed>): (s: Session)
    ensures !(slot.Some? && slot.value.Record?) ==> s == EMPTY
    ensures slot.Some? && slot.value.Record? ==>
      s.playerId == slot.value.playerId && s.room == slot.value.room &&
      s.isHost == Truthy(slot.value.isHost)
  {
    match slot
    case None => EMPTY
    case Some(Unparsable) => EMPTY
    case Some(NullValue) => EMPTY
    case Some(Record(pid, room, host)) => Session(pid, room, Truthy(host))
  }

  /** Saving and then restoring gives the same triple back. */
  lemma RestoreSave(s: Session)
    ensures Restore(Some(Save(s))) == s
  {
  }

  /** A restored session claims to be host only when the stored record said so. */
  lemma RestoredHostNeedsRecord(slot: Option<Parsed>)
    requires Restore(slot).isHost
    ensures slot.Some? && slot.value.Record? && Truthy(slot.value.isHost)
  {
  }
}
