/** The values the page receives from the room server: rooms, players and the viewer's role. */
module Domain {
  import opened Wrappers

  datatype Status = Waiting | InRound | Ended

  datatype PublicPlayer = PublicPlayer(id: string, name: string, isHost: bool)

  /** A room as the server shows it to everybody; `revealedCard` (the source's `reveal`) and `spyCount` may be absent. */
  datatype RoomPublic = RoomPublic(
    code: string,
    status: Status,
    players: seq<PublicPlayer>,
    revealedCard: Option<string>,
    spyCount: Option<int>)

  datatype Role = Spy | Agent

  /** What the server tells this player about their own part in the round (`YouInfo`). */
  datatype You = You(role: Role, card: Option<string>)

  /** One field of a parsed JSON object, as JavaScript reads it; `Absent` is `undefined`. */
  datatype JsonField = Absent | Null | Bool(b: bool) | Number(x: real) | Str(s: string) | Composite

  /** JavaScript's `!!v` on a JSON value: `undefined`, `null`, `false`, `0` and `""` are false. */
  function Truthy(v: JsonField): (t: bool)
    ensures v.Absent? || v.Null? ==> !t
    ensures v.Bool? ==> t == v.b
    ensures v.Composite? ==> t
  {
    match v
    case Absent => false
    case Null => false
    case Bool(b) => b
    case Number(x) => x != 0.0
    case Str(s) => s != ""
    case Composite => true
  }

  /** JavaScript's truthiness of a `string | null`: the empty string counts as missing. */
  predicate IsPresent(s: Option<string>) {
    s.Some? && s.value != ""
  }

  /** A player id of type `string | null` is present exactly when JavaScript finds it truthy:
      `null` and the empty string are falsy, every other string is truthy. */
  lemma IsPresentIsTruthy(s: Option<string>)
    ensures IsPresent(s) == Truthy(if s.None? then Null else Str(s.value))
  {
  }
}
