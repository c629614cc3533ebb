/** What the room section of the page shows, as a function of the local state. */
module View {
  import opened Wrappers
  import opened Domain

  /** Shown in place of an agent's card when the server sent none. */
  const HIDDEN_CARD := "(секрет)"
  /** Shown in place of the revealed card when the room has none. */
  const HIDDEN_REVEAL := "секрет"

  /** The panel under the player list. `hostControl` says whether the host's button
      (end round, new round) is shown. */
  datatype Panel =
    | HostLobby(spyMin: int, spyMax: int)
    | GuestLobby
    | SpyBriefing(hostControl: bool)
    | CardPanel(card: string, hostControl: bool)
    | RevealPanel(card: string, hostControl: bool)

  datatype Screen =
    | EntryForm
    | RoomScreen(code: string, status: Status, panel: Panel)

  /** `you?.role`: undefined when there is no role yet. */
  function OptionalRole(you: Option<You>): (r: Option<Role>)
    ensures r.Some? <==> you.Some?
    ensures r.Some? ==> r.value == you.value.role
  {
    if you.Some? then Some(you.value.role) else None
  }

  /** `you?.role === "spy"`. */
  function IsSpy(you: Option<You>): (spy: bool)
    ensures spy <==> you.Some? && you.value.role == Spy
    ensures you.None? ==> !spy
  {
    OptionalRole(you) == Some(Spy)
  }

  /** `Math.max(1, players.length - 1)`, the upper bound of the spy-count input. */
  function SpyCountMax(playerCount: nat): (m: int)
    ensures m >= 1 && m >= playerCount - 1
    ensures m == 1 || m == playerCount - 1
    ensures playerCount >= 2 ==> m < playerCount
  {
    if playerCount - 1 > 1 then playerCount - 1 else 1
  }

  /** `you?.card ?? "(секрет)"`. */
  function CardText(you: Option<You>): (t: string)
    ensures you.Some? && you.value.card.Some? ==> t == you.value.card.value
    ensures you.None? || you.value.card.None? ==> t == HIDDEN_CARD
  {
    if you.Some? then you.value.card.OrElse(HIDDEN_CARD) else HIDDEN_CARD
  }

  /** `room.reveal ?? "секрет"`, with the source's `reveal` field named `revealedCard`. */
  function RevealText(room: RoomPublic): (t: string)
    ensures room.revealedCard.Some? ==> t == room.revealedCard.value
    ensures room.revealedCard.None? ==> t == HIDDEN_REVEAL
  {
    room.revealedCard.OrElse(HIDDEN_REVEAL)
  }

  /** The panel for a room: chosen by the status alone, then by the host flag (waiting) or
      the role (in a round). */
  function RoomPanel(room: RoomPublic, isHost: bool, you: Option<You>): (p: Panel)
    ensures room.status == Waiting ==>
      p == if isHost then HostLobby(1, SpyCountMax(|room.players|)) else GuestLobby
    ensures room.status == InRound ==>
      && (p.SpyBriefing? <==> IsSpy(you))
      && (p.CardPanel? <==> !IsSpy(you))
      && (p.SpyBriefing? || p.CardPanel?)
      && p.hostControl == isHost
    ensures room.status == InRound && !IsSpy(you) ==> p.card == CardText(you)
    ensures room.status == Ended ==> p == RevealPanel(RevealText(room), isHost)
  {
    match room.status
    case Waiting => if isHost then HostLobby(1, SpyCountMax(|room.players|)) else GuestLobby
    case InRound => if IsSpy(you) then SpyBriefing(isHost) else CardPanel(CardText(you), isHost)
    case Ended => RevealPanel(RevealText(room), isHost)
  }

  /** The whole page: the entry form without a room, the room section with one. */
  function Render(room: Option<RoomPublic>, isHost: bool, you: Option<You>): (s: Screen)
    ensures room.None? <==> s.EntryForm?
    ensures room.Some? ==>
      s.code == room.value.code && s.status == room.value.status &&
      s.panel == RoomPanel(room.value, isHost, you)
  {
    if room.None? then EntryForm
    else RoomScreen(room.value.code, room.value.status, RoomPanel(room.value, isHost, you))
  }

  /** Whatever card the server may send a spy, the spy's screen is the same: the card
      never reaches a spy through the view. */
  lemma SpyScreenIgnoresCard(room: Option<RoomPublic>, isHost: bool, c1: Option<string>, c2: Option<string>)
    ensures Render(room, isHost, Some(You(Spy, c1))) == Render(room, isHost, Some(You(Spy, c2)))
  {
  }

  /** An agent in a round sees the card the server sent, or the placeholder. */
  lemma AgentSeesOwnCard(room: RoomPublic, isHost: bool, card: Option<string>)
    requires room.status == InRound
    ensures Render(Some(room), isHost, Some(You(Agent, card))).panel.card
            == card.OrElse(HIDDEN_CARD)
  {
  }

  /** Outside a round the viewer's role plays no part in the screen. */
  lemma RoleMattersOnlyInRound(room: Option<RoomPublic>, isHost: bool, y1: Option<You>, y2: Option<You>)
    requires room.Some? ==> room.value.status != InRound
    ensures Render(room, isHost, y1) == Render(room, isHost, y2)
  {
  }

  /** Before a round has ended the room's revealed card plays no part in the screen. */
  lemma RevealMattersOnlyWhenEnded(room: RoomPublic, r1: Option<string>, r2: Option<string>,
                                   isHost: bool, you: Option<You>)
    requires room.status != Ended
    ensures Render(Some(room.(revealedCard := r1)), isHost, you) == Render(Some(room.(revealedCard := r2)), isHost, you)
  {
  }
}
