# Spy party game client: session and room synchronisation

This project models the client side of a "spy" party game. It covers the `Home` page
component in `app/page.tsx`. It does not model the markup or the HTTP plumbing around it.

The model has three parts:

- **The state machine.** The page holds a session: the room it last saw, the player id and
  the host flag. It holds the viewer's role in the current round. It keeps one interval
  timer (the poller) that fetches the room state again and again.
- **The handlers.** Create and join check what the user typed and then seed the session.
  Start, end and reset only send a request. Leave always clears the session locally. A poll
  tick either replaces the room and the role, or stops the poller.
- **The view rules.** Which panel the room's status shows, what a spy sees and what an
  agent sees, the texts shown when something is absent, the bound on the spy count, and the
  URL of the state fetch.

Server replies, the local-storage item and JSON parsing enter the model as parameters. Each
handler is a method that returns the request it would send as a `Call` value. Create, join,
leave and the poll tick also take the server's answer (`Ok(body)` or `Fail`) as an argument.
Start, end and reset take no answer. Their replies are not used, and the room changes only
through the next poll tick.

Modules, one per concern:

- `Wrappers`: `Option` and `Response`.
- `Domain`: rooms, players, roles, and JavaScript truthiness of JSON fields.
- `JsString`: `trim` and `toUpperCase` as the handlers use them.
- `Uri`: `encodeURIComponent`, with a decoder that undoes it.
- `Api`: the requests, and the state-fetch URL.
- `SessionStore`: save and restore of the `{playerId, room, isHost}` triple.
- `View`: the render rules.
- `HomePage`: the class `Home`, which holds the component's state and its handlers.
- `Scenarios`: runs from mount onwards. They are proved from the contracts of `Home`, with the `JsString` lemmas `TrimOfTrimmed` and `ToUpper` for the concrete strings in `ReloadAfterJoin`.

The poller is modelled as the source has it. `poller` is the ref `poller.current`: the
handle of the interval installed last. `intervals` maps each interval that is installed and
not yet cleared to the code and player id it captured. `clearInterval` removes an entry from
`intervals` but leaves the ref as it is, as the source does. `Home.Valid()` says three
things:

- Every live interval is the one the ref holds, so at most one poller exists.
- Timer handles are never reused.
- The storage item holds the current triple.

Every handler preserves `Valid()`.

In these places the source does less than one might expect. The model does what the source does:

- Restoring a session does not start polling (`Home.Mount`, `Scenarios.RestoreDoesNotPoll`).
  A restored room stays frozen until the player creates or joins again.
- A failed create, join, start, end or reset call is not reported to the user. The handler's
  promise is rejected and nothing else happens (`RequestFailed`).
- Guards and the state URL test the player id for JavaScript truthiness. An empty string
  counts as absent (`Domain.IsPresent`).
- Nothing keeps `playerId` non-null exactly when there is a room. A restored record can hold
  one without the other.
- A fetch that is in flight when the poller is stopped is not discarded. The model makes
  each tick atomic, so it does not show this (see "Left out").

## Model

| member | source | states |
|---|---|---|
| `JsString.Trim` | app/page.tsx:144 | the trimmed name is the slice of the input after its leading white space, only white space lies outside it, and it neither starts nor ends with white space |
| `JsString.TrimEmptyIff` | app/page.tsx:144-145 | the `if (!n)` guard fires exactly when the typed name is all white space |
| `JsString.TrimIdempotent` | app/page.tsx:144 | trimming an already trimmed string changes nothing |
| `JsString.ToUpper` | app/page.tsx:155 | upper-casing keeps the length and maps each character by `UpperChar` |
| `JsString.NoLowerAfterUpper` | app/page.tsx:155 | no lower-case ASCII letter survives upper-casing |
| `JsString.TrimUpperCommute` | app/page.tsx:155 | trimming and upper-casing commute, so the order in the join handler does not matter |
| `JsString.NormalizeCode` | app/page.tsx:155-157 | the normalised code has no lower-case letter and is empty exactly when the input is all white space (the "enter the room code" guard); it is no longer than the input, which holds only because the modelled `ToUpper` maps each character to one character (see "Left out": with the full mapping `ß` would become `SS`) |
| `JsString.NormalizeCodeIdempotent` | app/page.tsx:155 | a code that is already normalised is left as it is |
| `Uri.EncodeUriComponent` | app/page.tsx:117 | the encoded player id holds only unreserved characters and `%`, and is at least as long as the id |
| `Uri.EncodeUnreservedIdentity` | app/page.tsx:117 | an id made of unreserved characters is sent as it is |
| `Uri.DecodeEncode` | app/page.tsx:117 | decoding the encoded id gives back exactly the id (UTF-8 and `%HH` round trip) |
| `Api.StateUrl` | app/page.tsx:115-118 | the URL starts with the state path and has a query exactly when the player id is truthy; the query is `?playerId=` and the encoded id |
| `Api.StateUrlCarriesPlayerId` | app/page.tsx:115-118 | with a truthy player id, the query value of the state URL decodes to that player id |
| `Domain.IsPresentIsTruthy` | app/page.tsx:116 | the player-id test `IsPresent` agrees with JavaScript truthiness of a player id that is a string or `null`: `null` and `""` are absent, every other string is present |
| `Domain.Truthy` | app/page.tsx:39 | `!!v` is false for a missing field, `null` and `false`, true for `true` and for objects and arrays |
| `SessionStore.Save` | app/page.tsx:44-51 | the stored record holds exactly the player id, the room and the host flag as a boolean |
| `SessionStore.Restore` | app/page.tsx:29-42 | a missing item, a parse failure or a `null` value leaves the defaults (`null`, `null`, `false`); a record gives `playerId ?? null`, `room ?? null` and `!!isHost` |
| `SessionStore.RestoreSave` | app/page.tsx:29-51 | saving a session and restoring it gives back the same triple |
| `SessionStore.RestoredHostNeedsRecord` | app/page.tsx:37-39 | a restored page is host only when a parsed record had a truthy `isHost` |
| `View.SpyCountMax` | app/page.tsx:297 | the spy-count bound is at least 1 and at least `players.length - 1`, equals one of the two, and leaves at least one agent when there are two or more players |
| `View.OptionalRole` | app/page.tsx:320 | `you?.role` is undefined exactly when there is no role, and otherwise the role |
| `View.IsSpy` | app/page.tsx:320 | `you?.role === "spy"` holds exactly when there is a role and it is the spy role; with no role the viewer is not a spy |
| `View.CardText` | app/page.tsx:331 | the card the server sent, or "(секрет)" when there is none or no role |
| `View.RevealText` | app/page.tsx:353 | the room's reveal, or "секрет" when it is absent |
| `View.RoomPanel` | app/page.tsx:288-366 | waiting: the host gets the spy-count input bounded by `SpyCountMax` and other players get the waiting text; in a round: the spy panel exactly for a spy, the card panel with `CardText` for everyone else, and the end button for the host; ended: the reveal text and the reset button for the host |
| `View.Render` | app/page.tsx:209-368 | the entry form exactly when there is no room; otherwise the room's code, its status and `RoomPanel` |
| `View.SpyScreenIgnoresCard` | app/page.tsx:318-334 | a spy's screen is the same whatever card the server put in their role, so the card never reaches a spy |
| `View.AgentSeesOwnCard` | app/page.tsx:327-333 | an agent in a round sees the card sent to them, or the placeholder |
| `View.RoleMattersOnlyInRound` | app/page.tsx:288-366 | outside a round the screen does not depend on the viewer's role |
| `View.RevealMattersOnlyWhenEnded` | app/page.tsx:348-366 | before the round has ended the screen does not depend on the room's `reveal` field (`revealedCard` in the model) |
| `HomePage.Home.AtMostOnePoller` | app/page.tsx:126-129 | in every valid state at most one interval is live, and one is live exactly when the ref holds it |
| `HomePage.Home.ReloadRestoresSession` | app/page.tsx:29-51 | in every valid state, restoring from storage gives the current session |
| `HomePage.Home.Mount` | app/page.tsx:19-51 | the first render restores the session from storage, saves it back, has no role, and installs no poller |
| `HomePage.Home.Persist` | app/page.tsx:44-51 | the storage item is set to the current triple |
| `HomePage.Home.StartPolling` | app/page.tsx:126-141 | the old interval is cleared before a new one is installed; afterwards exactly one interval is live, it has a fresh handle, and it polls the given code and player id |
| `HomePage.Home.EnterRoom` | app/page.tsx:147-150 | takes the player id, `!!isHost` and the room from the reply, keeps the role, and polls the reply's room code with the reply's player id |
| `HomePage.Home.HandleCreate` | app/page.tsx:143-151 | a blank name changes nothing and sends nothing; otherwise it sends the trimmed name; a failed call changes nothing; a reply enters the room and polls it |
| `HomePage.Home.HandleJoin` | app/page.tsx:153-163 | the name is checked first, then the code; a blank one changes nothing and sends nothing; otherwise it sends the normalised code and the trimmed name; a failed call changes nothing; a reply enters the room and polls the reply's room code |
| `HomePage.Home.HandleStart` | app/page.tsx:165-169 | a start request is sent exactly when there is a room and a truthy player id, with the room's code, the id and the spy count; no local state changes |
| `HomePage.Home.HandleEnd` | app/page.tsx:171-174 | an end request is sent exactly when there is a room and a truthy player id; no local state changes |
| `HomePage.Home.HandleReset` | app/page.tsx:176-179 | a reset request is sent exactly when there is a room and a truthy player id; no local state changes |
| `HomePage.Home.HandleLeave` | app/page.tsx:181-192 | a leave request is sent exactly when there was a room and a truthy player id; whatever the server answers, room, player id, host flag and role are cleared and no interval is left live |
| `HomePage.Home.Tick` | app/page.tsx:129-138 | the tick fetches the target its interval captured (its URL is `Api.StateUrl` of that code and player id); a reply replaces room and role together; a failure stops polling and leaves room and role as they were; player id and host flag never change |
| `Scenarios.RejoinLeavesOnePoller` | app/page.tsx:126-163 | after a create followed by a join, exactly one interval is live and it polls the joined room for the joined player id |
| `Scenarios.ReloadAfterJoin` | app/page.tsx:29-51 | joining "abc123" as "Ann" sends code "ABC123", and a reload restores the joined session without a server call |
| `Scenarios.LeaveOffline` | app/page.tsx:181-192 | leaving while the server fails still leaves the empty session and no polling |
| `Scenarios.FailedPollStops` | app/page.tsx:129-137 | after a good tick and then a failed one, no interval is left and the room from the good tick is still shown |
| `Scenarios.RestoreDoesNotPoll` | app/page.tsx:29-42 | a restored room is shown, but no poller refreshes it |

## Left out

- HTTP: `fetch`, the endpoint paths other than the state URL, headers and JSON bodies. Each request is a `Call` value, and the server's answer is an `Ok(body)` or `Fail` parameter.
- Local storage and `JSON.parse`/`JSON.stringify` as real I/O. The stored item is given as the value it parses to (`SessionStore.Parsed`). The model takes it that stringifying the triple and parsing it back gives the same values.
- Stored fields of the wrong JSON type, such as a numeric `playerId` or a malformed `room`. The model takes the stored record to be typed.
- Timing: the 1500 ms interval, and the order in which ticks and user actions interleave. Each tick is atomic, so two fetches in flight at once, and a late reply arriving after leave or rejoin, are not modelled. The source neither prevents nor discards such replies.
- React: re-renders, hook scheduling, and `useMemo`/`useCallback`. On mount the save effect first writes the default triple, and then writes the restored one. `Home.Mount` gives only the final state.
- Markup: the player list, styling, the alert texts (reported as `NameRequired` and `CodeRequired`), the upper-casing in the code input's `onChange` (the join handler upper-cases again), the spy-count input's `Number(...)` conversion (the spy count is an `int`), and `copyCode`.
- `API_BASE`: the environment lookup and the trailing-slash trim are configuration. The base URL is a parameter of `Api.StateUrl`.
- Server rules: spy selection, card choice, and rejecting a spy count that is too large.
- JsString.ToUpper: changes only ASCII `a`-`z`. The full Unicode case mapping of `toUpperCase` (for example Cyrillic letters, or `ß` becoming `SS`) is not modelled.
- Uri.EncodeUriComponent: a Dafny string cannot hold an unpaired UTF-16 surrogate. On such a player id `encodeURIComponent` throws `URIError`, every poll tick would fail, and the poller would stop. The model has no such id.
- Domain.Truthy: a JSON number is a `real`, so a value JSON cannot produce, such as `NaN`, does not arise.
- Room status: the model allows only the three statuses the types name. For an unknown status string the page would show no panel at all.
