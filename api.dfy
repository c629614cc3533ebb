/** The calls the page makes to the room server, and the URL of the state fetch. */
module Api {
  import opened Wrappers
  import opened Domain
  import Uri

  /** The body of a create-room or join-room reply. */
  datatype JoinReply = JoinReply(playerId: string, isHost: JsonField, room: RoomPublic)

  /** The body of a state reply; `you` is `None` when the field is `null` or missing. */
  datatype StateReply = StateReply(room: RoomPublic, you: Option<You>)

  /** One request to the server, with the arguments the page passes. */
  datatype Call =
    | CreateRoom(name: string)
    | JoinRoom(code: string, name: string)
    | StartRound(code: string, playerId: string, spyCount: int)
    | EndRound(code: string, playerId: string)
    | ResetRound(code: string, playerId: string)
    | LeaveRoom(code: string, playerId: string)
    | FetchState(code: string, pid: Option<string>)

  const PLAYER_QUERY := "?playerId="

  /** The path of the state endpoint under the configured base URL. */
  function StatePath(base: string, code: string): string {
    base + "/rooms/" + code + "/state"
  }

  /** The URL `api.state(code, pid)` fetches: the path, followed by the encoded player id
      as a query exactly when `pid` is truthy. */
  function StateUrl(base: string, code: string, pid: Option<string>): (url: string)
    ensures var path := StatePath(base, code);
      && |path| <= |url| && url[..|path|] == path
      && (IsPresent(pid) <==> |url| > |path|)
      && (IsPresent(pid) ==> url[|path|..] == PLAYER_QUERY + Uri.EncodeUriComponent(pid.value))
  {
    var path := StatePath(base, code);
    if IsPresent(pid) then
      var q := PLAYER_QUERY + Uri.EncodeUriComponent(pid.value);
      assert (path + q)[..|path|] == path;
      assert (path + q)[|path|..] == q;
      path + q
    else path
  }

  /** The query of the state URL decodes to exactly the player id, so the server can tell
      which player is asking. */
  lemma StateUrlCarriesPlayerId(base: string, code: string, pid: Option<string>)
    requires IsPresent(pid)
    ensures var url := StateUrl(base, code, pid);
      var start := |StatePath(base, code)| + |PLAYER_QUERY|;
      && start <= |url|
      && url[start - |PLAYER_QUERY|..start] == PLAYER_QUERY
      && Uri.DecodeUriComponent(url[start..]) == Some(pid.value)
  {
    var url := StateUrl(base, code, pid);
    var path := StatePath(base, code);
    var rest := url[|path|..];
    assert rest == PLAYER_QUERY + Uri.EncodeUriComponent(pid.value);
    assert url[|path| + |PLAYER_QUERY|..] == rest[|PLAYER_QUERY|..];
    assert rest[|PLAYER_QUERY|..] == Uri.EncodeUriComponent(pid.value);
    assert url[|path|..|path| + |PLAYER_QUERY|] == rest[..|PLAYER_QUERY|];
    Uri.DecodeEncode(pid.value);
  }
}
