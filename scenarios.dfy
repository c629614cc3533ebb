/** Runs of the page from mount onwards, written against the contracts of `Home` alone. */
module Scenarios {
  import opened Wrappers
  import opened Domain
  import opened JsString
  import opened Api
  import opened SessionStore
  import opened HomePage

  /** Creating a room and then joining another leaves exactly one live interval, and it
      polls the room joined last, for the player id the join returned. */
  method RejoinLeavesOnePoller(slot: Option<Parsed>, name: string, code: string,
                               first: JoinReply, second: JoinReply)
    returns (live: nat, target: PollTarget)
    requires !AllWhiteSpace(name) && !AllWhiteSpace(code)
    ensures live == 1
    ensures target == PollTarget(second.room.code, Some(second.playerId))
  {
    var home := new Home.Mount(slot);
    var _, _ := home.HandleCreate(name, Ok(first));
    var _, _ := home.HandleJoin(name, code, Ok(second));
    home.AtMostOnePoller();
    live := |home.intervals|;
    target := home.intervals[home.poller.value];
  }

  /** Joining room "abc123" as "Ann", with the server answering player "p1", then reloading
      the page: the new page restores the same session without asking the server. */
  method ReloadAfterJoin(players: seq<PublicPlayer>) returns (call: Option<Call>, before: Session, after: Session)
    ensures call == Some(JoinRoom("ABC123", "Ann"))
    ensures before == Session(Some("p1"), Some(RoomPublic("ABC123", Waiting, players, None, None)), false)
    ensures after == before
  {
    var room := RoomPublic("ABC123", Waiting, players, None, None);
    var home := new Home.Mount(None);
    TrimOfTrimmed("Ann");
    TrimOfTrimmed("abc123");
    var upper := ToUpper("abc123");
    assert upper[0] == 'A' && upper[1] == 'B' && upper[2] == 'C';
    assert upper[3] == '1' && upper[4] == '2' && upper[5] == '3';
    assert upper == "ABC123";
    assert !IsWhiteSpace("Ann"[0]) && !IsWhiteSpace("abc123"[0]);
    assert !AllWhiteSpace("Ann") && !AllWhiteSpace("abc123");
    assert NormalizeCode("abc123") == "ABC123";
    var _, c := home.HandleJoin("Ann", "abc123", Ok(JoinReply("p1", Bool(false), room)));
    call := c;
    before := home.Current();
    var reloaded := new Home.Mount(home.storage);
    after := reloaded.Current();
  }

  /** Leaving while the server cannot be reached still clears the session and stops polling. */
  method LeaveOffline(slot: Option<Parsed>, name: string, reply: JoinReply)
    returns (session: Session, polling: bool)
    requires !AllWhiteSpace(name)
    ensures session == EMPTY && !polling
  {
    var home := new Home.Mount(slot);
    var _, _ := home.HandleCreate(name, Ok(reply));
    var _ := home.HandleLeave(Fail);
    session := home.Current();
    polling := home.Polling();
  }

  /** A failed tick stops the only interval: none is left to tick again, and the room shown
      is the one the last good tick delivered. */
  method FailedPollStops(name: string, reply: JoinReply, state: StateReply)
    returns (live: nat, shown: Option<RoomPublic>)
    requires !AllWhiteSpace(name)
    ensures live == 0
    ensures shown == Some(state.room)
  {
    var home := new Home.Mount(None);
    var _, _ := home.HandleCreate(name, Ok(reply));
    var timer := home.poller.value;
    var _ := home.Tick(timer, Ok(state));
    var _ := home.Tick(timer, Fail);
    live := |home.intervals|;
    shown := home.room;
  }

  /** Restoring a session that holds a room does not start polling: the page shows the stored
      room but nothing refreshes it until the player joins or creates again. */
  method RestoreDoesNotPoll(pid: string, room: RoomPublic) returns (shown: Option<RoomPublic>, polling: bool)
    ensures shown == Some(room) && !polling
  {
    var home := new Home.Mount(Some(Record(Some(pid), Some(room), Bool(true))));
    shown := home.room;
    polling := home.Polling();
  }
}
