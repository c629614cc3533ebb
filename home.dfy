/** The state machine of the page's `Home` component: the session fields, the poller, and
    the handlers and poll tick that change them. Server replies come in as parameters. */
module HomePage {
  import opened Wrappers
  import opened Domain
  import opened JsString
  import opened Api
  import opened SessionStore

  /** An interval handle, as `setInterval` returns it. */
  type TimerId = nat

  /** What an installed interval fetches on each tick: the room code and player id it captured. */
  datatype PollTarget = PollTarget(code: string, pid: Option<string>)

  /** How a create or join handler ended. `RequestFailed` is the rejected promise the
      handler passes on when the server call throws. */
  datatype Outcome = Entered | NameRequired | CodeRequired | RequestFailed

  class Home {
    var room: Option<RoomPublic>
    var playerId: Option<string>
    var isHost: bool
    var you: Option<You>
    /** `poller.current`: the handle of the last interval installed, or none yet. */
    var poller: Option<TimerId>
    /** The intervals installed and not yet cleared, with what each one fetches. */
    var intervals: map<TimerId, PollTarget>
    /** The next handle `setInterval` will hand out. */
    var nextTimer: TimerId
    /** The local-storage item "cr-spy-session". */
    var storage: Option<Parsed>

    /** At most one interval is live, and it is the one `poller.current` holds; handles are
        never reused; and storage holds the current session. */
    ghost predicate Valid()
      reads this
    {
      PollerValid() && storage == Some(Save(Current()))
    }

    ghost predicate PollerValid()
      reads this
    {
      && (forall t :: t in intervals ==> poller == Some(t) && t < nextTimer)
      && (poller.Some? ==> poller.value < nextTimer)
    }

    function Current(): Session
      reads this
    {
      Session(playerId, room, isHost)
    }

    /** Whether an interval is live. */
    predicate Polling()
      reads this
    {
      poller.Some? && poller.value in intervals
    }

    lemma AtMostOnePoller()
      requires Valid()
      ensures |intervals| <= 1
      ensures |intervals| == 1 <==> Polling()
    {
      if poller.Some? {
        assert intervals.Keys <= {poller.value};
        SubsetSize(intervals.Keys, {poller.value});
      } else {
        assert intervals.Keys == {};
      }
    }

    /** A reload reads back the session the page is in. */
    lemma ReloadRestoresSession()
      requires Valid()
      ensures Restore(storage) == Current()
    {
      RestoreSave(Current());
    }

    /** First render: the restore effect followed by the save effect. Polling is not started,
        even when a room was restored. */
    constructor Mount(slot: Option<Parsed>)
      ensures Valid()
      ensures Current() == Restore(slot) && you == None
      ensures poller == None && intervals == map[]
    {
      var s := Restore(slot);
      playerId, room, isHost := s.playerId, s.room, s.isHost;
      you := None;
      poller, intervals, nextTimer := None, map[], 1;
      storage := Some(Save(s));
    }

    /** The save effect, run after a render in which the triple changed. */
    method Persist()
      modifies this`storage
      ensures storage == Some(Save(Current()))
    {
      storage := Some(Save(Current()));
    }

    /** `startPolling(code, pid)`: clears the interval `poller.current` holds, then installs a
        new one for `code` and `pid` and keeps its handle. */
    method StartPolling(code: string, pid: Option<string>)
      requires PollerValid()
      modifies this`poller, this`intervals, this`nextTimer
      ensures PollerValid() && Polling()
      ensures intervals == map[poller.value := PollTarget(code, pid)]
      ensures poller.value !in old(intervals) && old(poller) != poller
    {
      if poller.Some? {
        intervals := intervals - {poller.value};
      }
      var id := nextTimer;
      nextTimer := nextTimer + 1;
      poller := Some(id);
      intervals := intervals[id := PollTarget(code, pid)];
    }

    /** What both the create and the join handler do with the server's reply: take the
        player id, the host flag (coerced with `!!`) and the room, then poll that room. */
    method EnterRoom(data: JoinReply)
      requires Valid()
      modifies this
      ensures Valid()
      ensures playerId == Some(data.playerId) && isHost == Truthy(data.isHost) && room == Some(data.room)
      ensures you == old(you) && Polling()
      ensures intervals == map[poller.value := PollTarget(data.room.code, Some(data.playerId))]
    {
      playerId := Some(data.playerId);
      isHost := Truthy(data.isHost);
      room := Some(data.room);
      StartPolling(data.room.code, Some(data.playerId));
      Persist();
    }

    /** The create handler. `reply` is what the server would answer to the create call. */
    method HandleCreate(name: string, reply: Response<JoinReply>) returns (outcome: Outcome, call: Option<Call>)
      requires Valid()
      modifies this
      ensures Valid()
      ensures call == if AllWhiteSpace(name) then None else Some(CreateRoom(Trim(name)))
      ensures AllWhiteSpace(name) ==> outcome == NameRequired
      ensures !AllWhiteSpace(name) ==> outcome == if reply.Ok? then Entered else RequestFailed
      ensures outcome != Entered ==> unchanged(this)
      ensures outcome == Entered ==>
        && playerId == Some(reply.body.playerId)
        && isHost == Truthy(reply.body.isHost)
        && room == Some(reply.body.room)
        && you == old(you)
        && Polling()
        && intervals == map[poller.value := PollTarget(reply.body.room.code, Some(reply.body.playerId))]
    {
      var n := Trim(name);
      TrimEmptyIff(name);
      if n == [] {
        return NameRequired, None;
      }
      call := Some(CreateRoom(n));
      if reply.Fail? {
        return RequestFailed, call;
      }
      EnterRoom(reply.body);
      outcome := Entered;
    }

    /** The join handler: trims the name, trims and upper-cases the code typed in. */
    method HandleJoin(name: string, codeInput: string, reply: Response<JoinReply>)
      returns (outcome: Outcome, call: Option<Call>)
      requires Valid()
      modifies this
      ensures Valid()
      ensures AllWhiteSpace(name) ==> outcome == NameRequired && call == None
      ensures !AllWhiteSpace(name) && AllWhiteSpace(codeInput) ==> outcome == CodeRequired && call == None
      ensures !AllWhiteSpace(name) && !AllWhiteSpace(codeInput) ==>
        && call == Some(JoinRoom(NormalizeCode(codeInput), Trim(name)))
        && outcome == if reply.Ok? then Entered else RequestFailed
      ensures outcome != Entered ==> unchanged(this)
      ensures outcome == Entered ==>
        && playerId == Some(reply.body.playerId)
        && isHost == Truthy(reply.body.isHost)
        && room == Some(reply.body.room)
        && you == old(you)
        && Polling()
        && intervals == map[poller.value := PollTarget(reply.body.room.code, Some(reply.body.playerId))]
    {
      var n := Trim(name);
      TrimEmptyIff(name);
      if n == [] {
        return NameRequired, None;
      }
      var code := NormalizeCode(codeInput);
      if code == [] {
        return CodeRequired, None;
      }
      call := Some(JoinRoom(code, n));
      if reply.Fail? {
        return RequestFailed, call;
      }
      EnterRoom(reply.body);
      outcome := Entered;
    }

    /** The start-round handler. It changes nothing locally; the next tick shows the round. */
    method HandleStart(spyCount: int) returns (call: Option<Call>)
      ensures call.Some? <==> room.Some? && IsPresent(playerId)
      ensures call.Some? ==> call.value == StartRound(room.value.code, playerId.value, spyCount)
    {
      if room.None? || !IsPresent(playerId) {
        return None;
      }
      call := Some(StartRound(room.value.code, playerId.value, spyCount));
    }

    /** The end-round handler; changes nothing locally. */
    method HandleEnd() returns (call: Option<Call>)
      ensures call.Some? <==> room.Some? && IsPresent(playerId)
      ensures call.Some? ==> call.value == EndRound(room.value.code, playerId.value)
    {
      if room.None? || !IsPresent(playerId) {
        return None;
      }
      call := Some(EndRound(room.value.code, playerId.value));
    }

    /** The new-round handler; changes nothing locally. */
    method HandleReset() returns (call: Option<Call>)
      ensures call.Some? <==> room.Some? && IsPresent(playerId)
      ensures call.Some? ==> call.value == ResetRound(room.value.code, playerId.value)
    {
      if room.None? || !IsPresent(playerId) {
        return None;
      }
      call := Some(ResetRound(room.value.code, playerId.value));
    }

    /** The leave handler. The server is told only when there is a room and a player id, and
        whatever it answers (`leaveReply` is never looked at, as the handler swallows a failure)
        the local session is cleared and the poller stopped. */
    method HandleLeave(leaveReply: Response<()>) returns (call: Option<Call>)
      requires Valid()
      modifies this
      ensures Valid()
      ensures call.Some? <==> old(room).Some? && IsPresent(old(playerId))
      ensures call.Some? ==> call.value == LeaveRoom(old(room).value.code, old(playerId).value)
      ensures room == None && playerId == None && !isHost && you == None
      ensures intervals == map[] && !Polling() && poller == old(poller) && nextTimer == old(nextTimer)
    {
      call := None;
      if room.Some? && IsPresent(playerId) {
        call := Some(LeaveRoom(room.value.code, playerId.value));
      }
      room := None;
      playerId := None;
      isHost := false;
      you := None;
      if poller.Some? {
        intervals := intervals - {poller.value};
      }
      Persist();
    }

    /** One tick of the live interval `timer`: it fetches the state for the target it captured.
        The returned `FetchState(code, pid)` is `api.state(code, pid)`, whose URL is
        `Api.StateUrl(base, code, pid)`.
        A reply replaces the room and the role together; a failure clears the interval
        `poller.current` holds and leaves room and role as they were. */
    method Tick(timer: TimerId, reply: Response<StateReply>) returns (call: Call)
      requires Valid() && timer in intervals
      modifies this
      ensures Valid()
      ensures call == FetchState(old(intervals)[timer].code, old(intervals)[timer].pid)
      ensures reply.Ok? ==>
        room == Some(reply.body.room) && you == reply.body.you && intervals == old(intervals)
      ensures reply.Fail? ==> room == old(room) && you == old(you) && intervals == map[] && !Polling()
      ensures playerId == old(playerId) && isHost == old(isHost)
      ensures poller == old(poller) && nextTimer == old(nextTimer)
    {
      var target := intervals[timer];
      call := FetchState(target.code, target.pid);
      match reply
      case Ok(data) =>
        room := Some(data.room);
        you := data.you;
        Persist();
      case Fail =>
        if poller.Some? {
          intervals := intervals - {poller.value};
        }
    }
  }

  lemma SubsetSize<T>(a: set<T>, b: set<T>)
    requires a <= b
    ensures |a| <= |b|
  {
    assert b == a + (b - a);
  }
}
