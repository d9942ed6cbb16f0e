/** What every sequence of requests keeps true of the relay's tables. */
module RelayRuns {
  import opened RelayIds
  import opened Handshake
  import opened Relay
  import opened Wrappers
  import P = Presence

  datatype Request =
    | Open(room: RoomId, catchUp: bool, token: TokenId, now: int)
    | Approve(room: RoomId, approver: TokenId, digest: Digest, token: TokenId, now: int)
    | Ping(room: RoomId, token: TokenId, tag: Option<Tag>, now: int)
    | Message(room: RoomId, sender: TokenId, id: Option<MsgId>, now: int)
    | Settings(room: RoomId, sender: TokenId, on: bool, now: int)
    | Attend(room: RoomId, token: TokenId, now: int) // sub-token, token, reject
    | Subscribe(room: RoomId, token: TokenId, endpoint: Endpoint, now: int)
    | Leave(room: RoomId, token: TokenId, now: int)
    | Disband(room: RoomId, sender: TokenId, now: int)
    | Count(now: int) // GET on a room
    | Stats(now: int)

  function Handle(s: Tables, r: Request): Tables {
    match r
    case Open(room, catchUp, token, now) => RoomOpened(s, room, catchUp, token, now)
    case Approve(room, approver, digest, token, now) => Approved(s, room, approver, digest, token, now)
    case Ping(room, token, tag, now) => Pinged(s, room, token, tag, now)
    case Message(room, sender, id, now) => Messaged(s, room, sender, id, now)
    case Settings(room, sender, on, now) => Switched(s, room, sender, on, now)
    case Attend(room, token, now) => Attended(s, room, token, now)
    case Subscribe(room, token, endpoint, _) => Subscribed(s, room, token, endpoint)
    case Leave(room, token, _) => Left(s, room, token)
    case Disband(room, sender, _) => Disbanded(s, room, sender)
    case Count(now) => Cleaned(s, now)
    case Stats(now) => PresenceCleaned(s, now)
  }

  function Run(requests: seq<Request>): Tables {
    if requests == [] then EMPTY
    else Handle(Run(requests[..|requests| - 1]), requests[|requests| - 1])
  }

  /** A token drawn at random is not one the table already holds. */
  predicate DrawsFresh(s: Tables, r: Request) {
    r.Open? || r.Approve? ==> r.token !in s.participants
  }

  /** Fresh tokens, and a clock that never runs backwards and has reached `now`. */
  ghost predicate Orderly(requests: seq<Request>, now: int)
    decreases |requests|
  {
    requests == [] ||
    var r, before := requests[|requests| - 1], requests[..|requests| - 1];
    r.now <= now && DrawsFresh(Run(before), r) && Orderly(before, r.now)
  }

  // ----- The invariant -----

  ghost predicate Sound(s: Tables) {
    && (forall t :: t in s.participants ==>
          s.participants[t].room in s.rooms && (s.participants[t].pending <==> s.participants[t].commitment.Some?))
    && (forall t :: t in s.presence ==>
          t in s.participants && !s.participants[t].pending && s.participants[t].room == s.presence[t].room)
    && (forall m :: m in s.outbox ==> m.room in s.rooms && s.rooms[m.room])
    && (forall p :: p in s.push ==> p.room in s.rooms)
  }

  /** Pending rows are no older than the last cleanup allowed, and no younger than the clock. */
  ghost predicate PendingYoung(s: Tables, now: int) {
    && (s.pendingMarker.Some? ==> s.pendingMarker.value <= now)
    && (forall t :: t in s.participants && s.participants[t].pending ==>
          && s.participants[t].joinedAt <= now
          && (s.pendingMarker.Some? ==> s.participants[t].joinedAt >= s.pendingMarker.value - PENDING_TTL))
  }

  lemma NotedKeeps(s: Tables, room: RoomId, token: TokenId, now: int)
    requires Sound(s) && IsMember(s, room, token)
    ensures Sound(Noted(s, room, token, now))
  {
  }

  lemma CleanedKeeps(s: Tables, now: int)
    requires Sound(s)
    ensures Sound(Cleaned(s, now))
  {
  }

  /** The presence cleanup: at most every 30 seconds, exactly the rows over 45 seconds old go. */
  lemma PresenceCleanedSays(s: Tables, now: int)
    ensures var s' := PresenceCleaned(s, now);
            var due := s.presenceMarker.None? || now - s.presenceMarker.value >= 30;
            && s'.presenceMarker == (if due then Some(now) else s.presenceMarker)
            && (forall t :: t in s'.presence <==> t in s.presence && (due ==> s.presence[t].at >= now - 45))
            && (forall t :: t in s'.presence ==> s'.presence[t] == s.presence[t])
            && s'.participants == s.participants && s'.rooms == s.rooms && s'.pendingMarker == s.pendingMarker
  {
  }

  /** The other one: at most every 60 seconds, exactly the rows that have been pending for over 660 go. */
  lemma PendingCleanedSays(s: Tables, now: int)
    ensures var s' := PendingCleaned(s, now);
            var due := s.pendingMarker.None? || now - s.pendingMarker.value >= 60;
            && s'.pendingMarker == (if due then Some(now) else s.pendingMarker)
            && (forall t :: t in s'.participants <==>
                  t in s.participants && (due && s.participants[t].pending ==> s.participants[t].joinedAt >= now - 660))
            && (forall t :: t in s'.participants ==> s'.participants[t] == s.participants[t])
            && s'.rooms == s.rooms && s'.presenceMarker == s.presenceMarker
  {
  }

  lemma SoundKept(s: Tables, r: Request)
    requires Sound(s) && DrawsFresh(s, r)
    ensures Sound(Handle(s, r))
  {
    match r
    case Open(room, catchUp, token, now) =>
      if room in s.rooms {
        CleanedKeeps(s, now);
      } else {
        OpenKeeps(s, room, catchUp, token, now);
      }
    case Approve(room, approver, digest, token, now) => ApproveKeeps(s, room, approver, digest, token, now);
    case Ping(room, token, tag, now) => PingKeeps(s, room, token, tag, now);
    case Message(room, sender, id, now) => MessageKeeps(s, room, sender, id, now);
    case Settings(room, sender, on, now) => SettingsKeeps(s, room, sender, on, now);
    case Disband(room, sender, _) => DisbandKeeps(s, room, sender);
    case Count(now) => CleanedKeeps(s, now);
    case _ =>
  }

  lemma OpenKeeps(s: Tables, room: RoomId, catchUp: bool, token: TokenId, now: int)
    requires Sound(s) && token !in s.participants && room !in s.rooms
    ensures Sound(RoomOpened(s, room, catchUp, token, now))
  {
  }

  lemma ApproveKeeps(s: Tables, room: RoomId, approver: TokenId, digest: Digest, token: TokenId, now: int)
    requires Sound(s) && token !in s.participants
    ensures Sound(Approved(s, room, approver, digest, token, now))
  {
  }

  lemma PingKeeps(s: Tables, room: RoomId, token: TokenId, tag: Option<Tag>, now: int)
    requires Sound(s)
    ensures Sound(Pinged(s, room, token, tag, now))
  {
    if room in s.rooms && token in s.participants && s.participants[token].room == room {
      var p := s.participants[token];
      if !p.pending || Claims(p, tag) {
        var active := if p.pending
                      then s.(participants := s.participants[token := p.(pending := false, commitment := None)]) else s;
        NotedKeeps(active, room, token, now);
        CleanedKeeps(Noted(active, room, token, now), now);
      }
    }
  }

  lemma MessageKeeps(s: Tables, room: RoomId, sender: TokenId, id: Option<MsgId>, now: int)
    requires Sound(s)
    ensures Sound(Messaged(s, room, sender, id, now))
  {
  }

  lemma SettingsKeeps(s: Tables, room: RoomId, sender: TokenId, on: bool, now: int)
    requires Sound(s)
    ensures Sound(Switched(s, room, sender, on, now))
  {
  }

  lemma DisbandKeeps(s: Tables, room: RoomId, sender: TokenId)
    requires Sound(s)
    ensures Sound(Disbanded(s, room, sender))
  {
  }

  /** In every reachable state presence belongs to active participants of the same room, participants
      and subscriptions to existing rooms, and stored messages to rooms with catch-up on. */
  lemma {:induction false} SoundAlways(requests: seq<Request>, now: int)
    requires Orderly(requests, now)
    ensures Sound(Run(requests))
    decreases |requests|
  {
    if requests != [] {
      var r, before := requests[|requests| - 1], requests[..|requests| - 1];
      SoundAlways(before, r.now);
      SoundKept(Run(before), r);
    }
  }

  // ----- Leaving and disbanding -----

  ghost predicate Mentions(s: Tables, room: RoomId) {
    || room in s.rooms
    || (exists t :: t in s.participants && s.participants[t].room == room)
    || (exists t :: t in s.presence && s.presence[t].room == room)
    || (exists m :: m in s.outbox && m.room == room)
    || (exists p :: p in s.push && p.room == room)
  }

  function Members(s: Tables, room: RoomId): set<TokenId> {
    set t | t in s.participants && s.participants[t].room == room
  }

  /** Nothing of another room differs between the two states. */
  ghost predicate OthersUntouched(s: Tables, s': Tables, room: RoomId) {
    && (forall r :: r != room ==> (r in s.rooms <==> r in s'.rooms) && (r in s.rooms ==> s.rooms[r] == s'.rooms[r]))
    && (forall t :: t in s.participants && s.participants[t].room != room ==>
          && t in s'.participants && s'.participants[t] == s.participants[t]
          && (t in s.presence <==> t in s'.presence) && (t in s.presence ==> s.presence[t] == s'.presence[t]))
    && s'.participants.Keys <= s.participants.Keys && s'.presence.Keys <= s.presence.Keys
    && (forall m: OutboxRow :: m.room != room ==> (m in s.outbox <==> m in s'.outbox))
    && (forall p: Subscription :: p.room != room ==> (p in s.push <==> p in s'.push))
  }

  /** Disbanding leaves no trace of the room and touches nothing else. */
  lemma DisbandClears(s: Tables, room: RoomId, sender: TokenId)
    requires Sound(s) && IsMember(s, room, sender)
    ensures !Mentions(Disbanded(s, room, sender), room)
    ensures OthersUntouched(s, Disbanded(s, room, sender), room)
  {
  }

  /** Once disbanded, a room stays gone until somebody opens it anew. */
  lemma StaysGone(s: Tables, room: RoomId, r: Request)
    requires Sound(s) && !Mentions(s, room) && DrawsFresh(s, r) && !(r.Open? && r.room == room)
    ensures !Mentions(Handle(s, r), room)
  {
    SoundKept(s, r);
    RoomsOnlyOpened(s, r);
  }

  lemma RoomsOnlyOpened(s: Tables, r: Request)
    ensures forall room :: room in Handle(s, r).rooms ==> room in s.rooms || (r.Open? && r.room == room)
  {
  }

  /** Leaving removes exactly one member, its presence with it, and nothing else. */
  lemma LeaveRemovesOne(s: Tables, room: RoomId, token: TokenId)
    requires Sound(s) && IsMember(s, room, token)
    ensures var s' := Left(s, room, token);
            && Members(s', room) == Members(s, room) - {token}
            && |Members(s', room)| == |Members(s, room)| - 1
            && s'.presence.Keys == s.presence.Keys - {token}
            && s'.rooms == s.rooms && s'.outbox == s.outbox && s'.push == s.push
            && OthersUntouched(s, s', room)
            && forall t :: t in Members(s', room) ==> s'.participants[t] == s.participants[t]
  {
    assert s.participants[token].room in s.rooms;
    assert Members(Left(s, room, token), room) == Members(s, room) - {token};
  }

  // ----- Catch-up off -----

  ghost predicate StoresNothing(s: Tables, room: RoomId) {
    && (room in s.rooms ==> !s.rooms[room])
    && forall m: OutboxRow :: m in s.outbox ==> m.room != room
  }

  /** Turning catch-up off leaves no message of the room, and none of another room is touched. */
  lemma OffStoresNothing(s: Tables, room: RoomId, sender: TokenId, now: int)
    requires Sound(s) && IsMember(s, room, sender)
    ensures StoresNothing(Switched(s, room, sender, false, now), room)
    ensures forall m: OutboxRow :: m.room != room ==>
            (m in Switched(s, room, sender, false, now).outbox <==> m in s.outbox)
  {
  }

  /** It stays that way, whatever is asked for, until a member turns it on or the room is opened anew. */
  lemma OffUntilOn(s: Tables, room: RoomId, r: Request)
    requires Sound(s) && StoresNothing(s, room) && DrawsFresh(s, r)
    requires !(r.Settings? && r.room == room && r.on) && !(r.Open? && r.room == room && room !in s.rooms)
    ensures StoresNothing(Handle(s, r), room)
  {
    SoundKept(s, r);
    FlagKept(s, room, r);
  }

  lemma FlagKept(s: Tables, room: RoomId, r: Request)
    requires room in s.rooms ==> !s.rooms[room]
    requires !(r.Settings? && r.room == room && r.on) && !(r.Open? && r.room == room && room !in s.rooms)
    ensures room in Handle(s, r).rooms ==> !Handle(s, r).rooms[room]
  {
  }

  // ----- Abandoned rows -----

  lemma CleanedYoung(s: Tables, earlier: int, now: int)
    requires PendingYoung(s, earlier) && earlier <= now
    ensures PendingYoung(Cleaned(s, now), now)
  {
  }

  lemma PingedYoung(s: Tables, room: RoomId, token: TokenId, tag: Option<Tag>, earlier: int, now: int)
    requires PendingYoung(s, earlier) && earlier <= now
    ensures PendingYoung(Pinged(s, room, token, tag, now), now)
  {
    hide Cleaned;
    if room in s.rooms && token in s.participants && s.participants[token].room == room {
      var p := s.participants[token];
      if !p.pending || Claims(p, tag) {
        var active := if p.pending
                      then s.(participants := s.participants[token := p.(pending := false, commitment := None)]) else s;
        CleanedYoung(Noted(active, room, token, now), earlier, now);
      }
    }
  }

  lemma YoungKept(s: Tables, r: Request, now: int)
    requires PendingYoung(s, now) && now <= r.now && DrawsFresh(s, r)
    ensures PendingYoung(Handle(s, r), r.now)
  {
    hide Cleaned, Pinged;
    match r
    case Open(_, _, _, later) => CleanedYoung(s, now, later);
    case Count(later) => CleanedYoung(s, now, later);
    case Ping(room, token, tag, later) => PingedYoung(s, room, token, tag, now, later);
    case _ =>
  }

  lemma {:induction false} YoungAlways(requests: seq<Request>, now: int)
    requires Orderly(requests, now)
    ensures PendingYoung(Run(requests), now)
    decreases |requests|
  {
    if requests != [] {
      var r, before := requests[|requests| - 1], requests[..|requests| - 1];
      YoungAlways(before, r.now);
      YoungKept(Run(before), r, r.now);
    }
  }

  /** Whenever participants are counted, no row that has been pending for 720 seconds is left; after
      a cleanup that was due, none that has been pending for more than 660. Active rows all stay. */
  lemma AbandonedAreGone(requests: seq<Request>, now: int)
    requires Orderly(requests, now)
    ensures var s, s' := Run(requests), Run(requests + [Count(now)]);
            && (forall t :: t in s'.participants && s'.participants[t].pending ==>
                  && s'.participants[t].joinedAt > now - 720
                  && (P.Due(s.pendingMarker, now, PENDING_INTERVAL) ==> s'.participants[t].joinedAt >= now - 660))
            && (forall t :: t in s.participants && !s.participants[t].pending ==>
                  t in s'.participants && s'.participants[t] == s.participants[t])
  {
    YoungAlways(requests, now);
    assert (requests + [Count(now)])[..|requests|] == requests;
  }

  /** Of these the pending row of `token` need not outlive: a ping of it, and the end of its room. */
  predicate EndsPending(r: Request, room: RoomId, token: TokenId) {
    (r.Ping? && r.token == token) || (r.Disband? && r.room == room)
  }

  ghost predicate Awaits(s: Tables, room: RoomId, token: TokenId, since: int, digest: Digest) {
    token in s.participants && s.participants[token] == Participant(room, since, true, Some(digest))
  }

  /** A pending row keeps for 660 seconds, whatever else is asked for and whenever the cleanups run. */
  lemma AwaitsStill(s: Tables, r: Request, room: RoomId, token: TokenId, since: int, digest: Digest)
    requires Awaits(s, room, token, since, digest) && DrawsFresh(s, r)
    requires r.now <= since + 660 && !EndsPending(r, room, token)
    ensures Awaits(Handle(s, r), room, token, since, digest)
  {
    hide P.Touched, P.Pruned;
  }

  lemma {:induction false} ClockAt(requests: seq<Request>, now: int, i: nat)
    requires Orderly(requests, now) && i < |requests|
    ensures requests[i].now <= now
    decreases |requests|
  {
    var n := |requests| - 1;
    if i < n { ClockAt(requests[..n], requests[n].now, i); }
  }

  /** In every run of requests a row that was approved is there for 660 seconds, pending and with its
      commitment, unless its token is pinged or its room disbanded. */
  lemma {:induction false} ApprovedStays(requests: seq<Request>, i: nat, now: int)
    requires Orderly(requests, now) && i < |requests| && requests[i].Approve? && now <= requests[i].now + 660
    requires var r, s := requests[i], Run(requests[..i]); r.room in s.rooms && IsMember(s, r.room, r.approver)
    requires forall k :: i < k < |requests| ==> !EndsPending(requests[k], requests[i].room, requests[i].token)
    ensures var r := requests[i]; Awaits(Run(requests), r.room, r.token, r.now, r.digest)
    decreases |requests|
  {
    var n, r := |requests| - 1, requests[i];
    var before := requests[..n];
    if i < n {
      assert before[..i] == requests[..i];
      ApprovedStays(before, i, requests[n].now);
      AwaitsStill(Run(before), requests[n], r.room, r.token, r.now, r.digest);
    }
  }
}
