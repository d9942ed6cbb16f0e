/** Who is counted after any sequence of requests: those a request has served lately, and who have not
    left since. */
module RelayPresence {
  import opened RelayIds
  import opened Handshake
  import opened Relay
  import opened RelayRuns
  import opened Wrappers
  import P = Presence

  /** The request is one that a member of the room makes, or by which its sender becomes one. */
  predicate Serves(s: Tables, r: Request, room: RoomId, token: TokenId) {
    match r
    case Open(home, _, opener, _) => home == room && opener == token && room !in s.rooms
    case Approve(home, approver, _, _, _) =>
      home == room && approver == token && room in s.rooms && IsMember(s, room, token)
    case Ping(home, sender, tag, _) =>
      && home == room && sender == token && room in s.rooms && token in s.participants
      && s.participants[token].room == room && (s.participants[token].pending ==> Claims(s.participants[token], tag))
    case Message(home, sender, _, _) => home == room && sender == token && room in s.rooms && IsMember(s, room, token)
    case Settings(home, sender, _, _) => home == room && sender == token && room in s.rooms && IsMember(s, room, token)
    case Attend(home, sender, _) => home == room && sender == token && room in s.rooms && IsMember(s, room, token)
    case _ => false
  }

  /** The request takes the member away: it leaves, or some member disbands the room. */
  predicate Departs(s: Tables, r: Request, room: RoomId, token: TokenId) {
    match r
    case Leave(home, sender, _) => home == room && sender == token && room in s.rooms && IsMember(s, room, token)
    case Disband(home, sender, _) => home == room && room in s.rooms && IsMember(s, room, sender)
    case _ => false
  }

  ghost predicate ServedAt(requests: seq<Request>, i: nat, room: RoomId, token: TokenId) {
    i < |requests| && Serves(Run(requests[..i]), requests[i], room, token)
  }

  ghost predicate StayedSince(requests: seq<Request>, i: nat, room: RoomId, token: TokenId) {
    forall j :: i < j < |requests| ==> !Departs(Run(requests[..j]), requests[j], room, token)
  }

  // ----- One request -----

  /** The requests, other than a ping, that note their sender. */
  predicate Notes(r: Request) {
    r.Open? || r.Approve? || r.Message? || r.Settings? || r.Attend?
  }

  function SenderOf(r: Request): TokenId
    requires Notes(r)
  {
    match r
    case Open(_, _, token, _) => token
    case Approve(_, approver, _, _, _) => approver
    case Message(_, sender, _, _) => sender
    case Settings(_, sender, _, _) => sender
    case Attend(_, token, _) => token
  }

  /** What such a request does to presence. */
  lemma NotesPresence(s: Tables, r: Request)
    requires Sound(s) && DrawsFresh(s, r) && Notes(r)
    ensures var after, sender := Handle(s, r).presence, SenderOf(r);
            if Serves(s, r, r.room, sender) then
              after == P.Touched(s.presence, r.room, sender, r.now)
                  && (sender in s.presence ==> s.presence[sender].room == r.room)
            else after == s.presence || after == Cleaned(s, r.now).presence
  {
    hide Cleaned, P.Touched;
  }

  function Activated(s: Tables, token: TokenId): Tables
    requires token in s.participants
  {
    var p := s.participants[token];
    if p.pending then s.(participants := s.participants[token := p.(pending := false, commitment := None)]) else s
  }

  /** What a ping leaves of the tables before it cleans them. */
  function Claimed(s: Tables, room: RoomId, token: TokenId, now: int): Tables
    requires token in s.participants
  {
    Noted(Activated(s, token), room, token, now)
  }

  lemma PingPresence(s: Tables, room: RoomId, token: TokenId, tag: Option<Tag>, now: int)
    requires Sound(s)
    ensures var served := Serves(s, Ping(room, token, tag, now), room, token);
            && (served ==>
                  && (token in s.presence ==> s.presence[token].room == room)
                  && Claimed(s, room, token, now).presence == P.Touched(s.presence, room, token, now)
                  && Sound(Claimed(s, room, token, now))
                  && Pinged(s, room, token, tag, now) == Cleaned(Claimed(s, room, token, now), now))
            && (!served ==> Pinged(s, room, token, tag, now).presence == s.presence)
  {
    hide Cleaned, P.Touched;
    if Serves(s, Ping(room, token, tag, now), room, token) {
      NotedKeeps(Activated(s, token), room, token, now);
    } else if token in s.participants && s.participants[token].pending {
      assert s.presence - {token} == s.presence;
    }
  }

  ghost predicate Young(rows: P.Rows, room: RoomId, token: TokenId, since: int) {
    token in rows && rows[token].room == room && rows[token].at >= since
  }

  lemma CleanedStays(s: Tables, now: int, room: RoomId, token: TokenId, since: int)
    requires Sound(s) && Young(s.presence, room, token, since) && now <= since + 45
    ensures Young(Cleaned(s, now).presence, room, token, since)
            && Young(PresenceCleaned(s, now).presence, room, token, since)
  {
  }

  lemma TouchedStays(rows: P.Rows, home: RoomId, sender: TokenId, now: int, room: RoomId, token: TokenId, since: int)
    requires Young(rows, room, token, since) && since <= now
    ensures Young(P.Touched(rows, home, sender, now), room, token, since)
  {
  }

  lemma TouchedIsYoung(rows: P.Rows, room: RoomId, token: TokenId, now: int)
    requires token in rows ==> rows[token].room == room
    ensures Young(P.Touched(rows, room, token, now), room, token, now - 9)
  {
  }

  /** Whom a request serves is present afterwards. */
  lemma ServedIsPresent(s: Tables, r: Request, room: RoomId, token: TokenId)
    requires Sound(s) && DrawsFresh(s, r) && Serves(s, r, room, token)
    ensures Young(Handle(s, r).presence, room, token, r.now - 9)
  {
    hide Cleaned, Sound, Young, P.Touched;
    TouchedIsYoung(s.presence, room, token, r.now) by { ServedHome(s, r, room, token); }
    if r.Ping? {
      PingPresence(s, room, token, r.tag, r.now);
      CleanedStays(Claimed(s, room, token, r.now), r.now, room, token, r.now - 9);
    } else {
      NotesPresence(s, r);
    }
  }

  lemma ServedHome(s: Tables, r: Request, room: RoomId, token: TokenId)
    requires Sound(s) && DrawsFresh(s, r) && Serves(s, r, room, token)
    ensures token in s.presence ==> s.presence[token].room == room
  {
  }

  /** A row young enough outlives every request that does not take its member away. */
  lemma PresentStays(s: Tables, r: Request, room: RoomId, token: TokenId, since: int)
    requires Sound(s) && DrawsFresh(s, r) && Young(s.presence, room, token, since) && !Departs(s, r, room, token)
    requires since <= r.now <= since + 45
    ensures Young(Handle(s, r).presence, room, token, since)
  {
    CleanedStays(s, r.now, room, token, since);
    if r.Leave? || r.Disband? {
      DepartureSpares(s, r, room, token, since);
    } else if Notes(r) {
      NotesPresence(s, r);
      TouchedStays(s.presence, r.room, SenderOf(r), r.now, room, token, since);
      hide Handle, Cleaned, P.Touched;
    } else if r.Ping? {
      PingPresence(s, r.room, r.token, r.tag, r.now);
      TouchedStays(s.presence, r.room, r.token, r.now, room, token, since);
      hide Cleaned, P.Touched, Pinged;
      if Serves(s, r, r.room, r.token) {
        CleanedStays(Claimed(s, r.room, r.token, r.now), r.now, room, token, since);
      }
    }
  }

  lemma DepartureSpares(s: Tables, r: Request, room: RoomId, token: TokenId, since: int)
    requires Sound(s) && Young(s.presence, room, token, since) && !Departs(s, r, room, token)
             && (r.Leave? || r.Disband?)
    ensures Young(Handle(s, r).presence, room, token, since)
  {
  }

  lemma CleanedBefore(s: Tables, now: int, token: TokenId)
    ensures token in Cleaned(s, now).presence ==>
            token in s.presence && Cleaned(s, now).presence[token] == s.presence[token]
    ensures token in PresenceCleaned(s, now).presence ==>
              token in s.presence && PresenceCleaned(s, now).presence[token] == s.presence[token]
  {
  }

  lemma TouchedBefore(rows: P.Rows, room: RoomId, sender: TokenId, now: int, token: TokenId)
    requires sender in rows ==> rows[sender].room == room
    requires token in P.Touched(rows, room, sender, now)
    ensures var row := P.Touched(rows, room, sender, now)[token];
            (token in rows && rows[token] == row) || (token == sender && row == P.Seen(room, now))
  {
  }

  /** A row found after a request was there before, or was written by it. */
  lemma PresenceBefore(s: Tables, r: Request, token: TokenId)
    requires Sound(s) && DrawsFresh(s, r) && token in Handle(s, r).presence
    ensures var row := Handle(s, r).presence[token];
            || (token in s.presence && s.presence[token] == row && !Departs(s, r, row.room, token))
            || (Serves(s, r, row.room, token) && row.at == r.now)
  {
    CleanedBefore(s, r.now, token);
    if r.Leave? || r.Disband? {
      DepartureTakes(s, r, token);
    } else if Notes(r) {
      NotesPresence(s, r);
      hide Handle, Cleaned, P.Touched;
      if Serves(s, r, r.room, SenderOf(r)) {
        TouchedBefore(s.presence, r.room, SenderOf(r), r.now, token);
      }
    } else if r.Ping? {
      PingPresence(s, r.room, r.token, r.tag, r.now);
      hide Cleaned, P.Touched, Pinged;
      if Serves(s, r, r.room, r.token) {
        CleanedBefore(Claimed(s, r.room, r.token, r.now), r.now, token);
        TouchedBefore(s.presence, r.room, r.token, r.now, token);
      }
    }
  }

  lemma DepartureTakes(s: Tables, r: Request, token: TokenId)
    requires Sound(s) && (r.Leave? || r.Disband?) && token in Handle(s, r).presence
    ensures var row := Handle(s, r).presence[token];
            token in s.presence && s.presence[token] == row && !Departs(s, r, row.room, token)
  {
  }

  // ----- Runs of requests -----

  lemma {:induction false} ServedStays(requests: seq<Request>, i: nat, now: int, room: RoomId, token: TokenId)
    requires Orderly(requests, now) && ServedAt(requests, i, room, token) && StayedSince(requests, i, room, token)
    requires now <= requests[i].now + 36
    ensures Young(Run(requests).presence, room, token, requests[i].now - 9)
    decreases |requests|
  {
    hide Handle, Serves, Departs, Young, Sound, DrawsFresh;
    var n := |requests| - 1;
    var r, before := requests[n], requests[..n];
    SoundAlways(before, r.now);
    if i == n {
      ServedIsPresent(Run(before), r, room, token);
    } else {
      EarlierStay(requests, i, room, token);
      ClockAt(before, r.now, i);
      ServedStays(before, i, r.now, room, token);
      PresentStays(Run(before), r, room, token, requests[i].now - 9);
    }
  }

  lemma EarlierStay(requests: seq<Request>, i: nat, room: RoomId, token: TokenId)
    requires i < |requests| - 1 && ServedAt(requests, i, room, token) && StayedSince(requests, i, room, token)
    ensures var n := |requests| - 1;
            && ServedAt(requests[..n], i, room, token) && StayedSince(requests[..n], i, room, token)
            && !Departs(Run(requests[..n]), requests[n], room, token)
  {
    hide Run, Serves, Departs;
    var n := |requests| - 1;
    assert requests[..n][..i] == requests[..i];
    forall j | i < j < n ensures !Departs(Run(requests[..n][..j]), requests[..n][j], room, token) {
      assert requests[..n][..j] == requests[..j];
    }
  }

  /** Whoever a request has served within the last 36 seconds, and who has not left since, is counted,
      whatever was asked for in between and whenever the cleanups ran. */
  lemma ServedIsCounted(requests: seq<Request>, i: nat, now: int, room: RoomId, token: TokenId)
    requires Orderly(requests, now) && ServedAt(requests, i, room, token) && StayedSince(requests, i, room, token)
    requires now <= requests[i].now + 36
    ensures token in P.Counted(Run(requests).presence, room, now)
  {
    hide Run, ServedAt, StayedSince, Orderly;
    ServedStays(requests, i, now, room, token);
  }

  ghost predicate WasServed(requests: seq<Request>, room: RoomId, token: TokenId, at: int) {
    exists i :: 0 <= i < |requests| && requests[i].now == at
                && ServedAt(requests, i, room, token) && StayedSince(requests, i, room, token)
  }

  lemma LaterStay(requests: seq<Request>, room: RoomId, token: TokenId, at: int)
    requires requests != [] && WasServed(requests[..|requests| - 1], room, token, at)
    requires !Departs(Run(requests[..|requests| - 1]), requests[|requests| - 1], room, token)
    ensures WasServed(requests, room, token, at)
  {
    hide Run, Serves, Departs;
    var n := |requests| - 1;
    var before := requests[..n];
    var i :| 0 <= i < n && before[i].now == at && ServedAt(before, i, room, token)
        && StayedSince(before, i, room, token);
    assert before[..i] == requests[..i] && ServedAt(requests, i, room, token);
    forall j | i < j <= n ensures !Departs(Run(requests[..j]), requests[j], room, token) {
      if j < n { assert before[..j] == requests[..j] && !Departs(Run(before[..j]), before[j], room, token); }
    }
  }

  /** Every row was written by a request that served its member, who has not left since. */
  lemma {:induction false} RowsWereServed(requests: seq<Request>, now: int, token: TokenId)
    requires Orderly(requests, now) && token in Run(requests).presence
    ensures var row := Run(requests).presence[token]; WasServed(requests, row.room, token, row.at)
    decreases |requests|
  {
    hide Handle, Serves, Departs, Sound, DrawsFresh;
    var n := |requests| - 1;
    var r, before := requests[n], requests[..n];
    var row := Run(requests).presence[token];
    SoundAlways(before, r.now);
    PresenceBefore(Run(before), r, token);
    if Serves(Run(before), r, row.room, token) && row.at == r.now {
      assert ServedAt(requests, n, row.room, token) && StayedSince(requests, n, row.room, token);
    } else {
      RowsWereServed(before, r.now, token);
      LaterStay(requests, row.room, token, row.at);
    }
  }

  /** Nobody is counted whom no request has served within the last 45 seconds, or who has left since. */
  lemma CountedWasServed(requests: seq<Request>, now: int, room: RoomId, token: TokenId)
    requires Orderly(requests, now) && token in P.Counted(Run(requests).presence, room, now)
    ensures exists i :: 0 <= i < |requests| && requests[i].now >= now - 45
                        && ServedAt(requests, i, room, token) && StayedSince(requests, i, room, token)
  {
    hide Run, ServedAt, StayedSince, Orderly;
    RowsWereServed(requests, now, token);
  }
}
