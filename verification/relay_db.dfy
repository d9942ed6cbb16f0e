/** The relay's database and its request handlers, statement by statement: who may ask for what, which
    rows change, and what stays. A handler's statements run here without interleaving. */
module RelayDatabase {
  import opened RelayIds
  import opened Handshake
  import opened Presence
  import opened Relay
  import opened RelayRuns
  import opened Wrappers

  // ----- What each handler promises its caller -----

  /** The member counts as present for the next 36 seconds. */
  ghost predicate PresentFrom(s: Tables, room: RoomId, token: TokenId, now: int) {
    forall later :: now <= later <= now + 36 ==> token in Counted(s.presence, room, later)
  }

  /** No participant but `token` is new or changed, and none that is active has gone. */
  ghost predicate OnlyConcerns(s: Tables, s': Tables, token: TokenId) {
    && (forall t :: t in s'.participants && t != token ==>
       t in s.participants && s'.participants[t] == s.participants[t])
    && (forall t :: t in s.participants && t != token && !s.participants[t].pending ==> t in s'.participants)
  }

  /** Whoever counted as present still does, from now on. */
  ghost predicate SameCounts(s: Tables, s': Tables, now: int) {
    forall room, later :: later >= now ==> Counted(s'.presence, room, later) == Counted(s.presence, room, later)
  }

  /** The first caller becomes the only member of a new room; later ones change no member and no room. */
  ghost predicate OpenServed(s: Tables, s': Tables, room: RoomId, catchUp: bool, token: TokenId, now: int) {
    && OnlyConcerns(s, s', token) && s'.outbox == s.outbox && s'.push == s.push
    && (if room in s.rooms then s'.rooms == s.rooms && token !in s'.participants && SameCounts(s, s', now)
        else s'.rooms == s.rooms[room := catchUp] && Members(s', room) == {token} && IsMember(s', room, token)
             && PresentFrom(s', room, token, now))
  }

  /** Only a member approves, and all it gains the room is a row that is no member yet. */
  ghost predicate ApproveServed(s: Tables, s': Tables, room: RoomId, approver: TokenId, digest: Digest, token: TokenId,
      now: int) {
    if room !in s.rooms || !IsMember(s, room, approver) then s' == s
    else
      && OnlyConcerns(s, s', token) && s'.rooms == s.rooms && s'.outbox == s.outbox && s'.push == s.push
      && Members(s', room) == Members(s, room) + {token} && !IsMember(s', room, token)
      && s'.participants[token].commitment == Some(digest) && PresentFrom(s', room, approver, now)
  }

  /** After a ping a token is a member if and only if it was one, or was pending and came with the tag
      its row is committed to; a pending one that did not is gone. */
  ghost predicate PingServed(s: Tables, s': Tables, room: RoomId, token: TokenId, tag: Option<Tag>, now: int) {
    var known := room in s.rooms && token in s.participants && s.participants[token].room == room;
    && OnlyConcerns(s, s', token) && s'.rooms == s.rooms && s'.outbox == s.outbox && s'.push == s.push
    && (IsMember(s', room, token) <==>
        known && (|| !s.participants[token].pending
                  || (tag.Some? && s.participants[token].commitment == Some(Sha256(tag.value)))))
    && (IsMember(s', room, token) ==> PresentFrom(s', room, token, now))
    && (known && !IsMember(s', room, token) ==> token !in s'.participants)
    && (!known ==> s' == s)
  }

  /** A message is stored exactly when a member sends one with an id while catch-up is on. */
  ghost predicate MessageServed(s: Tables, s': Tables, room: RoomId, sender: TokenId, id: Option<MsgId>, now: int) {
    var member := room in s.rooms && IsMember(s, room, sender);
    && s'.participants == s.participants && s'.rooms == s.rooms && s'.push == s.push
    && (forall m :: m in s'.outbox <==>
          m in s.outbox || (member && s.rooms[room] && m.room == room && Some(m.id) == id))
    && (if member then PresentFrom(s', room, sender, now) else s' == s)
  }

  /** Only a member switches catch-up; switching it off leaves no message of the room, switching it on
      brings none, and no other room notices. */
  ghost predicate SwitchServed(s: Tables, s': Tables, room: RoomId, sender: TokenId, on: bool, now: int) {
    if room !in s.rooms || !IsMember(s, room, sender) then s' == s
    else
      && s'.participants == s.participants && s'.push == s.push && s'.rooms - {room} == s.rooms - {room}
      && (forall m: OutboxRow :: m.room != room ==> (m in s'.outbox <==> m in s.outbox))
      && room in s'.rooms && s'.rooms[room] == on && (if on then s'.outbox == s.outbox else StoresNothing(s', room))
      && PresentFrom(s', room, sender, now)
  }

  /** Only a member is served; it is present afterwards, and nothing else changes. */
  ghost predicate AttendServed(s: Tables, s': Tables, room: RoomId, token: TokenId, now: int) {
    if room !in s.rooms || !IsMember(s, room, token) then s' == s
    else
      && s' == s.(presence := s'.presence) && PresentFrom(s', room, token, now)
      && s'.presence - {token} == s.presence - {token}
  }

  ghost predicate SubscribeServed(s: Tables, s': Tables, room: RoomId, token: TokenId, endpoint: Endpoint) {
    && s' == s.(push := s'.push)
    && forall p :: p in s'.push <==>
         p in s.push || (room in s.rooms && IsMember(s, room, token) && p == Subscription(room, endpoint))
  }

  /** Exactly one member leaves, its presence with it, and nothing else changes. */
  ghost predicate LeaveServed(s: Tables, s': Tables, room: RoomId, token: TokenId) {
    if room !in s.rooms || !IsMember(s, room, token) then s' == s
    else
      && OthersUntouched(s, s', room) && OnlyConcerns(s, s', token) && s'.rooms == s.rooms
      && Members(s', room) == Members(s, room) - {token} && s'.presence.Keys == s.presence.Keys - {token}
      && s'.outbox == s.outbox && s'.push == s.push
  }

  /** Nothing of the room is left, and nothing of another room has changed. */
  ghost predicate DisbandServed(s: Tables, s': Tables, room: RoomId, sender: TokenId) {
    if room !in s.rooms || !IsMember(s, room, sender) then s' == s
    else !Mentions(s', room) && OthersUntouched(s, s', room)
  }

  // ----- And keeps -----

  lemma NotedIsPresent(s: Tables, room: RoomId, token: TokenId, now: int)
    requires Sound(s) && IsMember(s, room, token)
    ensures var s' := Noted(s, room, token, now);
            && Sound(s') && PresentFrom(s', room, token, now)
            && s'.presence.Keys == s.presence.Keys + {token}
            && forall t :: t in s.presence && t != token ==> s'.presence[t] == s.presence[t]
  {
  }

  lemma CleanedIsInvisible(s: Tables, now: int)
    requires Sound(s)
    ensures var s' := Cleaned(s, now);
            && Sound(s') && SameCounts(s, s', now)
            && s'.rooms == s.rooms && s'.outbox == s.outbox && s'.push == s.push
            && (forall t :: t in s'.participants ==> t in s.participants && s'.participants[t] == s.participants[t])
            && (forall t :: t in s.participants
                            && (!s.participants[t].pending || s.participants[t].joinedAt >= now - 660) ==>
                              t in s'.participants)
  {
    CleanedKeeps(s, now);
    assert forall room, later :: later >= now ==>
             Counted(Pruned(s.presence, now), room, later) == Counted(s.presence, room, later);
    assert s.presence - Abandoned(s, now) == s.presence;
    assert Pruned(s.presence, now) - Abandoned(s, now) == Pruned(s.presence, now);
  }

  lemma OpenIsServed(s: Tables, room: RoomId, catchUp: bool, token: TokenId, now: int)
    requires Sound(s) && token !in s.participants
    ensures var s' := RoomOpened(s, room, catchUp, token, now);
            Sound(s') && OpenServed(s, s', room, catchUp, token, now)
  {
    SoundKept(s, Open(room, catchUp, token, now));
    if room in s.rooms {
      hide Cleaned, Sound, SameCounts;
      CleanedIsInvisible(s, now);
    } else {
      hide Cleaned, Sound, PresentFrom, Touched;
      var made := s.(rooms := s.rooms[room := catchUp],
                     participants := s.participants[token := Participant(room, now, false, None)]);
      NewIsSound(s, room, catchUp, token, now);
      NotedIsPresent(made, room, token, now);
    }
  }

  /** The new room with its first member, before the member has been noted. */
  lemma NewIsSound(s: Tables, room: RoomId, catchUp: bool, token: TokenId, now: int)
    requires Sound(s) && token !in s.participants && room !in s.rooms
    ensures Sound(s.(rooms := s.rooms[room := catchUp],
                     participants := s.participants[token := Participant(room, now, false, None)]))
    ensures forall t :: t in s.participants ==> s.participants[t].room != room
  {
  }

  lemma ApproveIsServed(s: Tables, room: RoomId, approver: TokenId, digest: Digest, token: TokenId, now: int)
    requires Sound(s) && token !in s.participants
    ensures var s' := Approved(s, room, approver, digest, token, now);
            Sound(s') && ApproveServed(s, s', room, approver, digest, token, now)
  {
    SoundKept(s, Request.Approve(room, approver, digest, token, now));
    if room in s.rooms && IsMember(s, room, approver) { NotedIsPresent(s, room, approver, now); }
  }

  lemma PingIsServed(s: Tables, room: RoomId, token: TokenId, tag: Option<Tag>, now: int)
    requires Sound(s)
    ensures var s' := Pinged(s, room, token, tag, now);
            Sound(s') && PingServed(s, s', room, token, tag, now)
  {
    hide Cleaned;
    SoundKept(s, Request.Ping(room, token, tag, now));
    if room in s.rooms && token in s.participants && s.participants[token].room == room {
      var p := s.participants[token];
      if !p.pending || Claims(p, tag) {
        var active := if p.pending
                      then s.(participants := s.participants[token := p.(pending := false, commitment := None)]) else s;
        NotedIsPresent(active, room, token, now);
        CleanedIsInvisible(Noted(active, room, token, now), now);
      }
    }
  }

  lemma MessageIsServed(s: Tables, room: RoomId, sender: TokenId, id: Option<MsgId>, now: int)
    requires Sound(s)
    ensures var s' := Messaged(s, room, sender, id, now);
            Sound(s') && MessageServed(s, s', room, sender, id, now)
  {
    SoundKept(s, Request.Message(room, sender, id, now));
    if room in s.rooms && IsMember(s, room, sender) { NotedIsPresent(s, room, sender, now); }
  }

  lemma SwitchIsServed(s: Tables, room: RoomId, sender: TokenId, on: bool, now: int)
    requires Sound(s)
    ensures var s' := Switched(s, room, sender, on, now);
            Sound(s') && SwitchServed(s, s', room, sender, on, now)
  {
    SoundKept(s, Request.Settings(room, sender, on, now));
    if room in s.rooms && IsMember(s, room, sender) { NotedIsPresent(s, room, sender, now); }
  }

  lemma AttendIsServed(s: Tables, room: RoomId, token: TokenId, now: int)
    requires Sound(s)
    ensures var s' := Attended(s, room, token, now); Sound(s') && AttendServed(s, s', room, token, now)
  {
    if room in s.rooms && IsMember(s, room, token) { NotedIsPresent(s, room, token, now); }
  }

  lemma SubscribeIsServed(s: Tables, room: RoomId, token: TokenId, endpoint: Endpoint)
    requires Sound(s)
    ensures var s' := Subscribed(s, room, token, endpoint);
            Sound(s') && SubscribeServed(s, s', room, token, endpoint)
  {
  }

  lemma LeaveIsServed(s: Tables, room: RoomId, token: TokenId)
    requires Sound(s)
    ensures var s' := Left(s, room, token); Sound(s') && LeaveServed(s, s', room, token)
  {
    if room in s.rooms && IsMember(s, room, token) { LeaveRemovesOne(s, room, token); }
  }

  lemma DisbandIsServed(s: Tables, room: RoomId, sender: TokenId)
    requires Sound(s)
    ensures var s' := Disbanded(s, room, sender); Sound(s') && DisbandServed(s, s', room, sender)
  {
    DisbandKeeps(s, room, sender);
    if room in s.rooms && IsMember(s, room, sender) { DisbandClears(s, room, sender); }
  }

  /** Once a room's row is deleted, only the outbox can still mention it, and no other room has changed. */
  lemma GoneIsGone(s: Tables, room: RoomId)
    requires Sound(s)
    ensures var s' := RoomGone(s, room);
            && (Mentions(s', room) ==> exists m :: m in s.outbox && m.room == room)
            && OthersUntouched(s, s', room)
  {
  }

  // ----- The statements -----

  class Database {
    var rooms: map<RoomId, bool>
    var participants: map<TokenId, Participant>
    var presence: Rows
    var outbox: set<OutboxRow>
    var push: set<Subscription>
    var presenceMarker: Option<int>
    var pendingMarker: Option<int>

    ghost function State(): Tables
      reads this
    {
      Tables(rooms, participants, presence, outbox, push, presenceMarker, pendingMarker)
    }

    /** Presence belongs to active participants of the same room, participants and subscriptions to
        existing rooms, stored messages to rooms with catch-up on. */
    ghost predicate Valid()
      reads this
    {
      Sound(State())
    }

    constructor ()
      ensures Valid() && State() == EMPTY
    {
      rooms, participants, presence, outbox, push := map[], map[], map[], {}, {};
      presenceMarker, pendingMarker := None, None;
    }

    /** The member counts as present from now on; nobody else's row changes. */
    method TouchPresence(room: RoomId, token: TokenId, now: int)
      requires Valid() && IsMember(State(), room, token)
      modifies this`presence
      ensures Valid() && State() == Noted(old(State()), room, token, now)
      ensures PresentFrom(State(), room, token, now)
      ensures presence.Keys == old(presence).Keys + {token}
      ensures forall t :: t in old(presence) && t != token ==> presence[t] == old(presence)[t]
    {
      NotedIsPresent(State(), room, token, now);
      if token in presence && now - presence[token].at < FRESHNESS {
        return;
      }
      if token in presence {
        presence := presence[token := presence[token].(at := now)];
      } else {
        presence := presence[token := Seen(room, now)];
      }
    }

    method DeleteParticipant(token: TokenId)
      requires Valid()
      modifies this`participants, this`presence
      ensures Valid() && State() == Without(old(State()), {token})
    {
      participants := participants - {token};
      presence := presence - {token};
    }

    /** The count is what it would be without the cleanups, and they take no active participant along. */
    method ParticipantCount(room: RoomId, now: int) returns (count: nat)
      requires Valid()
      modifies this`participants, this`presence, this`presenceMarker, this`pendingMarker
      ensures Valid() && State() == Cleaned(old(State()), now)
      ensures count == |Counted(old(presence), room, now)|
      ensures forall t :: t in old(participants)
                          && (!old(participants)[t].pending || old(participants)[t].joinedAt >= now - 660) ==>
                            t in participants
    {
      CleanedIsInvisible(State(), now);
      PresencePruneStale(now);
      PendingPruneStale(now);
      count := |Counted(presence, room, now)|;
    }

    /** Afterwards presence was cleaned within the last 30 seconds, and no count ever differs for it. */
    method PresencePruneStale(now: int)
      requires Valid()
      modifies this`presence, this`presenceMarker
      ensures Valid() && SameCounts(old(State()), State(), now)
      ensures presenceMarker.Some? && now - presenceMarker.value < 30
      ensures var due := old(presenceMarker).None? || now - old(presenceMarker).value >= 30;
              forall t :: t in presence <==> t in old(presence) && (due ==> old(presence)[t].at >= now - 45)
      ensures State() == PresenceCleaned(old(State()), now)
    {
      if presenceMarker.Some? && now - presenceMarker.value < PRUNE_INTERVAL {
        return;
      }
      presenceMarker := Some(now);
      var cutoff := now - WINDOW;
      presence := map t | t in presence && !(presence[t].at < cutoff) :: presence[t];
      assert presence == Pruned(old(presence), now);
    }

    /** Afterwards pending rows were collected within the last minute. Whoever is active keeps the row and
        whoever is present the presence; no row that has been pending for 720 seconds is left. */
    method PendingPruneStale(now: int)
      requires Valid()
      modifies this`participants, this`presence, this`pendingMarker
      ensures Valid() && presence == old(presence)
      ensures pendingMarker.Some? && now - pendingMarker.value < 60
      ensures forall t :: t in old(participants) && !old(participants)[t].pending ==>
                            t in participants && participants[t] == old(participants)[t]
      ensures forall t :: t in old(participants) && old(participants)[t].joinedAt >= now - 660 ==>
                            t in participants && participants[t] == old(participants)[t]
      ensures old(PendingYoung(State(), now)) ==>
                forall t :: t in participants && participants[t].pending ==> participants[t].joinedAt > now - 720
      ensures State() == PendingCleaned(old(State()), now)
    {
      if pendingMarker.Some? && now - pendingMarker.value < PENDING_INTERVAL {
        return;
      }
      pendingMarker := Some(now);
      var cutoff := now - PENDING_TTL;
      var gone := set t | t in participants && participants[t].pending && participants[t].joinedAt < cutoff;
      assert gone == Abandoned(old(State()), now);
      participants := participants - gone;
      presence := presence - gone;
      assert presence == old(presence);
    }

    /** POST /api/rooms: the first caller creates the room and becomes a member. */
    method OpenRoom(room: RoomId, catchUp: bool, token: TokenId, now: int) returns (status: Status)
      requires Valid() && token !in participants
      modifies this
      ensures Valid() && OpenServed(old(State()), State(), room, catchUp, token, now)
      ensures status == if room in old(rooms) then Ok else Created
      ensures State() == RoomOpened(old(State()), room, catchUp, token, now)
    {
      hide OpenServed;
      OpenIsServed(State(), room, catchUp, token, now);
      if room !in rooms {
        rooms := rooms[room := catchUp];
        participants := participants[token := Participant(room, now, false, None)];
        TouchPresence(room, token, now);
        return Created;
      }
      var _ := ParticipantCount(room, now);
      return Ok;
    }

    method Approve(room: RoomId, approver: TokenId, digest: Digest, token: TokenId, now: int) returns (status: Status)
      requires Valid() && token !in participants
      modifies this
      ensures Valid() && ApproveServed(old(State()), State(), room, approver, digest, token, now)
      ensures status == if room !in old(rooms) then NotFound
                        else if IsMember(old(State()), room, approver) then Ok else Forbidden
      ensures State() == Approved(old(State()), room, approver, digest, token, now)
    {
      hide ApproveServed;
      ApproveIsServed(State(), room, approver, digest, token, now);
      if room !in rooms {
        return NotFound;
      }
      if !(approver in participants && participants[approver].room == room) {
        return Forbidden;
      }
      if participants[approver].pending {
        return Forbidden;
      }
      TouchPresence(room, approver, now);
      participants := participants[token := Participant(room, now, true, Some(digest))];
      return Ok;
    }

    /** POST /presence, where a pending token is claimed or burned. */
    method Ping(room: RoomId, token: TokenId, tag: Option<Tag>, now: int) returns (status: Status)
      requires Valid()
      modifies this
      ensures Valid() && PingServed(old(State()), State(), room, token, tag, now)
      ensures status == if room !in old(rooms) then NotFound
                        else if IsMember(State(), room, token) then Ok else Forbidden
      ensures State() == Pinged(old(State()), room, token, tag, now)
    {
      hide PingServed;
      PingIsServed(State(), room, token, tag, now);
      if room !in rooms {
        return NotFound;
      }
      if !(token in participants && participants[token].room == room) {
        return Forbidden;
      }
      var row := participants[token];
      if row.pending {
        if tag.None? || row.commitment.None? || row.commitment.value != Sha256(tag.value) {
          DeleteParticipant(token);
          return Forbidden;
        }
        participants := participants[token := row.(pending := false, commitment := None)];
      }
      TouchPresence(room, token, now);
      var _ := ParticipantCount(room, now);
      return Ok;
    }

    /** POST /message; `id` is absent for an ephemeral status or a message without an id. */
    method Message(room: RoomId, sender: TokenId, id: Option<MsgId>, now: int) returns (status: Status)
      requires Valid()
      modifies this
      ensures Valid() && MessageServed(old(State()), State(), room, sender, id, now)
      ensures status == if room !in old(rooms) then NotFound
                        else if IsMember(old(State()), room, sender) then Ok else Forbidden
      ensures State() == Messaged(old(State()), room, sender, id, now)
    {
      hide MessageServed;
      MessageIsServed(State(), room, sender, id, now);
      if room !in rooms {
        return NotFound;
      }
      if !(sender in participants && participants[sender].room == room) || participants[sender].pending {
        return Forbidden;
      }
      if id.Some? && rooms[room] {
        outbox := outbox + {OutboxRow(room, id.value)};
      }
      TouchPresence(room, sender, now);
      return Ok;
    }

    method Settings(room: RoomId, sender: TokenId, on: bool, now: int) returns (status: Status)
      requires Valid()
      modifies this
      ensures Valid() && SwitchServed(old(State()), State(), room, sender, on, now)
      ensures status == if room !in old(rooms) then NotFound
                        else if IsMember(old(State()), room, sender) then Ok else Forbidden
      ensures State() == Switched(old(State()), room, sender, on, now)
    {
      hide SwitchServed;
      SwitchIsServed(State(), room, sender, on, now);
      if room !in rooms {
        return NotFound;
      }
      if !(sender in participants && participants[sender].room == room) || participants[sender].pending {
        return Forbidden;
      }
      rooms := rooms[room := on];
      if !on {
        WipeOutbox(room);
      }
      TouchPresence(room, sender, now);
      return Ok;
    }

    /** A subscriber token, a wrapped token or a rejection: only the member's presence changes. */
    method Attend(room: RoomId, token: TokenId, now: int) returns (status: Status)
      requires Valid()
      modifies this`presence
      ensures Valid() && AttendServed(old(State()), State(), room, token, now)
      ensures status == if room !in old(rooms) then NotFound
                        else if IsMember(old(State()), room, token) then Ok else Forbidden
      ensures State() == Attended(old(State()), room, token, now)
    {
      hide AttendServed;
      AttendIsServed(State(), room, token, now);
      if room !in rooms {
        return NotFound;
      }
      if !(token in participants && participants[token].room == room) || participants[token].pending {
        return Forbidden;
      }
      TouchPresence(room, token, now);
      return Ok;
    }

    method WipeOutbox(room: RoomId)
      modifies this`outbox
      ensures outbox == OutboxWithout(old(State()), room)
    {
      outbox := set m | m in outbox && m.room != room;
    }

    method Subscribe(room: RoomId, token: TokenId, endpoint: Endpoint) returns (status: Status)
      requires Valid()
      modifies this`push
      ensures Valid() && SubscribeServed(old(State()), State(), room, token, endpoint)
      ensures status == if room !in old(rooms) then NotFound
                        else if IsMember(old(State()), room, token) then Ok else Forbidden
      ensures State() == Subscribed(old(State()), room, token, endpoint)
    {
      hide SubscribeServed;
      SubscribeIsServed(State(), room, token, endpoint);
      if room !in rooms {
        return NotFound;
      }
      if !(token in participants && participants[token].room == room) || participants[token].pending {
        return Forbidden;
      }
      push := push + {Subscription(room, endpoint)};
      return Ok;
    }

    method Leave(room: RoomId, token: TokenId) returns (status: Status)
      requires Valid()
      modifies this`participants, this`presence
      ensures Valid() && LeaveServed(old(State()), State(), room, token)
      ensures status == if room !in old(rooms) then NotFound
                        else if IsMember(old(State()), room, token) then Ok else Forbidden
      ensures State() == Left(old(State()), room, token)
    {
      hide LeaveServed;
      LeaveIsServed(State(), room, token);
      if room !in rooms {
        return NotFound;
      }
      if !(token in participants && participants[token].room == room) || participants[token].pending {
        return Forbidden;
      }
      DeleteParticipant(token);
      return Ok;
    }

    method Disband(room: RoomId, sender: TokenId) returns (status: Status)
      requires Valid()
      modifies this
      ensures Valid() && DisbandServed(old(State()), State(), room, sender)
      ensures status == if room !in old(rooms) then NotFound
                        else if IsMember(old(State()), room, sender) then Ok else Forbidden
      ensures State() == Disbanded(old(State()), room, sender)
    {
      hide DisbandServed;
      DisbandIsServed(State(), room, sender);
      if room !in rooms {
        return NotFound;
      }
      if !(sender in participants && participants[sender].room == room) || participants[sender].pending {
        return Forbidden;
      }
      DeleteRoom(room);
      WipeOutbox(room);
      return Ok;
    }

    /** DELETE FROM rooms, with ON DELETE CASCADE: only the outbox, a file of its own, can still mention
        the room, and nothing of another room goes along. */
    method DeleteRoom(room: RoomId)
      requires Valid()
      modifies this`rooms, this`participants, this`presence, this`push
      ensures Mentions(State(), room) ==> exists m :: m in outbox && m.room == room
      ensures OthersUntouched(old(State()), State(), room)
      ensures State() == RoomGone(old(State()), room)
    {
      hide Mentions, OthersUntouched, Sound;
      GoneIsGone(State(), room);
      rooms := rooms - {room};
      var gone := set t | t in participants && participants[t].room == room;
      participants := participants - gone;
      presence := map t | t in presence && presence[t].room != room && t !in gone :: presence[t];
      push := set p | p in push && p.room != room;
    }

    /** The dispatch on method and path: every request is one step of a run. */
    method Serve(r: Request)
      requires Valid() && DrawsFresh(State(), r)
      modifies this
      ensures Valid() && State() == RelayRuns.Handle(old(State()), r)
    {
      match r
      case Open(room, catchUp, token, now) => var _ := OpenRoom(room, catchUp, token, now);
      case Approve(room, approver, digest, token, now) => var _ := Approve(room, approver, digest, token, now);
      case Ping(room, token, tag, now) => var _ := Ping(room, token, tag, now);
      case Message(room, sender, id, now) => var _ := Message(room, sender, id, now);
      case Settings(room, sender, on, now) => var _ := Settings(room, sender, on, now);
      case Attend(room, token, now) => var _ := Attend(room, token, now);
      case Subscribe(room, token, endpoint, _) => var _ := Subscribe(room, token, endpoint);
      case Leave(room, token, _) => var _ := Leave(room, token);
      case Disband(room, sender, _) => var _ := Disband(room, sender);
      case Count(now) =>
        PresencePruneStale(now);
        PendingPruneStale(now);
      case Stats(now) => PresencePruneStale(now);
    }
  }
}
