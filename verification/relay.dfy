/** The relay's tables and the request handlers that change them. A handler's statements run here
    without interleaving; one clock reading stands for all those a request makes. */
module Relay {
  import opened RelayIds
  import opened Handshake
  import opened Presence
  import opened Wrappers

  type MsgId(==, !new)

  const LOBBY_JWT_TTL := 10 * 60
  const PENDING_TTL := LOBBY_JWT_TTL + 60
  const PENDING_INTERVAL := 60

  /** A row of the participants table; `commitment` is claim_tag_hash. */
  datatype Participant = Participant(room: RoomId, joinedAt: int, pending: bool, commitment: Option<Digest>)

  datatype OutboxRow = OutboxRow(room: RoomId, id: MsgId)

  datatype Subscription = Subscription(room: RoomId, endpoint: Endpoint)

  /** `rooms` holds each room's catch-up flag; the markers are when the two cleanups last ran. */
  datatype Tables = Tables(
    rooms: map<RoomId, bool>,
    participants: map<TokenId, Participant>,
    presence: Rows,
    outbox: set<OutboxRow>,
    push: set<Subscription>,
    presenceMarker: Option<int>,
    pendingMarker: Option<int>)

  datatype Status = Ok | Created | NotFound | Forbidden

  // ----- What each handler does to the tables -----

  predicate IsMember(s: Tables, room: RoomId, token: TokenId) {
    token in s.participants && s.participants[token].room == room && !s.participants[token].pending
  }

  function Noted(s: Tables, room: RoomId, token: TokenId, now: int): Tables {
    s.(presence := Touched(s.presence, room, token, now))
  }

  /** Deleting participants takes their presence along. */
  function Without(s: Tables, gone: set<TokenId>): Tables {
    s.(participants := s.participants - gone, presence := s.presence - gone)
  }

  function Abandoned(s: Tables, now: int): set<TokenId> {
    set t | t in s.participants && s.participants[t].pending && s.participants[t].joinedAt < now - PENDING_TTL
  }

  function PresenceCleaned(s: Tables, now: int): Tables {
    if Due(s.presenceMarker, now, PRUNE_INTERVAL)
    then s.(presence := Pruned(s.presence, now), presenceMarker := Some(now)) else s
  }

  function PendingCleaned(s: Tables, now: int): Tables {
    if Due(s.pendingMarker, now, PENDING_INTERVAL)
    then Without(s, Abandoned(s, now)).(pendingMarker := Some(now)) else s
  }

  /** The two cleanups every count begins with. */
  function Cleaned(s: Tables, now: int): Tables {
    PendingCleaned(PresenceCleaned(s, now), now)
  }

  function RoomOpened(s: Tables, room: RoomId, catchUp: bool, token: TokenId, now: int): Tables {
    if room in s.rooms then Cleaned(s, now)
    else Noted(s.(rooms := s.rooms[room := catchUp],
                  participants := s.participants[token := Participant(room, now, false, None)]), room, token, now)
  }

  function Approved(s: Tables, room: RoomId, approver: TokenId, digest: Digest, token: TokenId, now: int): Tables {
    if room !in s.rooms || !IsMember(s, room, approver) then s
    else Noted(s, room, approver, now).(
      participants := s.participants[token := Participant(room, now, true, Some(digest))])
  }

  /** Whether a pending row can be claimed with this tag. */
  predicate Claims(p: Participant, tag: Option<Tag>) {
    tag.Some? && p.commitment == Some(Sha256(tag.value))
  }

  function Pinged(s: Tables, room: RoomId, token: TokenId, tag: Option<Tag>, now: int): Tables {
    if room !in s.rooms || token !in s.participants || s.participants[token].room != room then s
    else
      var p := s.participants[token];
      if p.pending && !Claims(p, tag) then Without(s, {token})
      else
        var active := s.(participants := s.participants[token := p.(pending := false, commitment := None)]);
        Cleaned(Noted(if p.pending then active else s, room, token, now), now)
  }

  function Messaged(s: Tables, room: RoomId, sender: TokenId, id: Option<MsgId>, now: int): Tables {
    if room !in s.rooms || !IsMember(s, room, sender) then s
    else
      Noted(if id.Some? && s.rooms[room] then s.(outbox := s.outbox + {OutboxRow(room, id.value)}) else s,
            room, sender, now)
  }

  function Switched(s: Tables, room: RoomId, sender: TokenId, on: bool, now: int): Tables {
    if room !in s.rooms || !IsMember(s, room, sender) then s
    else
      Noted(s.(rooms := s.rooms[room := on], outbox := if on then s.outbox else OutboxWithout(s, room)),
            room, sender, now)
  }

  function OutboxWithout(s: Tables, room: RoomId): set<OutboxRow> {
    set m | m in s.outbox && m.room != room
  }

  /** What a member asks for without changing anything but its presence. */
  function Attended(s: Tables, room: RoomId, token: TokenId, now: int): Tables {
    if room !in s.rooms || !IsMember(s, room, token) then s else Noted(s, room, token, now)
  }

  function Subscribed(s: Tables, room: RoomId, token: TokenId, endpoint: Endpoint): Tables {
    if room !in s.rooms || !IsMember(s, room, token) then s
    else s.(push := s.push + {Subscription(room, endpoint)})
  }

  function Left(s: Tables, room: RoomId, token: TokenId): Tables {
    if room !in s.rooms || !IsMember(s, room, token) then s else Without(s, {token})
  }

  /** Deleting a room cascades to its participants, their presence and its subscriptions. */
  function RoomGone(s: Tables, room: RoomId): Tables {
    var gone := set t | t in s.participants && s.participants[t].room == room;
    s.(rooms := s.rooms - {room}, participants := s.participants - gone,
       presence := map t | t in s.presence && s.presence[t].room != room && t !in gone :: s.presence[t],
       push := set p | p in s.push && p.room != room)
  }

  function Disbanded(s: Tables, room: RoomId, sender: TokenId): Tables {
    if room !in s.rooms || !IsMember(s, room, sender) then s
    else RoomGone(s, room).(outbox := OutboxWithout(s, room))
  }

  const EMPTY := Tables(map[], map[], map[], {}, {}, None, None)
}
