/** Joining a room: any number of tabs that knock, members that approve, repeated knocks, token
    events lost, delayed or repeated by the network, reloads and cleanups. Each request and each token
    event is handled in one step. */
module Join {
  import opened RelayIds
  import opened Handshake
  import opened Relay
  import opened RelayRuns
  import opened Wrappers
  import P = Presence

  type TabId(==, !new)

  /** The outstanding knock a tab holds the private key of. */
  datatype Attempt = Attempt(knock: KnockId, own: Scalar)

  datatype Tab = Tab(room: RoomId, pending: Option<Attempt>, token: Option<TokenId>, tag: Option<Tag>)

  datatype TokenEvent = TokenEvent(knock: KnockId, wrapped: Wrapped)

  /** Who knocked, and how a participant row came to be: history, read by no handler. */
  datatype Knock = Knock(tab: TabId, own: Scalar)
  datatype Origin = ByOpening | ByApproval(knock: KnockId, ephemeral: Scalar)

  /** `claimed` is the token a knock led its tab to, `shown` the tag that activated a row. */
  datatype World = World(
    tables: Tables,
    tabs: map<TabId, Tab>,
    events: set<TokenEvent>,
    knocks: map<KnockId, Knock>,
    origin: map<TokenId, Origin>,
    claimed: map<KnockId, TokenId>,
    shown: map<TokenId, Tag>)

  datatype Event =
    | Opens(tab: TabId, catchUp: bool, token: TokenId, now: int)
    | Knocks(tab: TabId, knock: KnockId, own: Scalar)
    | KnockFails(tab: TabId)
    | Approves(approver: TokenId, knock: KnockId, ephemeral: Scalar, nonce: Nonce, token: TokenId, now: int)
    | Receives(tab: TabId, event: TokenEvent)
    | Pings(tab: TabId, now: int, answered: bool)
    | Reloads(tab: TabId)
    | Elsewhere(request: Request)

  // ----- The clients -----

  /** The token event handler of a tab. */
  function Unwrapping(tab: Tab, e: TokenEvent): Option<Unwrapped> {
    if tab.pending.None? || tab.token.Some? || e.knock != tab.pending.value.knock then None
    else UnwrapAndDeriveClaim(tab.pending.value.own, e.wrapped, tab.pending.value.knock)
  }

  /** What a tab does with the answer to its ping: a tag is spent on success, and a room that is gone
      or a tagged ping that is refused ends the session. */
  function Answered(tab: Tab, status: Status): Tab {
    match status
    case Ok => tab.(tag := None)
    case NotFound => Tab(tab.room, None, None, None)
    case _ => if tab.tag.Some? then Tab(tab.room, None, None, None) else tab
  }

  predicate Possible(w: World, e: Event) {
    match e
    case Opens(tab, _, token, _) => tab in w.tabs && token !in w.origin
    case Knocks(tab, knock, own) =>
      tab in w.tabs && w.tabs[tab].token.None? && knock !in w.knocks
    case KnockFails(tab) => tab in w.tabs
    case Approves(_, knock, _, _, token, _) => knock in w.knocks && w.knocks[knock].tab in w.tabs && token !in w.origin
    case Receives(tab, event) => tab in w.tabs && event in w.events
    case Pings(tab, _, _) => tab in w.tabs && w.tabs[tab].token.Some?
    case Reloads(tab) => tab in w.tabs
    case Elsewhere(r) => !r.Open? && !r.Approve? && (r.Ping? ==> r.tag.None? || r.tag.value.Foreign?)
  }

  /** Opening a room that exists changes nothing for the tab: it has to knock. */
  function Opening(w: World, tab: TabId, catchUp: bool, token: TokenId, now: int): World
    requires tab in w.tabs
  {
    var room := w.tabs[tab].room;
    var tables := RoomOpened(w.tables, room, catchUp, token, now);
    if room in w.tables.rooms then w.(tables := tables)
    else w.(tables := tables, tabs := w.tabs[tab := w.tabs[tab].(token := Some(token), tag := None)],
            origin := w.origin[token := ByOpening])
  }

  function Knocking(w: World, tab: TabId, knock: KnockId, own: Scalar): World
    requires tab in w.tabs
  {
    w.(tabs := w.tabs[tab := w.tabs[tab].(pending := Some(Attempt(knock, own)))],
       knocks := w.knocks[knock := Knock(tab, own)])
  }

  /** beginApprove, /approve and, if that was allowed, /token. */
  function Approving(w: World, approver: TokenId, knock: KnockId, ephemeral: Scalar, nonce: Nonce, token: TokenId,
      now: int): World
    requires knock in w.knocks && w.knocks[knock].tab in w.tabs
  {
    var room := w.tabs[w.knocks[knock].tab].room;
    var binding := BeginApprove(ephemeral, Pub(w.knocks[knock].own), knock);
    var tables := Approved(w.tables, room, approver, binding.claimTagHash, token, now);
    if room !in w.tables.rooms || !IsMember(w.tables, room, approver) then w.(tables := tables)
    else w.(tables := tables, events := w.events + {TokenEvent(knock, Wrap(binding, nonce, token))},
            origin := w.origin[token := ByApproval(knock, ephemeral)])
  }

  function Receiving(w: World, tab: TabId, e: TokenEvent): World
    requires tab in w.tabs
  {
    var u := Unwrapping(w.tabs[tab], e);
    if u.None? then w
    else w.(tabs := w.tabs[tab := Tab(w.tabs[tab].room, None, Some(u.value.token), Some(u.value.tag))],
            claimed := w.claimed[e.knock := u.value.token])
  }

  /** A ping, whose answer may get lost. */
  function Pinging(w: World, tab: TabId, now: int, answered: bool): World
    requires tab in w.tabs && w.tabs[tab].token.Some?
  {
    var t := w.tabs[tab];
    var tables := Pinged(w.tables, t.room, t.token.value, t.tag, now);
    var status := if t.room !in w.tables.rooms then NotFound
                  else if IsMember(tables, t.room, t.token.value) then Ok else Forbidden;
    w.(tables := tables,
       tabs := if answered then w.tabs[tab := Answered(t, status)] else w.tabs,
       shown := if Activates(w.tables, t) then w.shown[t.token.value := t.tag.value] else w.shown)
  }

  function Next(w: World, e: Event): World
    requires Possible(w, e)
  {
    match e
    case Opens(tab, catchUp, token, now) => Opening(w, tab, catchUp, token, now)
    case Knocks(tab, knock, own) => Knocking(w, tab, knock, own)
    case KnockFails(tab) => w.(tabs := w.tabs[tab := w.tabs[tab].(pending := None)])
    case Approves(approver, knock, ephemeral, nonce, token, now) =>
      Approving(w, approver, knock, ephemeral, nonce, token, now)
    case Receives(tab, event) => Receiving(w, tab, event)
    case Pings(tab, now, answered) => Pinging(w, tab, now, answered)
    case Reloads(tab) => w.(tabs := w.tabs[tab := w.tabs[tab].(pending := None, tag := None)])
    case Elsewhere(r) => w.(tables := Handle(w.tables, r))
  }

  /** The ping that turns a pending row into an active one. */
  predicate Activates(s: Tables, t: Tab)
    requires t.token.Some?
  {
    && t.room in s.rooms && t.token.value in s.participants && s.participants[t.token.value].room == t.room
    && s.participants[t.token.value].pending && Claims(s.participants[t.token.value], t.tag)
  }

  ghost predicate Start(w: World) {
    && w.tables == EMPTY && w.events == {} && w.knocks == map[] && w.origin == map[]
    && w.claimed == map[] && w.shown == map[]
    && forall t :: t in w.tabs ==> w.tabs[t].pending.None? && w.tabs[t].token.None? && w.tabs[t].tag.None?
  }

  /** The worlds a run passes through. */
  ghost predicate Run(worlds: seq<World>, events: seq<Event>) {
    && |worlds| == |events| + 1 && Start(worlds[0])
    && forall i {:trigger events[i]} :: 0 <= i < |events| ==>
         Possible(worlds[i], events[i]) && worlds[i + 1] == Next(worlds[i], events[i])
  }

  // ----- The invariant -----

  function Commitment(w: World, o: Origin): Digest
    requires o.ByApproval? && o.knock in w.knocks
  {
    BeginApprove(o.ephemeral, Pub(w.knocks[o.knock].own), o.knock).claimTagHash
  }

  ghost predicate FromKnock(w: World, t: TokenId) {
    t in w.origin && w.origin[t].ByApproval? && w.origin[t].knock in w.knocks
  }

  /** Rows: where they come from, what they are committed to, how they became active. */
  ghost predicate RowsAccounted(w: World) {
    forall t :: t in w.tables.participants ==>
      var p := w.tables.participants[t];
      && t in w.origin
      && (p.pending ==> FromKnock(w, t) && p.commitment == Some(Commitment(w, w.origin[t])))
      && (!p.pending ==> w.origin[t].ByOpening? || t in w.shown)
      && (FromKnock(w, t) ==> w.knocks[w.origin[t].knock].tab in w.tabs
                              && p.room == w.tabs[w.knocks[w.origin[t].knock].tab].room)
  }

  /** Activated rows: the tag met the commitment, and it came from the tab the knock led to the row. */
  ghost predicate ShownAccounted(w: World) {
    forall t :: t in w.shown ==>
      && FromKnock(w, t) && Sha256(w.shown[t]) == Commitment(w, w.origin[t])
      && w.origin[t].knock in w.claimed && w.claimed[w.origin[t].knock] == t
  }

  ghost predicate EventsAccounted(w: World) {
    forall e :: e in w.events ==>
      var t := e.wrapped.ct.plain;
      && FromKnock(w, t) && w.origin[t].knock == e.knock
      && e.wrapped == Wrap(BeginApprove(w.origin[t].ephemeral, Pub(w.knocks[e.knock].own), e.knock), e.wrapped.nonce, t)
  }

  ghost predicate OriginsAccounted(w: World) {
    && (forall t :: t in w.origin && w.origin[t].ByApproval? ==> w.origin[t].knock in w.knocks)
    && (forall k :: k in w.claimed ==> k in w.knocks)
  }

  /** A tab that still waits has claimed nothing for its knock; one that holds a tag holds the right one. */
  ghost predicate TabsAccounted(w: World) {
    forall i :: i in w.tabs ==>
      var tab := w.tabs[i];
      && (tab.pending.Some? ==>
            && tab.pending.value.knock in w.knocks && tab.pending.value.knock !in w.claimed
            && w.knocks[tab.pending.value.knock] == Knock(i, tab.pending.value.own))
      && (tab.tag.Some? ==> tab.token.Some?)
      && (tab.token.Some? ==> tab.token.value in w.origin)
      && (tab.tag.Some? ==> HoldsTag(w, i))
  }

  ghost predicate HoldsTag(w: World, i: TabId)
    requires i in w.tabs && w.tabs[i].token.Some? && w.tabs[i].tag.Some?
  {
    var t := w.tabs[i].token.value;
    && FromKnock(w, t) && Sha256(w.tabs[i].tag.value) == Commitment(w, w.origin[t])
    && w.knocks[w.origin[t].knock].tab == i
    && w.origin[t].knock in w.claimed && w.claimed[w.origin[t].knock] == t
  }

  ghost predicate Inv(w: World) {
    && RowsAccounted(w) && ShownAccounted(w) && EventsAccounted(w) && OriginsAccounted(w) && TabsAccounted(w)
    && Sound(w.tables)
  }

  // ----- How the handlers change the rows -----

  /** Rows are only removed. */
  ghost predicate RowsShrink(s: Tables, s': Tables) {
    forall t :: t in s'.participants ==> t in s.participants && s'.participants[t] == s.participants[t]
  }

  lemma ElsewhereShrinks(s: Tables, r: Request)
    requires !r.Open? && !r.Approve?
    requires r.Ping? && r.tag.Some? ==>
               forall t :: t in s.participants && s.participants[t].pending ==>
                             s.participants[t].commitment != Some(Sha256(r.tag.value))
    ensures RowsShrink(s, Handle(s, r))
  {
  }

  /** A ping touches one row: it activates it, burns it, or leaves it as it is. */
  lemma PingRows(s: Tables, t: Tab, now: int)
    requires t.token.Some?
    ensures var s', token := Pinged(s, t.room, t.token.value, t.tag, now), t.token.value;
            && (forall x :: x in s'.participants && x != token ==>
                  x in s.participants && s'.participants[x] == s.participants[x])
            && (token in s'.participants ==>
                  && token in s.participants
                  && (if Activates(s, t) then s'.participants[token].room == t.room && !s'.participants[token].pending
                      else s'.participants[token] == s.participants[token]))
  {
  }

  lemma OpenRows(s: Tables, room: RoomId, catchUp: bool, token: TokenId, now: int)
    ensures var s' := RoomOpened(s, room, catchUp, token, now);
            && (forall x :: x in s'.participants && (x != token || room in s.rooms) ==>
                  x in s.participants && s'.participants[x] == s.participants[x])
            && (room !in s.rooms ==> token in s'.participants && !s'.participants[token].pending)
  {
  }

  // ----- Every event keeps the invariant -----

  lemma ShrinkKeeps(w: World, w': World)
    requires Inv(w) && RowsShrink(w.tables, w'.tables) && Sound(w'.tables) && w' == w.(tables := w'.tables)
    ensures Inv(w')
  {
    hide Sound;
  }

  lemma OpeningKeeps(w: World, tab: TabId, catchUp: bool, token: TokenId, now: int)
    requires Inv(w) && tab in w.tabs && token !in w.origin
    ensures Inv(Opening(w, tab, catchUp, token, now))
  {
    hide RoomOpened, Sound, RowsAccounted, ShownAccounted, EventsAccounted, OriginsAccounted, TabsAccounted;
    var room := w.tabs[tab].room;
    var w' := Opening(w, tab, catchUp, token, now);
    OpeningSound(w.tables, room, catchUp, token, now, w);
    OpenRows(w.tables, room, catchUp, token, now);
    OpeningRows(w, w', token, room);
    OneMoreOrigin(w, w', token);
    EventsKept(w, w');
    TabsKept(w, w', token);
  }

  /** Nothing that is recorded of knocks and rows changes, but a new row's origin may come in. */
  ghost predicate OnlyOriginAdded(w: World, w': World, token: TokenId) {
    && w'.knocks == w.knocks && w'.claimed == w.claimed && w'.shown == w.shown && token !in w.origin
    && (w'.origin == w.origin
        || (token in w'.origin && w'.origin == w.origin[token := w'.origin[token]]
            && (w'.origin[token].ByApproval? ==> w'.origin[token].knock in w.knocks)))
  }

  lemma OneMoreOrigin(w: World, w': World, token: TokenId)
    requires ShownAccounted(w) && OriginsAccounted(w) && OnlyOriginAdded(w, w', token)
    ensures ShownAccounted(w') && OriginsAccounted(w')
  {
  }

  lemma EventsKept(w: World, w': World)
    requires EventsAccounted(w) && w'.events <= w.events && w'.knocks == w.knocks
    requires forall t :: t in w.origin ==> t in w'.origin && w'.origin[t] == w.origin[t]
    ensures EventsAccounted(w')
  {
  }

  /** A tab may have become the holder of the new row. */
  lemma TabsKept(w: World, w': World, token: TokenId)
    requires TabsAccounted(w) && OnlyOriginAdded(w, w', token) && w'.tabs.Keys == w.tabs.Keys
    requires forall i :: i in w.tabs ==>
               || w'.tabs[i] == w.tabs[i]
               || (token in w'.origin && w'.tabs[i] == w.tabs[i].(token := Some(token), tag := None))
    ensures TabsAccounted(w')
  {
  }

  lemma OpeningSound(s: Tables, room: RoomId, catchUp: bool, token: TokenId, now: int, w: World)
    requires Sound(s) && s == w.tables && RowsAccounted(w) && token !in w.origin
    ensures Sound(RoomOpened(s, room, catchUp, token, now))
  {
    SoundKept(s, Open(room, catchUp, token, now));
  }

  lemma OpeningRows(w: World, w': World, token: TokenId, room: RoomId)
    requires RowsAccounted(w) && token !in w.origin
    requires forall x :: x in w'.tables.participants && (x != token || room in w.tables.rooms) ==>
                           x in w.tables.participants && w'.tables.participants[x] == w.tables.participants[x]
    requires room !in w.tables.rooms ==> token in w'.tables.participants && !w'.tables.participants[token].pending
    requires w'.knocks == w.knocks && w'.shown == w.shown
    requires w'.origin == if room in w.tables.rooms then w.origin else w.origin[token := ByOpening]
    requires w'.tabs.Keys == w.tabs.Keys && forall t :: t in w.tabs ==> w'.tabs[t].room == w.tabs[t].room
    ensures RowsAccounted(w')
  {
  }

  lemma KnockingKeeps(w: World, tab: TabId, knock: KnockId, own: Scalar)
    requires Inv(w) && tab in w.tabs && w.tabs[tab].token.None? && knock !in w.knocks
    ensures Inv(Knocking(w, tab, knock, own))
  {
    hide Sound;
  }

  /** Forgetting the knock, and perhaps the tag. */
  lemma ForgettingKeeps(w: World, tab: TabId, tag: Option<Tag>)
    requires Inv(w) && tab in w.tabs && (tag == None || tag == w.tabs[tab].tag)
    ensures Inv(w.(tabs := w.tabs[tab := w.tabs[tab].(pending := None, tag := tag)]))
  {
    hide Sound;
  }

  lemma ApprovingKeeps(w: World, approver: TokenId, knock: KnockId, ephemeral: Scalar, nonce: Nonce, token: TokenId,
      now: int)
    requires Inv(w) && knock in w.knocks && w.knocks[knock].tab in w.tabs && token !in w.origin
    ensures Inv(Approving(w, approver, knock, ephemeral, nonce, token, now))
  {
    hide Sound, RowsAccounted, ShownAccounted, EventsAccounted, OriginsAccounted, TabsAccounted;
    var room := w.tabs[w.knocks[knock].tab].room;
    var digest := BeginApprove(ephemeral, Pub(w.knocks[knock].own), knock).claimTagHash;
    ApprovingSound(w.tables, room, approver, digest, token, now, w);
    ApprovingRows(w, approver, knock, ephemeral, nonce, token, now);
    ApprovingEvents(w, approver, knock, ephemeral, nonce, token, now);
    var w' := Approving(w, approver, knock, ephemeral, nonce, token, now);
    OneMoreOrigin(w, w', token);
    TabsKept(w, w', token);
  }

  lemma ApprovingRows(w: World, approver: TokenId, knock: KnockId, ephemeral: Scalar, nonce: Nonce, token: TokenId,
      now: int)
    requires RowsAccounted(w) && knock in w.knocks && w.knocks[knock].tab in w.tabs && token !in w.origin
    ensures RowsAccounted(Approving(w, approver, knock, ephemeral, nonce, token, now))
  {
  }

  lemma ApprovingEvents(w: World, approver: TokenId, knock: KnockId, ephemeral: Scalar, nonce: Nonce, token: TokenId,
      now: int)
    requires EventsAccounted(w) && knock in w.knocks && w.knocks[knock].tab in w.tabs && token !in w.origin
    ensures EventsAccounted(Approving(w, approver, knock, ephemeral, nonce, token, now))
  {
    hide Approved, BeginApprove;
  }

  lemma ApprovingSound(s: Tables, room: RoomId, approver: TokenId, digest: Digest, token: TokenId, now: int, w: World)
    requires Sound(s) && s == w.tables && RowsAccounted(w) && token !in w.origin
    ensures Sound(Approved(s, room, approver, digest, token, now))
  {
    SoundKept(s, Approve(room, approver, digest, token, now));
  }

  lemma ReceivingKeeps(w: World, tab: TabId, e: TokenEvent)
    requires Inv(w) && tab in w.tabs && e in w.events
    ensures Inv(Receiving(w, tab, e))
  {
    hide Sound;
    var t := e.wrapped.ct.plain;
    if Unwrapping(w.tabs[tab], e).Some? {
      HandshakeAgrees(w.origin[t].ephemeral, w.tabs[tab].pending.value.own, e.knock, e.wrapped.nonce, t);
    }
  }

  lemma PingingKeeps(w: World, tab: TabId, now: int, answered: bool)
    requires Inv(w) && tab in w.tabs && w.tabs[tab].token.Some?
    ensures Inv(Pinging(w, tab, now, answered))
  {
    hide Pinged, Sound, RowsAccounted, ShownAccounted, EventsAccounted, OriginsAccounted, TabsAccounted;
    var t := w.tabs[tab];
    var w' := Pinging(w, tab, now, answered);
    PingingSound(w.tables, t, now);
    PingRows(w.tables, t, now);
    PingingRows(w, w', t, tab);
    PingingShown(w, tab, now, answered);
    EventsKept(w, w');
    PingingTabs(w, tab, now, answered);
  }

  lemma PingingShown(w: World, tab: TabId, now: int, answered: bool)
    requires Inv(w) && tab in w.tabs && w.tabs[tab].token.Some?
    ensures var w' := Pinging(w, tab, now, answered); ShownAccounted(w') && OriginsAccounted(w')
  {
    hide Pinged, Sound, EventsAccounted;
  }

  lemma PingingTabs(w: World, tab: TabId, now: int, answered: bool)
    requires TabsAccounted(w) && tab in w.tabs && w.tabs[tab].token.Some?
    ensures TabsAccounted(Pinging(w, tab, now, answered))
  {
    hide Pinged;
  }

  lemma PingingSound(s: Tables, t: Tab, now: int)
    requires Sound(s) && t.token.Some?
    ensures Sound(Pinged(s, t.room, t.token.value, t.tag, now))
  {
    SoundKept(s, Ping(t.room, t.token.value, t.tag, now));
  }

  lemma PingingRows(w: World, w': World, t: Tab, tab: TabId)
    requires RowsAccounted(w) && t.token.Some? && tab in w.tabs && w.tabs[tab] == t
    requires var token := t.token.value;
             && (forall x :: x in w'.tables.participants && x != token ==>
                   x in w.tables.participants && w'.tables.participants[x] == w.tables.participants[x])
             && (token in w'.tables.participants ==>
                   && token in w.tables.participants
                   && (if Activates(w.tables, t)
                       then w'.tables.participants[token].room == t.room && !w'.tables.participants[token].pending
                       else w'.tables.participants[token] == w.tables.participants[token]))
    requires w'.knocks == w.knocks && w'.origin == w.origin
    requires w'.shown == if Activates(w.tables, t) then w.shown[t.token.value := t.tag.value] else w.shown
    requires w'.tabs.Keys == w.tabs.Keys && forall i :: i in w.tabs ==> w'.tabs[i].room == w.tabs[i].room
    ensures RowsAccounted(w')
  {
  }

  lemma ElsewhereKeeps(w: World, r: Request)
    requires Inv(w) && Possible(w, Elsewhere(r))
    ensures Inv(w.(tables := Handle(w.tables, r)))
  {
    SoundKept(w.tables, r);
    ElsewhereShrinks(w.tables, r);
    ShrinkKeeps(w, w.(tables := Handle(w.tables, r)));
  }

  lemma InvariantKept(w: World, e: Event)
    requires Inv(w) && Possible(w, e)
    ensures Inv(Next(w, e))
  {
    hide Inv, Opening, Knocking, Approving, Receiving, Pinging, Handle;
    match e
    case Opens(tab, catchUp, token, now) => OpeningKeeps(w, tab, catchUp, token, now);
    case Knocks(tab, knock, own) => KnockingKeeps(w, tab, knock, own);
    case KnockFails(tab) =>
      ForgettingKeeps(w, tab, w.tabs[tab].tag);
      assert w.tabs[tab].(pending := None, tag := w.tabs[tab].tag) == w.tabs[tab].(pending := None);
    case Approves(approver, knock, ephemeral, nonce, token, now) =>
      ApprovingKeeps(w, approver, knock, ephemeral, nonce, token, now);
    case Receives(tab, event) => ReceivingKeeps(w, tab, event);
    case Pings(tab, now, answered) => PingingKeeps(w, tab, now, answered);
    case Reloads(tab) => ForgettingKeeps(w, tab, None);
    case Elsewhere(r) => ElsewhereKeeps(w, r);
  }

  lemma {:induction false} InvariantAlways(worlds: seq<World>, events: seq<Event>, n: nat)
    requires Run(worlds, events) && n < |worlds|
    ensures Inv(worlds[n])
  {
    if n > 0 {
      InvariantAlways(worlds, events, n - 1);
      var e := events[n - 1];
      InvariantKept(worlds[n - 1], e);
    }
  }

  // ----- What follows -----

  /** In every run a row is active only if its tab opened the room, or a tab presented a tag that
      hashes to what the row's approver had committed to. */
  lemma ActiveIsEarned(worlds: seq<World>, events: seq<Event>, n: nat, t: TokenId)
    requires Run(worlds, events) && n < |worlds|
    requires t in worlds[n].tables.participants && !worlds[n].tables.participants[t].pending
    ensures var w := worlds[n];
            && t in w.origin
            && (w.origin[t].ByOpening?
                || (t in w.shown && FromKnock(w, t) && Sha256(w.shown[t]) == Commitment(w, w.origin[t])))
  {
    InvariantAlways(worlds, events, n);
  }

  /** However often a knock is approved, and by however many members, at most one of its rows ever
      becomes active. */
  lemma OneRowPerKnock(worlds: seq<World>, events: seq<Event>, n: nat, a: TokenId, b: TokenId)
    requires Run(worlds, events) && n < |worlds|
    requires a in worlds[n].shown && b in worlds[n].shown
    ensures FromKnock(worlds[n], a) && FromKnock(worlds[n], b)
    ensures worlds[n].origin[a].knock == worlds[n].origin[b].knock ==> a == b
  {
    InvariantAlways(worlds, events, n);
  }

  /** All the other rows of that knock are gone after the first cleanup past 660 seconds. */
  lemma OthersAreCollected(worlds: seq<World>, events: seq<Event>, n: nat, now: int, a: TokenId, b: TokenId)
    requires Run(worlds, events) && n < |worlds| && P.Due(worlds[n].tables.pendingMarker, now, PENDING_INTERVAL)
    requires FromKnock(worlds[n], a) && FromKnock(worlds[n], b)
             && worlds[n].origin[a].knock == worlds[n].origin[b].knock
    requires a in worlds[n].shown && b != a && b in worlds[n].tables.participants
    requires now > worlds[n].tables.participants[b].joinedAt + 660
    ensures b !in Cleaned(worlds[n].tables, now).participants
  {
    InvariantAlways(worlds, events, n);
  }

  // ----- From the knock to the active row -----

  /** The tab has no token yet and waits for an answer to this knock. */
  predicate Waits(tab: Tab, knock: KnockId) {
    tab.token.None? && tab.pending.Some? && tab.pending.value.knock == knock
  }

  /** The tab holds the token of a row, and a tag that the row is committed to. */
  ghost predicate HoldsClaim(w: World, tab: TabId, token: TokenId) {
    && tab in w.tabs && w.tabs[tab].token == Some(token) && w.tabs[tab].tag.Some? && HoldsTag(w, tab)
  }

  /** A token event for the knock a tab waits for gives it that event's token, and a tag that hashes to
      what the token's row is committed to. */
  lemma ReceiptHolds(w: World, tab: TabId, e: TokenEvent)
    requires Inv(w) && tab in w.tabs && e in w.events && Waits(w.tabs[tab], e.knock)
    ensures var w', t := Receiving(w, tab, e), e.wrapped.ct.plain;
            && HoldsClaim(w', tab, t) && w'.tabs[tab].room == w.tabs[tab].room && w'.tabs[tab].pending.None?
            && w'.tables == w.tables && FromKnock(w', t) && w'.origin[t].knock == e.knock
  {
    var t := e.wrapped.ct.plain;
    ReceivingKeeps(w, tab, e);
    hide Sound;
    HandshakeAgrees(w.origin[t].ephemeral, w.tabs[tab].pending.value.own, e.knock, e.wrapped.nonce, t);
  }

  /** The request an event makes, if any. */
  function RequestOf(w: World, e: Event): Option<Request>
    requires Possible(w, e)
  {
    match e
    case Opens(tab, catchUp, token, now) => Some(Open(w.tabs[tab].room, catchUp, token, now))
    case Approves(approver, knock, ephemeral, _, token, now) =>
      Some(Approve(w.tabs[w.knocks[knock].tab].room, approver,
                   BeginApprove(ephemeral, Pub(w.knocks[knock].own), knock).claimTagHash, token, now))
    case Pings(tab, now, _) => Some(Ping(w.tabs[tab].room, w.tabs[tab].token.value, w.tabs[tab].tag, now))
    case Elsewhere(r) => Some(r)
    case _ => None
  }

  lemma TablesMove(w: World, e: Event)
    requires Inv(w) && Possible(w, e)
    ensures var r := RequestOf(w, e);
            if r.None? then Next(w, e).tables == w.tables
            else DrawsFresh(w.tables, r.value) && Next(w, e).tables == Handle(w.tables, r.value)
  {
    hide Sound, RoomOpened, Approved, Pinged, BeginApprove;
  }

  /** The event pings this token, disbands its room, or reloads the page that holds it. */
  predicate Disturbs(w: World, e: Event, tab: TabId, room: RoomId, token: TokenId) {
    || (Possible(w, e) && RequestOf(w, e).Some? && EndsPending(RequestOf(w, e).value, room, token))
    || e == Reloads(tab)
  }

  ghost predicate Timely(w: World, e: Event, now: int)
    requires Possible(w, e)
  {
    RequestOf(w, e).Some? ==> RequestOf(w, e).value.now <= now
  }

  lemma AwaitsOn(w: World, e: Event, tab: TabId, room: RoomId, token: TokenId, since: int, digest: Digest)
    requires Inv(w) && Possible(w, e) && Awaits(w.tables, room, token, since, digest)
    requires Timely(w, e, since + 660) && !Disturbs(w, e, tab, room, token)
    ensures Awaits(Next(w, e).tables, room, token, since, digest)
  {
    hide Inv, Next, Handle, Awaits;
    TablesMove(w, e);
    if RequestOf(w, e).Some? { AwaitsStill(w.tables, RequestOf(w, e).value, room, token, since, digest); }
  }

  /** While its room exists a tab that holds a claim keeps it, unless it pings or is reloaded. */
  lemma ClaimStays(w: World, e: Event, tab: TabId, token: TokenId)
    requires Inv(w) && Possible(w, e) && HoldsClaim(w, tab, token) && w.tabs[tab].room in w.tables.rooms
    requires !Disturbs(w, e, tab, w.tabs[tab].room, token)
    ensures tab in Next(w, e).tabs && Next(w, e).tabs[tab].token == w.tabs[tab].token
    ensures Next(w, e).tabs[tab].tag == w.tabs[tab].tag && Next(w, e).tabs[tab].room == w.tabs[tab].room
  {
    hide Sound, RoomOpened, Approved, Pinged, Handle;
  }

  /** The tab's claim and its row, between the delivery and the ping. */
  ghost predicate Ready(w: World, tab: TabId, room: RoomId, token: TokenId, since: int, digest: Digest) {
    && HoldsClaim(w, tab, token) && w.tabs[tab].room == room && Awaits(w.tables, room, token, since, digest)
  }

  lemma ReadyStays(w: World, e: Event, tab: TabId, room: RoomId, token: TokenId, since: int, digest: Digest)
    requires Inv(w) && Possible(w, e) && Ready(w, tab, room, token, since, digest)
    requires Timely(w, e, since + 660) && !Disturbs(w, e, tab, room, token)
    ensures Ready(Next(w, e), tab, room, token, since, digest)
  {
    hide Next, Handle, Disturbs, Timely, Possible;
    assert room in w.tables.rooms;
    AwaitsOn(w, e, tab, room, token, since, digest);
    ClaimStays(w, e, tab, token);
    InvariantKept(w, e);
  }

  lemma ReadyPings(w: World, e: Event, tab: TabId, room: RoomId, token: TokenId, since: int, digest: Digest)
    requires Inv(w) && Ready(w, tab, room, token, since, digest) && Possible(w, e) && e.Pings? && e.tab == tab
    ensures IsMember(Next(w, e).tables, room, token)
  {
  }

  /** From event `first` on nothing disturbs the token, and no request comes later than `now`. */
  ghost predicate Undisturbed(worlds: seq<World>, events: seq<Event>, first: nat, last: nat, tab: TabId, room: RoomId,
                              token: TokenId, now: int)
    requires Run(worlds, events) && last <= |events|
  {
    forall k :: first <= k < last ==> Calm(worlds, events, k, tab, room, token, now)
  }

  ghost predicate Calm(worlds: seq<World>, events: seq<Event>, k: nat, tab: TabId, room: RoomId, token: TokenId,
      now: int)
    requires Run(worlds, events) && k < |events|
  {
    RunStep(worlds, events, k);
    Timely(worlds[k], events[k], now) && !Disturbs(worlds[k], events[k], tab, room, token)
  }

  lemma RunStep(worlds: seq<World>, events: seq<Event>, k: nat)
    requires Run(worlds, events) && k < |events|
    ensures |worlds| == |events| + 1 && Possible(worlds[k], events[k]) && worlds[k + 1] == Next(worlds[k], events[k])
  {
    var e := events[k];
  }

  lemma {:induction false} AwaitsUntil(worlds: seq<World>, events: seq<Event>, first: nat, last: nat, tab: TabId,
                                       room: RoomId, token: TokenId, since: int, digest: Digest)
    requires Run(worlds, events) && first <= last <= |events|
    requires Awaits(worlds[first].tables, room, token, since, digest)
    requires Undisturbed(worlds, events, first, last, tab, room, token, since + 660)
    ensures Awaits(worlds[last].tables, room, token, since, digest)
    decreases last - first
  {
    if first < last {
      hide Run, Awaits, Next, Possible, Timely, Disturbs;
      assert Calm(worlds, events, first, tab, room, token, since + 660);
      RunStep(worlds, events, first);
      InvariantAlways(worlds, events, first);
      AwaitsOn(worlds[first], events[first], tab, room, token, since, digest);
      AwaitsUntil(worlds, events, first + 1, last, tab, room, token, since, digest);
    }
  }

  lemma {:induction false} ReadyUntil(worlds: seq<World>, events: seq<Event>, first: nat, last: nat, tab: TabId,
                                      room: RoomId, token: TokenId, since: int, digest: Digest)
    requires Run(worlds, events) && first <= last <= |events|
    requires Ready(worlds[first], tab, room, token, since, digest)
    requires Undisturbed(worlds, events, first, last, tab, room, token, since + 660)
    ensures Ready(worlds[last], tab, room, token, since, digest)
    decreases last - first
  {
    if first < last {
      hide Run, Ready, Next, Possible, Timely, Disturbs;
      assert Calm(worlds, events, first, tab, room, token, since + 660);
      RunStep(worlds, events, first);
      InvariantAlways(worlds, events, first);
      ReadyStays(worlds[first], events[first], tab, room, token, since, digest);
      ReadyUntil(worlds, events, first + 1, last, tab, room, token, since, digest);
    }
  }

  /** A member's approval of a knock. */
  ghost predicate Approval(w: World, e: Event) {
    && e.Approves? && Possible(w, e)
    && var room := w.tabs[w.knocks[e.knock].tab].room;
    room in w.tables.rooms && IsMember(w.tables, room, e.approver)
  }

  /** Nothing else sends a token event or makes a row for a knock. */
  lemma OnlyApprovalSends(w: World, e: Event)
    requires Inv(w) && Possible(w, e)
    ensures w.events <= Next(w, e).events && (Next(w, e).events != w.events ==> Approval(w, e))
    ensures forall t :: FromKnock(Next(w, e), t) ==> FromKnock(w, t) || (Approval(w, e) && t == e.token)
  {
    hide Sound, RoomOpened, Approved, Pinged, BeginApprove, Handle;
  }

  /** A knock that fails, and a page that is reloaded, forget the knock, and the reload the tag as well; the
      token stays, and so does every other tab. */
  lemma ForgettingSays(w: World, e: Event)
    requires Possible(w, e) && (e.KnockFails? || e.Reloads?)
    ensures var tab, w' := e.tab, Next(w, e);
            && tab in w'.tabs && w'.tabs[tab].pending.None? && w'.tabs[tab].token == w.tabs[tab].token
            && w'.tabs[tab].tag == (if e.Reloads? then None else w.tabs[tab].tag)
            && w'.tabs[tab].room == w.tabs[tab].room && w'.tabs - {tab} == w.tabs - {tab} && w'.tables == w.tables
  {
  }

  /** Whoever opens a room that does not exist is its only member and holds the token; whoever finds it
      existing gets nothing. */
  lemma OpeningHolds(w: World, tab: TabId, catchUp: bool, token: TokenId, now: int)
    requires Inv(w) && Possible(w, Opens(tab, catchUp, token, now))
    ensures var room, w' := w.tabs[tab].room, Next(w, Opens(tab, catchUp, token, now));
            if room in w.tables.rooms then w'.tabs == w.tabs && token !in w'.tables.participants
            else w'.tabs[tab].token == Some(token) && w'.tabs[tab].tag.None? && w'.tabs[tab].room == room
                 && IsMember(w'.tables, room, token) && Members(w'.tables, room) == {token}
                 && forall i :: i in w.tabs && i != tab ==> i in w'.tabs && w'.tabs[i] == w.tabs[i]
  {
    hide Cleaned, P.Touched;
    CleanedFewer(w.tables, now);
  }

  lemma CleanedFewer(s: Tables, now: int)
    ensures Cleaned(s, now).participants.Keys <= s.participants.Keys
  {
  }

  /** It leaves a pending row, and a token event for the knock that carries the row's token. */
  lemma ApprovalSends(w: World, e: Event) returns (event: TokenEvent, digest: Digest)
    requires Inv(w) && Approval(w, e)
    ensures var room, w' := w.tabs[w.knocks[e.knock].tab].room, Next(w, e);
            && Awaits(w'.tables, room, e.token, e.now, digest) && w'.tabs == w.tabs
            && event in w'.events && event.knock == e.knock && event.wrapped.ct.plain == e.token
  {
    hide Sound;
    var binding := BeginApprove(e.ephemeral, Pub(w.knocks[e.knock].own), e.knock);
    event, digest := TokenEvent(e.knock, Wrap(binding, e.nonce, e.token)), binding.claimTagHash;
  }

  lemma UndisturbedParts(worlds: seq<World>, events: seq<Event>, first: nat, mid: nat, last: nat, tab: TabId,
                         room: RoomId, token: TokenId, now: int)
    requires Run(worlds, events) && first <= mid < last <= |events|
    requires Undisturbed(worlds, events, first, last, tab, room, token, now)
    ensures Undisturbed(worlds, events, first, mid, tab, room, token, now)
    ensures Undisturbed(worlds, events, mid + 1, last, tab, room, token, now)
  {
    hide Run, Calm;
  }

  lemma ReceiptReady(w: World, tab: TabId, e: TokenEvent, room: RoomId, since: int, digest: Digest)
    requires Inv(w) && tab in w.tabs && e in w.events && Waits(w.tabs[tab], e.knock)
    requires Awaits(w.tables, room, e.wrapped.ct.plain, since, digest)
    ensures Ready(Receiving(w, tab, e), tab, room, e.wrapped.ct.plain, since, digest)
  {
    hide Sound, Receiving, HoldsTag;
    ReceiptHolds(w, tab, e);
  }

  lemma DeliveredReady(worlds: seq<World>, events: seq<Event>, n: nat, room: RoomId, since: int, digest: Digest)
    requires Run(worlds, events) && n < |events| && events[n].Receives?
    requires var tab, e := events[n].tab, events[n].event;
             && tab in worlds[n].tabs && Waits(worlds[n].tabs[tab], e.knock)
             && Awaits(worlds[n].tables, room, e.wrapped.ct.plain, since, digest)
    ensures Ready(worlds[n + 1], events[n].tab, room, events[n].event.wrapped.ct.plain, since, digest)
  {
    hide Run, Inv, Awaits, Ready, Receiving, Waits;
    RunStep(worlds, events, n);
    InvariantAlways(worlds, events, n);
    ReceiptReady(worlds[n], events[n].tab, events[n].event, room, since, digest);
  }

  /** Whoever waits for a knock, is delivered the token event of its approval, and pings within 660 seconds
      of the approval becomes a member, whatever else goes on: unless the token has been pinged before,
      the room disbanded or the page reloaded. */
  lemma FirstPingActivates(worlds: seq<World>, events: seq<Event>, approved: nat, received: nat, pinged: nat)
    requires Run(worlds, events) && approved < received < pinged < |events|
    requires Approval(worlds[approved], events[approved])
    requires events[received].Receives? && events[received].event.wrapped.ct.plain == events[approved].token
    requires var tab := events[received].tab;
             && tab in worlds[received].tabs && Waits(worlds[received].tabs[tab], events[received].event.knock)
             && events[pinged].Pings? && events[pinged].tab == tab
    requires var room := worlds[approved].tabs[worlds[approved].knocks[events[approved].knock].tab].room;
             Undisturbed(worlds, events, approved + 1, pinged, events[received].tab, room, events[approved].token,
                         events[approved].now + 660)
    ensures IsMember(worlds[pinged + 1].tables, worlds[pinged].tabs[events[pinged].tab].room, events[approved].token)
  {
    hide Run, Next, Inv, Undisturbed, Handle, Awaits, IsMember;
    RunStep(worlds, events, approved);
    var w, e, tab := worlds[approved], events[approved], events[received].tab;
    var room, t := w.tabs[w.knocks[e.knock].tab].room, e.token;
    InvariantAlways(worlds, events, approved);
    var _, digest := ApprovalSends(w, e);
    UndisturbedParts(worlds, events, approved + 1, received, pinged, tab, room, t, e.now + 660);
    AwaitsUntil(worlds, events, approved + 1, received, tab, room, t, e.now, digest);
    DeliveredReady(worlds, events, received, room, e.now, digest);
    ReadyUntil(worlds, events, received + 1, pinged, tab, room, t, e.now, digest);
    RunStep(worlds, events, pinged);
    InvariantAlways(worlds, events, pinged);
    ReadyPings(worlds[pinged], events[pinged], tab, room, t, e.now, digest);
  }

  /** What a tab learns from its ping: as a member it keeps its token and has spent its tag; when the room
      is gone, or a tag was not accepted, it forgets everything; an answer that is lost changes nothing. */
  lemma PingSettles(w: World, tab: TabId, now: int, answered: bool)
    requires tab in w.tabs && w.tabs[tab].token.Some?
    ensures var t, w' := w.tabs[tab], Pinging(w, tab, now, answered);
            var member := t.room in w.tables.rooms && IsMember(w'.tables, t.room, t.token.value);
            && w'.tabs.Keys == w.tabs.Keys && (forall i :: i in w.tabs && i != tab ==> w'.tabs[i] == w.tabs[i])
            && w'.tabs[tab].room == t.room
            && (!answered ==> w'.tabs[tab] == t)
            && (answered && member ==>
                  w'.tabs[tab].token == t.token && w'.tabs[tab].pending == t.pending && w'.tabs[tab].tag.None?)
            && (answered && !member && (t.room !in w.tables.rooms || t.tag.Some?) ==>
                  w'.tabs[tab].token.None? && w'.tabs[tab].pending.None? && w'.tabs[tab].tag.None?)
            && (answered && !member && t.room in w.tables.rooms && t.tag.None? ==> w'.tabs[tab] == t)
  {
    hide Pinged;
  }

  /** The whole way in, one step after the other, is open from every state: a tab of an existing room knocks,
      a member approves, the token event is delivered and the tab pings. */
  lemma KnockLeadsIn(w: World, tab: TabId, knock: KnockId, own: Scalar, approver: TokenId, ephemeral: Scalar,
                     nonce: Nonce, token: TokenId, now: int, later: int)
      returns (knocked: World, approved: World, event: TokenEvent, received: World, joined: World)
    requires Inv(w) && Possible(w, Knocks(tab, knock, own)) && token !in w.origin
    requires w.tabs[tab].room in w.tables.rooms && IsMember(w.tables, w.tabs[tab].room, approver)
    ensures knocked == Next(w, Knocks(tab, knock, own)) && tab in knocked.tabs && Waits(knocked.tabs[tab], knock)
    ensures var e := Approves(approver, knock, ephemeral, nonce, token, now);
            Approval(knocked, e) && approved == Next(knocked, e)
    ensures Possible(approved, Receives(tab, event)) && received == Next(approved, Receives(tab, event))
    ensures Possible(received, Pings(tab, later, true)) && joined == Next(received, Pings(tab, later, true))
    ensures IsMember(joined.tables, w.tabs[tab].room, token)
    ensures tab in joined.tabs && joined.tabs[tab].token == Some(token)
  {
    var room, e := w.tabs[tab].room, Approves(approver, knock, ephemeral, nonce, token, now);
    hide *;
    knocked := Next(w, Knocks(tab, knock, own));
    KnockWaits(w, tab, knock, own, e);
    approved := Next(knocked, e);
    var digest;
    event, digest := ApprovalSends(knocked, e);
    ApprovalKeeps(knocked, e);
    DeliveryLeadsIn(approved, tab, event, room, now, digest, later);
    received := Next(approved, Receives(tab, event));
    joined := Next(received, Pings(tab, later, true));
  }

  lemma KnockWaits(w: World, tab: TabId, knock: KnockId, own: Scalar, e: Event)
    requires Inv(w) && Possible(w, Knocks(tab, knock, own))
    requires e.Approves? && e.knock == knock && e.token !in w.origin
    requires w.tabs[tab].room in w.tables.rooms && IsMember(w.tables, w.tabs[tab].room, e.approver)
    ensures var w' := Next(w, Knocks(tab, knock, own));
            && Inv(w') && tab in w'.tabs && Waits(w'.tabs[tab], knock) && w'.tabs[tab].room == w.tabs[tab].room
            && Approval(w', e) && w'.knocks[knock].tab == tab
  {
    KnockingKeeps(w, tab, knock, own);
  }

  lemma ApprovalKeeps(w: World, e: Event)
    requires Inv(w) && Approval(w, e)
    ensures Inv(Next(w, e))
  {
    hide Inv, Next;
    InvariantKept(w, e);
  }

  lemma DeliveryLeadsIn(w: World, tab: TabId, event: TokenEvent, room: RoomId, since: int, digest: Digest, now: int)
    requires Inv(w) && tab in w.tabs && event in w.events && Waits(w.tabs[tab], event.knock)
    requires Awaits(w.tables, room, event.wrapped.ct.plain, since, digest)
    ensures var received := Next(w, Receives(tab, event));
            && Possible(w, Receives(tab, event)) && Possible(received, Pings(tab, now, true))
            && IsMember(Next(received, Pings(tab, now, true)).tables, room, event.wrapped.ct.plain)
            && tab in Next(received, Pings(tab, now, true)).tabs
            && Next(received, Pings(tab, now, true)).tabs[tab].token == Some(event.wrapped.ct.plain)
  {
    var token, received := event.wrapped.ct.plain, Next(w, Receives(tab, event));
    ReceiptReady(w, tab, event, room, since, digest);
    ReceivingKeeps(w, tab, event);
    hide Inv, Awaits, IsMember, Receiving, Pinging;
    ReadyPings(received, Pings(tab, now, true), tab, room, token, since, digest);
    PingSettles(received, tab, now, true);
    MembersHaveRooms(received, tab, room, token, since, digest);
  }

  lemma MembersHaveRooms(w: World, tab: TabId, room: RoomId, token: TokenId, since: int, digest: Digest)
    requires Inv(w) && Ready(w, tab, room, token, since, digest)
    ensures room in w.tables.rooms && w.tabs[tab].room == room
  {
  }

  /** A pending row that is pinged with a wrong tag or none is burned, and only that row. */
  lemma WrongTagBurns(s: Tables, room: RoomId, token: TokenId, tag: Option<Tag>, now: int)
    requires room in s.rooms && token in s.participants && s.participants[token].room == room
    requires s.participants[token].pending
             && !(tag.Some? && s.participants[token].commitment == Some(Sha256(tag.value)))
    ensures var s' := Pinged(s, room, token, tag, now);
            s'.participants == s.participants - {token} && s'.rooms == s.rooms && s'.outbox == s.outbox
  {
  }
}
