/** Presence: one row per participant token, written at most once every ten seconds, read through a
    45-second window and pruned now and then. */
module Presence {
  import opened RelayIds
  import opened Wrappers

  /** A touch is skipped while the row is younger than this. */
  const FRESHNESS := 10
  /** A participant counts for this long after the row was written. */
  const WINDOW := 45
  /** Pruning runs at most this often. */
  const PRUNE_INTERVAL := 30

  datatype Seen = Seen(room: RoomId, at: int)
  type Rows = map<TokenId, Seen>

  /** touch_presence: an upsert that keeps the room of an existing row. */
  function Touched(rows: Rows, room: RoomId, token: TokenId, now: int): Rows {
    if token in rows && now - rows[token].at < FRESHNESS then rows
    else rows[token := Seen(if token in rows then rows[token].room else room, now)]
  }

  function Pruned(rows: Rows, now: int): Rows {
    map t | t in rows && rows[t].at >= now - WINDOW :: rows[t]
  }

  /** Whether a throttled job last run at `marker` may run again. */
  predicate Due(marker: Option<int>, now: int, interval: int) {
    marker.Some? ==> now - marker.value >= interval
  }

  /** The tokens participant_count counts. */
  function Counted(rows: Rows, room: RoomId, now: int): set<TokenId> {
    set t | t in rows && rows[t].room == room && rows[t].at >= now - WINDOW
  }

  // ----- Runs -----

  datatype Event =
    | Touch(room: RoomId, token: TokenId, at: int)
    | Prune(at: int)
    | Drop(gone: set<TokenId>)

  datatype Table = Table(rows: Rows, marker: Option<int>)

  function Apply(t: Table, e: Event): Table {
    match e
    case Touch(room, token, at) => t.(rows := Touched(t.rows, room, token, at))
    case Prune(at) => if Due(t.marker, at, PRUNE_INTERVAL) then Table(Pruned(t.rows, at), Some(at)) else t
    case Drop(gone) => t.(rows := t.rows - gone)
  }

  /** A prune: at most every 30 seconds, exactly the rows over 45 seconds old go. */
  lemma PruneSays(t: Table, at: int)
    ensures var t' := Apply(t, Prune(at));
            var due := t.marker.None? || at - t.marker.value >= 30;
            && t'.marker == (if due then Some(at) else t.marker)
            && (forall x :: x in t'.rows <==> x in t.rows && (due ==> t.rows[x].at >= at - 45))
            && (forall x :: x in t'.rows ==> t'.rows[x] == t.rows[x])
  {
  }

  /** Whoever is dropped is not counted, and nobody else is concerned. */
  lemma DropSays(t: Table, gone: set<TokenId>, room: RoomId, now: int)
    ensures Counted(Apply(t, Drop(gone)).rows, room, now) == Counted(t.rows, room, now) - gone
  {
  }

  function Run(events: seq<Event>): Table {
    if events == [] then Table(map[], None)
    else Apply(Run(events[..|events| - 1]), events[|events| - 1])
  }

  /** The same run in a table nobody ever prunes. */
  function Unpruned(events: seq<Event>): Rows {
    if events == [] then map[]
    else
      var rows, e := Unpruned(events[..|events| - 1]), events[|events| - 1];
      if e.Prune? then rows else Apply(Table(rows, None), e).rows
  }

  /** The clock never runs backwards and has reached `now`. */
  ghost predicate ClockOrdered(events: seq<Event>, now: int)
    decreases |events|
  {
    events == [] ||
    var e := events[|events| - 1];
    (!e.Drop? ==> e.at <= now) && ClockOrdered(events[..|events| - 1], if e.Drop? then now else e.at)
  }

  lemma {:induction false} ClockLater(events: seq<Event>, now: int, later: int)
    requires ClockOrdered(events, now) && now <= later
    ensures ClockOrdered(events, later)
    decreases |events|
  {
    if events != [] && events[|events| - 1].Drop? {
      ClockLater(events[..|events| - 1], now, later);
    }
  }

  /** No row is from the future. */
  lemma {:induction false} RowsArePast(events: seq<Event>, now: int)
    requires ClockOrdered(events, now)
    ensures forall t :: t in Run(events).rows ==> Run(events).rows[t].at <= now
    decreases |events|
  {
    if events != [] {
      var e := events[|events| - 1];
      RowsArePast(events[..|events| - 1], if e.Drop? then now else e.at);
    }
  }

  /** events[i] touches the token, which is not dropped afterwards. */
  predicate LivesFrom(events: seq<Event>, i: nat, token: TokenId) {
    && i < |events| && events[i].Touch? && events[i].token == token
    && forall j :: i < j < |events| && events[j].Drop? ==> token !in events[j].gone
  }

  /** Each token is used with one room only: the room of its participant row. */
  ghost predicate OneHome(events: seq<Event>, token: TokenId, room: RoomId) {
    forall j :: 0 <= j < |events| && events[j].Touch? && events[j].token == token ==> events[j].room == room
  }

  lemma {:induction false} RowsAreHome(events: seq<Event>, token: TokenId, room: RoomId)
    requires OneHome(events, token, room)
    ensures token in Run(events).rows ==> Run(events).rows[token].room == room
    ensures token in Unpruned(events) ==> Unpruned(events)[token].room == room
    decreases |events|
  {
    if events != [] {
      RowsAreHome(events[..|events| - 1], token, room);
    }
  }

  /** After a touch at u the row is at least as young as u - 9, and stays until u + 36. */
  lemma {:induction false} TouchHolds(events: seq<Event>, i: nat, token: TokenId, now: int)
    requires ClockOrdered(events, now) && LivesFrom(events, i, token) && now <= events[i].at + 36
    ensures token in Run(events).rows && Run(events).rows[token].at >= events[i].at - 9
    decreases |events|
  {
    var n := |events| - 1;
    var e, before := events[n], events[..n];
    RowsArePast(before, if e.Drop? then now else e.at);
    if i < n {
      ClockLater(before, if e.Drop? then now else e.at, now);
      TouchHolds(before, i, token, now);
    }
  }

  /** Everyone who touched presence within the last 36 seconds, and has not left, is counted. */
  lemma RecentIsCounted(events: seq<Event>, i: nat, now: int, room: RoomId)
    requires i < |events| && events[i].Touch? && LivesFrom(events, i, events[i].token)
    requires OneHome(events, events[i].token, room)
    requires ClockOrdered(events, now) && now <= events[i].at + 36
    ensures events[i].token in Counted(Run(events).rows, room, now)
  {
    TouchHolds(events, i, events[i].token, now);
    RowsAreHome(events, events[i].token, room);
  }

  /** A row is never younger than the last touch. */
  lemma {:induction false} RowsAreTouches(events: seq<Event>, token: TokenId, bound: int)
    requires forall j :: 0 <= j < |events| && events[j].Touch? && events[j].token == token ==> events[j].at <= bound
    ensures token in Run(events).rows ==> Run(events).rows[token].at <= bound
    decreases |events|
  {
    if events != [] {
      RowsAreTouches(events[..|events| - 1], token, bound);
    }
  }

  /** Nobody is counted who has not touched presence for more than 45 seconds. */
  lemma StaleIsNotCounted(events: seq<Event>, token: TokenId, now: int, room: RoomId)
    requires forall j :: 0 <= j < |events| && events[j].Touch? && events[j].token == token ==> events[j].at < now - 45
    ensures token !in Counted(Run(events).rows, room, now)
  {
    RowsAreTouches(events, token, now - 46);
  }

  /** 36 seconds is the best bound: a token touched 37 seconds ago can be missed. */
  lemma ThirtySevenIsTooLate(room: RoomId, token: TokenId)
    ensures exists events: seq<Event> ::
              && |events| == 2 && events[1] == Touch(room, token, 9) && ClockOrdered(events, 46)
              && token !in Counted(Run(events).rows, room, 46)
  {
    var events := [Touch(room, token, 0), Touch(room, token, 9)];
    assert events[..1] == [Touch(room, token, 0)] && events[..1][..0] == [];
    assert Run(events[..1]).rows == map[token := Seen(room, 0)];
    assert Run(events).rows == map[token := Seen(room, 0)];
    assert ClockOrdered(events[..1], 9);
  }

  /** What the two tables have in common: the pruned one has lost old rows only. */
  ghost predicate Trimmed(pruned: Rows, full: Rows, now: int) {
    && (forall t :: t in pruned ==> t in full && pruned[t] == full[t])
    && (forall t :: t in full && t !in pruned ==> full[t].at < now - WINDOW)
  }

  ghost predicate AllHome(events: seq<Event>, home: map<TokenId, RoomId>) {
    forall j :: 0 <= j < |events| && events[j].Touch? ==>
                  events[j].token in home && home[events[j].token] == events[j].room
  }

  lemma {:induction false} StaysTrimmed(events: seq<Event>, now: int, home: map<TokenId, RoomId>)
    requires ClockOrdered(events, now) && AllHome(events, home)
    ensures Trimmed(Run(events).rows, Unpruned(events), now)
    decreases |events|
  {
    if events != [] {
      var n := |events| - 1;
      var e, before := events[n], events[..n];
      StaysTrimmed(before, if e.Drop? then now else e.at, home);
      if e.Touch? {
        assert OneHome(events, e.token, e.room);
        assert OneHome(before, e.token, e.room);
        RowsAreHome(before, e.token, e.room);
      }
    }
  }

  /** Pruning is invisible: at every time from now on the counts are those of a table that was
      never pruned. */
  lemma PruningIsInvisible(events: seq<Event>, now: int, home: map<TokenId, RoomId>, room: RoomId)
    requires ClockOrdered(events, now) && AllHome(events, home)
    ensures Counted(Run(events).rows, room, now) == Counted(Unpruned(events), room, now)
  {
    StaysTrimmed(events, now, home);
  }
}
