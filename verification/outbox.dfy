/** The per-room catch-up outbox: one SQLite table, aged in two stages and capped at 500 rows.
    Pruning runs lazily, on every append and every fetch, so the table's contents depend on when
    it happened to run; the results below say a fetch does not. */
module Outbox {
  import opened NewestK
  import opened Wrappers

  const MAX_ROWS: nat := 500
  const TTL_MS := 86400 * 1000
  const TOMBSTONE_TTL_MS := 7 * 86400 * 1000

  /** The sha-256 of the sender's token. */
  type Sender(==, !new)

  type Ciphertext(==, !new)

  /** The encrypted_payload column; Empty is the empty string a tombstone holds. */
  datatype Payload = Empty | Sealed(bytes: Ciphertext)

  datatype Row = Row(ts: int, sender: Option<Sender>, payload: Payload)

  /** The messages table under its primary key msg_id. */
  type Table = map<MsgId, Row>

  datatype Fetched = Fetched(id: MsgId, ts: int, sender: Option<Sender>, payload: Payload, expired: bool)

  function StampsOf(t: Table): Stamps {
    map id | id in t :: t[id].ts
  }

  /** Soft expiry of one row: a tombstone keeps only its timestamp. */
  function Aged(row: Row, cutoff: int): Row {
    if row.ts < cutoff && row.payload != Empty then Row(row.ts, None, Empty) else row
  }

  /** What a row of a day's age and more has lost, and no younger one has: its content and its sender. */
  ghost predicate Blanked(after: Row, before: Row, now: int) {
    && after.ts == before.ts
    && if before.ts < now - 86400000 && before.payload != Empty then after.payload == Empty && after.sender == None
       else after.payload == before.payload && after.sender == before.sender
  }

  /** `after` is what one prune at clock `now` may leave of `before`. */
  ghost predicate PruneOf(after: Table, before: Table, now: int) {
    && NewestOf(after, before, now)
    && AgedFrom(after, before, now - TTL_MS)
  }

  /** `t` holds the ids of the newest 500 rows of `all` that are no older than seven days. */
  ghost predicate NewestOf(t: Table, all: Table, now: int) {
    IsNewest(t.Keys, Since(all.Keys, StampsOf(all), now - TOMBSTONE_TTL_MS), StampsOf(all), MAX_ROWS)
  }

  ghost predicate AgedFrom(after: Table, before: Table, cutoff: int) {
    forall id :: id in after ==> id in before && after[id] == Aged(before[id], cutoff)
  }

  /** INSERT OR IGNORE on the primary key. */
  function Inserted(t: Table, id: MsgId, row: Row): Table {
    if id in t then t else t[id := row]
  }

  // ----- SELECT .. ORDER BY ts, with any order among equal timestamps -----

  function Describe(id: MsgId, row: Row): Fetched {
    Fetched(id, row.ts, row.sender, row.payload, row.payload == Empty)
  }

  function IdsOf(answer: seq<Fetched>): set<MsgId> {
    set x | x in answer :: x.id
  }

  /** The rows WHERE ts > max(0, since). */
  function Pool(t: Table, since: int): (ids: set<MsgId>)
    ensures ids <= t.Keys
  {
    set id | id in t && t[id].ts > (if since < 0 then 0 else since)
  }

  ghost predicate Ascending(answer: seq<Fetched>) {
    forall i, j :: 0 <= i < j < |answer| ==> answer[i].ts <= answer[j].ts
  }

  /** `answer` is a legitimate answer to SELECT .. WHERE ts > since ORDER BY ts ASC LIMIT limit. */
  ghost predicate FetchOf(answer: seq<Fetched>, t: Table, since: int, limit: nat) {
    && (forall x :: x in answer ==> x.id in t && x == Describe(x.id, t[x.id]))
    && IdsOf(answer) <= Pool(t, since)
    && |IdsOf(answer)| == |answer| == Min(limit, |Pool(t, since)|)
    && Ascending(answer)
    && forall x, id :: x in answer && id in Pool(t, since) - IdsOf(answer) ==> x.ts <= t[id].ts
  }

  /** The rows of `t` outside `rest` have been listed, oldest first. */
  ghost predicate Listing(answer: seq<Fetched>, t: Table, since: int, rest: set<MsgId>) {
    && rest <= Pool(t, since) && IdsOf(answer) == Pool(t, since) - rest
    && |answer| == |IdsOf(answer)|
    && (forall x :: x in answer ==> x.id in t && x == Describe(x.id, t[x.id]))
    && Ascending(answer)
    && forall x, id :: x in answer && id in rest ==> x.ts <= t[id].ts
  }

  lemma ListNext(answer: seq<Fetched>, t: Table, since: int, rest: set<MsgId>, id: MsgId)
    requires Listing(answer, t, since, rest)
    requires id in rest && forall other :: other in rest ==> t[id].ts <= t[other].ts
    ensures Listing(answer + [Describe(id, t[id])], t, since, rest - {id})
  {
    hide IdsOf, Pool, Ascending, Describe;
    var next := Describe(id, t[id]);
    assert Pool(t, since) - (rest - {id}) == (Pool(t, since) - rest) + {id};
    ListedIds(answer, id, t[id]);
    ListedLast(answer, t, since, rest, id);
    forall x | x in answer + [next] ensures x in answer || x == next { }
  }

  lemma ListedIds(answer: seq<Fetched>, id: MsgId, row: Row)
    ensures var next := Describe(id, row);
            next.id == id && next.ts == row.ts && IdsOf(answer + [next]) == IdsOf(answer) + {id}
  {
    var next := Describe(id, row);
    forall x ensures x in IdsOf(answer + [next]) <==> x in IdsOf(answer) + {id} {
      if x == id { assert next in answer + [next]; }
    }
  }

  lemma ListedLast(answer: seq<Fetched>, t: Table, since: int, rest: set<MsgId>, id: MsgId)
    requires Listing(answer, t, since, rest) && id in rest
    ensures Ascending(answer + [Describe(id, t[id])])
  {
    forall i | 0 <= i < |answer| ensures answer[i].ts <= t[id].ts { assert answer[i] in answer; }
  }

  method Select(t: Table, since: int, limit: nat) returns (answer: seq<Fetched>)
    ensures FetchOf(answer, t, since, limit)
  {
    answer := [];
    var rest := Pool(t, since);
    while rest != {} && |answer| < limit
      invariant Listing(answer, t, since, rest) && |answer| <= limit
      decreases rest
    {
      var id := PickExtreme(rest, StampsOf(t), 1);
      assert forall other :: other in rest ==> StampsOf(t)[id] <= StampsOf(t)[other];
      ListNext(answer, t, since, rest, id);
      var row := t[id];
      answer := answer + [Fetched(id, row.ts, row.sender, row.payload, row.payload == Empty)];
      rest := rest - {id};
    }
    SubsetCard(IdsOf(answer), Pool(t, since));
  }

  // ----- The table itself -----

  /** What the first two statements of a prune leave. */
  lemma LiveRows(before: Table, now: int)
    ensures var aged := map id | id in before :: Aged(before[id], now - TTL_MS);
            var live := map id | id in aged && !(aged[id].ts < now - TOMBSTONE_TTL_MS) :: aged[id];
            && live.Keys == Since(before.Keys, StampsOf(before), now - TOMBSTONE_TTL_MS)
            && AgedFrom(live, before, now - TTL_MS) && StampsOf(live).Keys == live.Keys
  {
  }

  /** The three statements of a prune, in the order they run. */
  lemma PruneSteps(before: Table, live: Table, after: Table, now: int)
    requires live.Keys == Since(before.Keys, StampsOf(before), now - TOMBSTONE_TTL_MS)
    requires AgedFrom(live, before, now - TTL_MS)
    requires IsNewest(after.Keys, live.Keys, StampsOf(live), MAX_ROWS)
    requires forall id :: id in after ==> id in live && after[id] == live[id]
    ensures PruneOf(after, before, now)
  {
    SameStamps(after.Keys, live.Keys, StampsOf(live), StampsOf(before), MAX_ROWS);
  }

  lemma PruneSays(after: Table, before: Table, now: int)
    requires PruneOf(after, before, now)
    ensures forall id :: id in after ==> id in before && Blanked(after[id], before[id], now)
    ensures |after| <= 500 && forall id :: id in after ==> after[id].ts >= now - 604800000
  {
    assert |after.Keys| <= 500;
  }

  class OutboxFile {
    var rows: Table

    constructor ()
      ensures rows == map[]
    {
      rows := map[];
    }

    /** Blank content over a day old, delete tombstones over seven days old, enforce the row cap. */
    method ExpireAndPrune(now: int)
      modifies this
      ensures PruneOf(rows, old(rows), now)
      ensures forall id :: id in rows ==> id in old(rows) && Blanked(rows[id], old(rows)[id], now)
      ensures |rows| <= 500 && forall id :: id in rows ==> rows[id].ts >= now - 604800000
    {
      hide PruneOf, IsNewest, Since, AgedFrom, StampsOf, Aged;
      LiveRows(rows, now);
      rows := map id | id in rows :: Aged(rows[id], now - TTL_MS);
      rows := map id | id in rows && !(rows[id].ts < now - TOMBSTONE_TTL_MS) :: rows[id];
      ghost var live := rows;
      var kept := NewestIds(StampsOf(rows), MAX_ROWS);
      rows := map id | id in rows && id in kept :: rows[id];
      assert rows.Keys == kept;
      PruneSteps(old(rows), live, rows, now);
      PruneSays(rows, old(rows), now);
    }

    /** The whole append transaction; `enabled` is the flag re-read under the lock, `ts` the clock
        at the INSERT and `now` the clock at the prune. */
    method Append(id: MsgId, payload: Payload, sender: Option<Sender>, enabled: bool, ts: int, now: int)
      modifies this
      ensures !enabled ==> rows == old(rows)
      ensures enabled ==> PruneOf(rows, Inserted(old(rows), id, Row(ts, sender, payload)), now)
    {
      if !enabled {
        return;
      }
      if id !in rows {
        rows := rows[id := Row(ts, sender, payload)];
      }
      ExpireAndPrune(now);
    }

    method Fetch(since: int, limit: nat, now: int) returns (answer: seq<Fetched>)
      modifies this
      ensures PruneOf(rows, old(rows), now)
      ensures FetchOf(answer, rows, since, limit)
    {
      ExpireAndPrune(now);
      answer := Select(rows, since, limit);
    }

    /** The catch-up switch was turned off or the room disbanded. */
    method Wipe()
      modifies this
      ensures rows == map[]
    {
      rows := map[];
    }
  }

  /** Every table can be pruned at any time. */
  lemma PruneExists(before: Table, now: int) returns (after: Table)
    ensures PruneOf(after, before, now)
  {
    hide IsNewest;
    var live := Since(before.Keys, StampsOf(before), now - TOMBSTONE_TTL_MS);
    var kept := NewestExists(live, StampsOf(before), MAX_ROWS);
    after := map id | id in kept :: Aged(before[id], now - TTL_MS);
    assert after.Keys == kept;
  }

  // ----- Runs -----

  /** An append that passed the flag check, or a prune by some fetch. */
  datatype Event =
    | Append(id: MsgId, row: Row, now: int)
    | Fetch(now: int)

  ghost predicate Step(before: Table, e: Event, after: Table) {
    match e
    case Append(id, row, now) => PruneOf(after, Inserted(before, id, row), now)
    case Fetch(now) => PruneOf(after, before, now)
  }

  /** tables[i] is the table before events[i]; the file starts empty. */
  ghost predicate Run(tables: seq<Table>, events: seq<Event>) {
    && |tables| == |events| + 1
    && tables[0] == map[]
    && forall i :: 0 <= i < |events| ==> Step(tables[i], events[i], tables[i + 1])
  }

  /** Everything ever appended, as it was appended. */
  function History(events: seq<Event>): Table {
    if events == [] then map[]
    else
      var earlier := History(events[..|events| - 1]);
      match events[|events| - 1]
      case Append(id, row, _) => earlier[id := row]
      case Fetch(_) => earlier
  }

  /** Every append uses an id no earlier append used. */
  ghost predicate FreshIds(events: seq<Event>) {
    forall i, j :: 0 <= i < j < |events| && events[i].Append? && events[j].Append? ==> events[i].id != events[j].id
  }

  ghost predicate ClockOrdered(events: seq<Event>) {
    forall i, j :: 0 <= i < j < |events| ==> events[i].now <= events[j].now
  }

  /** The invariant: the table is a function of the history and of the latest prune's clock. */
  ghost predicate Retains(t: Table, history: Table, now: int) {
    && NewestOf(t, history, now)
    && AgedFrom(t, history, now - TTL_MS)
  }

  /** `before'` and `history'` are `before` and `history` with the same new rows added. */
  ghost predicate GrowAlike(before: Table, before': Table, history: Table, history': Table) {
    && history.Keys <= history'.Keys
    && (forall id :: id in history ==> history'[id] == history[id])
    && before'.Keys == before.Keys + (history'.Keys - history.Keys)
    && (forall id :: id in before' ==> before'[id] == if id in before then before[id] else history'[id])
  }

  /** Rows come in, then one prune runs. */
  lemma PruneRetains(before: Table, history: Table, earlier: int, before': Table, history': Table, after: Table,
      now: int)
    requires Retains(before, history, earlier) && earlier <= now
    requires GrowAlike(before, before', history, history')
    requires PruneOf(after, before', now)
    ensures Retains(after, history', now)
  {
    PruneRetainsNewest(before, history, earlier, before', history', after, now);
    AgedAgain(after, before', before, history', history, earlier - TTL_MS, now - TTL_MS);
  }

  lemma PruneRetainsNewest(before: Table, history: Table, earlier: int, before': Table, history': Table, after: Table,
      now: int)
    requires NewestOf(before, history, earlier) && earlier <= now
    requires AgedFrom(before, history, earlier - TTL_MS)
    requires GrowAlike(before, before', history, history')
    requires NewestOf(after, before', now)
    ensures NewestOf(after, history', now)
  {
    SameClocks(before, history, earlier, before', history');
    PrunedIsNewestRebased(before.Keys, StampsOf(history), earlier - TOMBSTONE_TTL_MS, StampsOf(before'),
                          StampsOf(history'), history'.Keys - history.Keys, after.Keys, now - TOMBSTONE_TTL_MS,
                          MAX_ROWS);
  }

  lemma SameClocks(before: Table, history: Table, earlier: int, before': Table, history': Table)
    requires AgedFrom(before, history, earlier - TTL_MS)
    requires GrowAlike(before, before', history, history')
    ensures Agree(history.Keys, StampsOf(history), StampsOf(history'))
    ensures Agree(before'.Keys, StampsOf(before'), StampsOf(history'))
    ensures StampsOf(before').Keys == before'.Keys == before.Keys + (history'.Keys - history.Keys)
    ensures StampsOf(history').Keys == history'.Keys == history.Keys + (history'.Keys - history.Keys)
    ensures StampsOf(history).Keys == history.Keys
  {
  }

  lemma AgedAgain(after: Table, before': Table, before: Table, history': Table, history: Table, earlier: int,
      cutoff: int)
    requires AgedFrom(before, history, earlier) && earlier <= cutoff
    requires GrowAlike(before, before', history, history')
    requires AgedFrom(after, before', cutoff)
    ensures AgedFrom(after, history', cutoff)
  {
    forall id | id in after ensures id in history' && after[id] == Aged(history'[id], cutoff) {
      assert id in before' && after[id] == Aged(before'[id], cutoff);
      if id in before {
        assert before[id] == Aged(history[id], earlier);
      }
    }
  }

  lemma InsertGrowsAlike(before: Table, history: Table, id: MsgId, row: Row)
    requires before.Keys <= history.Keys && id !in history
    ensures Inserted(before, id, row) == before[id := row]
    ensures GrowAlike(before, before[id := row], history, history[id := row])
  {
  }

  lemma AppendRetains(before: Table, history: Table, earlier: int, id: MsgId, row: Row, after: Table, now: int)
    requires Retains(before, history, earlier) && earlier <= now
    requires id !in history
    requires PruneOf(after, Inserted(before, id, row), now)
    ensures Retains(after, history[id := row], now)
  {
    InsertGrowsAlike(before, history, id, row);
    PruneRetains(before, history, earlier, before[id := row], history[id := row], after, now);
  }

  /** The history holds exactly what was appended. */
  lemma {:induction false} HistoryIff(events: seq<Event>, id: MsgId, row: Row)
    requires FreshIds(events)
    ensures id in History(events) && History(events)[id] == row
            <==> exists i :: 0 <= i < |events| && events[i].Append? && events[i].id == id && events[i].row == row
  {
    if events != [] {
      var n := |events| - 1;
      var rest, e := events[..n], events[n];
      HistoryIff(rest, id, row);
      if i :| 0 <= i < n && events[i].Append? && events[i].id == id && events[i].row == row {
        assert rest[i] == events[i];
      }
      if e.Append? && e.id == id && id in History(rest) { HistoryIds(rest, id); }
    }
  }

  lemma {:induction false} HistoryIds(events: seq<Event>, id: MsgId)
    requires id in History(events)
    ensures exists i :: 0 <= i < |events| && events[i].Append? && events[i].id == id
  {
    var rest := events[..|events| - 1];
    if id in History(rest) {
      HistoryIds(rest, id);
      var i :| 0 <= i < |rest| && rest[i].Append? && rest[i].id == id;
      assert events[i] == rest[i];
    } else {
      assert events[|events| - 1].Append? && events[|events| - 1].id == id;
    }
  }

  /** Data refinement over every run: after any appends and prunes, whenever they happened, the
      table is the newest 500 of the appended rows of the last seven days, aged. */
  lemma {:induction false} RunRetains(tables: seq<Table>, events: seq<Event>, now: int)
    requires Run(tables, events) && FreshIds(events) && ClockOrdered(events)
    requires events == [] || events[|events| - 1].now == now
    ensures Retains(tables[|events|], History(events), now)
  {
    if events == [] {
      EmptyRetains(now);
    } else {
      hide Retains, Step, Inserted;
      var n := |events| - 1;
      var rest, e := events[..n], events[n];
      assert Run(tables[..n + 1], rest);
      var earlier := if rest == [] then now else rest[n - 1].now;
      RunRetains(tables[..n + 1], rest, earlier);
      assert tables[..n + 1][n] == tables[n];
      assert Step(tables[n], e, tables[n + 1]);
      if e.Append? { NewId(events); }
      StepRetains(tables[n], History(rest), earlier, e, tables[n + 1]);
    }
  }

  /** In plain terms: every row of the table was appended, less its content and sender once it was over a
      day old; none is over seven days old, and there are at most 500. */
  lemma RunSays(tables: seq<Table>, events: seq<Event>, now: int)
    requires Run(tables, events) && FreshIds(events) && ClockOrdered(events)
    requires events == [] || events[|events| - 1].now == now
    ensures var t := tables[|events|];
            && |t| <= 500
            && forall id :: id in t ==>
                 t[id].ts >= now - 604800000 && id in History(events) && Blanked(t[id], History(events)[id], now)
  {
    RunRetains(tables, events, now);
    PruneSays(tables[|events|], History(events), now);
  }

  lemma EmptyRetains(now: int)
    ensures Retains(map[], map[], now)
  {
  }

  lemma NewId(events: seq<Event>)
    requires events != [] && events[|events| - 1].Append? && FreshIds(events)
    ensures events[|events| - 1].id !in History(events[..|events| - 1])
  {
    var n := |events| - 1;
    if events[n].id in History(events[..n]) {
      HistoryIds(events[..n], events[n].id);
    }
  }

  lemma StepRetains(before: Table, history: Table, earlier: int, e: Event, after: Table)
    requires Retains(before, history, earlier) && earlier <= e.now && Step(before, e, after)
    requires e.Append? ==> e.id !in history
    ensures Retains(after, if e.Append? then history[e.id := e.row] else history, e.now)
  {
    hide Retains, PruneOf;
    match e
    case Append(id, row, now) => AppendRetains(before, history, earlier, id, row, after, now);
    case Fetch(now) => PruneRetains(before, history, earlier, before, history, after, now);
  }

  // ----- What a fetch returns -----

  /** The rows of the history a fetch at `now` is entitled to: recent enough, fewer than 500 newer. */
  ghost predicate Entitled(history: Table, id: MsgId, now: int, since: int) {
    && id in history
    && history[id].ts >= now - 604800000
    && |set other | other in history && history[other].ts > history[id].ts| < 500
    && history[id].ts > (if since < 0 then 0 else since)
  }

  lemma RetainedIff(t: Table, history: Table, now: int, id: MsgId)
    requires Retains(t, history, now) && DistinctStamps(StampsOf(history))
    ensures id in t <==> id in history && history[id].ts >= now - TOMBSTONE_TTL_MS
                         && |Since(history.Keys, StampsOf(history), history[id].ts + 1)| < MAX_ROWS
  {
    var stamp, cutoff := StampsOf(history), now - TOMBSTONE_TTL_MS;
    var live := Since(history.Keys, stamp, cutoff);
    if id in live {
      KeptIffFewNewer(t.Keys, live, stamp, id, MAX_ROWS);
      NewerAreLive(history.Keys, stamp, cutoff, stamp[id] + 1);
    }
  }

  lemma NewerAreLive(all: set<MsgId>, stamp: Stamps, cutoff: int, later: int)
    requires all <= stamp.Keys && cutoff <= later
    ensures Since(Since(all, stamp, cutoff), stamp, later) == Since(all, stamp, later)
  {
  }

  /** The fetch LIMIT equals the row cap, so it never drops a retained row. */
  lemma LimitNeverBites(t: Table, history: Table, now: int, answer: seq<Fetched>, since: int)
    requires Retains(t, history, now)
    requires FetchOf(answer, t, since, MAX_ROWS)
    ensures IdsOf(answer) == Pool(t, since)
  {
    SubsetCard(Pool(t, since), t.Keys);
    SubsetCard(IdsOf(answer), Pool(t, since));
  }

  lemma {:induction false} ListedOnce(answer: seq<Fetched>)
    requires |IdsOf(answer)| == |answer|
    ensures forall i, j :: 0 <= i < j < |answer| ==> answer[i].id != answer[j].id
  {
    if answer != [] {
      var n := |answer| - 1;
      var rest, last := answer[..n], answer[n];
      assert answer == rest + [last];
      assert IdsOf(answer) == IdsOf(rest) + {last.id};
      IdsCard(rest);
      ListedOnce(rest);
      forall i | 0 <= i < n ensures answer[i].id != last.id {
        assert rest[i] in rest;
      }
    }
  }

  lemma {:induction false} IdsCard(answer: seq<Fetched>)
    ensures |IdsOf(answer)| <= |answer|
  {
    if answer != [] {
      var n := |answer| - 1;
      assert answer == answer[..n] + [answer[n]];
      assert IdsOf(answer) == IdsOf(answer[..n]) + {answer[n].id};
      IdsCard(answer[..n]);
    }
  }

  /** Timestamps of a listing are strictly ascending when the history's are distinct. */
  lemma ListedAscending(t: Table, history: Table, now: int, since: int, answer: seq<Fetched>)
    requires AgedFrom(t, history, now - TTL_MS) && DistinctStamps(StampsOf(history))
    requires FetchOf(answer, t, since, MAX_ROWS)
    ensures forall i, j :: 0 <= i < j < |answer| ==> answer[i].ts < answer[j].ts
  {
    ListedOnce(answer);
    forall i, j | 0 <= i < j < |answer| ensures answer[i].ts < answer[j].ts {
      assert answer[i] in answer && answer[j] in answer;
      assert StampsOf(history)[answer[i].id] == answer[i].ts && StampsOf(history)[answer[j].id] == answer[j].ts;
    }
  }

  lemma RunThenPruneRetains(tables: seq<Table>, events: seq<Event>, after: Table, now: int)
    requires Run(tables, events) && FreshIds(events) && ClockOrdered(events + [Fetch(now)])
    requires PruneOf(after, tables[|events|], now)
    ensures Retains(after, History(events), now)
  {
    var all := events + [Fetch(now)];
    assert all[..|all| - 1] == events;
    assert forall i :: 0 <= i < |events| ==> all[i] == events[i];
    RunRetains(tables + [after], all, now);
    assert (tables + [after])[|all|] == after;
  }

  lemma ListedIffEntitled(t: Table, history: Table, now: int, since: int, answer: seq<Fetched>)
    requires Retains(t, history, now) && DistinctStamps(StampsOf(history))
    requires FetchOf(answer, t, since, MAX_ROWS)
    ensures forall id :: id in IdsOf(answer) <==> Entitled(history, id, now, since)
  {
    LimitNeverBites(t, history, now, answer, since);
    forall id ensures id in IdsOf(answer) <==> Entitled(history, id, now, since) {
      RetainedIff(t, history, now, id);
      if id in history {
        assert Since(history.Keys, StampsOf(history), history[id].ts + 1)
            == set other | other in history && history[other].ts > history[id].ts;
      }
    }
  }

  /** What the client is told of a row: nothing but its time once it is over a day old. */
  ghost predicate Says(x: Fetched, row: Row, now: int) {
    && x.ts == row.ts
    && if row.ts < now - 86400000 && row.payload != Empty then x.expired && x.payload == Empty && x.sender == None
       else x.payload == row.payload && x.sender == row.sender && (x.expired <==> row.payload == Empty)
  }

  /** For every run and every fetch after it: the answer holds exactly the rows of the history the
      client is entitled to, oldest first, each one blanked exactly when it is over a day old. */
  lemma FetchIsHistoryView(tables: seq<Table>, events: seq<Event>, after: Table, now: int, since: int,
                           answer: seq<Fetched>)
    requires Run(tables, events) && FreshIds(events) && ClockOrdered(events + [Fetch(now)])
    requires DistinctStamps(StampsOf(History(events)))
    requires PruneOf(after, tables[|events|], now) && FetchOf(answer, after, since, MAX_ROWS)
    ensures forall id :: id in IdsOf(answer) <==> Entitled(History(events), id, now, since)
    ensures forall i, j :: 0 <= i < j < |answer| ==> answer[i].ts < answer[j].ts
    ensures forall x :: x in answer ==> x.id in History(events) && Says(x, History(events)[x.id], now)
  {
    RunThenPruneRetains(tables, events, after, now);
    ListedIffEntitled(after, History(events), now, since, answer);
    ListedAscending(after, History(events), now, since, answer);
  }

  ghost predicate StrictlyAscending(answer: seq<Fetched>) {
    forall i, j :: 0 <= i < j < |answer| ==> answer[i].ts < answer[j].ts
  }

  lemma StillNonEmpty(a: seq<Fetched>, b: seq<Fetched>)
    requires a != [] && forall x :: x in a ==> x in b
    ensures b != []
  {
    assert a[0] in b;
  }

  /** Two strictly ascending answers listing the same rows are equal. */
  lemma {:induction false} AscendingUnique(a: seq<Fetched>, b: seq<Fetched>)
    requires StrictlyAscending(a) && StrictlyAscending(b)
    requires forall x :: x in a <==> x in b
    ensures a == b
  {
    if a == [] {
      if b != [] {
        StillNonEmpty(b, a);
      }
    } else {
      StillNonEmpty(a, b);
      var m, n := |a| - 1, |b| - 1;
      assert a[m] in b && b[n] in a;
      assert a[m] == b[n];
      DropLast(a);
      DropLast(b);
      forall x ensures x in a[..m] <==> x in b[..n] {
        assert x in a <==> x in b;
      }
      AscendingUnique(a[..m], b[..n]);
    }
  }

  lemma DropLast(a: seq<Fetched>)
    requires a != [] && StrictlyAscending(a)
    ensures forall x :: x in a[..|a| - 1] <==> x in a && x != a[|a| - 1]
  {
    assert a == a[..|a| - 1] + [a[|a| - 1]];
    assert forall x :: x in a[..|a| - 1] ==> x in a && x.ts < a[|a| - 1].ts;
  }

  lemma SameRows(a: seq<Fetched>, b: seq<Fetched>, history: Table, now: int)
    requires IdsOf(a) == IdsOf(b) <= history.Keys
    requires forall x :: x in a ==> Says(x, history[x.id], now)
    requires forall x :: x in b ==> Says(x, history[x.id], now)
    ensures forall x :: x in a <==> x in b
  {
    forall x | x in a ensures x in b {
      assert x.id in IdsOf(b);
    }
    forall x | x in b ensures x in a {
      assert x.id in IdsOf(a);
    }
  }

  /** Lazy pruning is unobservable: two runs with the same appends but any two schedules of
      prunes answer the same fetch with the same rows in the same order. */
  lemma PruneScheduleIrrelevant(tables1: seq<Table>, events1: seq<Event>, after1: Table, answer1: seq<Fetched>,
                                tables2: seq<Table>, events2: seq<Event>, after2: Table, answer2: seq<Fetched>,
                                now: int, since: int)
    requires Run(tables1, events1) && FreshIds(events1) && ClockOrdered(events1 + [Fetch(now)])
    requires Run(tables2, events2) && FreshIds(events2) && ClockOrdered(events2 + [Fetch(now)])
    requires History(events1) == History(events2) && DistinctStamps(StampsOf(History(events1)))
    requires PruneOf(after1, tables1[|events1|], now) && FetchOf(answer1, after1, since, MAX_ROWS)
    requires PruneOf(after2, tables2[|events2|], now) && FetchOf(answer2, after2, since, MAX_ROWS)
    ensures answer1 == answer2
  {
    FetchIsHistoryView(tables1, events1, after1, now, since, answer1);
    FetchIsHistoryView(tables2, events2, after2, now, since, answer2);
    SameRows(answer1, answer2, History(events1), now);
    AscendingUnique(answer1, answer2);
  }

  /** Fresh ids are needed. An id reused eight days later is lost when no prune ran in between, since
      the overdue row still blocks the INSERT, and stored when one did. */
  lemma ReusedIdIsLost(id: MsgId, first: Row, again: Row, mid: Table, after: Table)
    requires again.ts == first.ts + 8 * 86400 * 1000
    ensures PruneOf(after, Inserted(map[id := first], id, again), again.ts) ==> after == map[]
    ensures PruneOf(mid, map[id := first], again.ts - 1) && PruneOf(after, Inserted(mid, id, again), again.ts)
            ==> id in after
  {
    var blocked, stored := map[id := first], map[id := again];
    assert Since(blocked.Keys, StampsOf(blocked), again.ts - 1 - TOMBSTONE_TTL_MS) == {};
    assert Since(stored.Keys, StampsOf(stored), again.ts - TOMBSTONE_TTL_MS) == {id};
    if PruneOf(mid, blocked, again.ts - 1) && PruneOf(after, Inserted(mid, id, again), again.ts) {
      assert mid.Keys == {};
      assert Inserted(mid, id, again) == stored;
      assert |after.Keys| == 1;
    }
  }
}
