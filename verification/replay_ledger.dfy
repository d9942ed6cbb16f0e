/** The daemon's replay ledger: the ids of the chats it has handed to the agent, pruned by age and
    count, saved to disk and reloaded on restart, against an outbox that replays what it still holds. */
module ReplayLedger {
  import opened NewestK
  import opened Outbox

  const SEEN_MSG_TTL_MS := 24 * 60 * 60 * 1000
  const SEEN_MSG_MAX: nat := 500

  /** `after` is what pruning `before` at clock `now` may leave. */
  ghost predicate LedgerPruneOf(after: Stamps, before: Stamps, now: int) {
    && IsNewest(after.Keys, Since(before.Keys, before, now - SEEN_MSG_TTL_MS), before, SEEN_MSG_MAX)
    && forall id :: id in after ==> id in before && after[id] == before[id]
  }

  method PruneSeenMsgIds(entries: Stamps, now: int) returns (kept: Stamps)
    ensures LedgerPruneOf(kept, entries, now)
  {
    kept := map id | id in entries && entries[id] >= now - SEEN_MSG_TTL_MS :: entries[id];
    ghost var live := kept;
    if |kept.Keys| > SEEN_MSG_MAX {
      var newest := NewestIds(kept, SEEN_MSG_MAX);
      kept := map id | id in kept && id in newest :: kept[id];
      assert kept.Keys == newest;
    } else {
      SelectsItself(kept);
    }
    SameStamps(kept.Keys, live.Keys, live, entries, SEEN_MSG_MAX);
    assert live.Keys == Since(entries.Keys, entries, now - SEEN_MSG_TTL_MS);
  }

  lemma SelectsItself(all: Stamps)
    requires |all.Keys| <= SEEN_MSG_MAX
    ensures IsNewest(all.Keys, all.Keys, all, SEEN_MSG_MAX)
  {
  }

  /** One room's ledger in memory, and its copy in rooms.json. */
  class SeenLedger {
    var seen: Stamps
    var disk: Stamps

    constructor ()
      ensures seen == map[] && disk == map[]
    {
      seen, disk := map[], map[];
    }

    /** The head of onChat: a chat already in the ledger starts no turn. */
    method Admit(id: MsgId, now: int) returns (dispatch: bool)
      modifies this`seen
      ensures dispatch <==> id !in old(seen)
      ensures seen == if dispatch then old(seen)[id := now] else old(seen)
    {
      if id in seen {
        return false;
      }
      seen := seen[id := now];
      return true;
    }

    method Persist(now: int)
      modifies this`disk
      ensures LedgerPruneOf(disk, seen, now)
    {
      disk := PruneSeenMsgIds(seen, now);
    }

    method Restart(now: int)
      modifies this`seen
      ensures LedgerPruneOf(seen, disk, now)
    {
      seen := PruneSeenMsgIds(disk, now);
    }
  }

  // ----- What the ledger is certain to hold -----

  /** `ledger` holds every chat of `first` seen at or after `cutoff` and among the latest 500. */
  ghost predicate Covers(ledger: Stamps, first: Stamps, cutoff: int) {
    && ledger.Keys <= first.Keys
    && (forall id :: id in ledger ==> ledger[id] == first[id])
    && forall id :: id in first && Certain(first, id, cutoff) ==> id in ledger
  }

  ghost predicate Certain(first: Stamps, id: MsgId, cutoff: int)
    requires id in first
  {
    first[id] >= cutoff && |Since(first.Keys, first, first[id])| <= SEEN_MSG_MAX
  }

  lemma CoversAfterPrune(before: Stamps, first: Stamps, earlier: int, after: Stamps, now: int)
    requires Covers(before, first, earlier) && earlier <= now - SEEN_MSG_TTL_MS
    requires LedgerPruneOf(after, before, now)
    ensures Covers(after, first, now - SEEN_MSG_TTL_MS)
  {
    var cutoff := now - SEEN_MSG_TTL_MS;
    forall id | id in first && Certain(first, id, cutoff) ensures id in after {
      assert Certain(first, id, earlier);
      var live := Since(before.Keys, before, cutoff);
      assert Since(live, before, before[id]) <= Since(first.Keys, first, first[id]);
      SubsetCard(Since(live, before, before[id]), Since(first.Keys, first, first[id]));
      FewNewerIsKept(after.Keys, live, before, id, SEEN_MSG_MAX);
    }
  }

  lemma CoversAfterDispatch(ledger: Stamps, first: Stamps, cutoff: int, id: MsgId, now: int)
    requires Covers(ledger, first, cutoff) && id !in first
    ensures Covers(ledger[id := now], first[id := now], cutoff)
  {
    var first' := first[id := now];
    forall x | x in first' && Certain(first', x, cutoff) ensures x in ledger[id := now] {
      if x != id {
        SubsetCard(Since(first.Keys, first, first[x]), Since(first'.Keys, first', first'[x]));
        assert Certain(first, x, cutoff);
      }
    }
  }

  // ----- The outbox and the ledger together -----

  datatype World = World(
    outbox: Table, history: Table, prunedAt: int,   // the server's table, and all appended since its last wipe
    seen: Stamps, disk: Stamps,                     // the daemon's ledger and its saved copy
    first: Stamps, saved: Stamps,                   // first dispatch of every chat: so far, and at the last save
    cutoff: int,                                    // the latest age cutoff any ledger prune used
    turns: seq<MsgId>)                              // chats handed to the agent, in order

  datatype Happening =
    | Appended(id: MsgId, row: Row)   // the server stores a chat and prunes
    | Fetched                         // a fetch prunes the outbox
    | Wiped                           // catch-up is turned off
    | Deliver(id: MsgId)              // the daemon receives a chat, live or replayed
    | Persist
    | Restart                         // whether or not the last save has settled

  ghost predicate Happens(w: World, h: Happening, now: int, w': World) {
    match h
    case Appended(id, row) =>
      && id !in w.history
      && PruneOf(w'.outbox, Inserted(w.outbox, id, row), now)
      && w' == w.(outbox := w'.outbox, history := w.history[id := row], prunedAt := now)
    case Fetched =>
      && PruneOf(w'.outbox, w.outbox, now)
      && w' == w.(outbox := w'.outbox, prunedAt := now)
    case Wiped =>
      w' == w.(outbox := map[], history := map[], prunedAt := now)
    case Deliver(id) =>
      w' == if id in w.seen then w
            else w.(seen := w.seen[id := now], first := w.first[id := now], turns := w.turns + [id])
    case Persist =>
      && LedgerPruneOf(w'.disk, w.seen, now)
      && w' == w.(disk := w'.disk, saved := w.first, cutoff := now - SEEN_MSG_TTL_MS)
    case Restart =>
      && LedgerPruneOf(w'.seen, w.disk, now)
      && w' == w.(seen := w'.seen, cutoff := now - SEEN_MSG_TTL_MS)
  }

  /** Whatever happens next, there is a next world: any new chat can be appended, and the table fetched
      or wiped, any chat delivered, and the ledger saved or reloaded, at any time. */
  lemma AnythingCanHappen(w: World, h: Happening, now: int) returns (w': World)
    requires h.Appended? ==> h.id !in w.history
    ensures Happens(w, h, now, w')
  {
    hide PruneOf, LedgerPruneOf;
    match h
    case Appended(id, row) =>
      var outbox := PruneExists(Inserted(w.outbox, id, row), now);
      w' := w.(outbox := outbox, history := w.history[id := row], prunedAt := now);
    case Fetched =>
      var outbox := PruneExists(w.outbox, now);
      w' := w.(outbox := outbox, prunedAt := now);
    case Wiped =>
      w' := w.(outbox := map[], history := map[], prunedAt := now);
    case Deliver(id) =>
      w' := if id in w.seen then w
            else w.(seen := w.seen[id := now], first := w.first[id := now], turns := w.turns + [id]);
    case Persist =>
      var disk := LedgerPruneExists(w.seen, now);
      w' := w.(disk := disk, saved := w.first, cutoff := now - SEEN_MSG_TTL_MS);
    case Restart =>
      var seen := LedgerPruneExists(w.disk, now);
      w' := w.(seen := seen, cutoff := now - SEEN_MSG_TTL_MS);
  }

  lemma LedgerPruneExists(before: Stamps, now: int) returns (after: Stamps)
    ensures LedgerPruneOf(after, before, now)
  {
    hide IsNewest;
    var kept := NewestExists(Since(before.Keys, before, now - SEEN_MSG_TTL_MS), before, SEEN_MSG_MAX);
    after := map id | id in kept :: before[id];
    assert after.Keys == kept;
  }

  /** The stored chats newer than `id`. */
  function NewerStored(history: Table, id: MsgId): set<MsgId>
    requires id in history
  {
    Since(history.Keys, StampsOf(history), history[id].ts + 1)
  }

  /** The chats dispatched since `id` that have no row: sent while catch-up was off, wiped, or not
      appended yet. */
  function NewerUnstored(first: Stamps, history: Table, id: MsgId): set<MsgId>
    requires id in first
  {
    set y | y in first && first[y] >= first[id] && y !in history
  }

  /** `id` reached the daemon no more than `d` before the server stamped it, and after the stored
      chats that are older. */
  ghost predicate InStep(first: Stamps, history: Table, id: MsgId, d: int) {
    && id in first && id in history
    && first[id] >= history[id].ts - d
    && forall y {:trigger first[y]} :: y in first && y in history && history[y].ts < history[id].ts ==>
       first[y] < first[id]
  }

  /** The outbox still replays `id` with its content, outside the skew margin, and chats without a
      row have not used up the ledger's room. */
  ghost predicate Replayable(w: World, id: MsgId, now: int, d: int) {
    && id in w.outbox && w.outbox[id].payload != Empty
    && w.outbox[id].ts >= now - TTL_MS + d
    && InStep(w.first, w.history, id, d) && DistinctStamps(StampsOf(w.history))
    && |NewerStored(w.history, id)| + |NewerUnstored(w.first, w.history, id)| < SEEN_MSG_MAX
  }

  ghost predicate Sound(w: World, now: int) {
    && w.prunedAt <= now && w.cutoff + SEEN_MSG_TTL_MS <= now
    && Retains(w.outbox, w.history, w.prunedAt)
    && Covers(w.seen, w.first, w.cutoff)
    && Covers(w.disk, w.saved, w.cutoff)
    && (forall id :: id in w.turns <==> id in w.first)
    && NoRepeat(w.turns)
  }

  ghost predicate NoRepeat(turns: seq<MsgId>) {
    forall i, j :: 0 <= i < j < |turns| ==> turns[i] != turns[j]
  }

  /** The ledger covers whatever the outbox can still replay. */
  lemma ReplayableIsCertain(w: World, id: MsgId, now: int, d: int)
    requires Retains(w.outbox, w.history, w.prunedAt) && w.cutoff + SEEN_MSG_TTL_MS <= now
    requires id in w.first && Replayable(w, id, now, d)
    ensures Certain(w.first, id, w.cutoff)
  {
    var newer, unstored := NewerStored(w.history, id), NewerUnstored(w.first, w.history, id);
    var all := Since(w.first.Keys, w.first, w.first[id]);
    forall y | y in all ensures y in newer + unstored + {id} {
      if y in w.history {
        assert StampsOf(w.history)[y] == w.history[y].ts && StampsOf(w.history)[id] == w.history[id].ts;
      }
    }
    SubsetCard(all, newer + unstored + {id});
  }

  /** When every chat dispatched since has its row, there is always room: fewer than 500 stored rows
      are newer than a retained one. */
  lemma StoredLeaveRoom(w: World, id: MsgId)
    requires Retains(w.outbox, w.history, w.prunedAt) && id in w.outbox && id in w.first
    requires NewerUnstored(w.first, w.history, id) == {}
    ensures |NewerStored(w.history, id)| + |NewerUnstored(w.first, w.history, id)| < SEEN_MSG_MAX
  {
    var stamp, cutoff := StampsOf(w.history), w.prunedAt - TOMBSTONE_TTL_MS;
    KeptHasFewNewer(w.outbox.Keys, Since(w.history.Keys, stamp, cutoff), stamp, id, MAX_ROWS);
    NewerAreLive(w.history.Keys, stamp, cutoff, stamp[id] + 1);
  }

  /** A replayed chat starts no second turn. */
  lemma ReplayIsDropped(w: World, id: MsgId, now: int, d: int)
    requires Sound(w, now) && id in w.first && Replayable(w, id, now, d)
    ensures id in w.seen
    ensures Happens(w, Deliver(id), now, w)
  {
    ReplayableIsCertain(w, id, now, d);
  }

  /** A delivery is the chat's first, a repetition the ledger still knows, or a replay out of the outbox. */
  ghost predicate HonestDelivery(w: World, h: Happening, now: int, d: int) {
    h.Deliver? && h.id in w.first ==> h.id in w.seen || Replayable(w, h.id, now, d)
  }

  /** Whatever was dispatched has been saved before a restart. */
  predicate Settled(w: World, h: Happening) {
    h.Restart? ==> w.saved == w.first
  }

  lemma SoundKept(w: World, h: Happening, earlier: int, now: int, w': World, d: int)
    requires Sound(w, earlier) && earlier <= now
    requires Happens(w, h, now, w') && HonestDelivery(w, h, now, d) && Settled(w, h)
    ensures Sound(w', now)
  {
    hide Happens, HonestDelivery, Sound;
    match h
    case Deliver(id) =>
      SoundLater(w, earlier, now);
      DeliverSound(w, id, now, w', d);
    case Persist =>
      SoundLater(w, earlier, now);
      PruneSound(w, h, now, w');
    case Restart =>
      SoundLater(w, earlier, now);
      PruneSound(w, h, now, w');
    case _ => OutboxSound(w, h, earlier, now, w');
  }

  lemma SoundLater(w: World, earlier: int, now: int)
    requires Sound(w, earlier) && earlier <= now
    ensures Sound(w, now)
  {
  }

  lemma OutboxSound(w: World, h: Happening, earlier: int, now: int, w': World)
    requires Sound(w, earlier) && earlier <= now && Happens(w, h, now, w')
    requires h.Appended? || h.Fetched? || h.Wiped?
    ensures Sound(w', now)
  {
    hide Retains, PruneOf;
    match h
    case Appended(id, row) => AppendRetains(w.outbox, w.history, w.prunedAt, id, row, w'.outbox, now);
    case Fetched => PruneRetains(w.outbox, w.history, w.prunedAt, w.outbox, w.history, w'.outbox, now);
    case _ => EmptyRetains(now);
  }

  lemma DeliverSound(w: World, id: MsgId, now: int, w': World, d: int)
    requires Sound(w, now) && Happens(w, Deliver(id), now, w') && HonestDelivery(w, Deliver(id), now, d)
    ensures Sound(w', now)
  {
    if id in w.first {
      if id !in w.seen { ReplayIsDropped(w, id, now, d); }
    } else {
      CoversAfterDispatch(w.seen, w.first, w.cutoff, id, now);
      assert id !in w.turns;
    }
  }

  lemma PruneSound(w: World, h: Happening, now: int, w': World)
    requires Sound(w, now) && Happens(w, h, now, w') && Settled(w, h) && (h.Persist? || h.Restart?)
    ensures Sound(w', now)
  {
    if h.Persist? {
      CoversAfterPrune(w.seen, w.first, w.cutoff, w'.disk, now);
      CoversLater(w.seen, w.first, w.cutoff, now - SEEN_MSG_TTL_MS);
    } else {
      CoversAfterPrune(w.disk, w.first, w.cutoff, w'.seen, now);
      CoversLater(w.disk, w.saved, w.cutoff, now - SEEN_MSG_TTL_MS);
    }
  }

  lemma CoversLater(ledger: Stamps, first: Stamps, cutoff: int, later: int)
    requires Covers(ledger, first, cutoff) && cutoff <= later
    ensures Covers(ledger, first, later)
  {
    forall id | id in first && Certain(first, id, later) ensures id in ledger {
      assert Certain(first, id, cutoff);
    }
  }

  function Fresh(now: int): World {
    World(map[], map[], now, map[], map[], map[], map[], now - SEEN_MSG_TTL_MS, [])
  }

  /** clock[i] is the time of the i-th happening; the daemon starts when the room is created. */
  ghost predicate Run(worlds: seq<World>, happenings: seq<Happening>, clock: seq<int>) {
    && |worlds| == |happenings| + 1 == |clock|
    && worlds[0] == Fresh(clock[0])
    && forall i :: 0 <= i < |happenings| ==> StepAt(worlds, happenings, clock, i)
  }

  ghost predicate StepAt(worlds: seq<World>, happenings: seq<Happening>, clock: seq<int>, i: nat)
    requires i < |happenings| && |worlds| == |happenings| + 1 == |clock|
  {
    clock[i] <= clock[i + 1] && Happens(worlds[i], happenings[i], clock[i + 1], worlds[i + 1])
  }

  /** A run in which every restart follows a settled save and every repeated delivery is honest. */
  ghost predicate GoodRun(worlds: seq<World>, happenings: seq<Happening>, clock: seq<int>, d: int) {
    && Run(worlds, happenings, clock)
    && forall i :: 0 <= i < |happenings| ==> GoodAt(worlds[i], happenings[i], clock[i + 1], d)
  }

  ghost predicate GoodAt(w: World, h: Happening, now: int, d: int) {
    HonestDelivery(w, h, now, d) && Settled(w, h)
  }

  lemma {:induction false} SoundAlways(worlds: seq<World>, happenings: seq<Happening>, clock: seq<int>, d: int, i: nat)
    requires GoodRun(worlds, happenings, clock, d) && i < |worlds|
    ensures Sound(worlds[i], clock[i])
  {
    if i == 0 {
      FreshIsSound(clock[0]);
    } else {
      SoundAlways(worlds, happenings, clock, d, i - 1);
      assert StepAt(worlds, happenings, clock, i - 1) && GoodAt(worlds[i - 1], happenings[i - 1], clock[i], d);
      SoundKept(worlds[i - 1], happenings[i - 1], clock[i - 1], clock[i], worlds[i], d);
    }
  }

  lemma FreshIsSound(now: int)
    ensures Sound(Fresh(now), now)
  {
  }

  /** Over every run with any number of saves, restarts, prunes and replays, no chat is handed to
      the agent twice. */
  lemma NoSecondTurn(worlds: seq<World>, happenings: seq<Happening>, clock: seq<int>, d: int)
    requires GoodRun(worlds, happenings, clock, d)
    ensures NoRepeat(worlds[|worlds| - 1].turns)
  {
    SoundAlways(worlds, happenings, clock, d, |worlds| - 1);
  }

  // ----- Exactly when a reloaded ledger lets a chat through -----

  /** Which of the saved entries a reload keeps: those of the last day with fewer than 500 newer
      ones, when no two were seen at the same millisecond. */
  lemma ReloadedIff(disk: Stamps, reloaded: Stamps, now: int, id: MsgId)
    requires LedgerPruneOf(reloaded, disk, now) && DistinctStamps(disk)
    ensures id in reloaded <==>
            id in disk && disk[id] >= now - 86400000 && |set x | x in disk && disk[x] > disk[id]| < 500
  {
    var cutoff := now - SEEN_MSG_TTL_MS;
    var live := Since(disk.Keys, disk, cutoff);
    if id in live {
      KeptIffFewNewer(reloaded.Keys, live, disk, id, SEEN_MSG_MAX);
      NewerAreLive(disk.Keys, disk, cutoff, disk[id] + 1);
    }
    if id in disk { assert Since(disk.Keys, disk, disk[id] + 1) == set x | x in disk && disk[x] > disk[id]; }
  }

  /** The delivery begins a second turn: the chat was dispatched, and the ledger, reloaded or not, has
      lost it. */
  predicate Repeats(w: World, h: Happening) {
    h.Deliver? && h.id in w.first && h.id !in w.seen
  }

  lemma {:induction false} TurnsAreFirst(worlds: seq<World>, happenings: seq<Happening>, clock: seq<int>, n: nat)
    requires Run(worlds, happenings, clock) && n < |worlds|
    ensures forall id :: id in worlds[n].turns <==> id in worlds[n].first
  {
    if n > 0 {
      TurnsAreFirst(worlds, happenings, clock, n - 1);
      assert StepAt(worlds, happenings, clock, n - 1);
      OneTurnMore(worlds[n - 1], happenings[n - 1], clock[n], worlds[n]);
    }
  }

  lemma OneTurnMore(w: World, h: Happening, now: int, w': World)
    requires Happens(w, h, now, w')
    requires forall id :: id in w.turns <==> id in w.first
    ensures forall id :: id in w'.turns <==> id in w'.first
    ensures NoRepeat(w'.turns) <==> NoRepeat(w.turns) && !Repeats(w, h)
  {
    hide LedgerPruneOf, PruneOf, NoRepeat;
    if h.Deliver? { TurnAdded(w.turns, h.id); }
  }

  lemma TurnAdded(turns: seq<MsgId>, id: MsgId)
    ensures NoRepeat(turns + [id]) <==> NoRepeat(turns) && id !in turns
  {
    if NoRepeat(turns + [id]) {
      forall i, j | 0 <= i < j <= |turns| ensures (turns + [id])[i] != (turns + [id])[j] { }
      forall i, j | 0 <= i < j < |turns| ensures turns[i] != turns[j] {
        assert (turns + [id])[i] == turns[i] && (turns + [id])[j] == turns[j];
      }
      forall i | 0 <= i < |turns| ensures turns[i] != id {
        assert (turns + [id])[i] == turns[i] && (turns + [id])[|turns|] == id;
      }
    }
  }

  /** In every run, with any number of restarts before or after their saves have settled, no chat is
      handed to the agent twice if and only if every chat that comes again is still in the ledger. */
  lemma {:induction false} SecondTurnsIff(worlds: seq<World>, happenings: seq<Happening>, clock: seq<int>, n: nat)
    requires Run(worlds, happenings, clock) && n < |worlds|
    ensures NoRepeat(worlds[n].turns) <==> forall i :: 0 <= i < n ==> !Repeats(worlds[i], happenings[i])
  {
    if n > 0 {
      SecondTurnsIff(worlds, happenings, clock, n - 1);
      TurnsAreFirst(worlds, happenings, clock, n - 1);
      assert StepAt(worlds, happenings, clock, n - 1);
      OneTurnMore(worlds[n - 1], happenings[n - 1], clock[n], worlds[n]);
    }
  }

  /** After a restart at any moment, settled save or not, and after any others before it, the repeated
      delivery of a dispatched chat begins another turn if and only if its id is not in the reloaded
      ledger. */
  lemma SecondTurnIff(worlds: seq<World>, happenings: seq<Happening>, clock: seq<int>, n: nat)
    requires Run(worlds, happenings, clock) && n + 2 < |worlds|
    requires happenings[n].Restart? && happenings[n + 1].Deliver? && happenings[n + 1].id in worlds[n].first
    ensures var id, before, after := happenings[n + 1].id, worlds[n].turns, worlds[n + 2].turns;
            && id in before && LedgerPruneOf(worlds[n + 1].seen, worlds[n].disk, clock[n + 1])
            && after == if id in worlds[n + 1].seen then before else before + [id]
  {
    TurnsAreFirst(worlds, happenings, clock, n);
    assert StepAt(worlds, happenings, clock, n) && StepAt(worlds, happenings, clock, n + 1);
  }

  /** So a crash between the dispatch of a chat and its save hands the replayed chat over again. */
  lemma UnsettledRestartRepeats(id: MsgId, now: int, once: World, back: World, again: World)
    requires Happens(Fresh(now), Deliver(id), now, once)
    requires Happens(once, Restart, now, back)
    requires Happens(back, Deliver(id), now, again)
    ensures again.turns == [id, id]
  {
  }

  // ----- Chats without a row can use up the ledger -----

  lemma RunExtended(worlds: seq<World>, happenings: seq<Happening>, clock: seq<int>, d: int, h: Happening, now: int,
      w': World)
    requires GoodRun(worlds, happenings, clock, d) && clock[|happenings|] <= now
    requires Happens(worlds[|happenings|], h, now, w') && GoodAt(worlds[|happenings|], h, now, d)
    ensures GoodRun(worlds + [w'], happenings + [h], clock + [now], d)
  {
    hide Happens, GoodAt;
    var n := |happenings|;
    var worlds', happenings', clock' := worlds + [w'], happenings + [h], clock + [now];
    forall i: nat | i <= n
      ensures StepAt(worlds', happenings', clock', i) && GoodAt(worlds'[i], happenings'[i], clock'[i + 1], d)
    {
      if i < n { assert StepAt(worlds, happenings, clock, i) && GoodAt(worlds[i], happenings[i], clock[i + 1], d); }
    }
  }

  predicate Distinct(ids: seq<MsgId>) {
    ids == [] || (ids[|ids| - 1] !in ids[..|ids| - 1] && Distinct(ids[..|ids| - 1]))
  }

  /** The ledger after `id` at `at` and the others, one millisecond apart. */
  function LedgerOf(id: MsgId, at: int, others: seq<MsgId>): Stamps {
    if others == [] then map[id := at]
    else LedgerOf(id, at, others[..|others| - 1])[others[|others| - 1] := at + |others|]
  }

  lemma {:induction false} LedgerOfHolds(id: MsgId, at: int, others: seq<MsgId>)
    requires Distinct(others) && id !in others
    ensures var l := LedgerOf(id, at, others);
            && id in l && l[id] == at && |l.Keys| == |others| + 1
            && (forall x :: x in l <==> x == id || x in others)
            && (forall x :: x in others ==> at < l[x] <= at + |others|)
    decreases |others|
  {
    if others != [] {
      var rest, last := others[..|others| - 1], others[|others| - 1];
      assert others == rest + [last];
      LedgerOfHolds(id, at, rest);
      assert LedgerOf(id, at, others).Keys == LedgerOf(id, at, rest).Keys + {last};
    }
  }

  /** One stored chat, then others that have no row, each dispatched once. */
  lemma {:induction false} DispatchRun(id: MsgId, row: Row, others: seq<MsgId>)
      returns (worlds: seq<World>, happenings: seq<Happening>, clock: seq<int>)
    requires Distinct(others) && id !in others
    ensures GoodRun(worlds, happenings, clock, 0) && clock[|happenings|] == row.ts + |others|
    ensures var w := worlds[|happenings|];
            && w.outbox == w.history == map[id := row] && w.seen == w.first == LedgerOf(id, row.ts, others)
            && (forall x :: x in w.turns ==> x == id || x in others) && id in w.turns
    decreases |others|
  {
    if others == [] {
      var at := row.ts;
      var w0 := Fresh(at);
      var w1 := w0.(outbox := map[id := row], history := map[id := row], prunedAt := at);
      OneRowPruned(id, row);
      RunExtended([w0], [], [at], 0, Appended(id, row), at, w1);
      var w2 := w1.(seen := map[id := at], first := map[id := at], turns := [id]);
      assert map[][id := at] == map[id := at];
      worlds, happenings, clock := [w0] + [w1] + [w2], [] + [Appended(id, row)] + [Deliver(id)], [at] + [at] + [at];
      RunExtended([w0] + [w1], [] + [Appended(id, row)], [at] + [at], 0, Deliver(id), at, w2);
    } else {
      var rest, last := others[..|others| - 1], others[|others| - 1];
      assert others == rest + [last];
      worlds, happenings, clock := DispatchRun(id, row, rest);
      LedgerOfHolds(id, row.ts, rest);
      var n, now := |happenings|, row.ts + |others|;
      var w := worlds[n];
      var w' := w.(seen := w.seen[last := now], first := w.first[last := now], turns := w.turns + [last]);
      RunExtended(worlds, happenings, clock, 0, Deliver(last), now, w');
      worlds, happenings, clock := worlds + [w'], happenings + [Deliver(last)], clock + [now];
    }
  }

  lemma OneRowPruned(id: MsgId, row: Row)
    ensures PruneOf(map[id := row], Inserted(map[], id, row), row.ts)
  {
    var t := map[id := row];
    assert Inserted(map[], id, row) == t;
    assert Since(t.Keys, StampsOf(t), row.ts - TOMBSTONE_TTL_MS) == {id} == t.Keys;
  }

  /** Why the room matters: 500 chats without a row push a stored one out of the ledger. Half a second
      after it was dispatched, its save settled and the daemon restarted, the outbox still replays
      it, and it begins a second turn. */
  lemma UnstoredChatsPushOut(id: MsgId, row: Row, others: seq<MsgId>)
      returns (worlds: seq<World>, happenings: seq<Happening>, clock: seq<int>, again: World)
    requires Distinct(others) && id !in others && |others| == SEEN_MSG_MAX && row.payload != Empty
    ensures GoodRun(worlds, happenings, clock, 0)
    ensures var w, now := worlds[|happenings|], clock[|happenings|];
            && w.saved == w.first && id in w.outbox && w.outbox[id].payload != Empty && w.outbox[id].ts == now - 500
            && InStep(w.first, w.history, id, 0)
            && Happens(w, Deliver(id), now, again) && !NoRepeat(again.turns)
  {
    worlds, happenings, clock := DispatchRun(id, row, others);
    LedgerOfHolds(id, row.ts, others);
    var n, now := |happenings|, row.ts + |others|;
    var w := worlds[n];
    var kept := w.seen - {id};
    PushedOut(w.seen, kept, id, now);
    var w1 := w.(disk := kept, saved := w.first, cutoff := now - SEEN_MSG_TTL_MS);
    RunExtended(worlds, happenings, clock, 0, Persist, now, w1);
    var w2 := w1.(seen := kept, cutoff := now - SEEN_MSG_TTL_MS);
    RunExtended(worlds + [w1], happenings + [Persist], clock + [now], 0, Restart, now, w2);
    worlds, happenings, clock := worlds + [w1] + [w2], happenings + [Persist] + [Restart], clock + [now] + [now];
    again := w2.(seen := w2.seen[id := now], first := w2.first[id := now], turns := w2.turns + [id]);
    var i :| 0 <= i < |w2.turns| && w2.turns[i] == id;
    assert again.turns[i] == again.turns[|w2.turns|];
  }

  lemma PushedOut(before: Stamps, kept: Stamps, id: MsgId, now: int)
    requires id in before && |before.Keys| == SEEN_MSG_MAX + 1 && kept == before - {id}
    requires forall x :: x in before ==> now - SEEN_MSG_TTL_MS <= before[id] <= before[x]
    ensures LedgerPruneOf(kept, before, now) && LedgerPruneOf(kept, kept, now)
  {
    var cutoff := now - SEEN_MSG_TTL_MS;
    assert kept.Keys == before.Keys - {id};
    assert Since(before.Keys, before, cutoff) == before.Keys;
    assert Since(kept.Keys, kept, cutoff) == kept.Keys;
    assert before.Keys - kept.Keys == {id} && kept.Keys - kept.Keys == {};
  }
}
