/** A room's message timeline on one device: live chats and echoes, outbox rows and tombstones, own
    sends, and reloads of the stored history, in any order. Writes to storage land late, in any order, and
    a page that is opened shows nothing until a history has been read and merged. */
module Timeline {
  import opened Wrappers

  type MsgId(==, !new)
  type Text(==, !new)
  type Sender(==, !new)

  datatype Direction = In | Out

  /** A tombstone only says that something was missed. */
  datatype Content = Body(text: Text) | Tombstone

  datatype Message = Message(id: MsgId, ts: int, content: Content, direction: Direction)

  // ----- A timeline as a list -----

  function Ids(s: seq<Message>): set<MsgId> {
    set m | m in s :: m.id
  }

  predicate Unique(s: seq<Message>) {
    s == [] || (s[|s| - 1].id !in Ids(s[..|s| - 1]) && Unique(s[..|s| - 1]))
  }

  predicate UpTo(s: seq<Message>, ts: int) {
    forall m :: m in s ==> m.ts <= ts
  }

  predicate Ascending(s: seq<Message>) {
    s == [] || (UpTo(s[..|s| - 1], s[|s| - 1].ts) && Ascending(s[..|s| - 1]))
  }

  /** The message held under an id. */
  function Held(s: seq<Message>, id: MsgId): Option<Message> {
    if s == [] then None
    else if s[|s| - 1].id == id then Some(s[|s| - 1])
    else Held(s[..|s| - 1], id)
  }

  /** After every message that is not newer. */
  function Insert(x: Message, s: seq<Message>): seq<Message> {
    if s == [] || s[|s| - 1].ts <= x.ts then s + [x]
    else Insert(x, s[..|s| - 1]) + [s[|s| - 1]]
  }

  /** A stable sort by timestamp. */
  function Sorted(s: seq<Message>): seq<Message> {
    if s == [] then [] else Insert(s[|s| - 1], Sorted(s[..|s| - 1]))
  }

  function Replaced(s: seq<Message>, m: Message): seq<Message> {
    if s == [] then []
    else Replaced(s[..|s| - 1], m) + [if s[|s| - 1].id == m.id then m else s[|s| - 1]]
  }

  function Missing(s: seq<Message>, loaded: seq<Message>): seq<Message> {
    if s == [] then []
    else Missing(s[..|s| - 1], loaded) + if s[|s| - 1].id in Ids(loaded) then [] else [s[|s| - 1]]
  }

  // ----- What the handlers do -----

  /** Only the server's clock is taken from an echo. */
  function MergeEcho(existing: Message, incoming: Message): Message {
    if existing.ts == incoming.ts then existing else existing.(ts := incoming.ts)
  }

  /** The messages on screen, the stored history, the writes on their way to it, and the histories
      that were read but not merged yet. */
  datatype World = World(held: seq<Message>, stored: map<MsgId, Message>, writes: set<Message>,
      loads: set<seq<Message>>)

  /** A chat message, live or from the outbox. */
  function Chatted(w: World, incoming: Message): World {
    var existing := Held(w.held, incoming.id);
    if existing.None? then w.(held := Sorted(w.held + [incoming]), writes := w.writes + {incoming})
    else
      var merged := MergeEcho(existing.value, incoming);
      if merged == existing.value then w
      else w.(held := Sorted(Replaced(w.held, merged)), writes := w.writes + {merged})
  }

  function Buried(w: World, tombstone: Message): World {
    if Held(w.held, tombstone.id).Some? then w
    else w.(held := Sorted(w.held + [tombstone]), writes := w.writes + {tombstone})
  }

  /** An own message once the server took it: stored in any case, shown unless its echo was faster. */
  function SentOut(w: World, own: Message): World {
    var w' := w.(writes := w.writes + {own});
    if Held(w.held, own.id).Some? then w' else w'.(held := Sorted(w.held + [own]))
  }

  /** The stored history, with what is on screen but not stored yet. */
  function Reloaded(w: World, loaded: seq<Message>): World {
    w.(held := Sorted(loaded + Missing(w.held, loaded)), loads := w.loads - {loaded})
  }

  class Room {
    var messages: seq<Message>
    ghost var stored: map<MsgId, Message>
    ghost var writes: set<Message>
    ghost var loads: set<seq<Message>>

    ghost function View(): World
      reads this
    {
      World(messages, stored, writes, loads)
    }

    /** The index of the message with this id, or -1. */
    method Find(id: MsgId) returns (i: int)
      requires Unique(messages)
      ensures -1 <= i < |messages|
      ensures i >= 0 ==> Held(messages, id) == Some(messages[i])
      ensures i < 0 ==> Held(messages, id) == None
    {
      i := 0;
      while i < |messages|
        invariant 0 <= i <= |messages|
        invariant Held(messages[..i], id) == None
      {
        assert messages[..i + 1][..i] == messages[..i];
        if messages[i].id == id {
          HeldAt(messages, i);
          return;
        }
        i := i + 1;
      }
      assert messages[..i] == messages;
      i := -1;
    }

    method IngestChat(incoming: Message)
      requires Unique(messages)
      modifies this
      ensures View() == Chatted(old(View()), incoming)
    {
      var i := Find(incoming.id);
      if i >= 0 {
        var merged := MergeEcho(messages[i], incoming);
        if merged == messages[i] {
          return;
        }
        writes := writes + {merged};
        messages := Sorted(Replaced(messages, merged));
        return;
      }
      writes := writes + {incoming};
      messages := Sorted(messages + [incoming]);
    }

    method IngestTombstone(tombstone: Message)
      requires Unique(messages)
      modifies this
      ensures View() == Buried(old(View()), tombstone)
    {
      var i := Find(tombstone.id);
      if i >= 0 {
        return;
      }
      writes := writes + {tombstone};
      messages := Sorted(messages + [tombstone]);
    }

    /** After the server took an own message. */
    method Send(own: Message)
      requires Unique(messages)
      modifies this
      ensures View() == SentOut(old(View()), own)
    {
      writes := writes + {own};
      var i := Find(own.id);
      if i < 0 {
        messages := Sorted(messages + [own]);
      }
    }

    /** The merge of a history that was read some time before. */
    method Reload(loaded: seq<Message>)
      modifies this`messages, this`loads
      ensures View() == Reloaded(old(View()), loaded)
    {
      var byId := loaded;
      var known := Ids(loaded);
      for i := 0 to |messages|
        invariant byId == loaded + Missing(messages[..i], loaded)
      {
        assert messages[..i + 1][..i] == messages[..i];
        if messages[i].id !in known {
          byId := byId + [messages[i]];
        }
      }
      assert messages[..|messages|] == messages;
      messages := Sorted(byId);
      loads := loads - {loaded};
    }
  }

  lemma {:induction false} HeldAt(s: seq<Message>, i: nat)
    requires Unique(s) && i < |s|
    ensures Held(s, s[i].id) == Some(s[i])
    decreases |s|
  {
    if i < |s| - 1 {
      assert s[..|s| - 1][i] == s[i];
      HeldAt(s[..|s| - 1], i);
      assert s[i] in s[..|s| - 1];
    }
  }

  // ----- Sorting keeps what a list holds -----

  lemma {:induction false} HeldIffId(s: seq<Message>, id: MsgId)
    ensures Held(s, id).Some? <==> id in Ids(s)
    ensures Held(s, id).Some? ==> Held(s, id).value in s && Held(s, id).value.id == id
    decreases |s|
  {
    if s != [] {
      var n := |s| - 1;
      HeldIffId(s[..n], id);
      assert s == s[..n] + [s[n]];
    }
  }

  lemma LastIsNew(s: seq<Message>)
    requires s != [] && Unique(s)
    ensures var n := |s| - 1; Unique(s[..n]) && s[n].id !in Ids(s[..n])
  {
  }

  lemma LastIsLatest(s: seq<Message>)
    requires s != [] && Ascending(s)
    ensures var n := |s| - 1; Ascending(s[..n]) && UpTo(s[..n], s[n].ts) && UpTo(s, s[n].ts)
  {
    var n := |s| - 1;
    assert s == s[..n] + [s[n]];
    forall m | m in s ensures m in s[..n] || m == s[n] { }
  }

  lemma LastOf(s: seq<Message>)
    requires s != [] && Unique(s) && Ascending(s)
    ensures var n := |s| - 1;
            && s == s[..n] + [s[n]] && Unique(s[..n]) && Ascending(s[..n])
            && s[n].id !in Ids(s[..n]) && UpTo(s[..n], s[n].ts) && UpTo(s, s[n].ts)
  {
    hide *;
    LastIsNew(s);
    LastIsLatest(s);
    assert s == s[..|s| - 1] + [s[|s| - 1]];
  }

  lemma AppendAscends(s: seq<Message>, x: Message)
    requires Ascending(s) && UpTo(s, x.ts)
    ensures Ascending(s + [x])
  {
    assert (s + [x])[..|s|] == s;
  }

  lemma {:induction false} InsertKeeps(x: Message, s: seq<Message>)
    requires Unique(s) && Ascending(s) && x.id !in Ids(s)
    ensures var t := Insert(x, s);
            Unique(t) && Ascending(t) && Ids(t) == Ids(s) + {x.id} && forall m :: m in t <==> m == x || m in s
    ensures forall id :: Held(Insert(x, s), id) == if id == x.id then Some(x) else Held(s, id)
    decreases |s|
  {
    hide Unique, Ascending, Held, Ids;
    if s != [] { LastOf(s); }
    if s == [] || s[|s| - 1].ts <= x.ts {
      AppendKeeps(s, x);
      AppendAscends(s, x);
    } else {
      var n := |s| - 1;
      AppendKeeps(s[..n], s[n]);
      InsertKeeps(x, s[..n]);
      AppendKeeps(Insert(x, s[..n]), s[n]);
      AppendAscends(Insert(x, s[..n]), s[n]);
    }
  }

  lemma {:induction false} SortedKeeps(s: seq<Message>)
    requires Unique(s)
    ensures var t := Sorted(s); Unique(t) && Ascending(t) && Ids(t) == Ids(s) && forall m :: m in t <==> m in s
    ensures forall id :: Held(Sorted(s), id) == Held(s, id)
    decreases |s|
  {
    if s != [] {
      hide Insert, Ascending;
      var n := |s| - 1;
      assert s == s[..n] + [s[n]];
      IdsAppend(s[..n], s[n]);
      SortedKeeps(s[..n]);
      InsertKeeps(s[n], Sorted(s[..n]));
    }
  }

  lemma IdsAppend(s: seq<Message>, x: Message)
    ensures Ids(s + [x]) == Ids(s) + {x.id}
  {
    forall id ensures id in Ids(s + [x]) <==> id in Ids(s) + {x.id} {
      if id == x.id { assert x in s + [x]; }
    }
  }

  lemma AppendKeeps(s: seq<Message>, x: Message)
    requires Unique(s) && x.id !in Ids(s)
    ensures Unique(s + [x]) && Ids(s + [x]) == Ids(s) + {x.id}
    ensures forall id :: Held(s + [x], id) == if id == x.id then Some(x) else Held(s, id)
  {
    IdsAppend(s, x);
    assert (s + [x])[..|s|] == s;
  }

  lemma {:induction false} ReplacedKeeps(s: seq<Message>, m: Message)
    requires Unique(s)
    ensures Unique(Replaced(s, m)) && Ids(Replaced(s, m)) == Ids(s)
    ensures forall id :: Held(Replaced(s, m), id) == if id == m.id && m.id in Ids(s) then Some(m) else Held(s, id)
    decreases |s|
  {
    if s != [] {
      var n := |s| - 1;
      var x := if s[n].id == m.id then m else s[n];
      assert s == s[..n] + [s[n]];
      IdsAppend(s[..n], s[n]);
      ReplacedKeeps(s[..n], m);
      AppendKeeps(Replaced(s[..n], m), x);
    }
  }

  /** Stored messages win; what is missing from them stays. */
  lemma {:induction false} MissingKeeps(s: seq<Message>, loaded: seq<Message>)
    requires Unique(s) && Unique(loaded)
    ensures var t := loaded + Missing(s, loaded);
            && Unique(t) && Ids(t) == Ids(loaded) + Ids(s)
            && forall id :: Held(t, id) == if id in Ids(loaded) then Held(loaded, id) else Held(s, id)
    decreases |s|
  {
    if s == [] {
      NoneMissing(loaded);
    } else {
      var n := |s| - 1;
      assert Unique(s[..n]);
      hide *;
      assert s == s[..n] + [s[n]];
      MissingKeeps(s[..n], loaded);
      IdsAppend(s[..n], s[n]);
      MissingStep(s, loaded, loaded + Missing(s[..n], loaded));
    }
  }

  lemma NoneMissing(loaded: seq<Message>)
    requires Unique(loaded)
    ensures loaded + Missing([], loaded) == loaded && Ids(loaded) == Ids(loaded) + Ids([])
    ensures forall id :: Held(loaded, id) == if id in Ids(loaded) then Held(loaded, id) else Held([], id)
  {
    forall id ensures Held(loaded, id).Some? <==> id in Ids(loaded) { HeldIffId(loaded, id); }
  }

  lemma MissingStep(s: seq<Message>, loaded: seq<Message>, t: seq<Message>)
    requires s != [] && Unique(s) && t == loaded + Missing(s[..|s| - 1], loaded)
    requires Unique(t) && Ids(t) == Ids(loaded) + Ids(s[..|s| - 1]) && Ids(s) == Ids(s[..|s| - 1]) + {s[|s| - 1].id}
    requires forall id :: Held(t, id) == if id in Ids(loaded) then Held(loaded, id) else Held(s[..|s| - 1], id)
    ensures var t' := loaded + Missing(s, loaded);
            && Unique(t') && Ids(t') == Ids(loaded) + Ids(s)
            && forall id :: Held(t', id) == if id in Ids(loaded) then Held(loaded, id) else Held(s, id)
  {
    hide Ids, Unique;
    var x := s[|s| - 1];
    assert x.id !in Ids(s[..|s| - 1]) by { LastIsNew(s); }
    if x.id in Ids(loaded) {
      assert loaded + Missing(s, loaded) == t;
    } else {
      assert loaded + Missing(s, loaded) == t + [x];
      AppendKeeps(t, x);
    }
  }

  // ----- Runs -----

  datatype Event =
    | Chat(message: Message)
    | Expiry(message: Message)
    | Send(message: Message)
    | Land(message: Message)
    | Load(loaded: seq<Message>)
    | Merge(loaded: seq<Message>)
    | Open(kept: set<Message>)

  /** What a read of the whole history gives. */
  ghost predicate IsHistory(loaded: seq<Message>, stored: map<MsgId, Message>) {
    Unique(loaded) && forall m :: m in loaded <==> m.id in stored && stored[m.id] == m
  }

  /** A history is read at one moment and merged at a later one. When the page is left some of the writes
      may never land. */
  ghost predicate Possible(w: World, e: Event) {
    match e
    case Chat(m) => m.content.Body?
    case Expiry(m) => m.content.Tombstone?
    case Send(_) => true
    case Land(m) => m in w.writes
    case Load(loaded) => IsHistory(loaded, w.stored)
    case Merge(loaded) => loaded in w.loads
    case Open(kept) => kept <= w.writes
  }

  function Next(w: World, e: Event): World {
    match e
    case Chat(m) => Chatted(w, m)
    case Expiry(m) => Buried(w, m)
    case Send(m) => SentOut(w, m)
    case Land(m) => w.(stored := w.stored[m.id := m], writes := w.writes - {m})
    case Load(loaded) => w.(loads := w.loads + {loaded})
    case Merge(loaded) => Reloaded(w, loaded)
    case Open(kept) => w.(held := [], writes := kept, loads := {})
  }

  /** A page that has just been opened shows nothing yet, whatever is stored. */
  ghost predicate Opened(w: World) {
    w.held == [] && w.writes == {} && w.loads == {} && forall k :: k in w.stored ==> w.stored[k].id == k
  }

  ghost predicate Run(worlds: seq<World>, events: seq<Event>) {
    && |worlds| == |events| + 1 && Opened(worlds[0])
    && forall i :: 0 <= i < |events| ==> StepAt(worlds, events, i)
  }

  ghost predicate StepAt(worlds: seq<World>, events: seq<Event>, i: nat)
    requires i < |events| && |worlds| == |events| + 1
  {
    Possible(worlds[i], events[i]) && worlds[i + 1] == Next(worlds[i], events[i])
  }

  // ----- What one event does to the screen -----

  ghost predicate Listed(w: World) {
    Unique(w.held) && forall loaded :: loaded in w.loads ==> Unique(loaded)
  }

  /** What is shown under an id after an event. */
  function HeldAfter(w: World, e: Event, id: MsgId): Option<Message> {
    var held := Held(w.held, id);
    match e
    case Chat(m) => if id != m.id then held else if held.None? then Some(m) else Some(MergeEcho(held.value, m))
    case Expiry(m) => if id == m.id && held.None? then Some(m) else held
    case Send(m) => if id == m.id && held.None? then Some(m) else held
    case Merge(loaded) => if Held(loaded, id).Some? then Held(loaded, id) else held
    case Open(_) => None
    case _ => held
  }

  lemma StepHolds(w: World, e: Event)
    requires Listed(w) && Possible(w, e)
    ensures Listed(Next(w, e)) && (Ascending(w.held) ==> Ascending(Next(w, e).held))
    ensures forall id :: Held(Next(w, e).held, id) == HeldAfter(w, e, id)
  {
    hide Sorted, Unique, Ascending, Held, Replaced;
    match e
    case Chat(m) => if Held(w.held, m.id).Some? { EchoHolds(w.held, m); } else { AddHolds(w.held, m); }
    case Expiry(m) => if Held(w.held, m.id).None? { AddHolds(w.held, m); }
    case Send(m) => if Held(w.held, m.id).None? { AddHolds(w.held, m); }
    case Merge(loaded) =>
      MergedHolds(w.held, loaded);
      forall id ensures Held(loaded, id).Some? <==> id in Ids(loaded) { HeldIffId(loaded, id); }
    case Open(_) => NothingShown();
    case _ =>
  }

  lemma NothingShown()
    ensures Unique([]) && Ascending([]) && forall id :: Held([], id) == None
  {
  }

  lemma AddHolds(held: seq<Message>, m: Message)
    requires Unique(held) && Held(held, m.id).None?
    ensures var t := Sorted(held + [m]);
            Unique(t) && Ascending(t) && forall id :: Held(t, id) == if id == m.id then Some(m) else Held(held, id)
  {
    hide Sorted, Unique, Ascending;
    HeldIffId(held, m.id);
    AppendKeeps(held, m);
    SortedKeeps(held + [m]);
  }

  lemma EchoHolds(held: seq<Message>, m: Message)
    requires Unique(held) && Held(held, m.id).Some?
    ensures var merged := MergeEcho(Held(held, m.id).value, m);
            var t := Sorted(Replaced(held, merged));
            && merged.id == m.id && Unique(t) && Ascending(t)
            && forall id :: Held(t, id) == if id == m.id then Some(merged) else Held(held, id)
  {
    hide Sorted, Unique, Ascending, Replaced;
    HeldIffId(held, m.id);
    var merged := MergeEcho(Held(held, m.id).value, m);
    ReplacedKeeps(held, merged);
    SortedKeeps(Replaced(held, merged));
  }

  /** After a merge the read record is held wherever there is one. */
  lemma MergedHolds(held: seq<Message>, loaded: seq<Message>)
    requires Unique(held) && Unique(loaded)
    ensures var t := Sorted(loaded + Missing(held, loaded));
            && Unique(t) && Ascending(t)
            && forall id :: Held(t, id) == if id in Ids(loaded) then Held(loaded, id) else Held(held, id)
  {
    hide Sorted, Unique, Ascending, Missing;
    MissingKeeps(held, loaded);
    SortedKeeps(loaded + Missing(held, loaded));
  }

  /** An echo moves the held message to the server's clock, and only it. */
  lemma EchoTakesClock(w: World, m: Message)
    requires Unique(w.held) && Held(w.held, m.id).Some?
    ensures Held(Chatted(w, m).held, m.id) == Some(Held(w.held, m.id).value.(ts := m.ts))
    ensures forall id :: id != m.id ==> Held(Chatted(w, m).held, id) == Held(w.held, id)
  {
    EchoHolds(w.held, m);
  }

  /** A real message that arrives under a shown tombstone's id does not replace it. */
  lemma TombstoneStays(w: World, m: Message)
    requires Unique(w.held) && Held(w.held, m.id).Some? && Held(w.held, m.id).value.content.Tombstone?
    ensures Held(Chatted(w, m).held, m.id).Some? && Held(Chatted(w, m).held, m.id).value.content.Tombstone?
  {
    EchoTakesClock(w, m);
  }

  predicate OtherText(a: Option<Message>, b: Option<Message>) {
    a.Some? && b.Some? && a.value.content != b.value.content
  }

  predicate OtherDirection(a: Option<Message>, b: Option<Message>) {
    a.Some? && b.Some? && a.value.direction != b.value.direction
  }

  /** A shown message leaves the screen if and only if the page is opened anew, and its text changes, or
      gives way to a tombstone, if and only if a history is merged that says otherwise. */
  lemma RewritesIff(w: World, e: Event, id: MsgId)
    requires Listed(w) && Possible(w, e) && Held(w.held, id).Some?
    ensures Held(Next(w, e).held, id).None? <==> e.Open?
    ensures OtherText(Held(w.held, id), Held(Next(w, e).held, id))
            <==> e.Merge? && OtherText(Held(w.held, id), Held(e.loaded, id))
  {
    StepHolds(w, e);
  }

  /** Likewise its direction. */
  lemma TurnsIff(w: World, e: Event, id: MsgId)
    requires Listed(w) && Possible(w, e) && Held(w.held, id).Some?
    ensures OtherDirection(Held(w.held, id), Held(Next(w, e).held, id))
            <==> e.Merge? && OtherDirection(Held(w.held, id), Held(e.loaded, id))
  {
    StepHolds(w, e);
  }

  /** In every run the timeline is in order without duplicates. */
  lemma {:induction false} ListedAlways(worlds: seq<World>, events: seq<Event>, n: nat)
    requires Run(worlds, events) && n < |worlds|
    ensures Listed(worlds[n]) && Ascending(worlds[n].held)
  {
    if n > 0 {
      ListedAlways(worlds, events, n - 1);
      assert StepAt(worlds, events, n - 1);
      StepHolds(worlds[n - 1], events[n - 1]);
    }
  }

  lemma {:induction false} AscendingPairs(s: seq<Message>, i: nat, j: nat)
    requires Ascending(s) && Unique(s) && i < j < |s|
    ensures s[i].ts <= s[j].ts && s[i].id != s[j].id
    decreases |s|
  {
    var n := |s| - 1;
    assert s[..n][i] == s[i] && s[i] in s[..n];
    if j < n { AscendingPairs(s[..n], i, j); }
  }

  /** The timeline is sorted by time and shows every id once. */
  lemma SortedAndUnique(worlds: seq<World>, events: seq<Event>, n: nat, i: nat, j: nat)
    requires Run(worlds, events) && n < |worlds| && i < j < |worlds[n].held|
    ensures worlds[n].held[i].ts <= worlds[n].held[j].ts && worlds[n].held[i].id != worlds[n].held[j].id
  {
    ListedAlways(worlds, events, n);
    AscendingPairs(worlds[n].held, i, j);
  }

  // ----- Whether all records of a message agree -----

  /** Two records of one message. Whether their directions must agree is a choice: an echo that
      arrives before the device knows its own token is taken for a peer's message. */
  predicate Agree(a: Message, b: Message, directions: bool) {
    a.content == b.content && (directions ==> a.direction == b.direction)
  }

  /** The record is on screen, stored, on its way to storage, or in a history that was read. */
  ghost predicate Knows(w: World, m: Message) {
    || Held(w.held, m.id) == Some(m)
    || (m.id in w.stored && w.stored[m.id] == m)
    || m in w.writes
    || exists loaded :: loaded in w.loads && m in loaded
  }

  ghost predicate AllAgree(w: World, directions: bool) {
    forall a, b :: Knows(w, a) && Knows(w, b) && a.id == b.id ==> Agree(a, b, directions)
  }

  /** The event brings in a record of its own: a message that is not on screen, or an own one. */
  predicate TakesIn(w: World, e: Event) {
    e.Send? || ((e.Chat? || e.Expiry?) && Held(w.held, e.message.id).None?)
  }

  /** And that record says something else than another one of the same message. */
  ghost predicate Contradicts(w: World, e: Event, directions: bool) {
    TakesIn(w, e) && exists a :: Knows(w, a) && a.id == e.message.id && !Agree(a, e.message, directions)
  }

  ghost predicate Consistent(worlds: seq<World>, events: seq<Event>, directions: bool)
    requires |worlds| == |events| + 1
  {
    forall i :: 0 <= i < |events| ==> !Contradicts(worlds[i], events[i], directions)
  }

  /** Up to its time, the record was known before. */
  ghost predicate KnewAlike(w: World, m: Message) {
    exists a :: Knows(w, a) && a.id == m.id && a.content == m.content && a.direction == m.direction
  }

  lemma WereKnown(w: World, e: Event, m: Message)
    requires Listed(w) && Possible(w, e) && Knows(Next(w, e), m)
    ensures KnewAlike(w, m) || (TakesIn(w, e) && m == e.message)
  {
    StepHolds(w, e);
    HeldIffId(w.held, m.id);
    match e
    case Chat(x) =>
      HeldIffId(w.held, x.id);
      if Held(w.held, x.id).Some? { assert Knows(w, Held(w.held, x.id).value); }
      if Held(w.held, m.id).Some? { assert Knows(w, Held(w.held, m.id).value); }
      if Knows(w, m) { assert KnewAlike(w, m); }
    case Load(loaded) => if m in loaded { assert Knows(w, m); }
    case Merge(loaded) => HeldIffId(loaded, m.id); assert Knows(w, m);
    case _ => if Knows(w, m) { assert KnewAlike(w, m); }
  }

  lemma StillKnown(w: World, e: Event, m: Message)
    requires Listed(w) && Possible(w, e) && TakesIn(w, e) && Knows(w, m)
    ensures Knows(Next(w, e), e.message) && (m.id == e.message.id ==> Knows(Next(w, e), m))
  {
    StepHolds(w, e);
  }

  /** An event leaves all records in agreement if and only if it takes in none that contradicts another. */
  lemma AgreementIff(w: World, e: Event, directions: bool)
    requires Listed(w) && Possible(w, e) && AllAgree(w, directions)
    ensures AllAgree(Next(w, e), directions) <==> !Contradicts(w, e, directions)
  {
    hide Next, Knows, Possible, Listed;
    if Contradicts(w, e, directions) {
      var a :| Knows(w, a) && a.id == e.message.id && !Agree(a, e.message, directions);
      StillKnown(w, e, a);
    } else {
      forall a, b | Knows(Next(w, e), a) && Knows(Next(w, e), b) && a.id == b.id ensures Agree(a, b, directions) {
        WereKnown(w, e, a);
        WereKnown(w, e, b);
      }
    }
  }

  /** In every run, page openings included, all records of every message agree throughout if and only if
      no event of the run takes in one that contradicts what is known. */
  lemma RunAgreesIff(worlds: seq<World>, events: seq<Event>, directions: bool)
    requires Run(worlds, events)
    ensures (forall n :: 0 <= n < |worlds| ==> AllAgree(worlds[n], directions))
            <==> Consistent(worlds, events, directions)
  {
    hide AllAgree, Contradicts, Next, Possible;
    if Consistent(worlds, events, directions) {
      forall n | 0 <= n < |worlds| ensures AllAgree(worlds[n], directions) {
        AgreesAlways(worlds, events, n, directions);
      }
    }
    if forall n :: 0 <= n < |worlds| ==> AllAgree(worlds[n], directions) {
      forall i | 0 <= i < |events| ensures !Contradicts(worlds[i], events[i], directions) {
        ListedAlways(worlds, events, i);
        assert StepAt(worlds, events, i) && AllAgree(worlds[i], directions) && AllAgree(worlds[i + 1], directions);
        AgreementIff(worlds[i], events[i], directions);
      }
    }
  }

  lemma OpenedAgrees(w: World, directions: bool)
    requires Opened(w)
    ensures AllAgree(w, directions)
  {
  }

  lemma {:induction false} AgreesAlways(worlds: seq<World>, events: seq<Event>, n: nat, directions: bool)
    requires Run(worlds, events) && Consistent(worlds, events, directions) && n < |worlds|
    ensures AllAgree(worlds[n], directions)
  {
    if n == 0 {
      OpenedAgrees(worlds[0], directions);
    } else {
      hide AllAgree, Contradicts, Next, Possible;
      AgreesAlways(worlds, events, n - 1, directions);
      ListedAlways(worlds, events, n - 1);
      assert StepAt(worlds, events, n - 1);
      AgreementIff(worlds[n - 1], events[n - 1], directions);
    }
  }

  // ----- What a consistent run keeps -----

  /** Nothing shown is lost, and its text, and its direction if asked for, stay what they were. */
  ghost predicate Steady(before: seq<Message>, after: seq<Message>, directions: bool) {
    forall id :: Held(before, id).Some? ==>
                   Held(after, id).Some? && Agree(Held(before, id).value, Held(after, id).value, directions)
  }

  /** Likewise of storage. */
  ghost predicate Kept(before: map<MsgId, Message>, after: map<MsgId, Message>, directions: bool) {
    forall k :: k in before ==> k in after && Agree(before[k], after[k], directions)
  }

  ghost predicate StoredById(w: World) {
    forall k :: k in w.stored ==> w.stored[k].id == k
  }

  /** Every event keeps the order of the timeline and the agreement of all records; it loses nothing on
      screen, short of opening the page anew, and nothing in storage, and rewrites neither. */
  lemma EventKeeps(w: World, e: Event, directions: bool)
    requires Listed(w) && Possible(w, e) && StoredById(w) && AllAgree(w, directions) && !Contradicts(w, e, directions)
    ensures Listed(Next(w, e)) && StoredById(Next(w, e)) && AllAgree(Next(w, e), directions)
    ensures Ascending(w.held) ==> Ascending(Next(w, e).held)
    ensures !e.Open? ==> Steady(w.held, Next(w, e).held, directions)
    ensures Kept(w.stored, Next(w, e).stored, directions)
  {
    AgreementIff(w, e, directions);
    StepHolds(w, e);
    if !e.Open? { EventSteady(w, e, directions); }
    EventStores(w, e, directions);
  }

  lemma EventSteady(w: World, e: Event, directions: bool)
    requires Listed(w) && Possible(w, e) && AllAgree(w, directions) && !e.Open?
    ensures Steady(w.held, Next(w, e).held, directions)
  {
    StepHolds(w, e);
    forall id | Held(w.held, id).Some?
      ensures Held(Next(w, e).held, id).Some?
              && Agree(Held(w.held, id).value, Held(Next(w, e).held, id).value, directions)
    {
      HeldIffId(w.held, id);
      assert Knows(w, Held(w.held, id).value);
      if e.Merge? && Held(e.loaded, id).Some? {
        HeldIffId(e.loaded, id);
        assert Knows(w, Held(e.loaded, id).value);
      }
    }
  }

  lemma EventStores(w: World, e: Event, directions: bool)
    requires Possible(w, e) && AllAgree(w, directions) && StoredById(w)
    ensures Kept(w.stored, Next(w, e).stored, directions) && StoredById(Next(w, e))
  {
    if e.Land? {
      var m := e.message;
      if m.id in w.stored { assert Knows(w, w.stored[m.id]) && Knows(w, m); }
    }
  }

  ghost predicate NoneOpens(events: seq<Event>, i: nat, j: nat)
    requires i <= j <= |events|
  {
    forall k :: i <= k < j ==> !events[k].Open?
  }

  lemma {:induction false} StoredByIdAlways(worlds: seq<World>, events: seq<Event>, n: nat)
    requires Run(worlds, events) && n < |worlds|
    ensures StoredById(worlds[n])
  {
    if n > 0 {
      StoredByIdAlways(worlds, events, n - 1);
      assert StepAt(worlds, events, n - 1);
    }
  }

  /** In every consistent run, from any moment to any later one before the page is opened anew: what is
      on screen stays on screen with its text, content never gives way to a tombstone, and a tombstone
      stays one. */
  lemma {:induction false} NothingIsLost(worlds: seq<World>, events: seq<Event>, i: nat, j: nat, directions: bool)
    requires Run(worlds, events) && Consistent(worlds, events, directions) && i <= j < |worlds|
    requires NoneOpens(events, i, j)
    ensures Steady(worlds[i].held, worlds[j].held, directions)
    decreases j
  {
    if i < j {
      hide Run, Consistent, Next, Possible;
      NothingIsLost(worlds, events, i, j - 1, directions);
      StepSteady(worlds, events, j - 1, directions);
      SteadyThen(worlds[i].held, worlds[j - 1].held, worlds[j].held, directions);
    }
  }

  lemma SteadyThen(a: seq<Message>, b: seq<Message>, c: seq<Message>, directions: bool)
    requires Steady(a, b, directions) && Steady(b, c, directions)
    ensures Steady(a, c, directions)
  {
    hide Held;
  }

  lemma StepSteady(worlds: seq<World>, events: seq<Event>, i: nat, directions: bool)
    requires Run(worlds, events) && Consistent(worlds, events, directions) && i < |events|
    ensures !events[i].Open? ==> Steady(worlds[i].held, worlds[i + 1].held, directions)
    ensures Kept(worlds[i].stored, worlds[i + 1].stored, directions)
  {
    hide Contradicts, Next, Possible, AllAgree;
    ListedAlways(worlds, events, i);
    AgreesAlways(worlds, events, i, directions);
    StoredByIdAlways(worlds, events, i);
    assert StepAt(worlds, events, i);
    EventKeeps(worlds[i], events[i], directions);
  }

  /** Storage, in every consistent run and across page openings, loses and rewrites nothing. */
  lemma {:induction false} NothingStoredIsLost(worlds: seq<World>, events: seq<Event>, i: nat, j: nat, directions: bool)
    requires Run(worlds, events) && Consistent(worlds, events, directions) && i <= j < |worlds|
    ensures Kept(worlds[i].stored, worlds[j].stored, directions)
    decreases j
  {
    if i < j {
      hide Run, Consistent, Next, Possible;
      NothingStoredIsLost(worlds, events, i, j - 1, directions);
      StepSteady(worlds, events, j - 1, directions);
    }
  }

  /** What was stored when a history was read is shown from its merge on, as long as the page stays open,
      whatever has arrived or landed since. */
  lemma StoredIsShown(worlds: seq<World>, events: seq<Event>, read: nat, merged: nat, n: nat, id: MsgId,
      directions: bool)
    requires Run(worlds, events) && Consistent(worlds, events, directions)
    requires read < merged < n < |worlds| && events[read].Load? && events[merged] == Merge(events[read].loaded)
    requires NoneOpens(events, merged, n) && id in worlds[read].stored
    ensures Held(worlds[n].held, id).Some? && Agree(worlds[read].stored[id], Held(worlds[n].held, id).value, directions)
  {
    hide Consistent, Steady, Next;
    var loaded := events[read].loaded;
    assert StepAt(worlds, events, read) && StepAt(worlds, events, merged);
    StoredByIdAlways(worlds, events, read);
    assert worlds[read].stored[id] in loaded;
    HeldIffId(loaded, id);
    ListedAlways(worlds, events, merged);
    StepHolds(worlds[merged], events[merged]);
    NothingIsLost(worlds, events, merged + 1, n, directions);
    SteadyAt(worlds[merged + 1].held, worlds[n].held, id, directions);
  }

  lemma SteadyAt(before: seq<Message>, after: seq<Message>, id: MsgId, directions: bool)
    requires Steady(before, after, directions) && Held(before, id).Some?
    ensures Held(after, id).Some? && Agree(Held(before, id).value, Held(after, id).value, directions)
  {
  }

  // ----- What is shown reaches storage -----

  /** Whatever an event newly shows, or shows with another time, is on its way to storage, and so is an own
      message. */
  lemma ChangesAreWritten(w: World, e: Event)
    requires Listed(w) && Possible(w, e)
    ensures var w' := Next(w, e);
            && (forall id :: !e.Merge? && Held(w'.held, id).Some? && Held(w'.held, id) != Held(w.held, id) ==>
                  Held(w'.held, id).value in w'.writes && Held(w'.held, id).value.id == id)
            && (e.Send? ==> e.message in w'.writes)
  {
    StepHolds(w, e);
    if e.Chat? { HeldIffId(w.held, e.message.id); }
  }

  /** Nothing else is written, and only a write that lands changes storage. */
  lemma OnlyChangesAreWritten(w: World, e: Event)
    requires Listed(w) && Possible(w, e)
    ensures var w' := Next(w, e);
            && (forall m :: m in w'.writes ==>
                  m in w.writes || Held(w'.held, m.id) == Some(m) || (e.Send? && m == e.message))
            && (forall m :: m in w.writes && m !in w'.writes ==> e.Open? || (e.Land? && m == e.message))
            && (if e.Land? then
                  && e.message.id in w'.stored && w'.stored[e.message.id] == e.message
                  && w'.stored - {e.message.id} == w.stored - {e.message.id}
                else w'.stored == w.stored)
            && (e.Open? ==> w'.writes == e.kept && w'.loads == {})
  {
    StepHolds(w, e);
    if e.Chat? { HeldIffId(w.held, e.message.id); }
  }

  ghost predicate Persisted(w: World, id: MsgId) {
    id in w.stored || exists m :: m in w.writes && m.id == id
  }

  ghost predicate NothingUnwritten(w: World) {
    && (forall id :: Held(w.held, id).Some? ==> Persisted(w, id))
    && forall loaded, m :: loaded in w.loads && m in loaded ==> m.id in w.stored
  }

  lemma StaysWritten(w: World, e: Event)
    requires Listed(w) && Possible(w, e) && StoredById(w) && NothingUnwritten(w)
    ensures NothingUnwritten(Next(w, e))
  {
    var w' := Next(w, e);
    StepHolds(w, e);
    ChangesAreWritten(w, e);
    forall id | Held(w'.held, id).Some? ensures Persisted(w', id) {
      if e.Merge? && Held(e.loaded, id).Some? {
        HeldIffId(e.loaded, id);
      } else if Held(w'.held, id) == Held(w.held, id) {
        assert Persisted(w, id);
      }
    }
  }

  /** In every run, whatever is on screen is stored or has a write on its way. */
  lemma {:induction false} ShownIsPersisted(worlds: seq<World>, events: seq<Event>, n: nat)
    requires Run(worlds, events) && n < |worlds|
    ensures NothingUnwritten(worlds[n])
  {
    if n > 0 {
      ShownIsPersisted(worlds, events, n - 1);
      ListedAlways(worlds, events, n - 1);
      StoredByIdAlways(worlds, events, n - 1);
      assert StepAt(worlds, events, n - 1);
      StaysWritten(worlds[n - 1], events[n - 1]);
    }
  }

  /** And with its text, when no record contradicts another. */
  lemma ShownTextIsPersisted(worlds: seq<World>, events: seq<Event>, n: nat, id: MsgId, directions: bool)
    requires Run(worlds, events) && Consistent(worlds, events, directions) && n < |worlds|
    requires Held(worlds[n].held, id).Some?
    ensures var w, shown := worlds[n], Held(worlds[n].held, id).value;
            && (id in w.stored ==> Agree(w.stored[id], shown, directions))
            && (forall m :: m in w.writes && m.id == id ==> Agree(m, shown, directions))
            && Persisted(w, id)
  {
    hide Consistent;
    ShownIsPersisted(worlds, events, n);
    AgreesAlways(worlds, events, n, directions);
    StoredByIdAlways(worlds, events, n);
    HeldIffId(worlds[n].held, id);
    assert Knows(worlds[n], Held(worlds[n].held, id).value);
    if id in worlds[n].stored { assert Knows(worlds[n], worlds[n].stored[id]); }
    forall m | m in worlds[n].writes && m.id == id ensures Knows(worlds[n], m) { }
  }

  /** The page opened anew, its history read and merged. */
  function Reopened(w: World, loaded: seq<Message>): World {
    Next(Next(Next(w, Open({})), Load(loaded)), Merge(loaded))
  }

  /** So once the writes have landed, whatever was on screen is there again after the page has been opened
      anew and its history merged, with its text when no record contradicts another. */
  lemma ReopenShows(worlds: seq<World>, events: seq<Event>, n: nat, loaded: seq<Message>, id: MsgId, directions: bool)
    requires Run(worlds, events) && n < |worlds| && worlds[n].writes == {}
    requires IsHistory(loaded, worlds[n].stored) && Held(worlds[n].held, id).Some?
    ensures var w, w' := worlds[n], Next(worlds[n], Open({}));
            && Possible(w, Open({})) && Possible(w', Load(loaded)) && Possible(Next(w', Load(loaded)), Merge(loaded))
            && Held(Reopened(w, loaded).held, id).Some?
            && (Consistent(worlds, events, directions) ==>
                  Agree(Held(w.held, id).value, Held(Reopened(w, loaded).held, id).value, directions))
  {
    hide Consistent, Sorted, Missing, Unique, Ascending, Run;
    var w := worlds[n];
    ShownIsPersisted(worlds, events, n);
    StoredByIdAlways(worlds, events, n);
    assert w.stored[id] in loaded;
    HeldIffId(loaded, id);
    NothingShown();
    MergedHolds([], loaded);
    assert |worlds| == |events| + 1 by { RunLength(worlds, events); }
    if Consistent(worlds, events, directions) { ShownTextIsPersisted(worlds, events, n, id, directions); }
  }

  lemma RunLength(worlds: seq<World>, events: seq<Event>)
    requires Run(worlds, events)
    ensures |worlds| == |events| + 1
  {
  }

  // ----- Where contradictions come from -----

  /** The state after an own message was sent and its write landed, and then a history was read and merged. */
  function SentAndReloaded(w: World, own: Message, loaded: seq<Message>): World {
    Next(Next(Next(Next(w, Send(own)), Land(own)), Load(loaded)), Merge(loaded))
  }

  /** An own message keeps its direction through its send, its write and the next reload if and only if
      the echo that was faster, if one was, had been recognised as the device's own. */
  lemma SendTurnsIff(w: World, own: Message, loaded: seq<Message>)
    requires Unique(w.held) && IsHistory(loaded, Next(Next(w, Send(own)), Land(own)).stored)
    ensures var sent, after := Next(w, Send(own)).held, SentAndReloaded(w, own, loaded).held;
            && Possible(Next(w, Send(own)), Land(own)) && Held(sent, own.id).Some? && Held(after, own.id).Some?
            && (Held(sent, own.id).value.direction == Held(after, own.id).value.direction
                <==> (Held(w.held, own.id).Some? ==> Held(w.held, own.id).value.direction == own.direction))
  {
    hide Sorted, Ascending, Missing;
    if Held(w.held, own.id).None? { AddHolds(w.held, own); }
    assert own in loaded;
    MergedHolds(Next(w, Send(own)).held, loaded);
    HeldIffId(loaded, own.id);
  }

  /** An instance: an echo taken for a peer's message is turned around by the next reload. */
  lemma EarlyEchoTurns(id: MsgId, text: Text)
    ensures var echo, own := Message(id, 5, Body(text), In), Message(id, 4, Body(text), Out);
            var sent := Next(Next(World([], map[], {}, {}), Chat(echo)), Send(own));
            && sent.held == [echo]
            && Next(Next(Next(sent, Land(own)), Load([own])), Merge([own])).held == [own]
  {
    hide Sorted, Held, Missing;
    var echo, own := Message(id, 5, Body(text), In), Message(id, 4, Body(text), Out);
    One(echo);
    One(own);
    NothingHeld(echo, own);
  }

  lemma One(m: Message)
    ensures Sorted([m]) == [m] && Held([m], m.id) == Some(m) && Missing([m], [m]) == []
  {
    assert [m][..0] == [] && m in [m];
  }

  lemma NothingHeld(echo: Message, own: Message)
    requires echo.id == own.id
    ensures Held([], echo.id) == None && [] + [echo] == [echo] && [own] + Missing([echo], [own]) == [own]
  {
    assert own in [own] && [echo][..0] == [];
  }

  /** The state after an expired row of the outbox was handled and the write it caused, if any, landed. */
  function Expired(w: World, tombstone: Message): World {
    var w' := Next(w, Expiry(tombstone));
    if Held(w.held, tombstone.id).None? then Next(w', Land(tombstone)) else w'
  }

  /** An expired row leaves the stored text of its message alone, in storage and on the screen of the
      next reload, if and only if the message was on screen already or there was no text to lose. */
  lemma ExpiryBuriesIff(w: World, tombstone: Message, loaded: seq<Message>)
    requires Unique(w.held) && tombstone.content.Tombstone?
    requires tombstone.id in w.stored && w.stored[tombstone.id].id == tombstone.id
    requires IsHistory(loaded, Expired(w, tombstone).stored)
    ensures var id, after := tombstone.id, Expired(w, tombstone);
            var spared := Held(w.held, id).Some? || w.stored[id].content.Tombstone?;
            var shown := Held(Next(Next(after, Load(loaded)), Merge(loaded)).held, id);
            && id in after.stored && (after.stored[id].content == w.stored[id].content <==> spared)
            && shown.Some? && (shown.value.content == w.stored[id].content <==> spared)
  {
    hide Sorted, Ascending, Missing;
    var id, after := tombstone.id, Expired(w, tombstone);
    if Held(w.held, id).None? { AddHolds(w.held, tombstone); }
    assert after.stored[id] in loaded;
    MergedHolds(after.held, loaded);
    HeldIffId(loaded, id);
  }

  /** An instance, from the opening of a page whose history has not been merged yet: the stored text of a
      message is gone for good once its expired row has come in. */
  lemma ExpiryBuries(id: MsgId, text: Text) returns (worlds: seq<World>, events: seq<Event>)
    ensures Run(worlds, events) && id in worlds[0].stored && worlds[0].stored[id].content == Body(text)
    ensures var last := worlds[|events|];
            && last.writes == {} && id in last.stored && last.stored[id].content == Tombstone
            && Held(last.held, id).Some? && Held(last.held, id).value.content == Tombstone
  {
    var body, t := Message(id, 0, Body(text), In), Message(id, 0, Tombstone, In);
    var w0 := World([], map[id := body], {}, {});
    var w1, w2 := World([t], map[id := body], {t}, {}), World([t], map[id := t], {}, {});
    var w3 := w2.(loads := {[t]});
    events := [Expiry(t), Land(t), Load([t]), Merge([t])];
    worlds := [w0, w1, w2, w3, w2];
    hide Sorted, Missing, Held, IsHistory, Unique;
    One(t);
    NothingHeld(t, t);
    assert StepAt(worlds, events, 0);
    assert StepAt(worlds, events, 1) by { assert w1.stored[id := t] == w2.stored && w1.writes - {t} == {}; }
    assert StepAt(worlds, events, 2) by { OneStored(t); assert w2.loads + {[t]} == w3.loads; }
    assert StepAt(worlds, events, 3) by { assert [t] in w3.loads && w3.loads - {[t]} == {}; }
  }

  lemma OneStored(m: Message)
    ensures IsHistory([m], map[m.id := m])
  {
    assert [m][..0] == [] && m in [m];
  }
}
