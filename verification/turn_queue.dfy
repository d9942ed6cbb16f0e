/** One agent room's turn queue: chats that arrive while a turn is running are buffered and drained
    as one coalesced follow-up turn. onChat is cut at its awaits, so any number of calls interleave. */
module TurnQueue {
  import opened NewestK

  /** A decrypted chat as the agent will read it. */
  type Text(==, !new)

  type Peer(==, !new)

  datatype Item = Item(id: MsgId, text: Text, from: Peer)

  /** The fields onChat reads and writes, and every turn begun so far as the chats it coalesced. */
  datatype Session = Session(running: bool, pending: seq<Item>, seen: set<MsgId>, turns: seq<seq<Item>>)

  const FRESH := Session(false, [], {}, [])

  // ----- The three stretches of onChat that run without an await -----

  /** Up to the await of the decryption: the replay check. */
  function Received(s: Session, id: MsgId): Session {
    s.(seen := s.seen + {id})
  }

  /** From the decrypted chat to the next await: queue it, or begin a turn with it. */
  function Accepted(s: Session, item: Item): Session {
    if s.running then s.(pending := s.pending + [item])
    else s.(running := true, turns := s.turns + [[item]])
  }

  /** From the end of a turn to the next await: drain the whole buffer into one turn, or go idle. */
  function TurnEnded(s: Session): Session {
    if s.pending != [] then s.(pending := [], turns := s.turns + [s.pending])
    else s.(running := false)
  }

  function Flatten(turns: seq<seq<Item>>): seq<Item> {
    if turns == [] then [] else Flatten(turns[..|turns| - 1]) + turns[|turns| - 1]
  }

  /** Nothing is lost, repeated or reordered between acceptance and the agent: the chats of all turns,
      then those that wait, are the accepted ones in order; and nobody waits for an idle session. */
  ghost predicate Delivers(s: Session, accepted: seq<Item>) {
    Flatten(s.turns) + s.pending == accepted && (!s.running ==> s.pending == [])
  }

  lemma FlattenLast(turns: seq<seq<Item>>, last: seq<Item>)
    ensures Flatten(turns + [last]) == Flatten(turns) + last
  {
    assert (turns + [last])[..|turns|] == turns;
  }

  lemma AcceptedDelivers(s: Session, accepted: seq<Item>, item: Item)
    requires Delivers(s, accepted)
    ensures Delivers(Accepted(s, item), accepted + [item])
    ensures !s.running ==> Flatten(Accepted(s, item).turns) == accepted + [item]
  {
    FlattenLast(s.turns, [item]);
    assert Flatten(s.turns) + (s.pending + [item]) == (Flatten(s.turns) + s.pending) + [item];
  }

  lemma EndedDelivers(s: Session, accepted: seq<Item>)
    requires Delivers(s, accepted)
    ensures Delivers(TurnEnded(s), accepted) && TurnEnded(s).pending == []
    ensures Flatten(TurnEnded(s).turns) == Flatten(s.turns) + s.pending == accepted
  {
    FlattenLast(s.turns, s.pending);
    assert s.pending == [] ==> Flatten(s.turns) + s.pending == Flatten(s.turns);
    assert Flatten(TurnEnded(s).turns) + [] == Flatten(TurnEnded(s).turns);
  }

  class AgentSession {
    var running: bool
    var pending: seq<Item>
    var seen: set<MsgId>
    ghost var turns: seq<seq<Item>>
    /** Every chat accepted so far. */
    ghost var accepted: seq<Item>

    ghost function View(): Session
      reads this
    {
      Session(running, pending, seen, turns)
    }

    ghost predicate Valid()
      reads this
    {
      Delivers(View(), accepted)
    }

    constructor ()
      ensures Valid() && View() == FRESH && accepted == []
    {
      running, pending, seen, turns, accepted := false, [], {}, [], [];
    }

    /** True if the chat goes on to be decrypted. */
    method Receive(id: MsgId) returns (isNew: bool)
      requires Valid()
      modifies this`seen
      ensures Valid() && View() == Received(old(View()), id)
      ensures isNew <==> id !in old(seen)
    {
      if id in seen {
        assert seen == seen + {id};
        return false;
      }
      seen := seen + {id};
      return true;
    }

    /** The batch of the turn that begins now: the chat by itself if nothing was running, so that nothing
        can be ahead of it, and otherwise nothing, the chat being last in line. */
    method Accept(item: Item) returns (turn: seq<Item>)
      requires Valid()
      modifies this
      ensures Valid() && accepted == old(accepted) + [item] && running
      ensures View() == Accepted(old(View()), item)
      ensures turn != [] <==> !old(running)
      ensures turn != [] ==> turn == [item] && Flatten(turns) == accepted
    {
      AcceptedDelivers(View(), accepted, item);
      accepted := accepted + [item];
      if running {
        pending := pending + [item];
        return [];
      }
      running := true;
      turns := turns + [[item]];
      return [item];
    }

    /** The batch of the follow-up turn: everything that waited, in order. There is none exactly when the
        session goes idle, and then the agent has been given all that was accepted. */
    method EndTurn() returns (turn: seq<Item>)
      requires Valid() && running
      modifies this`running, this`pending, this`turns
      ensures Valid() && pending == [] && Flatten(turns) == accepted
      ensures View() == TurnEnded(old(View()))
      ensures Flatten(turns) == Flatten(old(turns)) + turn
      ensures turn == [] <==> !running
    {
      EndedDelivers(View(), accepted);
      turn := pending;
      if |pending| > 0 {
        pending := [];
        turns := turns + [turn];
      } else {
        running := false;
      }
    }
  }

  // ----- Interleaved calls -----

  /** One call of onChat. */
  type Call(==, !new)

  datatype Phase = Decrypting(id: MsgId) | Notifying | InTurn | Returned

  datatype World = World(session: Session, accepted: seq<Item>, phase: map<Call, Phase>)

  const START := World(FRESH, [], map[])

  datatype Action =
    | Arrive(id: MsgId)          // a chat event, new or repeated
    | Decrypted(item: Item)
    | DecryptFailed
    | Notified                   // the "queued" notice went out
    | TurnFinished               // runTurn resolved
    | TurnRejected               // runTurn rejected

  ghost predicate Next(w: World, c: Call, a: Action, w': World) {
    match a
    case Arrive(id) =>
      && c !in w.phase
      && w' == w.(session := Received(w.session, id),
                  phase := w.phase[c := if id in w.session.seen then Returned else Decrypting(id)])
    case Decrypted(item) =>
      && c in w.phase && w.phase[c] == Decrypting(item.id)
      && w' == World(Accepted(w.session, item), w.accepted + [item],
                     w.phase[c := if w.session.running then Notifying else InTurn])
    case DecryptFailed =>
      c in w.phase && w.phase[c].Decrypting? && w' == w.(phase := w.phase[c := Returned])
    case Notified =>
      c in w.phase && w.phase[c].Notifying? && w' == w.(phase := w.phase[c := Returned])
    case TurnFinished =>
      && c in w.phase && w.phase[c].InTurn?
      && w' == w.(session := TurnEnded(w.session),
                  phase := if w.session.pending != [] then w.phase else w.phase[c := Returned])
    case TurnRejected =>
      // The finally clause clears the flag; the drain loop never runs.
      && c in w.phase && w.phase[c].InTurn?
      && w' == w.(session := w.session.(running := false), phase := w.phase[c := Returned])
  }

  /** Exactly the call that set the flag is inside a turn. */
  ghost predicate OneTurn(w: World) {
    && (w.session.running <==> exists c :: c in w.phase && w.phase[c].InTurn?)
    && forall c, d :: c in w.phase && d in w.phase && w.phase[c].InTurn? && w.phase[d].InTurn? ==> c == d
  }

  ghost predicate NoRepeat(items: seq<Item>) {
    forall i, j :: 0 <= i < j < |items| ==> items[i].id != items[j].id
  }

  /** An id is claimed by at most one call, and never by a call once it has been accepted. */
  ghost predicate IdsOnce(w: World) {
    && (forall c :: c in w.phase && w.phase[c].Decrypting? ==> w.phase[c].id in w.session.seen)
    && (forall c, d | c in w.phase && d in w.phase && w.phase[c].Decrypting? && w.phase[d].Decrypting? ::
          w.phase[c].id == w.phase[d].id ==> c == d)
    && (forall x :: x in w.accepted ==> x.id in w.session.seen)
    && (forall x, c :: x in w.accepted && c in w.phase && w.phase[c].Decrypting? ==> x.id != w.phase[c].id)
    && NoRepeat(w.accepted)
  }

  ghost predicate Invariant(w: World) {
    OneTurn(w) && Delivers(w.session, w.accepted) && IdsOnce(w)
  }

  lemma IdsOnceKept(w: World, c: Call, a: Action, w': World)
    requires IdsOnce(w) && Next(w, c, a, w')
    ensures IdsOnce(w')
  {
    if a.Decrypted? {
      assert forall x :: x in w'.accepted <==> x in w.accepted || x == a.item;
      forall i, j | 0 <= i < j < |w'.accepted| ensures w'.accepted[i].id != w'.accepted[j].id {
        assert w.accepted[i] in w.accepted;
      }
    }
  }

  lemma OneTurnKept(w: World, c: Call, a: Action, w': World)
    requires OneTurn(w) && Next(w, c, a, w')
    ensures OneTurn(w')
  {
    if a.Decrypted? || a.TurnFinished? {
      assert w'.session.running ==> w.session.running || w'.phase[c].InTurn?;
    }
    if w'.session.running {
      if w.session.running {
        var d :| d in w.phase && w.phase[d].InTurn?;
        assert d in w'.phase && w'.phase[d].InTurn?;
      } else {
        assert w'.phase[c].InTurn?;
      }
    }
  }

  lemma DeliversKept(w: World, c: Call, a: Action, w': World)
    requires Delivers(w.session, w.accepted) && Next(w, c, a, w') && !a.TurnRejected?
    ensures Delivers(w'.session, w'.accepted)
  {
    hide Delivers, Accepted, TurnEnded;
    match a
    case Arrive(id) => ReceivedDelivers(w.session, w.accepted, id);
    case Decrypted(item) => AcceptedDelivers(w.session, w.accepted, item);
    case TurnFinished => EndedDelivers(w.session, w.accepted);
    case _ =>
  }

  lemma ReceivedDelivers(s: Session, accepted: seq<Item>, id: MsgId)
    requires Delivers(s, accepted)
    ensures Delivers(Received(s, id), accepted)
  {
  }

  lemma InvariantKept(w: World, c: Call, a: Action, w': World)
    requires Invariant(w) && Next(w, c, a, w') && !a.TurnRejected?
    ensures Invariant(w')
  {
    IdsOnceKept(w, c, a, w');
    OneTurnKept(w, c, a, w');
    DeliversKept(w, c, a, w');
  }

  ghost predicate Stepped(w: World, w': World) {
    exists c, a :: Next(w, c, a, w') && !a.TurnRejected?
  }

  /** Every interleaving in which runTurn always resolves. */
  ghost predicate Run(worlds: seq<World>) {
    && worlds != [] && worlds[0] == START
    && forall i {:trigger worlds[i]} :: 0 <= i < |worlds| - 1 ==> Stepped(worlds[i], worlds[i + 1])
  }

  lemma {:induction false} InvariantAlways(worlds: seq<World>, i: nat)
    requires Run(worlds) && i < |worlds|
    ensures Invariant(worlds[i])
  {
    if i > 0 {
      InvariantAlways(worlds, i - 1);
      StepKeeps(worlds[i - 1], worlds[i - 1 + 1]);
    }
  }

  lemma StepKeeps(w: World, w': World)
    requires Invariant(w) && Stepped(w, w')
    ensures Invariant(w')
  {
    var c, a :| Next(w, c, a, w') && !a.TurnRejected?;
    InvariantKept(w, c, a, w');
  }

  /** Once no call is inside a turn, the agent has been given every accepted chat, once each and in
      the order their decryptions completed. */
  lemma IdleMeansAllDelivered(worlds: seq<World>, i: nat)
    requires Run(worlds) && i < |worlds|
    requires forall c :: c in worlds[i].phase ==> !worlds[i].phase[c].InTurn?
    ensures Flatten(worlds[i].session.turns) == worlds[i].accepted
    ensures NoRepeat(Flatten(worlds[i].session.turns))
  {
    InvariantAlways(worlds, i);
    var w := worlds[i];
    assert w.session.pending == [];
    assert Flatten(w.session.turns) + [] == Flatten(w.session.turns);
  }

  // ----- Every call gets through -----

  /** Call `c` alone goes on from each world to the next, no turn rejecting. */
  ghost predicate Path(worlds: seq<World>, c: Call, w: World) {
    && worlds != [] && worlds[0] == w
    && forall i {:trigger worlds[i]} :: 0 <= i < |worlds| - 1 ==> GoesOn(worlds[i], c, worlds[i + 1])
  }

  ghost predicate GoesOn(w: World, c: Call, w': World) {
    exists a :: Next(w, c, a, w') && !a.TurnRejected?
  }

  /** A new chat is answered: its call can run to its end by itself, and then the chat was the turn of an
      idle session, idle again by now, or waits in last place behind the turn that runs. */
  lemma ChatIsAnswered(w: World, c: Call, item: Item) returns (worlds: seq<World>)
    requires Invariant(w) && c !in w.phase && item.id !in w.session.seen
    ensures Path(worlds, c, w)
    ensures var end, before := worlds[|worlds| - 1], w.session;
            && c in end.phase && end.phase[c].Returned? && end.accepted == w.accepted + [item]
            && end.session.seen == before.seen + {item.id} && end.session.running == before.running
            && end.session.pending == (if before.running then before.pending + [item] else [])
            && end.session.turns == (if before.running then before.turns else before.turns + [[item]])
  {
    var w1 := w.(session := Received(w.session, item.id), phase := w.phase[c := Decrypting(item.id)]);
    var next := if w.session.running then Notifying else InTurn;
    var w2 := World(Accepted(w1.session, item), w.accepted + [item], w1.phase[c := next]);
    assert Next(w, c, Arrive(item.id), w1) && Next(w1, c, Decrypted(item), w2);
    var w3 := if w.session.running then w2.(phase := w2.phase[c := Returned])
              else w2.(session := TurnEnded(w2.session), phase := w2.phase[c := Returned]);
    assert Next(w2, c, if w.session.running then Notified else TurnFinished, w3);
    worlds := [w, w1, w2, w3];
  }

  /** A chat that was seen before is dropped at once, and one that cannot be read as soon as that shows:
      the call returns, and nothing else changes. */
  lemma OthersAreDropped(w: World, c: Call, a: Action)
    requires if a.Arrive? then c !in w.phase && a.id in w.session.seen
             else a.DecryptFailed? && c in w.phase && w.phase[c].Decrypting?
    ensures Next(w, c, a, w.(phase := w.phase[c := Returned]))
    ensures forall w' :: Next(w, c, a, w') ==> w' == w.(phase := w.phase[c := Returned])
  {
    if a.Arrive? { assert w.session.seen + {a.id} == w.session.seen; }
  }

  /** Whatever waits when a turn runs gets its turn: the call inside can go on until the session is idle,
      with every accepted chat given to the agent. */
  lemma TurnsEnd(w: World, c: Call) returns (worlds: seq<World>)
    requires Invariant(w) && c in w.phase && w.phase[c].InTurn?
    ensures Path(worlds, c, w)
    ensures var end := worlds[|worlds| - 1];
            && c in end.phase && end.phase[c].Returned? && !end.session.running && end.accepted == w.accepted
            && Flatten(end.session.turns) == w.accepted
  {
    EndedDelivers(w.session, w.accepted);
    var w1 := w.(session := TurnEnded(w.session));
    if w.session.pending == [] {
      w1 := w1.(phase := w.phase[c := Returned]);
      worlds := [w, w1];
    } else {
      var w2 := w1.(session := TurnEnded(w1.session), phase := w1.phase[c := Returned]);
      assert Next(w1, c, TurnFinished, w2);
      worlds := [w, w1, w2];
    }
    assert Next(w, c, TurnFinished, w1);
  }

  /** What runTurn's catch-all protects: a turn that rejected would keep the invariant if and only
      if nothing was queued behind it. */
  lemma RejectionStrandsTheQueue(w: World, c: Call, w': World)
    requires Invariant(w) && Next(w, c, TurnRejected, w')
    ensures Invariant(w') <==> w.session.pending == []
  {
    OneTurnKept(w, c, TurnRejected, w');
    IdsOnceKept(w, c, TurnRejected, w');
  }
}
