/** The append/wipe protocol between concurrent requests, one SQL statement at a time.

    Every request is a program counter; any number of them run at once and any one of them may
    take the next step. BEGIN IMMEDIATE is a step that is enabled only while the lock is free. */
module OutboxProtocol {
  import opened NewestK
  import opened Wrappers

  /** One request being served. */
  type Request(==, !new)

  datatype Room = Gone | Open(catchUp: bool)

  datatype Change = TurnOn | TurnOff | Disband | Create(catchUp: bool)

  datatype Phase =
    // POST /message, from its publish to the end of outbox_append
    | Publishing(id: MsgId)
    | AppendOpened(id: MsgId)     // outbox_open done, BEGIN IMMEDIATE not granted yet
    | AppendLocked(id: MsgId)     // lock held, catch_up_enabled not re-read yet
    | AppendEnabled(id: MsgId)    // lock held, catch_up_enabled re-read as 1
    // POST /settings, /disband and /rooms, around their statement on the rooms table
    | Changing(change: Change)
    | WipeChecking                // outbox_wipe is about to test file_exists
    | WipeOpened                  // BEGIN IMMEDIATE not granted yet
    | WipeLocked                  // lock held, DELETE not run yet
    | Done

  datatype State = State(room: Room, file: bool, rows: set<MsgId>, lock: Option<Request>, phase: map<Request, Phase>)

  /** The choices a step leaves open: which rows its prune keeps. */
  datatype Action = Start(first: Phase) | Advance(kept: set<MsgId>) | Abort | Prune(kept: set<MsgId>)

  const INITIAL := State(Gone, false, {}, None, map[])

  predicate Off(room: Room) {
    room.Gone? || !room.catchUp
  }

  /** The rooms table after one statement of POST /settings, /disband or /rooms. */
  function Changed(room: Room, change: Change): Room {
    match change
    case TurnOn => if room.Gone? then Gone else Open(true)
    case TurnOff => if room.Gone? then Gone else Open(false)
    case Disband => Gone
    case Create(catchUp) => if room.Gone? then Open(catchUp) else room
  }

  predicate Holds(phase: Phase) {
    phase.AppendLocked? || phase.AppendEnabled? || phase.WipeLocked?
  }

  predicate Wiping(phase: Phase) {
    phase.WipeChecking? || phase.WipeOpened? || phase.WipeLocked?
  }

  function Goto(s: State, r: Request, phase: Phase): State {
    s.(phase := s.phase[r := phase])
  }

  ghost predicate Next(s: State, r: Request, a: Action, s': State) {
    match a
    case Start(first) =>
      // room_exists and the token check run first; only room creation starts without a room.
      && r !in s.phase
      && (first.Publishing? || first.Changing?)
      && (s.room.Gone? ==> first.Changing? && first.change.Create?)
      && s' == Goto(s, r, first)
    case Advance(kept) =>
      r in s.phase && Advanced(s, r, s.phase[r], kept, s')
    case Abort =>
      // An exception inside outbox_append rolls its transaction back.
      && r in s.phase
      && (s.phase[r].Publishing? || s.phase[r].AppendOpened? || s.phase[r].AppendLocked? || s.phase[r].AppendEnabled?)
      && s' == Goto(s, r, Done).(lock := if Holds(s.phase[r]) then None else s.lock)
    case Prune(kept) =>
      // A fetch ages the table out without a transaction of its own; its writes need the lock free.
      s.lock == None && kept <= s.rows && s' == s.(rows := kept)
  }

  ghost predicate Advanced(s: State, r: Request, phase: Phase, kept: set<MsgId>, s': State) {
    match phase
    case Publishing(id) => s' == Goto(s, r, AppendOpened(id)).(file := true)
    case AppendOpened(id) => s.lock == None && s' == Goto(s, r, AppendLocked(id)).(lock := Some(r))
    case AppendLocked(id) =>
      s' == if Off(s.room) then Goto(s, r, Done).(lock := None) else Goto(s, r, AppendEnabled(id))
    case AppendEnabled(id) => kept <= s.rows + {id} && s' == Goto(s, r, Done).(rows := kept, lock := None)
    case Changing(change) =>
      var next := if change.TurnOff? || change.Disband? then WipeChecking else Done;
      s' == Goto(s, r, next).(room := Changed(s.room, change))
    case WipeChecking => s' == Goto(s, r, if s.file then WipeOpened else Done)
    case WipeOpened => s.lock == None && s' == Goto(s, r, WipeLocked).(lock := Some(r))
    case WipeLocked => s' == Goto(s, r, Done).(rows := {}, lock := None)
    case Done => false
  }

  // ----- Safety over every interleaving -----

  /** The lock is taken exactly while a request is inside a transaction, and names it. */
  ghost predicate LockExclusive(s: State) {
    forall r :: r in s.phase && Holds(s.phase[r]) <==> s.lock == Some(r)
  }

  /** Whoever is past outbox_open left a file behind, and rows live in a file. */
  ghost predicate FileThere(s: State) {
    && (s.rows != {} ==> s.file)
    && forall r :: r in s.phase && (Holds(s.phase[r]) || s.phase[r].AppendOpened? || s.phase[r].WipeOpened?) ==> s.file
  }

  /** Something that would be served, or is certain to be stored, after catch-up is off. */
  ghost predicate Leftover(s: State) {
    s.rows != {} || exists r :: r in s.phase && s.phase[r].AppendEnabled?
  }

  ghost predicate SomeWiper(s: State) {
    exists r :: r in s.phase && Wiping(s.phase[r])
  }

  /** While catch-up is off, whatever is left over has a wipe still coming. */
  ghost predicate Invariant(s: State) {
    && LockExclusive(s) && FileThere(s)
    && (Off(s.room) && Leftover(s) ==> SomeWiper(s))
  }

  lemma InvariantInitially()
    ensures Invariant(INITIAL)
  {
  }

  lemma InvariantKept(s: State, r: Request, a: Action, s': State)
    requires Invariant(s) && Next(s, r, a, s')
    ensures Invariant(s')
  {
    LockAndFileKept(s, r, a, s');
    if Off(s'.room) && Leftover(s') {
      WiperKept(s, r, a, s');
    }
  }

  lemma LockAndFileKept(s: State, r: Request, a: Action, s': State)
    requires LockExclusive(s) && FileThere(s) && Next(s, r, a, s')
    ensures LockExclusive(s') && FileThere(s')
  {
  }

  lemma WiperKept(s: State, r: Request, a: Action, s': State)
    requires Invariant(s) && Next(s, r, a, s') && Off(s'.room) && Leftover(s')
    ensures SomeWiper(s')
  {
    if a.Advance? && s.phase[r].Changing? && (s.phase[r].change.TurnOff? || s.phase[r].change.Disband?) {
      assert Wiping(s'.phase[r]);
    } else {
      assert Off(s.room);
      if x :| x in s'.phase && s'.phase[x].AppendEnabled? {
        assert x in s.phase && s.phase[x].AppendEnabled?;
      } else {
        assert s.rows != {} || (a.Advance? && s.phase[r].AppendEnabled?);
      }
      assert Leftover(s);
      var w :| w in s.phase && Wiping(s.phase[w]);
      if w == r {
        // The wiper itself moved: it is done only if it emptied the table or there was no file.
        assert Wiping(s'.phase[r]);
      } else {
        assert Wiping(s'.phase[w]);
      }
    }
  }

  /** states[0] is the empty server and every next state is one step of some request. */
  ghost predicate Run(states: seq<State>) {
    && states != []
    && states[0] == INITIAL
    && forall i {:trigger states[i]} :: 0 <= i < |states| - 1 ==> Stepped(states[i], states[i + 1])
  }

  ghost predicate Stepped(s: State, s': State) {
    exists r, a :: Next(s, r, a, s')
  }

  lemma {:induction false} InvariantAlways(states: seq<State>, i: nat)
    requires Run(states) && i < |states|
    ensures Invariant(states[i])
  {
    if i == 0 {
      InvariantInitially();
    } else {
      InvariantAlways(states, i - 1);
      assert Stepped(states[i - 1], states[i - 1 + 1]);
      var r, a :| Next(states[i - 1], r, a, states[i]);
      InvariantKept(states[i - 1], r, a, states[i]);
    }
  }

  /** With no wipe in flight, a room that is off or gone stores nothing and no append in flight is
      going to store anything either. */
  lemma OffAndQuietIsEmpty(states: seq<State>, i: nat)
    requires Run(states) && i < |states|
    requires Off(states[i].room) && !SomeWiper(states[i])
    ensures states[i].rows == {}
    ensures forall r :: r in states[i].phase ==> !states[i].phase[r].AppendEnabled?
  {
    InvariantAlways(states, i);
    assert !Leftover(states[i]);
  }

  // ----- After an "off" completes -----

  /** Request `r` finishes turning catch-up off (or disbanding) between two states. */
  ghost predicate WipeCompletes(s: State, r: Request, s': State) {
    && r in s.phase && Wiping(s.phase[r])
    && r in s'.phase && s'.phase[r].Done?
    && exists a :: Next(s, r, a, s')
  }

  ghost predicate Clean(s: State) {
    Off(s.room) && !Leftover(s)
  }

  lemma WipeLeavesClean(s: State, r: Request, s': State)
    requires Invariant(s) && WipeCompletes(s, r, s') && Off(s'.room)
    ensures Clean(s')
  {
    if x :| x in s'.phase && s'.phase[x].AppendEnabled? {
      // An append past its re-read would hold the lock the wipe just held, or there is no file.
      assert x in s.phase && s.phase[x].AppendEnabled? && Holds(s.phase[x]);
      assert false;
    }
  }

  lemma CleanUntilTurnedOn(s: State, s': State)
    requires Clean(s) && Stepped(s, s') && Off(s'.room)
    ensures Clean(s')
  {
    var r, a :| Next(s, r, a, s');
    if Leftover(s') {
      assert false;
    }
  }

  lemma RunSteps(states: seq<State>, i: nat)
    requires Run(states) && i < |states| - 1
    ensures Stepped(states[i], states[i + 1])
  {
    assert states[i] == states[i];
  }

  /** After an "off" completes no row remains until catch-up is turned on again, whatever appends
      were already past their publish when it began. */
  lemma {:induction false} EmptyUntilTurnedOn(states: seq<State>, r: Request, i: nat, n: nat)
    requires Run(states) && i < n < |states|
    requires WipeCompletes(states[i], r, states[i + 1])
    requires forall k {:trigger states[k]} :: i < k <= n ==> Off(states[k].room)
    ensures Clean(states[n])
    decreases n
  {
    hide *;
    if n == i + 1 {
      InvariantAlways(states, i);
      WipeLeavesClean(states[i], r, states[n]);
    } else {
      EmptyUntilTurnedOn(states, r, i, n - 1);
      RunSteps(states, n - 1);
      CleanUntilTurnedOn(states[n - 1], states[n]);
    }
  }

  // ----- Nothing gets stuck -----

  /** Request `r` alone moves from each state to the next. */
  ghost predicate Path(states: seq<State>, r: Request) {
    states != [] && forall i {:trigger states[i]} :: 0 <= i < |states| - 1 ==> Moves(states[i], r, states[i + 1])
  }

  ghost predicate Moves(s: State, r: Request, s': State) {
    exists kept :: Next(s, r, Advance(kept), s')
  }

  ghost predicate Leads(states: seq<State>, r: Request, s: State) {
    && Path(states, r) && states[0] == s
    && Ended(states[|states| - 1], r)
  }

  ghost predicate Ended(s: State, r: Request) {
    r in s.phase && s.phase[r].Done? && s.lock.None?
  }

  /** With catch-up on a message gets stored: once the lock is free its append can run to its end, and
      then the table is whatever its prune keeps of the old rows and the new one. */
  lemma AppendStores(s: State, r: Request, id: MsgId, kept: set<MsgId>) returns (states: seq<State>)
    requires r in s.phase && s.phase[r] == Publishing(id)
    requires s.lock.None? && !Off(s.room) && kept <= s.rows + {id}
    ensures Leads(states, r, s)
    ensures var end := states[|states| - 1]; end.rows == kept && end.room == s.room
  {
    var s1 := Goto(s, r, AppendOpened(id)).(file := true);
    var s2 := Goto(s1, r, AppendLocked(id)).(lock := Some(r));
    var s3 := Goto(s2, r, AppendEnabled(id));
    var s4 := Goto(s3, r, Done).(rows := kept, lock := None);
    assert Next(s, r, Advance({}), s1) && Next(s1, r, Advance({}), s2) && Next(s2, r, Advance({}), s3);
    assert Next(s3, r, Advance(kept), s4);
    states := [s, s1, s2, s3, s4];
  }

  /** Turning catch-up off, or disbanding, gets done: with the lock free it can run to its end, and then
      no row is left. */
  lemma OffEmpties(s: State, r: Request, change: Change) returns (states: seq<State>)
    requires Invariant(s) && r in s.phase && s.phase[r] == Changing(change) && (change.TurnOff? || change.Disband?)
    requires s.lock.None?
    ensures Leads(states, r, s)
    ensures var end := states[|states| - 1]; Off(end.room) && end.rows == {}
  {
    var s1 := Goto(s, r, WipeChecking).(room := Changed(s.room, change));
    assert Next(s, r, Advance({}), s1);
    if s.file {
      var s2 := Goto(s1, r, WipeOpened);
      var s3 := Goto(s2, r, WipeLocked).(lock := Some(r));
      var s4 := Goto(s3, r, Done).(rows := {}, lock := None);
      assert Next(s1, r, Advance({}), s2) && Next(s2, r, Advance({}), s3) && Next(s3, r, Advance({}), s4);
      states := [s, s1, s2, s3, s4];
    } else {
      var s2 := Goto(s1, r, Done);
      assert Next(s1, r, Advance({}), s2);
      states := [s, s1, s2];
    }
  }

  /** Whoever holds the lock can always go on and give it back: an append that has read the flag as on
      with its row stored, one that has not with its row stored exactly if the flag is on by then, a wipe
      with no row left. */
  lemma HolderEnds(s: State, r: Request) returns (states: seq<State>)
    requires Invariant(s) && s.lock == Some(r)
    ensures Leads(states, r, s)
    ensures var end, phase := states[|states| - 1], s.phase[r];
            && end.room == s.room
            && (phase.WipeLocked? ==> end.rows == {})
            && (phase.AppendEnabled? ==> end.rows == s.rows + {phase.id})
            && (phase.AppendLocked? ==> end.rows == if Off(s.room) then s.rows else s.rows + {phase.id})
  {
    match s.phase[r]
    case WipeLocked =>
      states := [s, Goto(s, r, Done).(rows := {}, lock := None)];
      assert Next(s, r, Advance({}), states[1]);
    case AppendEnabled(id) =>
      states := [s, Goto(s, r, Done).(rows := s.rows + {id}, lock := None)];
      assert Next(s, r, Advance(s.rows + {id}), states[1]);
    case AppendLocked(id) =>
      if Off(s.room) {
        states := [s, Goto(s, r, Done).(lock := None)];
        assert Next(s, r, Advance({}), states[1]);
      } else {
        var s1 := Goto(s, r, AppendEnabled(id));
        var s2 := Goto(s1, r, Done).(rows := s.rows + {id}, lock := None);
        assert Next(s, r, Advance({}), s1) && Next(s1, r, Advance(s.rows + {id}), s2);
        states := [s, s1, s2];
      }
  }

  /** A fetch prunes only while no transaction is open, and then any part of the table may be what it keeps. */
  lemma PruneIff(s: State, r: Request, kept: set<MsgId>)
    ensures (exists s' :: Next(s, r, Prune(kept), s')) <==> s.lock.None? && kept <= s.rows
    ensures forall s' :: Next(s, r, Prune(kept), s') ==> s'.rows == kept && s'.room == s.room && s'.phase == s.phase
  {
    if s.lock.None? && kept <= s.rows {
      assert Next(s, r, Prune(kept), s.(rows := kept));
    }
  }

  // ----- The re-read under the lock is what makes it true -----

  /** An append that inserts on the strength of a flag it read before taking the lock. */
  ghost predicate NextWithoutReread(s: State, r: Request, s': State) {
    && r in s.phase && s.phase[r].AppendLocked?
    && s' == Goto(s, r, Done).(rows := s.rows + {s.phase[r].id}, lock := None)
  }

  /** Without the re-read a row is stranded: a reachable state that is off and quiet, and one step
      of the unguarded append after which the row is there for good. */
  lemma RereadIsNeeded(a: Request, b: Request, c: Request, id: MsgId) returns (states: seq<State>, stranded: State)
    requires a != b && b != c && a != c
    ensures Run(states)
    ensures NextWithoutReread(states[|states| - 1], a, stranded)
    ensures Off(stranded.room) && !SomeWiper(stranded) && stranded.rows == {id}
  {
    var s0 := INITIAL;
    var s1 := Goto(s0, c, Changing(Create(true)));
    var s2 := Goto(s1, c, Done).(room := Open(true));
    var s3 := Goto(s2, a, Publishing(id));
    var s4 := Goto(s3, b, Changing(TurnOff));
    var s5 := Goto(s4, b, WipeChecking).(room := Open(false));
    var s6 := Goto(s5, b, Done);
    var s7 := Goto(s6, a, AppendOpened(id)).(file := true);
    var s8 := Goto(s7, a, AppendLocked(id)).(lock := Some(a));
    states := [s0, s1, s2, s3, s4, s5, s6, s7, s8];
    assert Next(s0, c, Start(Changing(Create(true))), s1);
    assert Next(s1, c, Advance({}), s2);
    assert Next(s2, a, Start(Publishing(id)), s3);
    assert Next(s3, b, Start(Changing(TurnOff)), s4);
    assert Next(s4, b, Advance({}), s5);
    assert Next(s5, b, Advance({}), s6);
    assert Next(s6, a, Advance({}), s7);
    assert Next(s7, a, Advance({}), s8);
    stranded := Goto(s8, a, Done).(rows := s8.rows + {id}, lock := None);
  }
}
