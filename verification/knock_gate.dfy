/** Who is let into a daemon's rooms: the first authentic device binds a room, its retries are sent the
    pass again, and every other device is parked until the operator answers. The agent rooms share one
    gate; the control room has one of its own. Knocks are handled one at a time. */
module KnockGate {
  import opened Wrappers

  type RoomId(==, !new)
  type KnockId(==, !new)
  type Pubkey(==, !new)

  const PENDING_TTL_MS := 10 * 60 * 1000

  /** `bound` and `boundPubkey` of a session. */
  datatype Binding = Binding(bound: bool, pubkey: Option<Pubkey>)

  const UNBOUND := Binding(false, None)

  datatype Request = Request(room: RoomId, knock: KnockId)

  datatype Parked = Parked(pubkey: Pubkey, expiresAt: int)

  /** How a handshake ends: nothing got through, all of it did, or the pass got through but the daemon
      was told otherwise. */
  datatype Outcome = Failed | Sent | SentUnheard

  datatype Cause = First | Resent | Confirmed(knock: KnockId, expiresAt: int)

  datatype Admission = Admission(room: RoomId, pubkey: Pubkey, cause: Cause, at: int)

  /** The daemon's state, the bindings on disk, and history: who was admitted, and how often each
      request was parked and answered. */
  datatype World = World(
    rooms: map<RoomId, Binding>,
    pending: map<Request, Parked>,
    saved: map<RoomId, Binding>,
    admitted: seq<Admission>,
    parked: multiset<Request>,
    answered: multiset<Request>)

  function Unexpired(pending: map<Request, Parked>, now: int): map<Request, Parked> {
    map k | k in pending && now <= pending[k].expiresAt :: pending[k]
  }

  function Logged(w: World, outcome: Outcome, a: Admission): World {
    if outcome == Failed then w else w.(admitted := w.admitted + [a])
  }

  /** An authentic knock. */
  function Knocked(w: World, room: RoomId, pubkey: Pubkey, knock: KnockId, now: int, outcome: Outcome): World {
    if room !in w.rooms then w
    else if w.rooms[room].bound then
      if w.rooms[room].pubkey == Some(pubkey) then Logged(w, outcome, Admission(room, pubkey, Resent, now))
      else
        var r := Request(room, knock);
        w.(pending := Unexpired(w.pending, now)[r := Parked(pubkey, now + PENDING_TTL_MS)],
            parked := w.parked + multiset{r})
    else
      var w' := Logged(w, outcome, Admission(room, pubkey, First, now));
      if outcome == Sent then w'.(rooms := w.rooms[room := Binding(true, Some(pubkey))]) else w'
  }

  /** The operator's answer to a parked knock. */
  function Answered(w: World, r: Request, yes: bool, now: int, outcome: Outcome): World {
    if r !in w.pending then w
    else
      var p := w.pending[r];
      var w' := w.(pending := w.pending - {r}, answered := w.answered + multiset{r});
      if now > p.expiresAt || !yes || r.room !in w.rooms then w'
      else Logged(w', outcome, Admission(r.room, p.pubkey, Confirmed(r.knock, p.expiresAt), now))
  }

  /** A restart keeps what was saved; parked knocks are lost. */
  function Restarted(w: World): World {
    w.(rooms := w.saved, pending := map[])
  }

  // ----- What holds of every gate -----

  /** A request is answered no more often than it was parked, and what is pending is unanswered. */
  ghost predicate Conserved(w: World) {
    forall r :: w.answered[r] + (if r in w.pending then 1 else 0) <= w.parked[r]
  }

  /** Every admission by the operator happened before the parked knock it answers ran out. */
  ghost predicate InTime(w: World) {
    forall a :: a in w.admitted && a.cause.Confirmed? ==> a.at <= a.cause.expiresAt
  }

  ghost predicate Sound(w: World) {
    Conserved(w) && InTime(w)
  }

  /** What a knock may do, whoever it is: a bound room stays bound to its device, no other room is
      concerned, no unexpired request is lost, the device parked under any other request stays the same,
      and a device is let in only where nobody is bound or where it is itself. Any other is parked, in
      the place of whoever was parked under the same id. */
  ghost predicate KnockServed(w: World, w': World, room: RoomId, pubkey: Pubkey, knock: KnockId, now: int) {
    && w'.rooms.Keys == w.rooms.Keys && w'.saved == w.saved && w'.answered == w.answered
    && (forall r :: r in w.rooms && w'.rooms[r] != w.rooms[r] ==>
          r == room && !w.rooms[r].bound && w'.rooms[r] == Binding(true, Some(pubkey)))
    && (forall r :: r in w.pending && now <= w.pending[r].expiresAt ==> r in w'.pending)
    && (forall r :: r in w'.pending && r != Request(room, knock) ==> r in w.pending && w'.pending[r] == w.pending[r])
    && (w'.admitted != w.admitted ==>
          && room in w.rooms && (w.rooms[room].bound ==> w.rooms[room].pubkey == Some(pubkey))
          && |w'.admitted| == |w.admitted| + 1 && w.admitted < w'.admitted
          && w'.admitted[|w.admitted|].room == room && w'.admitted[|w.admitted|].pubkey == pubkey)
    && (room in w.rooms && w.rooms[room].bound && w.rooms[room].pubkey != Some(pubkey) ==>
          var r := Request(room, knock); r in w'.pending && w'.pending[r] == Parked(pubkey, now + 600000))
  }

  /** What an answer does: the request is gone whatever it says, so that a second answer finds nothing,
      and the device that was parked is let in exactly on a yes in time, unless nothing got through. */
  ghost predicate AnswerServed(w: World, w': World, r: Request, yes: bool, now: int, outcome: Outcome) {
    && w'.pending == w.pending - {r} && w'.rooms == w.rooms && w'.saved == w.saved && w'.parked == w.parked
    && (w'.admitted != w.admitted <==>
        r in w.pending && yes && now <= w.pending[r].expiresAt && r.room in w.rooms && outcome != Failed)
    && (w'.admitted != w.admitted ==>
          |w'.admitted| == |w.admitted| + 1 && w.admitted < w'.admitted
          && w'.admitted[|w.admitted|].room == r.room && w'.admitted[|w.admitted|].pubkey == w.pending[r].pubkey)
  }

  lemma OneMore(m: multiset<Request>, mine: Request)
    ensures forall r :: (m + multiset{mine})[r] == m[r] + if r == mine then 1 else 0
  {
  }

  /** Every knock keeps the gate sound and does no more than a knock may. */
  lemma KnockIsServed(w: World, room: RoomId, pubkey: Pubkey, knock: KnockId, now: int, outcome: Outcome)
    requires Sound(w)
    ensures var w' := Knocked(w, room, pubkey, knock, now, outcome);
            Sound(w') && KnockServed(w, w', room, pubkey, knock, now)
  {
    hide Conserved, InTime, Knocked, KnockServed;
    KnockConserves(w, room, pubkey, knock, now, outcome);
    KnockInTime(w, room, pubkey, knock, now, outcome);
    KnockServes(w, room, pubkey, knock, now, outcome);
  }

  lemma KnockServes(w: World, room: RoomId, pubkey: Pubkey, knock: KnockId, now: int, outcome: Outcome)
    ensures KnockServed(w, Knocked(w, room, pubkey, knock, now, outcome), room, pubkey, knock, now)
  {
    hide Logged;
    if room in w.rooms {
      if w.rooms[room].bound {
        LogGrows(w, outcome, Admission(room, pubkey, Resent, now));
      } else {
        LogGrows(w, outcome, Admission(room, pubkey, First, now));
      }
    }
  }

  lemma LogGrows(w: World, outcome: Outcome, a: Admission)
    ensures var w' := Logged(w, outcome, a);
            && w' == w.(admitted := w'.admitted)
            && (if outcome == Failed then w'.admitted == w.admitted
                else w.admitted < w'.admitted && |w'.admitted| == |w.admitted| + 1 && w'.admitted[|w.admitted|] == a)
  {
  }

  lemma KnockConserves(w: World, room: RoomId, pubkey: Pubkey, knock: KnockId, now: int, outcome: Outcome)
    requires Conserved(w)
    ensures Conserved(Knocked(w, room, pubkey, knock, now, outcome))
  {
    if room in w.rooms && w.rooms[room].bound {
      var r := Request(room, knock);
      ParkingConserves(w, Unexpired(w.pending, now)[r := Parked(pubkey, now + PENDING_TTL_MS)], r);
    }
  }

  lemma ParkingConserves(w: World, pending: map<Request, Parked>, r: Request)
    requires Conserved(w) && pending.Keys <= w.pending.Keys + {r}
    ensures Conserved(w.(pending := pending, parked := w.parked + multiset{r}))
  {
    OneMore(w.parked, r);
  }

  lemma KnockInTime(w: World, room: RoomId, pubkey: Pubkey, knock: KnockId, now: int, outcome: Outcome)
    requires InTime(w)
    ensures InTime(Knocked(w, room, pubkey, knock, now, outcome))
  {
  }

  /** Every answer keeps the gate sound and does exactly what an answer should. */
  lemma AnswerIsServed(w: World, r: Request, yes: bool, now: int, outcome: Outcome)
    requires Sound(w)
    ensures var w' := Answered(w, r, yes, now, outcome);
            Sound(w') && AnswerServed(w, w', r, yes, now, outcome)
  {
    hide Conserved, InTime, Logged;
    AnswerConserves(w, r, yes, now, outcome);
    AnswerInTime(w, r, yes, now, outcome);
    if r in w.pending {
      var p := w.pending[r];
      var closed := w.(pending := w.pending - {r}, answered := w.answered + multiset{r});
      LogGrows(closed, outcome, Admission(r.room, p.pubkey, Confirmed(r.knock, p.expiresAt), now));
    } else {
      assert w.pending - {r} == w.pending;
    }
  }

  lemma AnswerConserves(w: World, mine: Request, yes: bool, now: int, outcome: Outcome)
    requires Conserved(w)
    ensures Conserved(Answered(w, mine, yes, now, outcome))
  {
    OneMore(w.answered, mine);
  }

  lemma AnswerInTime(w: World, r: Request, yes: bool, now: int, outcome: Outcome)
    requires InTime(w)
    ensures InTime(Answered(w, r, yes, now, outcome))
  {
  }

  class Gate {
    var rooms: map<RoomId, Binding>
    var pending: map<Request, Parked>
    var saved: map<RoomId, Binding>
    ghost var admitted: seq<Admission>
    ghost var parked: multiset<Request>
    ghost var answered: multiset<Request>

    ghost function View(): World
      reads this
    {
      World(rooms, pending, saved, admitted, parked, answered)
    }

    ghost predicate Valid()
      reads this
    {
      Sound(View())
    }

    method OnKnock(room: RoomId, pubkey: Pubkey, knock: KnockId, now: int, outcome: Outcome)
      requires Valid()
      modifies this
      ensures Valid() && KnockServed(old(View()), View(), room, pubkey, knock, now)
      ensures View() == Knocked(old(View()), room, pubkey, knock, now, outcome)
    {
      hide KnockServed, Conserved, InTime;
      KnockIsServed(View(), room, pubkey, knock, now, outcome);
      if room !in rooms {
        return;
      }
      if rooms[room].bound {
        if rooms[room].pubkey.Some? && pubkey == rooms[room].pubkey.value {
          var _ := Approve(room, pubkey, Resent, now, outcome);
          return;
        }
        EvictExpired(now);
        pending := pending[Request(room, knock) := Parked(pubkey, now + PENDING_TTL_MS)];
        parked := parked + multiset{Request(room, knock)};
        return;
      }
      var ok := Approve(room, pubkey, First, now, outcome);
      if ok {
        rooms := rooms[room := Binding(true, Some(pubkey))];
      }
    }

    /** The handshake; `ok` is what the daemon learns of its outcome. */
    method Approve(room: RoomId, pubkey: Pubkey, ghost cause: Cause, now: int, outcome: Outcome) returns (ok: bool)
      requires room in rooms
      modifies this`admitted
      ensures View() == Logged(old(View()), outcome, Admission(room, pubkey, cause, now))
      ensures ok == (outcome == Sent)
    {
      if outcome != Failed {
        admitted := admitted + [Admission(room, pubkey, cause, now)];
      }
      ok := outcome == Sent;
    }

    method EvictExpired(now: int)
      modifies this`pending
      ensures pending == Unexpired(old(pending), now)
      ensures forall r :: r in pending <==> r in old(pending) && now <= old(pending)[r].expiresAt
      ensures forall r :: r in pending ==> pending[r] == old(pending)[r]
    {
      var keys := pending.Keys;
      while keys != {}
        invariant keys <= pending.Keys <= old(pending).Keys
        invariant forall k :: k in pending ==> pending[k] == old(pending)[k]
        invariant forall k :: k in old(pending) && k !in keys ==> (k in pending <==> now <= old(pending)[k].expiresAt)
        decreases |keys|
      {
        var k :| k in keys;
        keys := keys - {k};
        if now > pending[k].expiresAt {
          pending := pending - {k};
        }
      }
    }

    method Resolve(r: Request, yes: bool, now: int, outcome: Outcome)
      requires Valid()
      modifies this
      ensures Valid() && AnswerServed(old(View()), View(), r, yes, now, outcome)
      ensures View() == Answered(old(View()), r, yes, now, outcome)
    {
      hide AnswerServed, Conserved, InTime;
      AnswerIsServed(View(), r, yes, now, outcome);
      if r !in pending {
        return;
      }
      var p := pending[r];
      pending := pending - {r};
      answered := answered + multiset{r};
      if now > p.expiresAt || !yes || r.room !in rooms {
        return;
      }
      var _ := Approve(r.room, p.pubkey, Confirmed(r.knock, p.expiresAt), now, outcome);
    }

    /** The requests an operator can still answer with effect. */
    method ListPending(now: int) returns (listed: set<Request>)
      ensures forall r :: r in listed <==> r in pending && now <= pending[r].expiresAt
    {
      listed := {};
      var keys := pending.Keys;
      while keys != {}
        invariant keys <= pending.Keys
        invariant listed == set k | k in pending && k !in keys && now <= pending[k].expiresAt
        decreases |keys|
      {
        var k :| k in keys;
        keys := keys - {k};
        if now <= pending[k].expiresAt {
          listed := listed + {k};
        }
      }
    }
  }

  // ----- Runs -----

  datatype Event =
    | Knock(room: RoomId, pubkey: Pubkey, knock: KnockId, now: int, outcome: Outcome)
    | Answer(request: Request, yes: bool, now: int, outcome: Outcome)
    | Spawn(room: RoomId)
    | Close(room: RoomId)
    | Save
    | Restart

  function Next(w: World, e: Event): World {
    match e
    case Knock(room, pubkey, knock, now, outcome) => Knocked(w, room, pubkey, knock, now, outcome)
    case Answer(request, yes, now, outcome) => Answered(w, request, yes, now, outcome)
    case Spawn(room) => w.(rooms := w.rooms[room := UNBOUND])
    case Close(room) => w.(rooms := w.rooms - {room})
    case Save => w.(saved := w.rooms)
    case Restart => Restarted(w)
  }

  /** What comes and goes besides knocks and answers: a restart keeps exactly what was saved and forgets who is
      parked, a save keeps everything, and rooms are opened unbound and closed one at a time. */
  lemma OthersSay(w: World, e: Event)
    requires !e.Knock? && !e.Answer?
    ensures var w' := Next(w, e);
            && w'.admitted == w.admitted && w'.answered == w.answered && w'.parked == w.parked
            && (e.Restart? ==> w'.rooms == w.saved && w'.saved == w.saved && w'.pending == map[])
            && (!e.Restart? ==> w'.pending == w.pending)
            && (e.Save? ==> w'.rooms == w.rooms && w'.saved == w.rooms)
            && (e.Spawn? ==> e.room in w'.rooms && !w'.rooms[e.room].bound && w'.saved == w.saved
                             && w'.rooms - {e.room} == w.rooms - {e.room})
            && (e.Close? ==> w'.rooms == w.rooms - {e.room} && w'.saved == w.saved)
  {
  }

  const START := World(map[], map[], map[], [], multiset{}, multiset{})

  function Run(events: seq<Event>): World {
    if events == [] then START else Next(Run(events[..|events| - 1]), events[|events| - 1])
  }

  predicate ByItself(a: Admission) {
    !a.cause.Confirmed?
  }

  /** This device was let into the room without being asked for. */
  ghost predicate EnteredBy(w: World, room: RoomId, pubkey: Pubkey) {
    exists a :: a in w.admitted && a.room == room && a.pubkey == pubkey && ByItself(a)
  }

  ghost predicate Entered(w: World, room: RoomId) {
    exists pubkey :: EnteredBy(w, room, pubkey)
  }

  lemma EnteredRoom(w: World, room: RoomId, pubkey: Pubkey)
    ensures EnteredBy(w, room, pubkey) ==> Entered(w, room)
  {
    hide EnteredBy;
  }

  /** The promise: a room lets in at most one device unasked. */
  ghost predicate OnePerRoom(w: World) {
    forall room, p, q :: EnteredBy(w, room, p) && EnteredBy(w, room, q) ==> p == q
  }

  /** A room is bound to a device that was let in. */
  ghost predicate BoundToEntered(w: World, rooms: map<RoomId, Binding>) {
    forall r :: r in rooms && rooms[r].bound ==> rooms[r].pubkey.Some? && EnteredBy(w, r, rooms[r].pubkey.value)
  }

  /** A knock that gets through to a room nobody is bound to, though another device had been let in. */
  ghost predicate Late(w: World, e: Event) {
    && e.Knock? && e.room in w.rooms && !w.rooms[e.room].bound && e.outcome != Failed
    && exists q :: q != e.pubkey && EnteredBy(w, e.room, q)
  }

  /** The event lets this device in without being asked for. */
  predicate Admits(w: World, e: Event, room: RoomId, pubkey: Pubkey) {
    && e.Knock? && e.room == room && e.pubkey == pubkey && e.outcome != Failed && room in w.rooms
    && (w.rooms[room].bound ==> w.rooms[room].pubkey == Some(pubkey))
  }

  lemma EnteredAfter(w: World, e: Event, room: RoomId, pubkey: Pubkey)
    ensures EnteredBy(Next(w, e), room, pubkey) <==> EnteredBy(w, room, pubkey) || Admits(w, e, room, pubkey)
  {
    hide EnteredBy;
    match e
    case Knock(r, p, knock, now, outcome) =>
      KnockAdmits(w, r, p, knock, now, outcome);
      EnteredGrows(w, Next(w, e), room, pubkey);
    case Answer(r, _, _, _) => AnswerAdmits(w, e, room, pubkey);
    case _ => EnteredGrows(w, Next(w, e), room, pubkey);
  }

  lemma KnockAdmits(w: World, room: RoomId, pubkey: Pubkey, knock: KnockId, now: int, outcome: Outcome)
    ensures var w' := Knocked(w, room, pubkey, knock, now, outcome);
            var through := outcome != Failed && room in w.rooms
                && (w.rooms[room].bound ==> w.rooms[room].pubkey == Some(pubkey));
            if through then w'.admitted == w.admitted + [Admission(room, pubkey, First, now)]
                            || w'.admitted == w.admitted + [Admission(room, pubkey, Resent, now)]
            else w'.admitted == w.admitted
  {
  }

  lemma EnteredGrows(w: World, w': World, room: RoomId, pubkey: Pubkey)
    requires w'.admitted == w.admitted || exists a :: w'.admitted == w.admitted + [a] && ByItself(a)
    ensures w'.admitted == w.admitted ==> (EnteredBy(w', room, pubkey) <==> EnteredBy(w, room, pubkey))
    ensures forall a :: ByItself(a) && w'.admitted == w.admitted + [a] ==>
              (EnteredBy(w', room, pubkey) <==> EnteredBy(w, room, pubkey) || (a.room == room && a.pubkey == pubkey))
  {
    forall a | ByItself(a) && w'.admitted == w.admitted + [a]
      ensures EnteredBy(w', room, pubkey) <==> EnteredBy(w, room, pubkey) || (a.room == room && a.pubkey == pubkey)
    {
      assert forall x :: x in w'.admitted <==> x in w.admitted || x == a;
    }
  }

  lemma AnswerAdmits(w: World, e: Event, room: RoomId, pubkey: Pubkey)
    requires e.Answer?
    ensures EnteredBy(Next(w, e), room, pubkey) <==> EnteredBy(w, room, pubkey)
  {
    var w' := Next(w, e);
    assert forall a :: ByItself(a) ==> (a in w'.admitted <==> a in w.admitted);
  }

  /** One event keeps the promise if and only if it is no late knock. */
  lemma StepKeepsIff(w: World, e: Event)
    requires BoundToEntered(w, w.rooms) && BoundToEntered(w, w.saved)
    ensures OnePerRoom(Next(w, e)) <==> OnePerRoom(w) && !Late(w, e)
  {
    hide EnteredBy, Next;
    if OnePerRoom(w) && !Late(w, e) {
      forall room, p, q | EnteredBy(Next(w, e), room, p) && EnteredBy(Next(w, e), room, q) ensures p == q {
        EnteredAfter(w, e, room, p);
        EnteredAfter(w, e, room, q);
      }
    } else if OnePerRoom(w) {
      var q :| q != e.pubkey && EnteredBy(w, e.room, q);
      EnteredAfter(w, e, e.room, q);
      EnteredAfter(w, e, e.room, e.pubkey);
    } else {
      var room, p, q :| EnteredBy(w, room, p) && EnteredBy(w, room, q) && p != q;
      EnteredAfter(w, e, room, p);
      EnteredAfter(w, e, room, q);
    }
  }

  lemma StepKeepsBound(w: World, e: Event)
    requires BoundToEntered(w, w.rooms) && BoundToEntered(w, w.saved)
    ensures var w' := Next(w, e); BoundToEntered(w', w'.rooms) && BoundToEntered(w', w'.saved)
  {
    hide EnteredBy, Next;
    forall room, pubkey
      ensures EnteredBy(w, room, pubkey) || Admits(w, e, room, pubkey) ==> EnteredBy(Next(w, e), room, pubkey)
    {
      EnteredAfter(w, e, room, pubkey);
    }
    StepRooms(w, e);
  }

  /** How bindings change. */
  lemma StepRooms(w: World, e: Event)
    ensures var w' := Next(w, e);
            && (forall r :: r in w'.rooms && w'.rooms[r].bound ==>
                  || (r in w.rooms && w'.rooms[r] == w.rooms[r])
                  || (r in w.saved && w'.rooms[r] == w.saved[r])
                  || (e.Knock? && e.room == r && e.outcome == Sent && r in w.rooms && !w.rooms[r].bound
                      && w'.rooms[r] == Binding(true, Some(e.pubkey))))
            && (w'.saved == w.saved || w'.saved == w.rooms)
  {
    hide Unexpired;
    match e
    case Knock(room, pubkey, knock, now, outcome) => KnockRooms(w, room, pubkey, knock, now, outcome);
    case Answer(r, yes, now, outcome) => AnswerRooms(w, r, yes, now, outcome);
    case _ =>
  }

  lemma KnockRooms(w: World, room: RoomId, pubkey: Pubkey, knock: KnockId, now: int, outcome: Outcome)
    ensures var w' := Knocked(w, room, pubkey, knock, now, outcome);
            var binds := room in w.rooms && !w.rooms[room].bound && outcome == Sent;
            && w'.saved == w.saved
            && w'.rooms == if binds then w.rooms[room := Binding(true, Some(pubkey))] else w.rooms
  {
    hide Unexpired;
  }

  lemma AnswerRooms(w: World, r: Request, yes: bool, now: int, outcome: Outcome)
    ensures var w' := Answered(w, r, yes, now, outcome); w'.saved == w.saved && w'.rooms == w.rooms
  {
  }

  lemma {:induction false} BoundAlways(events: seq<Event>)
    ensures BoundToEntered(Run(events), Run(events).rooms) && BoundToEntered(Run(events), Run(events).saved)
    decreases |events|
  {
    if events != [] {
      hide Next, EnteredBy;
      BoundAlways(events[..|events| - 1]);
      StepKeepsBound(Run(events[..|events| - 1]), events[|events| - 1]);
    }
  }

  ghost predicate NoneLate(events: seq<Event>) {
    forall i :: 0 <= i < |events| ==> !Late(Run(events[..i]), events[i])
  }

  lemma NoneLateLast(events: seq<Event>)
    requires events != []
    ensures var before := events[..|events| - 1];
            NoneLate(events) <==> NoneLate(before) && !Late(Run(before), events[|events| - 1])
  {
    hide Late, Run;
    var n := |events| - 1;
    forall i | 0 <= i < n ensures events[..n][..i] == events[..i] && events[..n][i] == events[i] {
    }
    if NoneLate(events) {
      forall i | 0 <= i < n ensures !Late(Run(events[..n][..i]), events[..n][i]) {
        assert !Late(Run(events[..i]), events[i]);
      }
    }
    if NoneLate(events[..n]) && !Late(Run(events[..n]), events[n]) {
      forall i | 0 <= i <= n ensures !Late(Run(events[..i]), events[i]) {
        if i < n { assert !Late(Run(events[..n][..i]), events[..n][i]); }
      }
    }
  }

  /** A run of any knocks, answers, saves and restarts keeps the promise if and only if no knock in it
      is late. */
  lemma {:induction false} OneDeviceIff(events: seq<Event>)
    ensures OnePerRoom(Run(events)) <==> NoneLate(events)
    decreases |events|
  {
    if events != [] {
      hide NoneLate, Late, OnePerRoom, Next, BoundToEntered;
      var before := events[..|events| - 1];
      OneDeviceIff(before);
      BoundAlways(before);
      StepKeepsIff(Run(before), events[|events| - 1]);
      NoneLateLast(events);
    }
  }

  // ----- Where late knocks come from -----

  /** Nobody is bound to a room though somebody was let in. */
  ghost predicate Exposed(w: World, room: RoomId) {
    room in w.rooms && !w.rooms[room].bound && Entered(w, room)
  }

  /** A pass got through unheard to a room nobody was bound to, a restart brought back a binding older
      than an admission, or a room was opened under a used id. */
  ghost predicate OpensGap(w: World, e: Event) {
    || (e.Knock? && e.outcome == SentUnheard && e.room in w.rooms && !w.rooms[e.room].bound)
    || (e.Restart? && exists r :: r in w.saved && !w.saved[r].bound && Entered(w, r))
    || (e.Spawn? && Entered(w, e.room))
  }

  ghost predicate Unbroken(events: seq<Event>) {
    forall i :: 0 <= i < |events| ==> !OpensGap(Run(events[..i]), events[i])
  }

  lemma GapKept(w: World, e: Event, room: RoomId)
    requires Exposed(Next(w, e), room) && !OpensGap(w, e)
    ensures Exposed(w, room)
  {
    var w' := Next(w, e);
    var pubkey :| EnteredBy(w', room, pubkey);
    EnteredAfter(w, e, room, pubkey);
    EnteredRoom(w, room, pubkey);
  }

  lemma UnbrokenBefore(events: seq<Event>, n: nat)
    requires Unbroken(events) && n <= |events|
    ensures Unbroken(events[..n])
  {
    hide OpensGap, Run;
    forall i | 0 <= i < n ensures !OpensGap(Run(events[..n][..i]), events[..n][i]) {
      assert events[..n][..i] == events[..i];
    }
  }

  lemma {:induction false} NeverExposed(events: seq<Event>, room: RoomId)
    requires Unbroken(events)
    ensures !Exposed(Run(events), room)
    decreases |events|
  {
    if events == [] {
      assert Run(events) == START;
    } else {
      hide Exposed, OpensGap, Next;
      var n := |events| - 1;
      UnbrokenBefore(events, n);
      NeverExposed(events[..n], room);
      assert !OpensGap(Run(events[..n]), events[n]);
      if Exposed(Run(events), room) { GapKept(Run(events[..n]), events[n], room); }
    }
  }

  lemma UnbrokenIsNotLate(events: seq<Event>)
    requires Unbroken(events)
    ensures NoneLate(events)
  {
    hide Exposed, OpensGap, Run, Late;
    forall i | 0 <= i < |events| ensures !Late(Run(events[..i]), events[i]) {
      UnbrokenBefore(events, i);
      if events[i].Knock? { NeverExposed(events[..i], events[i].room); }
      LateIsExposed(Run(events[..i]), events[i]);
    }
  }

  /** However knocks, answers, saves and restarts interleave, as long as no gap opens a room lets in at
      most one device without the operator's yes: the one it stays bound to, which is also the only
      one sent the pass again. */
  lemma OneDeviceUnasked(events: seq<Event>, room: RoomId, p: Pubkey, q: Pubkey)
    requires Unbroken(events) && EnteredBy(Run(events), room, p) && EnteredBy(Run(events), room, q)
    ensures p == q && (room in Run(events).rooms ==> Run(events).rooms[room] == Binding(true, Some(p)))
  {
    hide EnteredBy, Run, NoneLate, Unbroken;
    UnbrokenIsNotLate(events);
    OneDeviceIff(events);
    NeverExposed(events, room);
    BoundAlways(events);
    EnteredRoom(Run(events), room, p);
  }

  lemma LateIsExposed(w: World, e: Event)
    ensures Late(w, e) ==> e.Knock? && Exposed(w, e.room)
  {
  }

  /** Two knocks of an unbound room that nobody entered: both devices are let in if and only if the
      first got through unheard and the second got through at all. */
  lemma TwoKnocksIff(w: World, first: Event, second: Event)
    requires BoundToEntered(w, w.rooms) && BoundToEntered(w, w.saved) && OnePerRoom(w)
    requires first.Knock? && second.Knock? && first.room == second.room && first.pubkey != second.pubkey
    requires first.room in w.rooms && !w.rooms[first.room].bound && !Entered(w, first.room)
    ensures OnePerRoom(Next(Next(w, first), second)) <==> first.outcome != SentUnheard || second.outcome == Failed
  {
    hide EnteredBy, Next;
    var between := Next(w, first);
    StepKeepsBound(w, first);
    StepKeepsIff(w, first);
    StepKeepsIff(between, second);
    FirstKnock(w, first);
    EnteredAfter(w, first, first.room, first.pubkey);
    forall q | EnteredBy(between, first.room, q) ensures q == first.pubkey {
      EnteredAfter(w, first, first.room, q);
      EnteredRoom(w, first.room, q);
    }
  }

  lemma FirstKnock(w: World, e: Event)
    requires e.Knock? && e.room in w.rooms && !w.rooms[e.room].bound
    ensures e.room in Next(w, e).rooms && (Next(w, e).rooms[e.room].bound <==> e.outcome == Sent)
  {
  }

  /** A restart at any moment and a knock by another device than the one let in: it is let in too if and
      only if the handshake gets through and the room on disk is unbound. */
  lemma RestartKnockIff(w: World, e: Event, p: Pubkey)
    requires BoundToEntered(w, w.rooms) && BoundToEntered(w, w.saved) && OnePerRoom(w)
    requires e.Knock? && EnteredBy(w, e.room, p) && e.pubkey != p
    ensures OnePerRoom(Next(Next(w, Restart), e)) <==>
            !(e.outcome != Failed && e.room in w.saved && !w.saved[e.room].bound)
  {
    var back := Next(w, Restart);
    assert back.admitted == w.admitted && back.rooms == w.saved && back.saved == w.saved;
    assert forall room, q :: EnteredBy(back, room, q) == EnteredBy(w, room, q);
    hide EnteredBy, Next;
    StepKeepsIff(back, e);
  }

  // ----- Parked knocks -----

  lemma {:induction false} SoundAlways(events: seq<Event>)
    ensures Sound(Run(events))
    decreases |events|
  {
    if events != [] {
      var e, before := events[|events| - 1], events[..|events| - 1];
      SoundAlways(before);
      match e
      case Knock(room, pubkey, knock, now, outcome) => KnockIsServed(Run(before), room, pubkey, knock, now, outcome);
      case Answer(r, yes, now, outcome) => AnswerIsServed(Run(before), r, yes, now, outcome);
      case _ =>
    }
  }

  /** A parked knock is answered at most once: a request is answered no more often than it was parked,
      and what is still pending is yet unanswered. Restarts and evictions only lose some. */
  lemma AnsweredOnce(events: seq<Event>, r: Request)
    ensures var w := Run(events);
            w.answered[r] + (if r in w.pending then 1 else 0) <= w.parked[r]
  {
    SoundAlways(events);
  }

  /** Every admission by the operator happened before the parked knock it answers ran out. */
  lemma NeverAfterExpiry(events: seq<Event>, i: nat)
    requires i < |Run(events).admitted| && Run(events).admitted[i].cause.Confirmed?
    ensures Run(events).admitted[i].at <= Run(events).admitted[i].cause.expiresAt
  {
    SoundAlways(events);
    assert Run(events).admitted[i] in Run(events).admitted;
  }

  ghost predicate ParkedBy(events: seq<Event>, r: Request, p: Parked) {
    exists i :: 0 <= i < |events| && events[i].Knock?
                && Request(events[i].room, events[i].knock) == r && events[i].pubkey == p.pubkey
                && events[i].now + 600000 == p.expiresAt
  }

  /** What is pending was knocked for, ten minutes before it runs out. */
  lemma {:induction false} PendingWasKnocked(events: seq<Event>)
    ensures forall r :: r in Run(events).pending ==> ParkedBy(events, r, Run(events).pending[r])
    decreases |events|
  {
    if events == [] {
      assert Run(events) == START;
    } else {
      hide ParkedBy, Next;
      var n := |events| - 1;
      PendingWasKnocked(events[..n]);
      forall r | r in Run(events).pending ensures ParkedBy(events, r, Run(events).pending[r]) {
        PendingAfter(Run(events[..n]), events[n], r);
        ParkedEarlier(events, r, Run(events).pending[r]);
      }
    }
  }

  lemma PendingAfter(w: World, e: Event, r: Request)
    requires r in Next(w, e).pending
    ensures var p := Next(w, e).pending[r];
            || (r in w.pending && w.pending[r] == p)
            || (e.Knock? && Request(e.room, e.knock) == r && e.pubkey == p.pubkey
               && e.now + 600000 == p.expiresAt)
  {
  }

  lemma ParkedEarlier(events: seq<Event>, r: Request, p: Parked)
    requires events != []
    requires var n := |events| - 1;
             ParkedBy(events[..n], r, p)
             || (events[n].Knock? && Request(events[n].room, events[n].knock) == r && events[n].pubkey == p.pubkey
                 && events[n].now + 600000 == p.expiresAt)
    ensures ParkedBy(events, r, p)
  {
    var n := |events| - 1;
    if ParkedBy(events[..n], r, p) {
      var i :| 0 <= i < n && events[..n][i].Knock?
               && Request(events[..n][i].room, events[..n][i].knock) == r && events[..n][i].pubkey == p.pubkey
               && events[..n][i].now + 600000 == p.expiresAt;
      assert events[i] == events[..n][i];
    }
  }

  /** Whoever the operator admits had knocked for that very request at most ten minutes before. */
  lemma ConfirmedHadKnocked(events: seq<Event>, r: Request, now: int, outcome: Outcome)
    requires outcome != Failed
    requires Run(events + [Answer(r, true, now, outcome)]).admitted != Run(events).admitted
    ensures r in Run(events).pending
    ensures var p := Run(events).pending[r];
            && ParkedBy(events, r, p) && now <= p.expiresAt
            && Run(events + [Answer(r, true, now, outcome)]).admitted
               == Run(events).admitted + [Admission(r.room, p.pubkey, Confirmed(r.knock, p.expiresAt), now)]
  {
    hide *;
    RunPlus(events, Answer(r, true, now, outcome));
    PendingWasKnocked(events);
    YesAdmits(Run(events), r, now, outcome);
  }

  lemma RunPlus(events: seq<Event>, e: Event)
    ensures Run(events + [e]) == Next(Run(events), e)
  {
    assert (events + [e])[..|events|] == events;
  }

  lemma YesAdmits(w: World, r: Request, now: int, outcome: Outcome)
    requires outcome != Failed && Next(w, Answer(r, true, now, outcome)).admitted != w.admitted
    ensures r in w.pending && now <= w.pending[r].expiresAt
    ensures Next(w, Answer(r, true, now, outcome)).admitted
            == w.admitted + [Admission(r.room, w.pending[r].pubkey, Confirmed(r.knock, w.pending[r].expiresAt), now)]
  {
  }

  // ----- Why the conditions are there -----

  lemma FourEvents(a: Event, b: Event, c: Event, d: Event)
    ensures Run([a, b, c, d]) == Next(Next(Next(Next(START, a), b), c), d)
  {
    assert [a][..0] == [] && Run([a]) == Next(START, a);
    assert [a, b][..1] == [a] && Run([a, b]) == Next(Run([a]), b);
    assert [a, b, c][..2] == [a, b] && Run([a, b, c]) == Next(Run([a, b]), c);
    assert [a, b, c, d][..3] == [a, b, c];
  }

  lemma SpawnedAndSaved(room: RoomId)
    ensures Next(Next(START, Spawn(room)), Save)
            == START.(rooms := map[room := UNBOUND], saved := map[room := UNBOUND])
  {
  }

  /** A crash between the binding and its save lets a second device in unasked. */
  lemma UnsavedBindingIsLost(room: RoomId, a: Pubkey, b: Pubkey, knock: KnockId)
    requires a != b
    ensures exists events: seq<Event> ::
              !OnePerRoom(Run(events)) && forall i :: 0 <= i < |events| && events[i].Knock? ==>
                  events[i].outcome == Sent
  {
    var spawned := [Spawn(room), Save, Knock(room, a, knock, 0, Sent), Restart];
    var events := spawned + [Knock(room, b, knock, 1, Sent)];
    FourEvents(spawned[0], spawned[1], spawned[2], spawned[3]);
    SpawnedAndSaved(room);
    assert events[..4] == spawned;
    TwoAdmitted(Run(events), Admission(room, a, First, 0), Admission(room, b, First, 1));
  }

  function UnheardRun(room: RoomId, a: Pubkey, b: Pubkey, knock: KnockId): seq<Event> {
    [Spawn(room), Save, Knock(room, a, knock, 0, SentUnheard), Knock(room, b, knock, 1, Sent)]
  }

  lemma UnheardRunAdmits(room: RoomId, a: Pubkey, b: Pubkey, knock: KnockId)
    ensures Run(UnheardRun(room, a, b, knock)).admitted == [Admission(room, a, First, 0), Admission(room, b, First, 1)]
  {
    hide Run;
    FourEvents(Spawn(room), Save, Knock(room, a, knock, 0, SentUnheard), Knock(room, b, knock, 1, Sent));
    SpawnedAndSaved(room);
  }

  /** So does a pass that arrives although the daemon was told it had not. */
  lemma UnheardPassAdmitsTwo(room: RoomId, a: Pubkey, b: Pubkey, knock: KnockId)
    requires a != b
    ensures exists events: seq<Event> ::
              !OnePerRoom(Run(events)) && forall i :: 0 <= i < |events| ==> !events[i].Restart?
  {
    hide Run, OnePerRoom;
    var events := UnheardRun(room, a, b, knock);
    UnheardRunAdmits(room, a, b, knock);
    TwoAdmitted(Run(events), Admission(room, a, First, 0), Admission(room, b, First, 1));
  }

  lemma TwoAdmitted(w: World, a: Admission, b: Admission)
    requires w.admitted == [a, b] && a.room == b.room && ByItself(a) && ByItself(b) && a.pubkey != b.pubkey
    ensures !OnePerRoom(w)
  {
    assert a in w.admitted && b in w.admitted;
    assert EnteredBy(w, a.room, a.pubkey) && EnteredBy(w, a.room, b.pubkey);
  }
}
