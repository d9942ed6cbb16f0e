/** saveActiveRooms: overlapping saves of rooms.json are chained one after the other, and each one
    writes a temporary file and renames it. Any step may fail, and the process may die after any step. */
module WriteChain {
  /** The rooms a call was made with. */
  type Snapshot(==, !new)

  /** Torn is a file cut off in the middle. */
  datatype File = Missing | Torn | Complete(snapshot: Snapshot)

  /** Where a call stands: waiting for the chain, making the directory, writing the temporary file,
      about to rename it, and its outcome. */
  datatype Phase = Queued | Preparing | Writing | Written | Done | Failed

  datatype Call = Call(snapshot: Snapshot, phase: Phase)

  /** `base` is what rooms.json held when the process started. */
  datatype Disk = Disk(calls: seq<Call>, file: File, temp: File, base: File)

  predicate Settled(c: Call) {
    c.phase == Done || c.phase == Failed
  }

  predicate Active(c: Call) {
    c.phase == Preparing || c.phase == Writing || c.phase == Written
  }

  function WithPhase(d: Disk, i: nat, phase: Phase): Disk
    requires i < |d.calls|
  {
    d.(calls := d.calls[i := d.calls[i].(phase := phase)])
  }

  /** Whether call i can take a step: a queued call waits until its predecessor has settled, either way. */
  predicate Enabled(d: Disk, i: nat) {
    && i < |d.calls| && !Settled(d.calls[i])
    && (d.calls[i].phase == Queued && i > 0 ==> Settled(d.calls[i - 1]))
  }

  /** The next step of call i. */
  function Stepped(d: Disk, i: nat, fails: bool): Disk
    requires i < |d.calls|
  {
    match d.calls[i].phase
    case Queued => WithPhase(d, i, Preparing)
    case Preparing => if fails then WithPhase(d, i, Failed) else WithPhase(d, i, Writing).(temp := Torn)
    case Writing =>
      if fails then WithPhase(d, i, Failed) else WithPhase(d, i, Written).(temp := Complete(d.calls[i].snapshot))
    case Written =>
      if fails then WithPhase(d, i, Failed) else WithPhase(d, i, Done).(file := d.temp, temp := Missing)
    case _ => d
  }

  function Called(d: Disk, s: Snapshot): Disk {
    d.(calls := d.calls + [Call(s, Queued)])
  }

  /** The process dies and another starts: files stay as they are, calls are forgotten. */
  function Crashed(d: Disk): Disk {
    Disk([], d.file, d.temp, d.file)
  }

  // ----- The invariant -----

  /** The snapshot of the last call, in call order, that succeeded. */
  function LastDone(calls: seq<Call>, base: File): File {
    if calls == [] then base
    else if calls[|calls| - 1].phase == Done then Complete(calls[|calls| - 1].snapshot)
    else LastDone(calls[..|calls| - 1], base)
  }

  /** Calls run in order: whatever has begun, everything before it has settled. */
  ghost predicate InOrder(calls: seq<Call>) {
    forall i, j {:trigger calls[i], calls[j]} :: 0 <= i < j < |calls| && calls[j].phase != Queued ==> Settled(calls[i])
  }

  ghost predicate Inv(d: Disk) {
    && InOrder(d.calls)
    && (forall i :: 0 <= i < |d.calls| && d.calls[i].phase == Written ==> d.temp == Complete(d.calls[i].snapshot))
    && d.base != Torn
    && d.file == LastDone(d.calls, d.base)
  }

  lemma {:induction false} LastDoneComplete(calls: seq<Call>, base: File)
    requires base != Torn
    ensures LastDone(calls, base) != Torn
    decreases |calls|
  {
    if calls != [] && calls[|calls| - 1].phase != Done {
      LastDoneComplete(calls[..|calls| - 1], base);
    }
  }

  /** A change of phase that is not a success leaves the last success where it was. */
  lemma {:induction false} LastDoneSame(calls: seq<Call>, i: nat, phase: Phase, base: File)
    requires i < |calls| && calls[i].phase != Done && phase != Done
    ensures LastDone(calls[i := calls[i].(phase := phase)], base) == LastDone(calls, base)
    decreases |calls|
  {
    var n := |calls| - 1;
    var calls' := calls[i := calls[i].(phase := phase)];
    if i == n {
      assert calls'[..n] == calls[..n];
    } else if calls[n].phase != Done {
      assert calls'[..n] == calls[..n][i := calls[i].(phase := phase)];
      LastDoneSame(calls[..n], i, phase, base);
    }
  }

  /** When a call succeeds, nothing after it has begun, so it is the last success. */
  lemma {:induction false} LastDoneNew(calls: seq<Call>, i: nat, base: File)
    requires i < |calls| && forall j :: i < j < |calls| ==> calls[j].phase != Done
    ensures LastDone(calls[i := calls[i].(phase := Done)], base) == Complete(calls[i].snapshot)
    decreases |calls|
  {
    var n := |calls| - 1;
    if i < n {
      var calls' := calls[i := calls[i].(phase := Done)];
      assert calls'[..n] == calls[..n][i := calls[i].(phase := Done)];
      LastDoneNew(calls[..n], i, base);
    }
  }

  lemma StepKeeps(d: Disk, i: nat, fails: bool)
    requires Inv(d) && Enabled(d, i)
    ensures Inv(Stepped(d, i, fails))
  {
    var d' := Stepped(d, i, fails);
    if d.calls[i].phase == Written && !fails {
      LastDoneNew(d.calls, i, d.base);
    } else {
      LastDoneSame(d.calls, i, d'.calls[i].phase, d.base);
    }
    StepInOrder(d, i, d'.calls[i].phase);
  }

  lemma StepInOrder(d: Disk, i: nat, phase: Phase)
    requires InOrder(d.calls) && Enabled(d, i)
    ensures InOrder(d.calls[i := d.calls[i].(phase := phase)])
  {
    if d.calls[i].phase == Queued && i > 0 {
      assert forall k :: 0 <= k < i - 1 ==> Settled(d.calls[k]);
    }
  }

  lemma CalledKeeps(d: Disk, s: Snapshot)
    requires Inv(d)
    ensures Inv(Called(d, s))
  {
    assert (d.calls + [Call(s, Queued)])[..|d.calls|] == d.calls;
  }

  class RoomsFile {
    var calls: seq<Call>
    var file: File
    var temp: File
    ghost var base: File

    ghost function View(): Disk
      reads this
    {
      Disk(calls, file, temp, base)
    }

    /** At every moment rooms.json is the last successful call's snapshot, whole, or what it was at first. */
    ghost predicate Valid()
      reads this
    {
      Inv(View())
    }

    /** The caller returns at once: its write is last in line and no file changes. */
    method Save(s: Snapshot)
      requires Valid()
      modifies this`calls
      ensures Valid() && View() == Called(old(View()), s)
      ensures calls == old(calls) + [Call(s, Queued)]
    {
      CalledKeeps(View(), s);
      calls := calls + [Call(s, Queued)];
    }

    /** One step of one call. No other call moves, nothing but a rename that works changes rooms.json,
        and that replaces it by the call's whole snapshot. */
    method Step(i: nat, fails: bool)
      requires Valid() && Enabled(View(), i)
      modifies this`calls, this`file, this`temp
      ensures Valid() && View() == Stepped(old(View()), i, fails)
      ensures |calls| == |old(calls)| && forall j :: 0 <= j < |calls| && j != i ==> calls[j] == old(calls)[j]
      ensures file == if calls[i].phase == Done then Complete(calls[i].snapshot) else old(file)
    {
      StepKeeps(View(), i, fails);
      var c := calls[i];
      if c.phase == Queued {
        calls := calls[i := c.(phase := Preparing)];
      } else if fails {
        calls := calls[i := c.(phase := Failed)];
      } else if c.phase == Preparing {
        calls := calls[i := c.(phase := Writing)];
        temp := Torn;
      } else if c.phase == Writing {
        calls := calls[i := c.(phase := Written)];
        temp := Complete(c.snapshot);
      } else {
        calls := calls[i := c.(phase := Done)];
        file := temp;
        temp := Missing;
      }
    }
  }

  /** What a step comes to: a call that has begun and fails is over and leaves rooms.json alone; one that
      does not fail gets on, and its last step puts its whole snapshot into rooms.json. */
  lemma StepSays(d: Disk, i: nat, fails: bool)
    requires Inv(d) && Enabled(d, i)
    ensures var c, d' := d.calls[i], Stepped(d, i, fails);
            && d'.calls[i].snapshot == c.snapshot && d'.base == d.base
            && (c.phase == Queued ==> d'.calls[i].phase == Preparing && d'.file == d.file && d'.temp == d.temp)
            && (c.phase != Queued && fails ==> d'.calls[i].phase == Failed && d'.file == d.file)
            && (c.phase == Preparing && !fails ==> d'.calls[i].phase == Writing && d'.file == d.file)
            && (c.phase == Writing && !fails ==> d'.calls[i].phase == Written && d'.file == d.file)
            && (c.phase == Written && !fails ==>
                  d'.calls[i].phase == Done && d'.file == Complete(c.snapshot) && d'.temp == Missing)
  {
  }

  /** A call whose turn it is and whose steps all work ends with its snapshot in rooms.json. */
  lemma SaveSucceeds(d: Disk, i: nat)
    requires Inv(d) && Enabled(d, i) && d.calls[i].phase == Queued
    ensures var prepared := Stepped(d, i, false);
            var writing := Stepped(prepared, i, false);
            var written := Stepped(writing, i, false);
            && Enabled(prepared, i) && Enabled(writing, i) && Enabled(written, i)
            && Stepped(written, i, false).file == Complete(d.calls[i].snapshot)
            && Stepped(written, i, false).calls[i].phase == Done
  {
  }

  /** A new call is last in line and waits. */
  lemma CalledWaits(d: Disk, s: Snapshot)
    ensures Called(d, s).calls == d.calls + [Call(s, Queued)] && Called(d, s).file == d.file
  {
  }

  // ----- Runs -----

  datatype Event = Save(s: Snapshot) | Step(i: nat, fails: bool) | Crash

  predicate Possible(d: Disk, e: Event) {
    e.Step? ==> Enabled(d, e.i)
  }

  function Next(d: Disk, e: Event): Disk
    requires Possible(d, e)
  {
    match e
    case Save(s) => Called(d, s)
    case Step(i, fails) => Stepped(d, i, fails)
    case Crash => Crashed(d)
  }

  /** The disks a run passes through, from any complete or missing file and any temporary one. */
  ghost predicate Run(disks: seq<Disk>, events: seq<Event>) {
    && |disks| == |events| + 1
    && disks[0].calls == [] && disks[0].base == disks[0].file && disks[0].file != Torn
    && forall i {:trigger events[i]} :: 0 <= i < |events| ==>
         Possible(disks[i], events[i]) && disks[i + 1] == Next(disks[i], events[i])
  }

  // ----- The invariant is kept -----

  lemma InvariantKept(d: Disk, e: Event)
    requires Inv(d) && Possible(d, e)
    ensures Inv(Next(d, e))
  {
    match e
    case Save(s) => CalledKeeps(d, s);
    case Step(i, fails) => StepKeeps(d, i, fails);
    case Crash => LastDoneComplete(d.calls, d.base);
  }

  lemma {:induction false} InvariantAlways(disks: seq<Disk>, events: seq<Event>, n: nat)
    requires Run(disks, events) && n < |disks|
    ensures Inv(disks[n])
  {
    if n > 0 {
      InvariantAlways(disks, events, n - 1);
      var e := events[n - 1];
      InvariantKept(disks[n - 1], e);
    }
  }

  // ----- What follows -----

  /** No two writes overlap. */
  lemma NoOverlap(disks: seq<Disk>, events: seq<Event>, n: nat, i: nat, j: nat)
    requires Run(disks, events) && n < |disks|
    requires i < |disks[n].calls| && j < |disks[n].calls| && Active(disks[n].calls[i]) && Active(disks[n].calls[j])
    ensures i == j
  {
    InvariantAlways(disks, events, n);
  }

  /** At every moment, so also after a crash, rooms.json holds the whole snapshot of the last
      successful call in call order, or what was there before the first. */
  lemma FileIsLastDone(disks: seq<Disk>, events: seq<Event>, n: nat)
    requires Run(disks, events) && n < |disks|
    ensures disks[n].file == LastDone(disks[n].calls, disks[n].base) != Torn
  {
    InvariantAlways(disks, events, n);
    LastDoneComplete(disks[n].calls, disks[n].base);
  }

  /** A failed write does not hold up the calls behind it: until all have settled, one can go on. */
  lemma NeverStuck(disks: seq<Disk>, events: seq<Event>, n: nat)
    requires Run(disks, events) && n < |disks| && exists i :: 0 <= i < |disks[n].calls| && !Settled(disks[n].calls[i])
    ensures exists i: nat :: Enabled(disks[n], i)
  {
    var calls := disks[n].calls;
    var i := FirstUnsettled(calls);
    assert Enabled(disks[n], i);
  }

  lemma {:induction false} FirstUnsettled(calls: seq<Call>) returns (i: nat)
    requires exists k :: 0 <= k < |calls| && !Settled(calls[k])
    ensures i < |calls| && !Settled(calls[i]) && forall k :: 0 <= k < i ==> Settled(calls[k])
    decreases |calls|
  {
    var n := |calls| - 1;
    if k :| 0 <= k < n && !Settled(calls[k]) {
      assert !Settled(calls[..n][k]);
      i := FirstUnsettled(calls[..n]);
    } else {
      i := n;
    }
  }

  /** The chain is what makes this true: two saves that do not wait for each other can leave a torn
      rooms.json, since the second reopens the temporary file before the first renames it. */
  lemma OverlapTears(a: Snapshot, b: Snapshot)
    ensures var d0 := Disk([Call(a, Written), Call(b, Preparing)], Missing, Complete(a), Missing);
            Stepped(Stepped(d0, 1, false), 0, false).file == Torn
  {
  }
}
