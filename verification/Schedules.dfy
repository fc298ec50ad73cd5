/**
 * Any number of processes mutating one board: lock, read, decide, append, unlock, in any interleaving, with crashes
 * that may come in the middle of a write.
 */
module Schedules {
  import opened Order
  import opened BoardModel
  import opened LogFile

  type Pid = nat

  type EventCodec = Codec<Event>

  datatype Phase =
    | Idle
    | Waiting(call: Call)                         // blocked in flock
    | Locked(call: Call)                          // holds the lock, has not read yet
    | Decided(call: Call, write: Option<Event>)   // holds the lock, has folded the log and decided
    | Written                                     // holds the lock, has flushed its line, refused or raised

  /** The mutators behind the events a reader gets: those on ended lines, and the one on a line without its newline. */
  datatype Credit = Credit(ended: seq<Call>, hung: Option<Call>)

  /** The shared file as the writes that made it, the lock, and every process's place in its mutator. */
  datatype World = World(disk: seq<Write<Event>>, credit: Credit, holder: Option<Pid>, phases: map<Pid, Phase>)

  datatype Action =
    | Begin(pid: Pid, call: Call)
    | Acquire(pid: Pid)
    | Read(pid: Pid, now: Stamp)
    | Put(pid: Pid)
    | Release(pid: Pid)
    | Crash(pid: Pid, n: nat)  // `n` bytes of a line being written reach the file; the system drops the lock

  function PhaseOf(w: World, p: Pid): Phase { if p in w.phases then w.phases[p] else Idle }

  function To(w: World, p: Pid, ph: Phase): World { w.(phases := w.phases[p := ph]) }

  predicate Inside(ph: Phase) { ph.Locked? || ph.Decided? || ph.Written? }

  function Credited(c: EventCodec, l: Log<Event>, k: Credit, w: Write<Event>, call: Call): Credit
  {
    match w
    case Whole(_) => Credit(if l.pieces == [] then k.ended + [call] else k.ended, None)
    case Torn(e, n) =>
      if n == 0 || c.encode(e) == [] then k
      else Credit(k.ended, if l.pieces == [] && n >= |c.encode(e)| then Some(call) else None)
  }

  function Append(c: EventCodec, w: World, wr: Write<Event>, call: Call): World
  {
    w.(disk := w.disk + [wr], credit := Credited(c, Steps(c, w.disk), w.credit, wr, call))
  }

  /** What a mutator holding the lock makes of the board; an unguarded append does not read it. */
  function Decision(c: EventCodec, w: World, call: Call, now: Stamp): Phase
  {
    match ReadBoard(c, LogFile.Run(c, w.disk))
    case Events(log) => Decided(call, Decide(call, Fold(log), now))
    case Raises => if call.op.Raw? then Decided(call, Decide(call, Fold([]), now)) else Written
  }

  /** One atomic action; an action that is not enabled changes nothing. */
  function Act(c: EventCodec, w: World, a: Action): World
  {
    var ph := PhaseOf(w, a.pid);
    match a
    case Begin(p, call) => if ph.Idle? && Legal(call) then To(w, p, Waiting(call)) else w
    case Acquire(p) => if ph.Waiting? && w.holder.None? then To(w, p, Locked(ph.call)).(holder := Some(p)) else w
    case Read(p, now) => if ph.Locked? then To(w, p, Decision(c, w, ph.call, now)) else w
    case Put(p) =>
      if !ph.Decided? then w
      else if ph.write.None? then To(w, p, Written)
      else To(Append(c, w, Whole(ph.write.value), ph.call), p, Written)
    case Release(p) => if ph.Written? then To(w, p, Idle).(holder := None) else w
    case Crash(p, n) =>
      var w' := if ph.Decided? && ph.write.Some? then Append(c, w, Torn(ph.write.value, n), ph.call) else w;
      To(w', p, Idle).(holder := if w.holder == Some(p) then None else w.holder)
  }

  function Run(c: EventCodec, w: World, actions: seq<Action>): World
  {
    if actions == [] then w else Act(c, Run(c, w, actions[..|actions| - 1]), actions[|actions| - 1])
  }

  const Empty := World([], Credit([], None), None, map[])

  predicate Matches(e: Event, c: Call) { e.kind == KindOf(c.op) && e.task == c.task && e.author == c.author }

  /** Every line was written by a mutator whose guard held on the log just before that line. */
  ghost predicate Justified(log: seq<Event>, writers: seq<Call>)
  {
    && |writers| == |log|
    && forall i :: 0 <= i < |log|
        ==> Legal(writers[i]) && Matches(log[i], writers[i]) && Allowed(writers[i], Fold(log[..i]))
  }

  lemma JustifiedSnoc(log: seq<Event>, writers: seq<Call>, e: Event, c: Call)
    requires Justified(log, writers) && Legal(c) && Matches(e, c) && Allowed(c, Fold(log))
    ensures Justified(log + [e], writers + [c])
  {
    forall i | 0 <= i <= |log| ensures (log + [e])[..i] == log[..i] && log[..|log|] == log {}
  }

  function Calls(k: Credit): seq<Call> { k.ended + if k.hung.Some? then [k.hung.value] else [] }

  /** What reads back is justified, and so is the part of it on ended lines. */
  ghost predicate Accounted(l: Log<Event>, k: Credit)
  {
    && (l.hanging.Some? <==> k.hung.Some?) && (l.pieces == [] ==> l.hanging.None?)
    && Justified(l.ended, k.ended) && Justified(Readable(l), Calls(k))
  }

  ghost predicate LockOk(w: World) { forall p: Pid :: Inside(PhaseOf(w, p)) <==> w.holder == Some(p) }

  ghost predicate Inv(c: EventCodec, w: World)
  {
    && Accounted(Steps(c, w.disk), w.credit) && LockOk(w)
    && forall p: Pid :: PhaseOk(PhaseOf(w, p), Readable(Steps(c, w.disk)))
  }

  ghost predicate PhaseOk(ph: Phase, log: seq<Event>)
  {
    && (ph.Idle? || ph.Written? || Legal(ph.call))
    && (ph.Decided? && ph.write.Some? ==> Allowed(ph.call, Fold(log)) && Matches(ph.write.value, ph.call))
  }

  lemma NothingHangs(l: Log<Event>, k: Credit)
    requires l.hanging.None? && k.hung.None?
    ensures Readable(l) == l.ended && Calls(k) == k.ended
  {
  }

  lemma PutAccounted(c: EventCodec, l: Log<Event>, k: Credit, wr: Write<Event>, call: Call)
    requires Accounted(l, k) && Legal(call) && Matches(wr.e, call) && Allowed(call, Fold(Readable(l)))
    ensures Accounted(Step(c, l, wr), Credited(c, l, k, wr, call))
  {
    var l', k' := Step(c, l, wr), Credited(c, l, k, wr, call);
    if l.pieces == [] {
      NothingHangs(l, k);
      JustifiedSnoc(l.ended, k.ended, wr.e, call);
    }
    if l'.hanging.None? && k'.hung.None? {
      NothingHangs(l', k');
    }
  }

  ghost predicate ReadsBack(c: EventCodec, disk: seq<Write<Event>>)
  {
    var r := ReadBoard(c, LogFile.Run(c, disk));
    r.Raises? || r.es == Readable(Steps(c, disk))
  }

  lemma DecisionOk(c: EventCodec, w: World, call: Call, now: Stamp)
    requires ReadsBack(c, w.disk) && Legal(call)
    ensures PhaseOk(Decision(c, w, call, now), Readable(Steps(c, w.disk)))
  {
  }

  lemma StepsSnoc(c: EventCodec, disk: seq<Write<Event>>, wr: Write<Event>)
    ensures Steps(c, disk + [wr]) == Step(c, Steps(c, disk), wr)
  {
    assert (disk + [wr])[..|disk|] == disk;
  }

  /** Whoever holds the lock may move on within it, or leave and drop it. */
  lemma LockStaysOk(w: World, w': World, p: Pid)
    requires LockOk(w) && w.holder == Some(p) && forall q: Pid :: q != p ==> PhaseOf(w', q) == PhaseOf(w, q)
    requires w'.holder == if Inside(PhaseOf(w', p)) then Some(p) else None
    ensures LockOk(w')
  {
  }

  lemma PutKeepsInv(c: EventCodec, w: World, p: Pid, wr: Write<Event>, w': World)
    requires Inv(c, w) && PhaseOf(w, p).Decided? && PhaseOf(w, p).write == Some(wr.e)
    requires w'.disk == w.disk + [wr] && (PhaseOf(w', p).Idle? || PhaseOf(w', p).Written?)
    requires w'.credit == Credited(c, Steps(c, w.disk), w.credit, wr, PhaseOf(w, p).call)
    requires forall q: Pid :: q != p ==> PhaseOf(w', q) == PhaseOf(w, q)
    requires w'.holder == if Inside(PhaseOf(w', p)) then Some(p) else None
    ensures Inv(c, w')
  {
    var ph, log := PhaseOf(w, p), Readable(Steps(c, w.disk));
    assert PhaseOk(ph, log) && w.holder == Some(p);
    PutAccounted(c, Steps(c, w.disk), w.credit, wr, ph.call);
    StepsSnoc(c, w.disk, wr);
    LockStaysOk(w, w', p);
    forall q: Pid ensures PhaseOk(PhaseOf(w', q), Readable(Steps(c, w'.disk))) {
      assert q != p ==> !Inside(PhaseOf(w, q)) && PhaseOk(PhaseOf(w, q), log);
    }
  }

  lemma OthersUntouched(c: EventCodec, w: World, a: Action)
    ensures forall p: Pid :: p != a.pid ==> PhaseOf(Act(c, w, a), p) == PhaseOf(w, p)
  {
  }

  lemma ActKeepsInv(c: EventCodec, w: World, a: Action)
    requires ReadsBack(c, w.disk) && Inv(c, w)
    ensures Inv(c, Act(c, w, a))
  {
    var w', ph := Act(c, w, a), PhaseOf(w, a.pid);
    OthersUntouched(c, w, a);
    if a.Put? && ph.Decided? && ph.write.Some? {
      PutKeepsInv(c, w, a.pid, Whole(ph.write.value), w');
    } else if a.Crash? && ph.Decided? && ph.write.Some? {
      PutKeepsInv(c, w, a.pid, Torn(ph.write.value, a.n), w');
    } else {
      IdleActKeepsInv(c, w, a);
    }
  }

  /** The actions that write nothing. */
  lemma IdleActKeepsInv(c: EventCodec, w: World, a: Action)
    requires ReadsBack(c, w.disk) && Inv(c, w)
    requires (a.Put? || a.Crash?) ==> !(PhaseOf(w, a.pid).Decided? && PhaseOf(w, a.pid).write.Some?)
    ensures Inv(c, Act(c, w, a))
  {
    var w', ph, log := Act(c, w, a), PhaseOf(w, a.pid), Readable(Steps(c, w.disk));
    OthersUntouched(c, w, a);
    assert PhaseOk(ph, log) && (Inside(ph) <==> w.holder == Some(a.pid));
    if a.Read? && ph.Locked? { DecisionOk(c, w, ph.call, a.now); }
    assert w'.disk == w.disk && w'.credit == w.credit;
    assert PhaseOk(PhaseOf(w', a.pid), log);
    assert LockOk(w') by {
      if w.holder == Some(a.pid) { LockStaysOk(w, w', a.pid); }
    }
  }

  lemma {:induction false} RunKeepsInv(c: EventCodec, actions: seq<Action>)
    requires Lawful(c)
    ensures Inv(c, Run(c, Empty, actions))
  {
    if actions != [] {
      RunKeepsInv(c, actions[..|actions| - 1]);
      ReadableExactlyWhen(c, Run(c, Empty, actions[..|actions| - 1]).disk);
      ActKeepsInv(c, Run(c, Empty, actions[..|actions| - 1]), actions[|actions| - 1]);
    }
  }

  /**
   * Under every schedule, crashes in the middle of writes included: reading the board either raises, which it does
   * exactly when some write was torn inside a character, or gives a log each of whose lines is justified by the lines
   * before it.
   */
  lemma EveryScheduleIsJustified(c: EventCodec, actions: seq<Action>)
    requires Lawful(c)
    ensures var w := Run(c, Empty, actions);
            var read := ReadBoard(c, LogFile.Run(c, w.disk));
            && (read.Raises? <==> AnyTornInside(c, w.disk))
            && (read.Events? ==> Justified(read.es, Calls(w.credit)))
  {
    RunKeepsInv(c, actions);
    ReadableExactlyWhen(c, Run(c, Empty, actions).disk);
  }

  // ---- what justified logs have in common -----------------------------------

  lemma FoldStep(log: seq<Event>, i: nat)
    requires i < |log|
    ensures Fold(log[..i + 1]) == Apply(Fold(log[..i]), log[i])
  {
    assert log[..i + 1][..i] == log[..i];
  }

  lemma {:induction false} OnceCreatedStays(log: seq<Event>, i: nat, j: nat, t: Id)
    requires i <= j <= |log| && t in Fold(log[..i]).at
    ensures t in Fold(log[..j]).at
  {
    if i < j {
      OnceCreatedStays(log, i, j - 1, t);
      FoldStep(log, j - 1);
    }
  }

  /** A task id is created once. */
  lemma CreatedOnce(log: seq<Event>, writers: seq<Call>, i: nat, j: nat)
    requires Justified(log, writers) && i < j < |log|
    requires log[i].kind.TaskCreated? && log[j].kind.TaskCreated? && log[i].task != ""
    ensures log[i].task != log[j].task
  {
    FoldStep(log, i);
    OnceCreatedStays(log, i + 1, j, log[i].task);
    assert Allowed(writers[j], Fold(log[..j]));
  }

  /** Leaving one of `{todo}` or `{todo, assigned}`, a task only comes back by being unassigned. */
  ghost predicate Out(log: seq<Event>, t: Id, orAssigned: bool)
  {
    t in Fold(log).at && Fold(log).at[t].status != Todo && (orAssigned ==> Fold(log).at[t].status != Assigned)
  }

  lemma OutStep(ts: Tasks, e: Event, t: Id)
    requires t in ts.at && ts.at[t].status != Todo && !(e.kind.TaskUnassigned? && e.task == t)
    ensures t in Apply(ts, e).at && Apply(ts, e).at[t].status != Todo
    ensures ts.at[t].status != Assigned ==> Apply(ts, e).at[t].status != Assigned
  {
    var touched := Touch(ts.at[t], e);
    assert Apply(ts, e).at[t] == if e.task == t && !e.kind.TaskCreated? then touched else ts.at[t];
  }

  lemma {:induction false} StaysOut(log: seq<Event>, i: nat, j: nat, t: Id, orAssigned: bool)
    requires i <= j <= |log| && Out(log[..i], t, orAssigned)
    requires forall k :: i <= k < j ==> !(log[k].kind.TaskUnassigned? && log[k].task == t)
    ensures Out(log[..j], t, orAssigned)
  {
    if i < j {
      StaysOut(log, i, j - 1, t, orAssigned);
      FoldStep(log, j - 1);
      OutStep(Fold(log[..j - 1]), log[j - 1], t);
    }
  }

  /** Between two successful guarded assignments of a task, it was unassigned. */
  lemma AssignedTwiceMeansUnassigned(log: seq<Event>, writers: seq<Call>, i: nat, j: nat)
    requires Justified(log, writers) && i < j < |log| && writers[i].task == writers[j].task
    requires writers[i].op.AssignIfFree? && writers[j].op.AssignIfFree?
    ensures exists k :: i < k < j && log[k].kind.TaskUnassigned? && log[k].task == log[i].task
  {
    FoldStep(log, i);
    if forall k :: i < k < j ==> !(log[k].kind.TaskUnassigned? && log[k].task == log[i].task) {
      StaysOut(log, i + 1, j, log[i].task, false);
      assert false;
    }
  }

  /** Between two successful guarded claims of a task, it was unassigned. */
  lemma ClaimedTwiceMeansUnassigned(log: seq<Event>, writers: seq<Call>, i: nat, j: nat)
    requires Justified(log, writers) && i < j < |log| && writers[i].task == writers[j].task
    requires writers[i].op.ClaimIfAvailable? && writers[j].op.ClaimIfAvailable?
    ensures exists k :: i < k < j && log[k].kind.TaskUnassigned? && log[k].task == log[i].task
  {
    FoldStep(log, i);
    if forall k :: i < k < j ==> !(log[k].kind.TaskUnassigned? && log[k].task == log[i].task) {
      StaysOut(log, i + 1, j, log[i].task, true);
      assert false;
    }
  }

  // ---- counting -------------------------------------------------------------

  function Count(log: seq<Event>, t: Id, p: Kind -> bool): nat
  {
    if log == [] then 0
    else
      var e := log[|log| - 1];
      Count(log[..|log| - 1], t, p) + if e.task == t && p(e.kind) then 1 else 0
  }

  const IsReopen := (k: Kind) => k.TaskReopened?
  const IsFinish := (k: Kind) => k.ReviewPassed? || k.TaskDone?
  const IsUnassign := (k: Kind) => k.TaskUnassigned?

  predicate IsDone(ts: Tasks, t: Id) { t in ts.at && ts.at[t].status == Done }

  lemma ReopenStep(ts: Tasks, e: Event, c: Call, t: Id)
    requires Legal(c) && Matches(e, c) && Allowed(c, ts)
    ensures var ts' := Apply(ts, e);
            (if e.task == t && IsReopen(e.kind) then 1 else 0) + (if IsDone(ts', t) then 1 else 0)
            <= (if e.task == t && IsFinish(e.kind) then 1 else 0) + (if IsDone(ts, t) then 1 else 0)
  {
    if e.task == t && t in ts.at { assert Touch(ts.at[t], e).status == Transition(ts.at[t], e.kind).status; }
  }

  /** A task is never reopened more often than it was finished, so the gate cannot spin on its own. */
  lemma {:induction false} ReopensNeverOutrunFinishes(log: seq<Event>, writers: seq<Call>, t: Id)
    requires Justified(log, writers)
    ensures Count(log, t, IsReopen) + (if IsDone(Fold(log), t) then 1 else 0) <= Count(log, t, IsFinish)
  {
    if log != [] {
      var n := |log| - 1;
      JustifiedPrefix(log, writers, n);
      ReopensNeverOutrunFinishes(log[..n], writers[..n], t);
      ReopenStep(Fold(log[..n]), log[n], writers[n], t);
    }
  }

  lemma JustifiedPrefix(log: seq<Event>, writers: seq<Call>, n: nat)
    requires Justified(log, writers) && n <= |log|
    ensures Justified(log[..n], writers[..n])
  {
    forall i | 0 <= i < n ensures log[..n][..i] == log[..i] {}
  }

  function Reassigned(ts: Tasks, t: Id): nat { if t in ts.at then ts.at[t].reassignments else 0 }

  lemma UnassignStep(ts: Tasks, e: Event, c: Call, t: Id)
    requires Legal(c) && Matches(e, c) && Allowed(c, ts)
    ensures Reassigned(Apply(ts, e), t) == Reassigned(ts, t) + if e.task == t && e.kind.TaskUnassigned? then 1 else 0
  {
  }

  /** Every unassignment on record moved a task back to the pool and was counted on it. */
  lemma {:induction false} ReassignmentsAreCounted(log: seq<Event>, writers: seq<Call>, t: Id)
    requires Justified(log, writers)
    ensures Count(log, t, IsUnassign) == Reassigned(Fold(log), t)
  {
    if log != [] {
      var n := |log| - 1;
      JustifiedPrefix(log, writers, n);
      ReassignmentsAreCounted(log[..n], writers[..n], t);
      UnassignStep(Fold(log[..n]), log[n], writers[n], t);
    }
  }
}
