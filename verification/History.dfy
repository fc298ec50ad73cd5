/** What the replayed board says of a task, read off the log: for each field, the last event that decides it. */
module TaskHistory {
  import opened Order
  import opened BoardModel

  // ---- which tasks there are ------------------------------------------------

  /** The event that creates the task: the first creation with its id. */
  ghost predicate BornAt(log: seq<Event>, t: Id, b: nat)
  {
    && b < |log| && Creates(log[b], t)
    && forall j :: 0 <= j < b ==> !Creates(log[j], t)
  }

  predicate Creates(e: Event, t: Id) { t != "" && e.task == t && e.kind.TaskCreated? }

  /** An event about the task other than a creation. */
  predicate Concerns(e: Event, t: Id) { e.task == t && !e.kind.TaskCreated? }

  ghost predicate Known(log: seq<Event>, t: Id) { t in Fold(log).at }

  /** The tasks on the board are the created ones. */
  lemma {:induction false} KnownExactlyWhenCreated(log: seq<Event>, t: Id)
    ensures Known(log, t) <==> exists j :: 0 <= j < |log| && Creates(log[j], t)
  {
    if log != [] {
      var front, last := log[..|log| - 1], log[|log| - 1];
      KnownExactlyWhenCreated(front, t);
      FoldValid(front);
      if Creates(last, t) { assert Creates(log[|log| - 1], t); }
      if j :| 0 <= j < |front| && Creates(front[j], t) { assert Creates(log[j], t); }
      if j :| 0 <= j < |log| && Creates(log[j], t) {
        assert j < |front| ==> Creates(front[j], t);
      }
    }
  }

  lemma KnownFromBirth(log: seq<Event>, t: Id, b: nat, n: nat)
    requires BornAt(log, t, b) && n <= |log|
    ensures Known(log[..n], t) <==> b < n
  {
    KnownExactlyWhenCreated(log[..n], t);
    if b < n { assert Creates(log[..n][b], t); }
  }

  // ---- what one event decides -----------------------------------------------

  /** The status an event about a task in status `before` puts it in, if it decides it. */
  function Decides(k: Kind, before: Status): Option<Status>
  {
    match k
    case TaskStarted => Some(InProgress)
    case TaskClaimed(_) => Some(InProgress)
    case TaskUnblocked => Some(InProgress)
    case ReviewFailed => Some(InProgress)
    case TaskBlocked => Some(Status.Blocked)
    case TaskSubmitted => Some(InReview)
    case ReviewPassed => Some(Done)
    case TaskDone => Some(Done)
    case TaskAssigned(_) => if before == Todo then Some(Assigned) else None
    case TaskUnassigned => if before == Assigned || before == InProgress then Some(Todo) else None
    case TaskReopened(to) =>
      if before != Done then None else if to == "in_progress" then Some(InProgress) else Some(InReview)
    case TaskAbandoned => if before == Done then None else Some(Abandoned)
    case _ => None
  }

  /** The owner it names or takes away. */
  function NamesOwner(k: Kind, before: Status): Option<Option<Agent>>
  {
    match k
    case TaskAssigned(a) => if a == None || a == Some("") then None else Some(a)
    case TaskClaimed(a) => if a == None || a == Some("") then None else Some(a)
    case TaskUnassigned => if before == Assigned || before == InProgress then Some(None) else None
    case _ => None
  }

  /** What the event at `k` decides about `t`, given the status it finds. */
  ghost function Settled(log: seq<Event>, t: Id, k: nat): Option<Status>
  {
    if k < |log| && Concerns(log[k], t) && Known(log[..k], t)
    then Decides(log[k].kind, Fold(log[..k]).at[t].status) else None
  }

  ghost function OwnerSettled(log: seq<Event>, t: Id, k: nat): Option<Option<Agent>>
  {
    if k < |log| && Concerns(log[k], t) && Known(log[..k], t)
    then NamesOwner(log[k].kind, Fold(log[..k]).at[t].status) else None
  }

  function NewDeps(log: seq<Event>, t: Id, k: nat): Option<seq<Id>>
  {
    if k < |log| && Concerns(log[k], t) && log[k].kind.TaskDepsChanged? then Some(log[k].kind.newDeps) else None
  }

  function Stamped(log: seq<Event>, t: Id, k: nat): Option<Stamp>
  {
    if k < |log| && Concerns(log[k], t) && !log[k].ts.NoStamp? then Some(log[k].ts) else None
  }

  /** What one event makes of a task it is about. */
  lemma OneEvent(t: Task, e: Event)
    ensures var r := Touch(t, e);
            && r.id == t.id && r.scope == t.scope && r.history == t.history + [e]
            && r.status == Otherwise(Decides(e.kind, t.status), t.status)
            && r.owner == Otherwise(NamesOwner(e.kind, t.status), t.owner)
            && r.deps == (if e.kind.TaskDepsChanged? then e.kind.newDeps else t.deps)
            && r.attempts == t.attempts + (if e.kind.TaskProgress? then 1 else 0)
            && r.reassignments == t.reassignments + (if Repools(e.kind, t.status) then 1 else 0)
            && r.lastEvent == (if e.ts.NoStamp? then t.lastEvent else e.ts)
  {
  }

  function Otherwise<T>(o: Option<T>, d: T): T { if o.Some? then o.value else d }

  predicate Repools(k: Kind, before: Status) { k.TaskUnassigned? && (before == Assigned || before == InProgress) }

  /** The board after one more event, as far as an existing task is concerned. */
  lemma OneMoreEvent(log: seq<Event>, t: Id, n: nat)
    requires n < |log| && Known(log[..n], t)
    ensures Known(log[..n + 1], t)
    ensures Fold(log[..n + 1]).at[t] == var before := Fold(log[..n]).at[t];
                                        if Concerns(log[n], t) then Touch(before, log[n]) else before
  {
    assert log[..n + 1][..n] == log[..n];
  }

  lemma JustBorn(log: seq<Event>, t: Id, b: nat)
    requires BornAt(log, t, b)
    ensures Known(log[..b + 1], t) && Fold(log[..b + 1]).at[t] == NewTask(log[b])
  {
    KnownFromBirth(log, t, b, b);
    assert log[..b + 1][..b] == log[..b];
  }

  // ---- each field, by the last event that decides it ------------------------

  /** Of the decisions `said` by the events after `b` and before `n`, the last one, or else the birth's. */
  ghost predicate LastSaid<T(!new)>(said: nat -> Option<T>, b: nat, n: nat, born: T, v: T)
  {
    || (exists k :: b < k < n && said(k) == Some(v) && forall j :: k < j < n ==> said(j) == None)
    || (v == born && forall j :: b < j < n ==> said(j) == None)
  }

  lemma OneMoreSaid<T(!new)>(said: nat -> Option<T>, b: nat, n: nat, born: T, v: T, v': T)
    requires b < n && LastSaid(said, b, n, born, v) && v' == Otherwise(said(n), v)
    ensures LastSaid(said, b, n + 1, born, v')
  {
    if said(n) == None {
      if k :| b < k < n && said(k) == Some(v) && forall j :: k < j < n ==> said(j) == None {
        assert b < k < n + 1 && said(k) == Some(v);
      }
    }
  }

  ghost function StatusSaid(log: seq<Event>, t: Id): nat -> Option<Status> { (k: nat) => Settled(log, t, k) }

  ghost function OwnerSaid(log: seq<Event>, t: Id): nat -> Option<Option<Agent>> { (k: nat) => OwnerSettled(log, t, k) }

  ghost function DepsSaid(log: seq<Event>, t: Id): nat -> Option<seq<Id>> { (k: nat) => NewDeps(log, t, k) }

  ghost function StampSaid(log: seq<Event>, t: Id): nat -> Option<Stamp> { (k: nat) => Stamped(log, t, k) }

  /** How many of the events after `b` and before `n` are progress on the task. */
  function Progresses(log: seq<Event>, t: Id, b: nat, n: nat): nat
    requires n <= |log|
  {
    if n <= b + 1 then 0
    else Progresses(log, t, b, n - 1) + if Concerns(log[n - 1], t) && log[n - 1].kind.TaskProgress? then 1 else 0
  }

  /** How many of them take it from its owner. */
  ghost function Repoolings(log: seq<Event>, t: Id, b: nat, n: nat): nat
    requires n <= |log|
  {
    if n <= b + 1 then 0
    else
      Repoolings(log, t, b, n - 1)
      + if log[n - 1].kind.TaskUnassigned? && OwnerSettled(log, t, n - 1) == Some(None) then 1 else 0
  }

  /** Those of them that concern the task, in order. */
  function Concerning(log: seq<Event>, t: Id, b: nat, n: nat): seq<Event>
    requires n <= |log|
  {
    if n <= b + 1 then []
    else Concerning(log, t, b, n - 1) + if Concerns(log[n - 1], t) then [log[n - 1]] else []
  }

  /** `task` is what the first `n` events say of the task born at `b`. */
  ghost predicate ReadsAs(log: seq<Event>, t: Id, b: nat, n: nat, task: Task)
    requires BornAt(log, t, b) && n <= |log|
  {
    var born := log[b].kind;
    && task.id == t && task.scope == born.scope
    && LastSaid(StatusSaid(log, t), b, n, if born.owner == None || born.owner == Some("") then Todo else Assigned,
                task.status)
    && LastSaid(OwnerSaid(log, t), b, n, born.owner, task.owner)
    && LastSaid(DepsSaid(log, t), b, n, born.deps, task.deps)
    && LastSaid(StampSaid(log, t), b, n, log[b].ts, task.lastEvent)
    && task.attempts == Progresses(log, t, b, n) && task.reassignments == Repoolings(log, t, b, n)
    && task.history == Concerning(log, t, b, n)
  }

  lemma {:induction false} PrefixReadsOff(log: seq<Event>, t: Id, b: nat, n: nat)
    requires BornAt(log, t, b) && b < n <= |log|
    ensures Known(log[..n], t) && ReadsAs(log, t, b, n, Fold(log[..n]).at[t])
  {
    if n == b + 1 {
      JustBorn(log, t, b);
      BornReads(log, t, b, n);
    } else {
      PrefixReadsOff(log, t, b, n - 1);
      StepReads(log, t, b, n - 1, n);
    }
  }

  lemma StepReads(log: seq<Event>, t: Id, b: nat, n: nat, m: nat)
    requires BornAt(log, t, b) && b < n < |log| && m == n + 1
    requires Known(log[..n], t) && ReadsAs(log, t, b, n, Fold(log[..n]).at[t])
    ensures Known(log[..m], t) && ReadsAs(log, t, b, m, Fold(log[..m]).at[t])
  {
    OneMoreEvent(log, t, n);
    OneMoreReads(log, t, b, n, Fold(log[..n]).at[t], Fold(log[..m]).at[t]);
  }

  lemma BornReads(log: seq<Event>, t: Id, b: nat, n: nat)
    requires BornAt(log, t, b) && n == b + 1
    ensures ReadsAs(log, t, b, n, NewTask(log[b]))
  {
  }

  lemma OneMoreReads(log: seq<Event>, t: Id, b: nat, n: nat, before: Task, after: Task)
    requires BornAt(log, t, b) && b < n < |log| && ReadsAs(log, t, b, n, before)
    requires Known(log[..n], t) && before == Fold(log[..n]).at[t]
    requires after == if Concerns(log[n], t) then Touch(before, log[n]) else before
    ensures ReadsAs(log, t, b, n + 1, after)
  {
    var born := log[b].kind;
    OneEvent(before, log[n]);
    OneMoreSaid(StatusSaid(log, t), b, n,
                if born.owner == None || born.owner == Some("") then Todo else Assigned, before.status, after.status);
    OneMoreSaid(OwnerSaid(log, t), b, n, born.owner, before.owner, after.owner);
    OneMoreSaid(DepsSaid(log, t), b, n, born.deps, before.deps, after.deps);
    OneMoreSaid(StampSaid(log, t), b, n, log[b].ts, before.lastEvent, after.lastEvent);
  }

  /**
   * Every task on the board reads off the log: its status is what the last event to decide it says, its owner comes
   * from the last effective assignment, claim or unassignment, its dependencies from the last change of them, and its
   * counters and history are the events themselves. What is not created is not on the board.
   */
  lemma BoardReadsOffTheLog(log: seq<Event>, t: Id)
    ensures t in Fold(log).at <==> exists b :: BornAt(log, t, b)
    ensures forall b :: BornAt(log, t, b) ==> t in Fold(log).at && ReadsAs(log, t, b, |log|, Fold(log).at[t])
  {
    assert log[..|log|] == log;
    KnownExactlyWhenCreated(log, t);
    if j :| 0 <= j < |log| && Creates(log[j], t) {
      var b := FirstCreation(log, t, j);
    }
    forall b | BornAt(log, t, b) ensures t in Fold(log).at && ReadsAs(log, t, b, |log|, Fold(log).at[t]) {
      PrefixReadsOff(log, t, b, |log|);
    }
  }

  lemma {:induction false} FirstCreation(log: seq<Event>, t: Id, j: nat) returns (b: nat)
    requires j < |log| && Creates(log[j], t)
    ensures BornAt(log, t, b)
    decreases j
  {
    if i :| 0 <= i < j && Creates(log[i], t) {
      b := FirstCreation(log, t, i);
    } else {
      b := j;
    }
  }

  /** Tasks are listed in the order they were born. */
  lemma {:induction false} ListedByBirth(log: seq<Event>, i: nat, j: nat, b: nat, c: nat)
    requires i < j < |Fold(log).order| && BornAt(log, Fold(log).order[i], b) && BornAt(log, Fold(log).order[j], c)
    ensures b < c
  {
    var n, t, u := |log| - 1, Fold(log).order[i], Fold(log).order[j];
    var front := log[..n];
    FoldValid(front);
    KnownFromBirth(log, t, b, n);
    KnownFromBirth(log, u, c, n);
    assert t == Fold(front).order[i];
    if j < |Fold(front).order| {
      assert u == Fold(front).order[j];
      ListedByBirth(front, i, j, b, c);
    }
  }

  // ---- a reading without any state ------------------------------------------

  predicate Finishes(k: Kind) { k.ReviewPassed? || k.TaskDone? }

  /** Takes a finished task back to work, review or a decision. Everything else bounces off it. */
  predicate Undoes(k: Kind)
  {
    || k.TaskClaimed? || k.TaskStarted? || k.TaskUnblocked? || k.ReviewFailed? || k.TaskBlocked? || k.TaskSubmitted?
    || k.TaskReopened?
  }

  /** Finished at `k`, and nothing since undid it. */
  ghost predicate FinishedSince(log: seq<Event>, t: Id, k: nat, n: nat)
    requires n <= |log|
  {
    && k < n && Concerns(log[k], t) && Finishes(log[k].kind)
    && forall j :: k < j < n && Concerns(log[j], t) ==> !Undoes(log[j].kind)
  }

  ghost predicate Finished(log: seq<Event>, t: Id, b: nat, n: nat)
    requires n <= |log|
  {
    exists k :: b < k && FinishedSince(log, t, k, n)
  }

  lemma {:induction false} PrefixDoneExactlyWhen(log: seq<Event>, t: Id, b: nat, n: nat)
    requires BornAt(log, t, b) && b < n <= |log|
    ensures Known(log[..n], t)
    ensures Fold(log[..n]).at[t].status == Done <==> Finished(log, t, b, n)
  {
    if n == b + 1 {
      JustBorn(log, t, b);
    } else {
      PrefixDoneExactlyWhen(log, t, b, n - 1);
      OneMoreEvent(log, t, n - 1);
      DoneAfter(Fold(log[..n - 1]).at[t], log[n - 1], t);
      DoneStep(log, t, b, n - 1, n);
    }
  }

  lemma DoneAfter(before: Task, e: Event, t: Id)
    ensures var after := if Concerns(e, t) then Touch(before, e) else before;
            after.status == Done <==>
              (Concerns(e, t) && Finishes(e.kind)) || (before.status == Done && !(Concerns(e, t) && Undoes(e.kind)))
  {
    OneEvent(before, e);
  }

  lemma DoneStep(log: seq<Event>, t: Id, b: nat, n: nat, m: nat)
    requires b < n < |log| && m == n + 1
    ensures Finished(log, t, b, m) <==>
              (Concerns(log[n], t) && Finishes(log[n].kind))
              || (Finished(log, t, b, n) && !(Concerns(log[n], t) && Undoes(log[n].kind)))
  {
    if k :| b < k && FinishedSince(log, t, k, m) { assert k == n || FinishedSince(log, t, k, n); }
    if Concerns(log[n], t) && Finishes(log[n].kind) { assert FinishedSince(log, t, n, m); }
    if k :| b < k && FinishedSince(log, t, k, n) && !(Concerns(log[n], t) && Undoes(log[n].kind)) {
      assert FinishedSince(log, t, k, m);
    }
  }

  /** A task is done exactly when some pass or completion of it was never undone. */
  lemma DoneExactlyWhen(log: seq<Event>, t: Id, b: nat)
    requires BornAt(log, t, b)
    ensures t in Fold(log).at
    ensures Fold(log).at[t].status == Done <==> Finished(log, t, b, |log|)
  {
    assert log[..|log|] == log;
    PrefixDoneExactlyWhen(log, t, b, |log|);
  }

  // ---- what a mutator does to the board -------------------------------------

  /** What the caller of a mutator asked for, of the task afterwards. */
  ghost predicate Happened(op: Op, task: Task)
  {
    match op
    case CreateTask(scope, owner, deps) =>
      task.scope == scope && task.owner == owner && task.deps == deps && task.history == []
      && task.status == if owner == None || owner == Some("") then Todo else Assigned
    case AssignIfFree(a) => task.status == Assigned && (a != "" ==> task.owner == Some(a))
    case ClaimIfAvailable(a) => task.status == InProgress && (a != "" ==> task.owner == Some(a))
    case Reopen(to) => task.status == if to == "in_progress" then InProgress else InReview
    case Abandon => task.status == Abandoned
    case Unassign => task.status == Todo && task.owner == None
    case Raw(_) => true
  }

  /** A guarded mutator that goes ahead gets what it asked for, and touches no other task. */
  lemma MutatorsTakeEffect(log: seq<Event>, c: Call, now: Stamp)
    requires Allowed(c, Fold(log)) && !c.op.Raw? && c.task != ""
    ensures var ts, ts' := Fold(log), Fold(Appended(log, c, now));
            && c.task in ts'.at && Happened(c.op, ts'.at[c.task])
            && forall t :: t != c.task ==> (t in ts'.at <==> t in ts.at) && (t in ts.at ==> ts'.at[t] == ts.at[t])
  {
    var e := Event(KindOf(c.op), c.task, c.author, now);
    FoldSnoc(log, e);
    if c.task in Fold(log).at { OneEvent(Fold(log).at[c.task], e); }
  }

  lemma MovesExactlyWhen(t: Task, e: Event)
    ensures e.kind.TaskReopened? ==> (Touch(t, e).status != t.status <==> t.status == Done)
    ensures e.kind.TaskAbandoned? ==> (Touch(t, e).status != t.status <==> t.status != Done && t.status != Abandoned)
    ensures e.kind.TaskUnassigned? ==>
              (Touch(t, e).status != t.status <==> t.status == Assigned || t.status == InProgress)
  {
    OneEvent(t, e);
  }

  /** What creations, reopens, abandonments and unassignments refuse is exactly what would have decided nothing. */
  lemma GuardsRefuseWhatChangesNothing(log: seq<Event>, c: Call, now: Stamp)
    requires c.op.CreateTask? || c.op.Reopen? || c.op.Abandon? || c.op.Unassign?
    requires c.task != ""
    ensures var ts, ts' := Fold(log), Fold(log + [Event(KindOf(c.op), c.task, c.author, now)]);
            Allowed(c, ts) <==>
              c.task in ts'.at && (c.task in ts.at ==> ts'.at[c.task].status != ts.at[c.task].status)
  {
    var e := Event(KindOf(c.op), c.task, c.author, now);
    FoldSnoc(log, e);
    if c.task in Fold(log).at { MovesExactlyWhen(Fold(log).at[c.task], e); }
  }
}
