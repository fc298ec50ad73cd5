/** The shared board: an append-only event log and the fold that replays it. */
module BoardModel {
  import opened Order

  type Id = string
  type Agent = string

  /** An event's `ts` field: absent, present but not a date, or a date in seconds. */
  datatype Stamp = NoStamp | Unreadable | At(seconds: int)

  datatype Status = Todo | Assigned | InProgress | InReview | Blocked | Done | Abandoned

  datatype Kind =
    | TaskCreated(scope: Option<string>, owner: Option<Agent>, deps: seq<Id>)
    | TaskAssigned(assignee: Option<Agent>)
    | TaskClaimed(claimant: Option<Agent>)
    | TaskStarted
    | TaskProgress
    | TaskBlocked
    | TaskUnblocked
    | TaskSubmitted
    | ReviewPassed
    | TaskDone
    | ReviewFailed
    | TaskReopened(to: string)
    | TaskUnassigned
    | TaskAbandoned
    | TaskDepsChanged(newDeps: seq<Id>)
    | Note(what: string)  // `commit`, `usage_pause`, `night_resume`, ...: every kind the fold does not interpret

  /** One line of the log. An event without a `task` field carries the empty id. */
  datatype Event = Event(kind: Kind, task: Id, author: Option<Agent>, ts: Stamp)

  datatype Task = Task(
    id: Id, scope: Option<string>, owner: Option<Agent>, deps: seq<Id>, status: Status,
    attempts: nat, reassignments: nat, lastEvent: Stamp, history: seq<Event>)

  /** A Python dict of tasks: its entries, and the order they were inserted in. */
  datatype Tasks = Tasks(order: seq<Id>, at: map<Id, Task>)
  {
    ghost predicate Valid()
    {
      && Distinct(order)
      && (forall t :: t in order <==> t in at)
      && "" !in at
      && (forall t :: t in at ==> at[t].id == t)
    }
  }

  /** Python's `x or y` on an optional name: the empty string counts as absent. */
  predicate Truthy(o: Option<string>) { o.Some? && o.value != "" }

  function Or(o: Option<string>, otherwise: Option<string>): Option<string>
  {
    if Truthy(o) then o else otherwise
  }

  predicate Open(s: Status) { s == Assigned || s == InProgress }

  predicate Terminal(s: Status) { s == Done || s == Abandoned }

  // ---- the fold -------------------------------------------------------------

  function NewTask(e: Event): Task
    requires e.kind.TaskCreated?
  {
    Task(e.task, e.kind.scope, e.kind.owner, e.kind.deps,
         if Truthy(e.kind.owner) then Assigned else Todo, 0, 0, e.ts, [])
  }

  /** What one event about a known task changes, the history aside. */
  function Transition(t: Task, k: Kind): Task
  {
    match k
    case TaskAssigned(a) => t.(owner := Or(a, t.owner), status := if t.status == Todo then Assigned else t.status)
    case TaskClaimed(a) => t.(owner := Or(a, t.owner), status := InProgress)
    case TaskStarted => t.(status := InProgress)
    case TaskProgress => t.(attempts := t.attempts + 1)
    case TaskBlocked => t.(status := Status.Blocked)
    case TaskUnblocked => t.(status := InProgress)
    case TaskSubmitted => t.(status := InReview)
    case ReviewPassed => t.(status := Done)
    case TaskDone => t.(status := Done)
    case ReviewFailed => t.(status := InProgress)
    case TaskReopened(to) =>
      if t.status == Done then t.(status := if to == "in_progress" then InProgress else InReview) else t
    case TaskUnassigned =>
      if Open(t.status) then t.(status := Todo, owner := None, reassignments := t.reassignments + 1) else t
    case TaskAbandoned => if t.status != Done then t.(status := Abandoned) else t
    case TaskDepsChanged(ds) => t.(deps := ds)
    case _ => t
  }

  function Touch(t: Task, e: Event): Task
  {
    Transition(t.(history := t.history + [e], lastEvent := if e.ts.NoStamp? then t.lastEvent else e.ts), e.kind)
  }

  function Apply(ts: Tasks, e: Event): Tasks
  {
    if e.kind.TaskCreated? then
      if e.task == "" || e.task in ts.at then ts
      else Tasks(ts.order + [e.task], ts.at[e.task := NewTask(e)])
    else if e.task !in ts.at then ts
    else ts.(at := ts.at[e.task := Touch(ts.at[e.task], e)])
  }

  function Fold(log: seq<Event>): Tasks
  {
    if log == [] then Tasks([], map[]) else Apply(Fold(log[..|log| - 1]), log[|log| - 1])
  }

  lemma FoldSnoc(log: seq<Event>, e: Event)
    ensures Fold(log + [e]) == Apply(Fold(log), e)
  {
    assert (log + [e])[..|log|] == log;
  }

  lemma {:induction false} FoldValid(log: seq<Event>)
    ensures Fold(log).Valid()
  {
    if log != [] {
      FoldValid(log[..|log| - 1]);
    }
  }

  // ---- queries --------------------------------------------------------------

  predicate DepsMet(t: Task, at: map<Id, Task>)
  {
    forall d :: d in t.deps ==> d in at && at[d].status == Done
  }

  predicate OpenForAgent(t: Task, agent: Agent, at: map<Id, Task>)
  {
    t.owner == Some(agent) && Open(t.status) && DepsMet(t, at)
  }

  predicate ReadyUnassigned(t: Task, at: map<Id, Task>)
  {
    t.owner == None && t.status == Todo && DepsMet(t, at)
  }

  /** The ids satisfying `p`, in the dict's order: a list comprehension over `tasks.values()`. */
  function Select(ids: seq<Id>, at: map<Id, Task>, p: Task -> bool): (r: seq<Id>)
    ensures forall x :: x in r <==> x in ids && x in at && p(at[x])
  {
    if ids == [] then []
    else (if ids[0] in at && p(at[ids[0]]) then [ids[0]] else []) + Select(ids[1..], at, p)
  }

  lemma {:induction false} SelectDistinct(ids: seq<Id>, at: map<Id, Task>, p: Task -> bool)
    requires Distinct(ids)
    ensures Distinct(Select(ids, at, p))
  {
    if ids != [] {
      SelectDistinct(ids[1..], at, p);
      assert ids[0] !in ids[1..];
    }
  }

  /** `a` comes before `b` in `ids`. */
  ghost predicate ListedBefore(ids: seq<Id>, a: Id, b: Id)
  {
    exists p, q :: 0 <= p < q < |ids| && ids[p] == a && ids[q] == b
  }

  lemma {:induction false} SelectKeepsOrder(ids: seq<Id>, at: map<Id, Task>, p: Task -> bool, i: nat, j: nat)
    requires i < j < |Select(ids, at, p)|
    ensures ListedBefore(ids, Select(ids, at, p)[i], Select(ids, at, p)[j])
  {
    var rest := Select(ids[1..], at, p);
    var r := Select(ids, at, p);
    var d := |r| - |rest|;
    if d == 1 && i == 0 {
      assert r[j] == rest[j - 1] && rest[j - 1] in rest;
      var q :| 0 <= q < |ids[1..]| && ids[1..][q] == r[j];
      assert ids[0] == r[0] && ids[q + 1] == r[j];
    } else {
      SelectKeepsOrder(ids[1..], at, p, i - d, j - d);
      var x, y :| 0 <= x < y < |ids[1..]| && ids[1..][x] == r[i] && ids[1..][y] == r[j];
      assert ids[x + 1] == r[i] && ids[y + 1] == r[j];
    }
  }

  predicate Converged(ts: Tasks)
  {
    ts.order != [] && forall t :: t in ts.at ==> Terminal(ts.at[t].status)
  }

  // ---- mutators -------------------------------------------------------------

  /** A call of one of the board's mutators. */
  datatype Op =
    | CreateTask(scope: Option<string>, owner: Option<Agent>, deps: seq<Id>)
    | AssignIfFree(assignee: Agent)
    | ClaimIfAvailable(agent: Agent)
    | Reopen(to: string)
    | Abandon
    | Unassign
    | Raw(kind: Kind)  // assign, claim, start, progress, block, unblock, submit, review, done, set_deps, log

  datatype Call = Call(op: Op, task: Id, author: Option<Agent>)

  /** Whether a mutator that finds the board in state `ts` goes ahead. */
  predicate Allowed(c: Call, ts: Tasks)
  {
    match c.op
    case CreateTask(_, _, _) => c.task !in ts.at
    case AssignIfFree(_) => c.task in ts.at && ts.at[c.task].status == Todo && ts.at[c.task].owner == None
    case ClaimIfAvailable(agent) =>
      && c.task in ts.at && (ts.at[c.task].status == Todo || ts.at[c.task].status == Assigned)
      && (ts.at[c.task].owner == None || ts.at[c.task].owner == Some(agent))
    case Reopen(_) => c.task in ts.at && ts.at[c.task].status == Done
    case Abandon => c.task in ts.at && !Terminal(ts.at[c.task].status)
    case Unassign => c.task in ts.at && Open(ts.at[c.task].status)
    case Raw(_) => true
  }

  function KindOf(op: Op): Kind
  {
    match op
    case CreateTask(scope, owner, deps) => TaskCreated(scope, owner, deps)
    case AssignIfFree(owner) => TaskAssigned(Some(owner))
    case ClaimIfAvailable(agent) => TaskClaimed(Some(agent))
    case Reopen(to) => TaskReopened(to)
    case Abandon => TaskAbandoned
    case Unassign => TaskUnassigned
    case Raw(k) => k
  }

  /**
   * The callers' discipline: these kinds are written by their guarded mutators only. The free-form `log` takes any
   * kind, so this is an assumption about callers, not a guard.
   */
  predicate Legal(c: Call)
  {
    c.op.Raw? ==>
      !c.op.kind.TaskCreated? && !c.op.kind.TaskReopened? && !c.op.kind.TaskAbandoned? && !c.op.kind.TaskUnassigned?
  }

  function Decide(c: Call, ts: Tasks, now: Stamp): Option<Event>
  {
    if Allowed(c, ts) then Some(Event(KindOf(c.op), c.task, c.author, now)) else None
  }

  function Appended(log: seq<Event>, c: Call, now: Stamp): seq<Event>
  {
    match Decide(c, Fold(log), now)
    case Some(e) => log + [e]
    case None => log
  }

  /** One process's handle on the board: the log it shares, and its re-entrant lock. */
  class Board {
    var log: seq<Event>
    var lockDepth: nat
    var flockHeld: bool

    /** The file lock is held exactly while the re-entrancy depth is positive. */
    ghost predicate Valid()
      reads this
    {
      flockHeld <==> lockDepth > 0
    }

    constructor (log: seq<Event>)
      ensures Valid() && lockDepth == 0 && this.log == log
    {
      this.log, lockDepth, flockHeld := log, 0, false;
    }

    method Enter()
      requires Valid()
      modifies this`lockDepth, this`flockHeld
      ensures Valid() && lockDepth == old(lockDepth) + 1 && flockHeld
    {
      if lockDepth == 0 {
        flockHeld := true;
      }
      lockDepth := lockDepth + 1;
    }

    method Exit()
      requires Valid() && lockDepth > 0
      modifies this`lockDepth, this`flockHeld
      ensures Valid() && lockDepth == old(lockDepth) - 1
      ensures old(lockDepth) > 1 ==> flockHeld
    {
      lockDepth := lockDepth - 1;
      if lockDepth == 0 {
        flockHeld := false;
      }
    }

    method AppendUnlocked(e: Event)
      requires Valid() && lockDepth > 0
      modifies this`log
      ensures log == old(log) + [e]
    {
      log := log + [e];
    }

    method Append(e: Event)
      requires Valid()
      modifies this
      ensures Valid() && lockDepth == old(lockDepth)
      ensures log == old(log) + [e]
    {
      Enter();
      AppendUnlocked(e);
      Exit();
    }

    /** The branches of the fold, one event about a known task. */
    method Replay(task: Task, e: Event) returns (t: Task)
      ensures t == Touch(task, e)
    {
      t := task.(history := task.history + [e]);
      t := t.(lastEvent := if e.ts.NoStamp? then t.lastEvent else e.ts);
      match e.kind {
        case TaskAssigned(a) =>
          t := t.(owner := Or(a, t.owner));
          if t.status == Todo { t := t.(status := Assigned); }
        case TaskClaimed(a) => t := t.(owner := Or(a, t.owner), status := InProgress);
        case TaskStarted => t := t.(status := InProgress);
        case TaskProgress => t := t.(attempts := t.attempts + 1);
        case TaskBlocked => t := t.(status := Status.Blocked);
        case TaskUnblocked => t := t.(status := InProgress);
        case TaskSubmitted => t := t.(status := InReview);
        case ReviewPassed => t := t.(status := Done);
        case TaskDone => t := t.(status := Done);
        case ReviewFailed => t := t.(status := InProgress);
        case TaskReopened(to) =>
          if t.status == Done { t := t.(status := if to == "in_progress" then InProgress else InReview); }
        case TaskUnassigned =>
          if Open(t.status) { t := t.(status := Todo, owner := None, reassignments := t.reassignments + 1); }
        case TaskAbandoned =>
          if t.status != Done { t := t.(status := Abandoned); }
        case TaskDepsChanged(ds) => t := t.(deps := ds);
        case _ =>
      }
    }

    /** Replays the log event by event. */
    method ReadTasks() returns (ts: Tasks)
      ensures ts == Fold(log)
    {
      var order: seq<Id>, at: map<Id, Task> := [], map[];
      for i := 0 to |log|
        invariant Tasks(order, at) == Fold(log[..i])
      {
        var e := log[i];
        assert log[..i + 1] == log[..i] + [e];
        FoldSnoc(log[..i], e);
        if e.kind.TaskCreated? {
          if e.task == "" || e.task in at {
            continue;
          }
          order, at := order + [e.task], at[e.task := NewTask(e)];
          continue;
        }
        if e.task in at {
          var t := Replay(at[e.task], e);
          at := at[e.task := t];
        }
      }
      assert log[..|log|] == log;
      ts := Tasks(order, at);
    }

    /** Every guarded mutator: the fold it decides on and the append it emits share one lock hold. */
    method Mutate(c: Call, now: Stamp) returns (event: Option<Event>)
      requires Valid()
      modifies this
      ensures Valid() && lockDepth == old(lockDepth)
      ensures event == Decide(c, Fold(old(log)), now)
      ensures log == Appended(old(log), c, now)
    {
      Enter();
      var ts := ReadTasks();
      if Allowed(c, ts) {
        var e := Event(KindOf(c.op), c.task, c.author, now);
        AppendUnlocked(e);
        event := Some(e);
      } else {
        event := None;
      }
      Exit();
    }
  }
}
