/** Whole runs of the coordinator: how often it re-pools a task, and what every tick leaves in the log. */
module Remediation {
  import opened Order
  import opened BoardModel
  import opened Coordinator
  import opened Situations
  import opened FableGate
  import opened RunLifecycle
  import opened Schedules
  import opened Orchestrator

  // ---- re-pooling, with workers writing at any moment ------------------------

  /** `pending` is the rest of the stalled list the tick in progress took from its snapshot. */
  datatype Pass = Pass(log: seq<Event>, writers: seq<Call>, pending: seq<Stalled>)

  datatype Move =
    | Worker(call: Call, at: Stamp)        // anybody else, between any two moves of the coordinator
    | Survey(now: int, after: int)         // the coordinator takes its snapshot
    | TreatNext(at: Stamp)                 // and treats the next stalled task

  function CallFor(s: Stalled, limit: int): Call
  {
    Call(if s.reassignments < limit then Unassign else Raw(TaskBlocked), s.id, COORDINATOR)
  }

  function Record(p: Pass, c: Call, now: Stamp): Pass
  {
    if Allowed(c, Fold(p.log)) then p.(log := Appended(p.log, c, now), writers := p.writers + [c]) else p
  }

  function Proceed(p: Pass, m: Move, limit: int): Pass
  {
    match m
    case Worker(c, now) => if Legal(c) && !c.op.Unassign? then Record(p, c, now) else p
    case Survey(now, after) => p.(pending := StalledTasks(Fold(p.log), now, after))
    case TreatNext(now) =>
      if p.pending == [] then p else Record(p, CallFor(p.pending[0], limit), now).(pending := p.pending[1..])
  }

  function ProceedAll(p: Pass, moves: seq<Move>, limit: int): Pass
  {
    if moves == [] then p else Proceed(ProceedAll(p, moves[..|moves| - 1], limit), moves[|moves| - 1], limit)
  }

  /** Treating one task is what the tick's own step does to the log. */
  lemma TreatIsRecord(p: Pass, s: Stalled, limit: int, now: Stamp)
    ensures Record(p, CallFor(s, limit), now).log == Treat(p.log, s, limit, now)
  {
  }

  ghost predicate WithinLimit(p: Pass, limit: int)
  {
    && Justified(p.log, p.writers)
    && (forall t :: t in Fold(p.log).at ==> Fold(p.log).at[t].reassignments <= limit)
    && (forall i, j :: 0 <= i < j < |p.pending| ==> p.pending[i].id != p.pending[j].id)
    && (forall s :: s in p.pending ==> Snapshotted(s, Fold(p.log)))
  }

  /** Nobody else unassigns, so the count read in the snapshot is still the count. */
  predicate Snapshotted(s: Stalled, ts: Tasks)
  {
    s.id in ts.at && ts.at[s.id].reassignments == s.reassignments
  }

  lemma RecordJustified(p: Pass, c: Call, now: Stamp)
    requires Justified(p.log, p.writers) && Legal(c)
    ensures Justified(Record(p, c, now).log, Record(p, c, now).writers)
  {
    if Allowed(c, Fold(p.log)) {
      JustifiedSnoc(p.log, p.writers, Event(KindOf(c.op), c.task, c.author, now), c);
    }
  }

  /** What one recorded call does to the reassignment counts. */
  lemma RecordCounts(p: Pass, c: Call, now: Stamp)
    ensures var ts, ts' := Fold(p.log), Fold(Record(p, c, now).log);
            && (forall t :: t in ts.at ==> t in ts'.at)
            && (forall t :: t in ts'.at && t !in ts.at ==> ts'.at[t].reassignments == 0)
            && (forall t :: t in ts.at && !(KindOf(c.op).TaskUnassigned? && c.task == t) ==>
                  ts'.at[t].reassignments == ts.at[t].reassignments)
            && (c.task in ts.at ==> ts'.at[c.task].reassignments <= ts.at[c.task].reassignments + 1)
  {
    var e := Event(KindOf(c.op), c.task, c.author, now);
    FoldSnoc(p.log, e);
  }

  lemma SurveySnapshots(p: Pass, now: int, after: int, limit: int)
    requires WithinLimit(p, limit)
    ensures WithinLimit(Proceed(p, Survey(now, after), limit), limit)
  {
    var ts := Fold(p.log);
    FoldValid(p.log);
    var ids, stalled := StalledIds(ts, now, after), StalledTasks(ts, now, after);
    SelectDistinct(ts.order, ts.at, t => IsStalled(t, now, after));
    SortDistinct(Select(ts.order, ts.at, t => IsStalled(t, now, after)));
    forall i | 0 <= i < |stalled| ensures stalled[i].id == ids[i] && Snapshotted(stalled[i], ts) {
      assert ids[i] in ids;
    }
  }

  /** Any recorded call except an unassignment keeps every count and every snapshot. */
  lemma OthersKeepLimit(p: Pass, c: Call, now: Stamp, limit: int)
    requires WithinLimit(p, limit) && limit >= 0 && Legal(c) && !c.op.Unassign?
    ensures WithinLimit(Record(p, c, now), limit)
  {
    RecordJustified(p, c, now);
    RecordCounts(p, c, now);
    assert !KindOf(c.op).TaskUnassigned?;
    forall s | s in p.pending ensures Snapshotted(s, Fold(Record(p, c, now).log)) {
      assert Snapshotted(s, Fold(p.log));
    }
  }

  lemma PendingRest(p: Pass, limit: int)
    requires WithinLimit(p, limit) && p.pending != []
    ensures WithinLimit(p.(pending := p.pending[1..]), limit)
    ensures Snapshotted(p.pending[0], Fold(p.log)) && forall s :: s in p.pending[1..] ==> s.id != p.pending[0].id
  {
    assert p.pending[0] in p.pending;
    var rest := p.pending[1..];
    forall s | s in rest ensures s in p.pending && s.id != p.pending[0].id {
      var i :| 0 <= i < |rest| && rest[i] == s;
      assert p.pending[i + 1] == s;
    }
  }

  lemma UnassignKeepsLimit(p: Pass, s: Stalled, now: Stamp, limit: int)
    requires WithinLimit(p, limit) && Snapshotted(s, Fold(p.log)) && s.reassignments < limit
    requires forall x :: x in p.pending ==> x.id != s.id
    ensures WithinLimit(Record(p, Call(Unassign, s.id, COORDINATOR), now), limit)
  {
    var c := Call(Unassign, s.id, COORDINATOR);
    RecordJustified(p, c, now);
    RecordCounts(p, c, now);
    forall x | x in p.pending ensures Snapshotted(x, Fold(Record(p, c, now).log)) {
      assert Snapshotted(x, Fold(p.log));
    }
  }

  lemma ProceedKeepsLimit(p: Pass, m: Move, limit: int)
    requires WithinLimit(p, limit) && limit >= 0
    ensures WithinLimit(Proceed(p, m, limit), limit)
  {
    match m
    case Survey(now, after) => SurveySnapshots(p, now, after, limit);
    case Worker(c, now) => if Legal(c) && !c.op.Unassign? { OthersKeepLimit(p, c, now, limit); }
    case TreatNext(now) =>
      if p.pending != [] {
        var s, q := p.pending[0], p.(pending := p.pending[1..]);
        PendingRest(p, limit);
        if s.reassignments < limit { UnassignKeepsLimit(q, s, now, limit); }
        else { OthersKeepLimit(q, CallFor(s, limit), now, limit); }
      }
  }

  /** However workers interleave, no task is re-pooled more than `limit` times over the whole run. */
  lemma {:induction false} ReassignmentsStayWithinLimit(moves: seq<Move>, limit: int)
    requires limit >= 0
    ensures WithinLimit(ProceedAll(Pass([], [], []), moves, limit), limit)
  {
    if moves != [] {
      ReassignmentsStayWithinLimit(moves[..|moves| - 1], limit);
      ProceedKeepsLimit(ProceedAll(Pass([], [], []), moves[..|moves| - 1], limit), moves[|moves| - 1], limit);
    }
  }

  // ---- the total over the board ---------------------------------------------

  function Unassignments(log: seq<Event>): nat
  {
    if log == [] then 0
    else Unassignments(log[..|log| - 1]) + if log[|log| - 1].kind.TaskUnassigned? then 1 else 0
  }

  function SumReassignments(ids: seq<Id>, at: map<Id, Task>): nat
  {
    if ids == [] then 0
    else
      var t := ids[|ids| - 1];
      SumReassignments(ids[..|ids| - 1], at) + if t in at then at[t].reassignments else 0
  }

  lemma {:induction false} SumAfterUpdate(ids: seq<Id>, at: map<Id, Task>, t: Id, task: Task)
    requires Distinct(ids) && (t in ids ==> t in at)
    ensures SumReassignments(ids, at[t := task])
         == SumReassignments(ids, at) + if t in ids then task.reassignments - at[t].reassignments else 0
    decreases |ids|
  {
    if ids != [] {
      assert ids == ids[..|ids| - 1] + [ids[|ids| - 1]];
      SumAfterUpdate(ids[..|ids| - 1], at, t, task);
    }
  }

  lemma {:induction false} UnassignmentsAreCounted(log: seq<Event>, writers: seq<Call>)
    requires Justified(log, writers)
    ensures Unassignments(log) == SumReassignments(Fold(log).order, Fold(log).at)
  {
    if log != [] {
      var n := |log| - 1;
      JustifiedPrefix(log, writers, n);
      UnassignmentsAreCounted(log[..n], writers[..n]);
      FoldValid(log[..n]);
      var ts, e := Fold(log[..n]), log[n];
      assert Allowed(writers[n], ts) && Legal(writers[n]) && Matches(e, writers[n]);
      SumAfterEvent(ts, e);
    }
  }

  lemma SumAfterEvent(ts: Tasks, e: Event)
    requires ts.Valid() && (e.kind.TaskUnassigned? ==> e.task in ts.at && Open(ts.at[e.task].status))
    ensures SumReassignments(Apply(ts, e).order, Apply(ts, e).at)
         == SumReassignments(ts.order, ts.at) + if e.kind.TaskUnassigned? then 1 else 0
  {
    if e.kind.TaskCreated? {
      if e.task != "" && e.task !in ts.at {
        SumAfterUpdate(ts.order, ts.at, e.task, NewTask(e));
        assert (ts.order + [e.task])[..|ts.order|] == ts.order;
      }
    } else if e.task in ts.at {
      SumAfterUpdate(ts.order, ts.at, e.task, Touch(ts.at[e.task], e));
      assert Touch(ts.at[e.task], e).reassignments
          == ts.at[e.task].reassignments + if e.kind.TaskUnassigned? then 1 else 0;
    }
  }

  lemma {:induction false} SumWithinLimit(ids: seq<Id>, at: map<Id, Task>, limit: nat)
    requires forall t :: t in ids ==> t in at && at[t].reassignments <= limit
    ensures SumReassignments(ids, at) <= |ids| * limit
  {
    if ids != [] {
      SumWithinLimit(ids[..|ids| - 1], at, limit);
      assert ids[|ids| - 1] in ids;
      assert |ids| * limit == (|ids| - 1) * limit + limit;
    }
  }

  /** So a whole run writes at most `limit` unassignments per task on the board. */
  lemma RunUnassignsBoundedly(moves: seq<Move>, limit: nat)
    ensures var log := ProceedAll(Pass([], [], []), moves, limit).log;
            Unassignments(log) <= |Fold(log).order| * limit
  {
    var p := ProceedAll(Pass([], [], []), moves, limit);
    ReassignmentsStayWithinLimit(moves, limit);
    UnassignmentsAreCounted(p.log, p.writers);
    FoldValid(p.log);
    SumWithinLimit(Fold(p.log).order, Fold(p.log).at, limit);
  }

  /** A task that is stalled once more after its last re-pooling is blocked, not handed out again. */
  lemma SpentTaskIsBlocked(log: seq<Event>, s: Stalled, limit: int, now: Stamp)
    requires Snapshotted(s, Fold(log)) && s.reassignments >= limit
    ensures Fold(Treat(log, s, limit, now)).at[s.id].status == Status.Blocked
  {
    FoldSnoc(log, Event(TaskBlocked, s.id, COORDINATOR, now));
  }

  // ---- runs of ticks and workers --------------------------------------------

  lemma AppendJustified(log: seq<Event>, writers: seq<Call>, c: Call, now: Stamp) returns (writers': seq<Call>)
    requires Justified(log, writers) && Legal(c)
    ensures Justified(Appended(log, c, now), writers')
  {
    writers' := writers;
    if Allowed(c, Fold(log)) {
      JustifiedSnoc(log, writers, Event(KindOf(c.op), c.task, c.author, now), c);
      writers' := writers + [c];
    }
  }

  lemma {:induction false} TreatAllJustified(
    log: seq<Event>, writers: seq<Call>, stalled: seq<Stalled>, limit: int, now: Stamp) returns (writers': seq<Call>)
    requires Justified(log, writers)
    ensures Justified(TreatAll(log, stalled, limit, now), writers')
  {
    writers' := writers;
    if stalled != [] {
      var s := stalled[|stalled| - 1];
      var before := TreatAll(log, stalled[..|stalled| - 1], limit, now);
      writers' := TreatAllJustified(log, writers, stalled[..|stalled| - 1], limit, now);
      TreatIsRecord(Pass(before, writers', []), s, limit, now);
      writers' := AppendJustified(before, writers', CallFor(s, limit), now);
    }
  }

  lemma {:induction false} AssignmentsJustified(
    log: seq<Event>, writers: seq<Call>, made: seq<Assignment>, now: Stamp) returns (writers': seq<Call>)
    requires Justified(log, writers) && Placeable(made, Fold(log))
    ensures Justified(log + AssignedEvents(made, now), writers')
    decreases |made|
  {
    writers' := writers;
    if made == [] {
      assert log + AssignedEvents(made, now) == log;
    } else {
      assert made[0] in made;
      AssignStep(log, made, now);
      var c := Call(AssignIfFree(made[0].owner), made[0].task, COORDINATOR);
      writers' := AppendJustified(log, writers, c, now);
      writers' := AssignmentsJustified(log + [AssignedEvent(made[0], now)], writers', made[1..], now);
    }
  }

  lemma {:induction false} ReopeningJustified(log: seq<Event>, writers: seq<Call>, ids: seq<Id>, now: Stamp)
    returns (writers': seq<Call>)
    requires Justified(log, writers)
    ensures Justified(ReopenAll(log, ids, now), writers')
  {
    writers' := writers;
    if ids != [] {
      writers' := ReopeningJustified(log, writers, ids[..|ids| - 1], now);
      writers' := AppendJustified(ReopenAll(log, ids[..|ids| - 1], now), writers',
                                  Call(Reopen("in_review"), ids[|ids| - 1], COORDINATOR), now);
    }
  }

  lemma NoteJustified(log: seq<Event>, writers: seq<Call>, what: string, now: int)
    requires Justified(log, writers)
    ensures Justified(log + [NoteEvent(what, now)], writers + [Call(Raw(Note(what)), "", COORDINATOR)])
  {
    JustifiedSnoc(log, writers, NoteEvent(what, now), Call(Raw(Note(what)), "", COORDINATOR));
  }

  /** What judging a board may write: nothing, one note, or the reopening of its violations. */
  ghost predicate Judged(log: seq<Event>, log': seq<Event>, violations: seq<Id>, now: int)
  {
    || log' == log
    || log' == log + [NoteEvent("usage_pause", now)]
    || log' == log + [NoteEvent("run_wedged", now)]
    || log' == ReopenAll(log, violations, At(now))
  }

  lemma JudgeWrites(m: Machine, i: Input, made: seq<Assignment>)
    ensures Judged(m.log, Judge(m, i, made).0.log, GateViolations(Fold(m.log), i.fable), i.now)
  {
  }

  lemma JudgedJustified(log: seq<Event>, log': seq<Event>, violations: seq<Id>, now: int, writers: seq<Call>)
    returns (writers': seq<Call>)
    requires Justified(log, writers) && Judged(log, log', violations, now)
    ensures Justified(log', writers')
  {
    NoteJustified(log, writers, "usage_pause", now);
    NoteJustified(log, writers, "run_wedged", now);
    if log' == log {
      writers' := writers;
    } else if log' == log + [NoteEvent("usage_pause", now)] {
      writers' := writers + [Call(Raw(Note("usage_pause")), "", COORDINATOR)];
    } else if log' == log + [NoteEvent("run_wedged", now)] {
      writers' := writers + [Call(Raw(Note("run_wedged")), "", COORDINATOR)];
    } else {
      writers' := ReopeningJustified(log, writers, violations, At(now));
    }
  }

  lemma JudgeJustified(m: Machine, i: Input, made: seq<Assignment>, writers: seq<Call>) returns (writers': seq<Call>)
    requires Justified(m.log, writers)
    ensures Justified(Judge(m, i, made).0.log, writers')
  {
    JudgeWrites(m, i, made);
    writers' := JudgedJustified(m.log, Judge(m, i, made).0.log, GateViolations(Fold(m.log), i.fable), i.now, writers);
  }

  lemma TickJustified(m: Machine, i: Input, writers: seq<Call>) returns (writers': seq<Call>)
    requires Justified(m.log, writers)
    ensures Justified(Tick(m, i).0.log, writers')
  {
    writers' := writers;
    if m.run.active {
      var (run, passed) := TickRun(m.run, i.now);
      if !passed {
        NoteJustified(m.log, writers, "max_iterations_reached", i.now);
        writers' := writers + [Call(Raw(Note("max_iterations_reached")), "", COORDINATOR)];
      } else if i.usage == Some(Kill) {
        NoteJustified(m.log, writers, "usage_kill", i.now);
        writers' := writers + [Call(Raw(Note("usage_kill")), "", COORDINATOR)];
      } else {
        var g := m.run.guardrails;
        var stalled := StalledTasks(Fold(m.log), i.now, g.stallAfter);
        var log1, made := Remediated(m.log, g, i), Handed(m.log, g, i);
        writers' := TreatAllJustified(m.log, writers, stalled, g.maxReassignments, At(i.now));
        ReadyArePlaceable(log1, i.roster, Avoid(stalled, g.maxReassignments));
        writers' := AssignmentsJustified(log1, writers', made, At(i.now));
        writers' := JudgeJustified(m.(run := run, log := log1 + AssignedEvents(made, At(i.now))), i, made, writers');
      }
    }
  }

  datatype Turn = CoordinatorTurn(input: Input) | WorkerTurn(call: Call, at: Stamp)

  function Play(m: Machine, t: Turn): Machine
  {
    match t
    case CoordinatorTurn(i) => Tick(m, i).0
    case WorkerTurn(c, now) => if Legal(c) then m.(log := Appended(m.log, c, now)) else m
  }

  function PlayAll(m: Machine, turns: seq<Turn>): Machine
  {
    if turns == [] then m else Play(PlayAll(m, turns[..|turns| - 1]), turns[|turns| - 1])
  }

  lemma {:induction false} RunsAreJustified(m: Machine, turns: seq<Turn>) returns (writers: seq<Call>)
    requires m.log == []
    ensures Justified(PlayAll(m, turns).log, writers)
  {
    writers := [];
    if turns != [] {
      var before := PlayAll(m, turns[..|turns| - 1]);
      writers := RunsAreJustified(m, turns[..|turns| - 1]);
      match turns[|turns| - 1] {
        case CoordinatorTurn(i) => writers := TickJustified(before, i, writers);
        case WorkerTurn(c, now) => if Legal(c) { writers := AppendJustified(before.log, writers, c, now); }
      }
    }
  }

  /** Over any run of ticks and workers, the gate reopens a task at most as often as somebody finished it. */
  lemma GateCannotSpin(m: Machine, turns: seq<Turn>, t: Id)
    requires m.log == []
    ensures var log := PlayAll(m, turns).log;
            Count(log, t, IsReopen) + (if IsDone(Fold(log), t) then 1 else 0) <= Count(log, t, IsFinish)
  {
    var writers := RunsAreJustified(m, turns);
    ReopensNeverOutrunFinishes(PlayAll(m, turns).log, writers, t);
  }
}
