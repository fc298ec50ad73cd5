/** One coordinator tick: remediate stalls, assign, gate, pause, or report that the run is stuck or done. */
module Orchestrator {
  import opened Order
  import opened BoardModel
  import opened DependencyFaults
  import opened Coordinator
  import opened Situations
  import opened FableGate
  import opened RunLifecycle

  /** The board log, the run record, and the two tick counters kept in `coordinator.json`. */
  datatype Machine = Machine(log: seq<Event>, run: RunState, unknownTicks: nat, stuckTicks: nat)

  /** `usage` is absent when no usage directory is monitored. */
  datatype Input = Input(
    roster: seq<Worker>, usage: Option<Level>, fable: seq<Agent>, idle: Option<set<Agent>>, who: Reviewers, now: int)

  datatype Report = Report(
    halt: bool, done: bool, handed: seq<Assignment>, kick: set<Agent>, review: seq<Id>, triage: set<Id>,
    routing: map<Id, Agent>, violations: seq<Id>, level: Level)

  const COORDINATOR: Option<Agent> := Some("coordinator")

  function Halted(level: Level): Report { Report(true, false, [], {}, [], {}, map[], [], level) }

  function NoteEvent(what: string, now: int): Event { Event(Note(what), "", COORDINATOR, At(now)) }

  // ---- stall remediation ----------------------------------------------------

  /** Back to the pool, up to `limit` times; then blocked. */
  function Treat(log: seq<Event>, s: Stalled, limit: int, now: Stamp): seq<Event>
  {
    if s.reassignments < limit then Appended(log, Call(Unassign, s.id, COORDINATOR), now)
    else log + [Event(TaskBlocked, s.id, COORDINATOR, now)]
  }

  function TreatAll(log: seq<Event>, stalled: seq<Stalled>, limit: int, now: Stamp): seq<Event>
  {
    if stalled == [] then log
    else Treat(TreatAll(log, stalled[..|stalled| - 1], limit, now), stalled[|stalled| - 1], limit, now)
  }

  /** A re-pooled task is kept off the owner that went silent on it. */
  function Avoid(stalled: seq<Stalled>, limit: int): map<Id, set<Agent>>
  {
    if stalled == [] then map[]
    else
      var before, s := Avoid(stalled[..|stalled| - 1], limit), stalled[|stalled| - 1];
      if s.reassignments < limit && Truthy(s.owner) then before[s.id := {s.owner.value}] else before
  }

  // ---- the tick -------------------------------------------------------------

  function ReopenAll(log: seq<Event>, ids: seq<Id>, now: Stamp): seq<Event>
  {
    if ids == [] then log
    else Appended(ReopenAll(log, ids[..|ids| - 1], now), Call(Reopen("in_review"), ids[|ids| - 1], COORDINATOR), now)
  }

  function LevelOf(i: Input): Level { if i.usage.Some? then i.usage.value else Unknown }

  function Tick(m: Machine, i: Input): (Machine, Report)
  {
    if !m.run.active then (m, Halted(Unknown))
    else
      var (run, passed) := TickRun(m.run, i.now);
      if !passed then (m.(run := run, log := m.log + [NoteEvent("max_iterations_reached", i.now)]), Halted(Unknown))
      else if i.usage == Some(Kill) then (m.(run := run, log := m.log + [NoteEvent("usage_kill", i.now)]), Halted(Kill))
      else
        var log1 := Remediated(m.log, m.run.guardrails, i);
        var made := Handed(m.log, m.run.guardrails, i);
        Judge(m.(run := run, log := log1 + AssignedEvents(made, At(i.now))), i, made)
  }

  function Remediated(log: seq<Event>, g: Guardrails, i: Input): seq<Event>
  {
    TreatAll(log, StalledTasks(Fold(log), i.now, g.stallAfter), g.maxReassignments, At(i.now))
  }

  /** No new work is handed out while the budget cannot be read. */
  function Handed(log: seq<Event>, g: Guardrails, i: Input): seq<Assignment>
  {
    if i.usage == Some(Unknown) then []
    else AssignReady(Remediated(log, g, i), i.roster,
        Avoid(StalledTasks(Fold(log), i.now, g.stallAfter), g.maxReassignments))
  }

  /** What the tick learns from the board once assignment is over. */
  datatype Findings = Findings(sit: Situation, acts: Actions, violations: seq<Id>, routing: map<Id, Agent>)

  function Look(ts: Tasks, g: Guardrails, i: Input): Findings
  {
    var sit := Snapshot(ts, true, LevelOf(i), i.now, g.stallAfter);
    Findings(sit, NextActions(sit), GateViolations(ts, i.fable), ReviewRouting(ts, i.fable, i.idle, i.who))
  }

  function Judge(m: Machine, i: Input, made: seq<Assignment>): (Machine, Report)
  {
    var f := Look(Fold(m.log), m.run.guardrails, i);
    if f.acts.done then
      if f.violations != [] then Reopening(m, i, made, f.violations)
      else (m, Report(false, true, [], {}, [], {}, map[], [], LevelOf(i)))
    else if i.usage == Some(Unknown) then Pausing(m, i, f)
    else Moving(m.(unknownTicks := 0), i, made, f)
  }

  /** Unknown usage: judgement work is still reported; from the grace limit on, the loop halts. */
  function Pausing(m: Machine, i: Input, f: Findings): (Machine, Report)
  {
    var ticks := m.unknownTicks + 1;
    var grace := m.run.guardrails.unknownGrace;
    (m.(unknownTicks := ticks, log := if ticks == grace then m.log + [NoteEvent("usage_pause", i.now)] else m.log),
     Report(ticks >= grace, false, [], {}, f.acts.review, f.acts.triage, f.routing, f.violations, Unknown))
  }

  function Working(i: Input, made: seq<Assignment>, f: Findings): Report
  {
    Report(false, false, made, f.sit.openByAgent.Keys, f.acts.review, f.acts.triage, f.routing, f.violations,
        LevelOf(i))
  }

  /** A stuck run is counted, and halts the loop from the limit on. */
  function Moving(m: Machine, i: Input, made: seq<Assignment>, f: Findings): (Machine, Report)
  {
    if !f.acts.stuck then (m.(stuckTicks := 0), Working(i, made, f))
    else
      var ticks := m.stuckTicks + 1;
      var cap := m.run.guardrails.stuckTicksHalt;
      (m.(stuckTicks := ticks, log := if ticks == cap then m.log + [NoteEvent("run_wedged", i.now)] else m.log),
       if ticks >= cap then Report(true, false, [], {}, [], f.acts.triage, map[], [], LevelOf(i))
           else Working(i, made, f))
  }

  /** Convergence was reached around the gate: reopen what skipped it and route it now. */
  function Reopening(m: Machine, i: Input, made: seq<Assignment>, violations: seq<Id>): (Machine, Report)
  {
    var log := ReopenAll(m.log, violations, At(i.now));
    var sit := Snapshot(Fold(log), true, LevelOf(i), i.now, m.run.guardrails.stallAfter);
    (m.(log := log),
     Report(false, false, made, sit.openByAgent.Keys, sit.needsReview, (set t | t in sit.blocked),
            ReviewRouting(Fold(log), i.fable, i.idle, i.who), violations, LevelOf(i)))
  }

  // ---- when a tick says "done" ----------------------------------------------

  /** Every task reached an end: no stalled task to treat, no ready one to hand out. */
  ghost predicate AllTerminal(ts: Tasks) { forall t :: t in ts.at ==> Terminal(ts.at[t].status) }

  lemma NothingStalled(ts: Tasks, now: int, after: int)
    requires AllTerminal(ts)
    ensures StalledTasks(ts, now, after) == []
  {
    HasMember(StalledIds(ts, now, after));
  }

  lemma NothingToHand(log: seq<Event>, roster: seq<Worker>, avoid: map<Id, set<Agent>>)
    requires AllTerminal(Fold(log))
    ensures AssignReady(log, roster, avoid) == []
  {
    HasMember(Ready(Fold(log)));
  }

  lemma NothingToDo(log: seq<Event>, g: Guardrails, i: Input)
    requires AllTerminal(Fold(log))
    ensures Remediated(log, g, i) == log && Handed(log, g, i) == [] && log + AssignedEvents([], At(i.now)) == log
  {
    NothingStalled(Fold(log), i.now, g.stallAfter);
    NothingToHand(log, i.roster, Avoid([], g.maxReassignments));
  }

  lemma UnfinishedStays(log: seq<Event>, e: Event, t: Id)
    requires Unfinished(t, Fold(log).at)
    requires e.kind.TaskUnassigned? || e.kind.TaskBlocked? || e.kind.TaskAssigned?
    ensures Unfinished(t, Fold(log + [e]).at)
  {
    FoldSnoc(log, e);
    var task := Fold(log).at[t];
    var touched := Touch(task, e);
    assert touched.status == task.status || touched.status in {Status.Blocked, Assigned, Todo};
    assert Fold(log + [e]).at[t] == if e.task == t then touched else task;
  }

  lemma {:induction false} TreatedStaysUnfinished(log: seq<Event>, stalled: seq<Stalled>, limit: int, now: Stamp, t: Id)
    requires Unfinished(t, Fold(log).at)
    ensures Unfinished(t, Fold(TreatAll(log, stalled, limit, now)).at)
  {
    if stalled != [] {
      var before, s := TreatAll(log, stalled[..|stalled| - 1], limit, now), stalled[|stalled| - 1];
      TreatedStaysUnfinished(log, stalled[..|stalled| - 1], limit, now, t);
      UnfinishedStays(before, Event(TaskUnassigned, s.id, COORDINATOR, now), t);
      UnfinishedStays(before, Event(TaskBlocked, s.id, COORDINATOR, now), t);
    }
  }

  lemma {:induction false} AssignedStaysUnfinished(log: seq<Event>, made: seq<Assignment>, now: Stamp, t: Id)
    requires Unfinished(t, Fold(log).at)
    ensures Unfinished(t, Fold(log + AssignedEvents(made, now)).at)
    decreases |made|
  {
    if made == [] {
      assert log + AssignedEvents(made, now) == log;
    } else {
      var front, last := made[..|made| - 1], made[|made| - 1];
      AssignedStaysUnfinished(log, front, now, t);
      UnfinishedStays(log + AssignedEvents(front, now), AssignedEvent(last, now), t);
      AssignedEventsSnoc(log, front, last, now);
      assert front + [last] == made;
    }
  }

  ghost predicate Gated(ts: Tasks, fable: seq<Agent>)
  {
    forall t :: t in ts.at ==>
      ts.at[t].status == Abandoned || (ts.at[t].status == Done && SignedOff(ts.at[t].history, fable))
  }

  lemma NoViolationsMeansGated(ts: Tasks, fable: seq<Agent>)
    requires ts.Valid()
    ensures GateViolations(ts, fable) == [] && AllTerminal(ts) <==> Gated(ts, fable)
  {
    HasMember(GateViolations(ts, fable));
    forall t | t in ts.at ensures Reviewed(ts.at[t].history, fable) <==> SignedOff(ts.at[t].history, fable) {
      ReviewedMeansSignedOff(ts.at[t].history, fable);
    }
    if GateViolations(ts, fable) == [] {
      assert forall t :: t in ts.at && Violates(ts.at[t], fable) ==> t in GateViolations(ts, fable);
    }
  }

  lemma JudgedDone(m: Machine, i: Input, made: seq<Assignment>)
    requires i.usage != Some(Kill)
    ensures Judge(m, i, made).1.done <==> Fold(m.log).order != [] && Gated(Fold(m.log), i.fable)
  {
    var ts := Fold(m.log);
    FoldValid(m.log);
    assert NextActions(Snapshot(ts, true, LevelOf(i), i.now, m.run.guardrails.stallAfter)).done <==> Converged(ts);
    DoneShape(m, i, made);
    ConvergedAndGated(ts, i.fable);
  }

  lemma DoneShape(m: Machine, i: Input, made: seq<Assignment>)
    ensures Judge(m, i, made).1.done <==>
              && NextActions(Snapshot(Fold(m.log), true, LevelOf(i), i.now, m.run.guardrails.stallAfter)).done
              && GateViolations(Fold(m.log), i.fable) == []
  {
  }

  lemma ConvergedAndGated(ts: Tasks, fable: seq<Agent>)
    requires ts.Valid()
    ensures Converged(ts) && GateViolations(ts, fable) == [] <==> ts.order != [] && Gated(ts, fable)
  {
    NoViolationsMeansGated(ts, fable);
  }

  /** Treating stalls and handing out work never finishes a task, and touches nothing once all are finished. */
  lemma WorkKeepsEnds(log: seq<Event>, g: Guardrails, i: Input)
    ensures var log' := Remediated(log, g, i) + AssignedEvents(Handed(log, g, i), At(i.now));
            (AllTerminal(Fold(log)) ==> log' == log) && (AllTerminal(Fold(log')) ==> AllTerminal(Fold(log)))
  {
    if AllTerminal(Fold(log)) {
      NothingToDo(log, g, i);
    } else {
      var t :| t in Fold(log).at && !Terminal(Fold(log).at[t].status);
      TreatedStaysUnfinished(log, StalledTasks(Fold(log), i.now, g.stallAfter), g.maxReassignments, At(i.now), t);
      AssignedStaysUnfinished(Remediated(log, g, i), Handed(log, g, i), At(i.now), t);
    }
  }

  /** A tick says "done" exactly when it may run and every task is abandoned or done with a standing Fable pass. */
  lemma DoneMeansGated(m: Machine, i: Input)
    ensures Tick(m, i).1.done <==>
              && TickRun(m.run, i.now).1 && i.usage != Some(Kill)
              && Fold(m.log).order != [] && Gated(Fold(m.log), i.fable)
  {
    if TickRun(m.run, i.now).1 && i.usage != Some(Kill) {
      var log := Remediated(m.log, m.run.guardrails, i) + AssignedEvents(Handed(m.log, m.run.guardrails, i), At(i.now));
      var run := TickRun(m.run, i.now).0;
      JudgedDone(m.(run := run, log := log), i, Handed(m.log, m.run.guardrails, i));
      WorkKeepsEnds(m.log, m.run.guardrails, i);
      GatedIsTerminal(Fold(m.log), i.fable);
      GatedIsTerminal(Fold(log), i.fable);
    }
  }

  lemma GatedIsTerminal(ts: Tasks, fable: seq<Agent>)
    ensures Gated(ts, fable) ==> AllTerminal(ts)
  {
  }

  /** With no Fable agent configured, a board with a finished task never converges. */
  lemma EmptyRosterNeverDone(m: Machine, i: Input, t: Id)
    requires i.fable == [] && t in Fold(m.log).at && Fold(m.log).at[t].status == Done
    ensures !Tick(m, i).1.done
  {
    DoneMeansGated(m, i);
  }

  /** A tick moves the run record as the iteration budget says, whatever it finds on the board. */
  lemma TickSpendsBudget(m: Machine, i: Input)
    ensures Tick(m, i).0.run == TickRun(m.run, i.now).0
  {
  }

  // ---- the gate limits itself -----------------------------------------------

  lemma ReopenOne(log: seq<Event>, t: Id, now: Stamp)
    requires IsDoneOn(Fold(log), t)
    ensures var ts, ts' := Fold(log), Fold(Appended(log, Call(Reopen("in_review"), t, COORDINATOR), now));
            && ts'.order == ts.order && t in ts'.at && ts'.at[t].status == InReview
            && ts'.at == ts.at[t := ts'.at[t]]
  {
    FoldSnoc(log, Event(TaskReopened("in_review"), t, COORDINATOR, now));
  }

  lemma {:induction false} ReopenedApart(log: seq<Event>, ids: seq<Id>, now: Stamp)
    requires Distinct(ids) && forall t :: t in ids ==> IsDoneOn(Fold(log), t)
    ensures var ts, ts' := Fold(log), Fold(ReopenAll(log, ids, now));
            && ts'.order == ts.order && ts'.at.Keys == ts.at.Keys
            && (forall t :: t in ts.at && t !in ids ==> ts'.at[t] == ts.at[t])
            && (forall t :: t in ids ==> t in ts'.at && ts'.at[t].status == InReview)
  {
    if ids != [] {
      var front, last := ids[..|ids| - 1], ids[|ids| - 1];
      assert ids == front + [last];
      ReopenedApart(log, front, now);
      assert IsDoneOn(Fold(log), last) && last !in front;
      ReopenOne(ReopenAll(log, front, now), last, now);
    }
  }

  predicate IsDoneOn(ts: Tasks, t: Id) { t in ts.at && ts.at[t].status == Done }

  lemma ViolationsAreDone(ts: Tasks, fable: seq<Agent>)
    requires ts.Valid()
    ensures Distinct(GateViolations(ts, fable))
    ensures forall t :: t in GateViolations(ts, fable) <==> t in ts.at && Violates(ts.at[t], fable)
  {
    SelectDistinct(ts.order, ts.at, (t: Task) => Violates(t, fable));
    SortDistinct(Select(ts.order, ts.at, (t: Task) => Violates(t, fable)));
  }

  /** Reopening every violation leaves none: the next tick finds nothing to reopen. */
  lemma ReopeningClearsViolations(log: seq<Event>, fable: seq<Agent>, now: Stamp)
    ensures GateViolations(Fold(ReopenAll(log, GateViolations(Fold(log), fable), now)), fable) == []
  {
    FoldValid(log);
    var bad := GateViolations(Fold(log), fable);
    var log' := ReopenAll(log, bad, now);
    FoldValid(log');
    ViolationsAreDone(Fold(log), fable);
    ReopenedApart(log, bad, now);
    ViolationsAreDone(Fold(log'), fable);
    HasMember(GateViolations(Fold(log'), fable));
  }

  // ---- halting after a streak -----------------------------------------------

  function Notes(log: seq<Event>, what: string): nat
  {
    if log == [] then 0 else Notes(log[..|log| - 1], what) + if log[|log| - 1].kind == Note(what) then 1 else 0
  }

  lemma NotesSnoc(log: seq<Event>, e: Event, what: string)
    ensures Notes(log + [e], what) == Notes(log, what) + if e.kind == Note(what) then 1 else 0
  {
    assert (log + [e])[..|log|] == log;
  }

  /** What the workers wrote since the last tick, and the tick. */
  datatype Beat = Beat(others: seq<Event>, input: Input)

  function Arrived(m: Machine, b: Beat): Machine { m.(log := m.log + b.others) }

  function Ticks(m: Machine, beats: seq<Beat>): Machine
    decreases |beats|, 1
  {
    if beats == [] then m else Tick(BeforeLast(m, beats), beats[|beats| - 1].input).0
  }

  function BeforeLast(m: Machine, beats: seq<Beat>): Machine
    requires beats != []
    decreases |beats|, 0
  {
    Arrived(Ticks(m, beats[..|beats| - 1]), beats[|beats| - 1])
  }

  function LastReport(m: Machine, beats: seq<Beat>): Report
    requires beats != []
  {
    Tick(BeforeLast(m, beats), beats[|beats| - 1].input).1
  }

  function Spent(run: RunState, ticks: nat): RunState { run.(iterations := run.iterations + ticks) }

  lemma {:induction false} NotesConcat(a: seq<Event>, b: seq<Event>, what: string)
    ensures Notes(a + b, what) == Notes(a, what) + Notes(b, what)
    decreases |b|
  {
    if b == [] {
      assert a + b == a;
    } else {
      NotesConcat(a, b[..|b| - 1], what);
      assert (a + b)[..|a + b| - 1] == a + b[..|b| - 1];
    }
  }

  lemma {:induction false} TreatingWritesNoNote(log: seq<Event>, stalled: seq<Stalled>, limit: int, now: Stamp,
      what: string)
    ensures Notes(TreatAll(log, stalled, limit, now), what) == Notes(log, what)
  {
    if stalled != [] {
      var front, s := stalled[..|stalled| - 1], stalled[|stalled| - 1];
      var before := TreatAll(log, front, limit, now);
      TreatingWritesNoNote(log, front, limit, now, what);
      NotesSnoc(before, Event(TaskBlocked, s.id, COORDINATOR, now), what);
      NotesSnoc(before, Event(TaskUnassigned, s.id, COORDINATOR, now), what);
    }
  }

  /** A tick within the budget, on an unfinished board, that cannot read its usage: nothing is handed out. */
  lemma UnknownTick(m: Machine, i: Input)
    requires m.run.active && !OverCap(Spent(m.run, 1)) && i.usage == Some(Unknown) && !Converged(Fold(m.log))
    ensures var log := Remediated(m.log, m.run.guardrails, i);
            Tick(m, i) == Pausing(m.(run := Spent(m.run, 1), log := log), i, Look(Fold(log), m.run.guardrails, i))
  {
    var g := m.run.guardrails;
    var log := Remediated(m.log, g, i);
    assert Handed(m.log, g, i) == [] && log + AssignedEvents([], At(i.now)) == log;
    WorkKeepsEnds(m.log, g, i);
    NotConvergedAfter(m.log, log);
  }

  lemma NotConvergedAfter(log: seq<Event>, log': seq<Event>)
    requires !Converged(Fold(log)) && (AllTerminal(Fold(log)) ==> log' == log)
    requires AllTerminal(Fold(log')) ==> AllTerminal(Fold(log))
    ensures !Converged(Fold(log'))
  {
  }

  ghost predicate UnknownStreak(m: Machine, beats: seq<Beat>)
  {
    beats == [] ||
      var last := beats[|beats| - 1];
      && UnknownStreak(m, beats[..|beats| - 1]) && last.input.usage == Some(Unknown)
      && Notes(last.others, "usage_pause") == 0 && !Converged(Fold(BeforeLast(m, beats).log))
  }

  lemma UnderCap(run: RunState, ticks: nat, all: nat)
    requires run.active && !OverCap(Spent(run, all)) && ticks <= all
    ensures !OverCap(Spent(run, ticks))
  {
  }

  /**
   * Ticks in a row that cannot read the usage, while the board is unfinished and the iteration cap is not reached: the
   * last halts exactly from the grace limit on, the note is written once, at the crossing, and the run goes on.
   */
  lemma {:induction false} PauseHaltsFromTheLimit(m: Machine, beats: seq<Beat>)
    requires m.run.active && !OverCap(Spent(m.run, |beats|)) && UnknownStreak(m, beats)
    ensures var m', grace := Ticks(m, beats), m.run.guardrails.unknownGrace;
            && m'.run == Spent(m.run, |beats|)
            && m'.stuckTicks == m.stuckTicks && m'.unknownTicks == m.unknownTicks + |beats|
            && Notes(m'.log, "usage_pause") == Notes(m.log, "usage_pause")
                 + (if m.unknownTicks < grace <= m'.unknownTicks then 1 else 0)
            && (beats != [] ==> (LastReport(m, beats).halt <==> m'.unknownTicks >= grace))
            && (beats != [] ==> !LastReport(m, beats).done && LastReport(m, beats).handed == [])
  {
    if beats != [] {
      var front, last := beats[..|beats| - 1], beats[|beats| - 1];
      UnderCap(m.run, |front|, |beats|);
      PauseHaltsFromTheLimit(m, front);
      var before := BeforeLast(m, beats);
      NotesConcat(Ticks(m, front).log, last.others, "usage_pause");
      UnknownTick(before, last.input);
      var g := before.run.guardrails;
      TreatingWritesNoNote(before.log, StalledTasks(Fold(before.log), last.input.now, g.stallAfter),
        g.maxReassignments, At(last.input.now), "usage_pause");
      NotesSnoc(Remediated(before.log, g, last.input), NoteEvent("usage_pause", last.input.now), "usage_pause");
    }
  }

  /** Nobody is at work, nothing waits for review or for a worker, nothing is stalled, and the work is not finished. */
  predicate StuckBoard(log: seq<Event>, g: Guardrails, i: Input) { Look(Fold(log), g, i).acts.stuck }

  /** A tick within the budget on a stuck board changes nothing on it. */
  lemma StuckTick(m: Machine, i: Input)
    requires m.run.active && !OverCap(Spent(m.run, 1)) && i.usage != Some(Unknown)
    requires StuckBoard(m.log, m.run.guardrails, i)
    ensures Tick(m, i) == Moving(m.(run := Spent(m.run, 1), unknownTicks := 0), i, [],
                                 Look(Fold(m.log), m.run.guardrails, i))
  {
    var g := m.run.guardrails;
    assert StalledTasks(Fold(m.log), i.now, g.stallAfter) == [] && Ready(Fold(m.log)) == [];
    assert Remediated(m.log, g, i) == m.log && Handed(m.log, g, i) == [];
    assert m.log + AssignedEvents([], At(i.now)) == m.log;
    assert i.usage != Some(Kill);
  }

  ghost predicate StuckStreak(m: Machine, beats: seq<Beat>)
  {
    beats == [] ||
      var last := beats[|beats| - 1];
      && StuckStreak(m, beats[..|beats| - 1]) && last.input.usage != Some(Unknown)
      && Notes(last.others, "run_wedged") == 0
      && StuckBoard(BeforeLast(m, beats).log, m.run.guardrails, last.input)
  }

  /**
   * Ticks in a row on a stuck board, while the iteration cap is not reached: the last halts exactly from the limit on,
   * the note is written once, at the crossing, the run goes on, and what was counted of unknown usage is forgotten.
   */
  lemma {:induction false} StuckHaltsFromTheLimit(m: Machine, beats: seq<Beat>)
    requires m.run.active && !OverCap(Spent(m.run, |beats|)) && StuckStreak(m, beats)
    ensures var m', cap := Ticks(m, beats), m.run.guardrails.stuckTicksHalt;
            && m'.run == Spent(m.run, |beats|)
            && m'.stuckTicks == m.stuckTicks + |beats|
            && m'.unknownTicks == (if beats == [] then m.unknownTicks else 0)
            && Notes(m'.log, "run_wedged") == Notes(m.log, "run_wedged")
                 + (if m.stuckTicks < cap <= m'.stuckTicks then 1 else 0)
            && (beats != [] ==> (LastReport(m, beats).halt <==> m'.stuckTicks >= cap))
            && (beats != [] ==> !LastReport(m, beats).done && LastReport(m, beats).handed == [])
  {
    if beats != [] {
      var front, last := beats[..|beats| - 1], beats[|beats| - 1];
      UnderCap(m.run, |front|, |beats|);
      StuckHaltsFromTheLimit(m, front);
      NotesConcat(Ticks(m, front).log, last.others, "run_wedged");
      StuckTick(BeforeLast(m, beats), last.input);
      NotesSnoc(BeforeLast(m, beats).log, NoteEvent("run_wedged", last.input.now), "run_wedged");
    }
  }

  // ---- the tick as the code runs it -----------------------------------------

  class Counters {
    var unknownTicks: nat
    var stuckTicks: nat

    constructor ()
      ensures unknownTicks == stuckTicks == 0
    {
      unknownTicks, stuckTicks := 0, 0;
    }
  }

  ghost function MachineOf(board: Board, run: Run, counters: Counters): Machine
    reads board, run, counters
  {
    Machine(board.log, run.state, counters.unknownTicks, counters.stuckTicks)
  }

  method Remediate(board: Board, stalled: seq<Stalled>, limit: int, now: Stamp) returns (avoid: map<Id, set<Agent>>)
    requires board.Valid()
    modifies board
    ensures board.Valid() && board.log == TreatAll(old(board.log), stalled, limit, now)
    ensures avoid == Avoid(stalled, limit)
  {
    avoid := map[];
    for n := 0 to |stalled|
      invariant board.Valid() && board.log == TreatAll(old(board.log), stalled[..n], limit, now)
      invariant avoid == Avoid(stalled[..n], limit)
    {
      var s := stalled[n];
      assert stalled[..n + 1][..n] == stalled[..n];
      if s.reassignments < limit {
        var _ := board.Mutate(Call(Unassign, s.id, COORDINATOR), now);
        if Truthy(s.owner) {
          avoid := avoid[s.id := {s.owner.value}];
        }
      } else {
        board.Append(Event(TaskBlocked, s.id, COORDINATOR, now));
      }
    }
    assert stalled[..|stalled|] == stalled;
  }

  method ReopenEach(board: Board, ids: seq<Id>, now: Stamp)
    requires board.Valid()
    modifies board
    ensures board.Valid() && board.log == ReopenAll(old(board.log), ids, now)
  {
    for n := 0 to |ids|
      invariant board.Valid() && board.log == ReopenAll(old(board.log), ids[..n], now)
    {
      assert ids[..n + 1][..n] == ids[..n];
      var _ := board.Mutate(Call(Reopen("in_review"), ids[n], COORDINATOR), now);
    }
    assert ids[..|ids|] == ids;
  }

  method ReopenViolations(board: Board, run: Run, counters: Counters, i: Input, made: seq<Assignment>,
      violations: seq<Id>)
    returns (r: Report)
    requires board.Valid()
    modifies board
    ensures board.Valid()
    ensures (MachineOf(board, run, counters), r) == Reopening(old(MachineOf(board, run, counters)), i, made, violations)
  {
    ReopenEach(board, violations, At(i.now));
    var ts := board.ReadTasks();
    var sit := Snapshot(ts, true, LevelOf(i), i.now, run.state.guardrails.stallAfter);
    r := Report(false, false, made, sit.openByAgent.Keys, sit.needsReview, (set t | t in sit.blocked),
                ReviewRouting(ts, i.fable, i.idle, i.who), violations, LevelOf(i));
  }

  method Pause(board: Board, run: Run, counters: Counters, i: Input, f: Findings) returns (r: Report)
    requires board.Valid()
    modifies board, counters
    ensures board.Valid()
    ensures (MachineOf(board, run, counters), r) == Pausing(old(MachineOf(board, run, counters)), i, f)
  {
    var grace := run.state.guardrails.unknownGrace;
    counters.unknownTicks := counters.unknownTicks + 1;
    if counters.unknownTicks >= grace {
      if counters.unknownTicks == grace {
        board.Append(NoteEvent("usage_pause", i.now));
      }
      return Report(true, false, [], {}, f.acts.review, f.acts.triage, f.routing, f.violations, Unknown);
    }
    r := Report(false, false, [], {}, f.acts.review, f.acts.triage, f.routing, f.violations, Unknown);
  }

  method Move(board: Board, run: Run, counters: Counters, i: Input, made: seq<Assignment>,
      f: Findings) returns (r: Report)
    requires board.Valid()
    modifies board, counters
    ensures board.Valid()
    ensures (MachineOf(board, run, counters), r) == Moving(old(MachineOf(board, run, counters)), i, made, f)
  {
    if f.acts.stuck {
      var cap := run.state.guardrails.stuckTicksHalt;
      counters.stuckTicks := counters.stuckTicks + 1;
      if counters.stuckTicks >= cap {
        if counters.stuckTicks == cap {
          board.Append(NoteEvent("run_wedged", i.now));
        }
        return Report(true, false, [], {}, [], f.acts.triage, map[], [], LevelOf(i));
      }
    } else {
      counters.stuckTicks := 0;
    }
    r := Working(i, made, f);
  }

  /** From the usage gate on: assignment is done, the board is read again and judged. */
  method Conclude(board: Board, run: Run, counters: Counters, i: Input, made: seq<Assignment>) returns (r: Report)
    requires board.Valid()
    modifies board, counters
    ensures board.Valid()
    ensures (MachineOf(board, run, counters), r) == Judge(old(MachineOf(board, run, counters)), i, made)
  {
    var ts := board.ReadTasks();
    var f := Look(ts, run.state.guardrails, i);
    if f.acts.done {
      if f.violations != [] {
        r := ReopenViolations(board, run, counters, i, made, f.violations);
        return;
      }
      return Report(false, true, [], {}, [], {}, map[], [], LevelOf(i));
    }
    if i.usage == Some(Unknown) {
      r := Pause(board, run, counters, i, f);
      return;
    }
    counters.unknownTicks := 0;
    r := Move(board, run, counters, i, made, f);
  }

  method CoordinatorTick(board: Board, run: Run, counters: Counters, i: Input) returns (r: Report)
    requires board.Valid()
    modifies board, run, counters
    ensures board.Valid()
    ensures (MachineOf(board, run, counters), r) == Tick(old(MachineOf(board, run, counters)), i)
  {
    if !run.state.active {
      return Halted(Unknown);
    }
    var it := run.BumpIteration();
    var cap := run.state.guardrails.maxIterations;
    if cap.Some? && cap.value != 0 && it > cap.value {
      board.Append(NoteEvent("max_iterations_reached", i.now));
      run.End(CAP_REACHED, i.now);
      return Halted(Unknown);
    }
    if i.usage == Some(Kill) {
      board.Append(NoteEvent("usage_kill", i.now));
      return Halted(Kill);
    }
    var ts := board.ReadTasks();
    var g := run.state.guardrails;
    var avoid := Remediate(board, StalledTasks(ts, i.now, g.stallAfter), g.maxReassignments, At(i.now));
    var made := [];
    if i.usage != Some(Unknown) {
      made := Assign(board, i.roster, avoid, At(i.now));
    }
    assert board.log == Remediated(old(board.log), g, i) + AssignedEvents(made, At(i.now));
    r := Conclude(board, run, counters, i, made);
  }
}
