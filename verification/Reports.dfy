/** What a coordinator tick reports and writes, read off the board it finds and the board it leaves. */
module Reports {
  import opened Order
  import opened BoardModel
  import opened DependencyFaults
  import opened Coordinator
  import opened Situations
  import opened FableGate
  import opened RunLifecycle
  import opened Orchestrator

  // ---- ticks that do nothing ------------------------------------------------

  /** The cap on iterations is exceeded by one more. */
  predicate CapReached(run: RunState)
  {
    && run.guardrails.maxIterations.Some? && run.guardrails.maxIterations.value != 0
    && run.iterations + 1 > run.guardrails.maxIterations.value
  }

  predicate OnlyHalts(r: Report)
  {
    && r.halt && !r.done && r.handed == [] && r.kick == {} && r.review == [] && r.triage == {} && r.routing == map[]
    && r.violations == []
  }

  function NoteOf(what: string, now: int): Event { Event(Note(what), "", Some("coordinator"), At(now)) }

  /** An inactive run is left as it is. */
  lemma InactiveTick(m: Machine, i: Input)
    requires !m.run.active
    ensures Tick(m, i).0 == m && OnlyHalts(Tick(m, i).1)
  {
  }

  /** Over the cap, the tick is counted, the run ends, and the note is all that is written. */
  lemma CappedTick(m: Machine, i: Input)
    requires m.run.active && CapReached(m.run)
    ensures var (m', r) := Tick(m, i);
            && OnlyHalts(r) && m'.log == m.log + [NoteOf("max_iterations_reached", i.now)]
            && !m'.run.active && m'.run.iterations == m.run.iterations + 1
            && m'.run.ended == Some(i.now) && m'.run.endReason == Some("max_iterations reached")
            && m'.unknownTicks == m.unknownTicks && m'.stuckTicks == m.stuckTicks
  {
  }

  /** Under the kill switch the tick is counted and halts, nobody gets work, and the note is all that is written. */
  lemma KilledTick(m: Machine, i: Input)
    requires m.run.active && !CapReached(m.run) && i.usage == Some(Kill)
    ensures var (m', r) := Tick(m, i);
            && OnlyHalts(r) && r.level == Kill && m'.log == m.log + [NoteOf("usage_kill", i.now)]
            && m'.run == m.run.(iterations := m.run.iterations + 1)
            && m'.unknownTicks == m.unknownTicks && m'.stuckTicks == m.stuckTicks
  {
  }

  // ---- what a tick writes ---------------------------------------------------

  /** The assignments on record, in order. */
  function AssignmentsIn(log: seq<Event>): seq<Assignment>
  {
    if log == [] then []
    else
      var e := log[|log| - 1];
      AssignmentsIn(log[..|log| - 1]) + Assigns(e)
  }

  function Assigns(e: Event): seq<Assignment>
  {
    if e.kind.TaskAssigned? && e.kind.assignee.Some? then [Assignment(e.task, e.kind.assignee.value)] else []
  }

  lemma AssignmentsSnoc(log: seq<Event>, e: Event)
    ensures AssignmentsIn(log + [e]) == AssignmentsIn(log) + Assigns(e)
  {
    assert (log + [e])[..|log|] == log;
  }

  lemma AppendedIs(log: seq<Event>, c: Call, now: Stamp)
    ensures var r := Appended(log, c, now); r == log || r == log + [Event(KindOf(c.op), c.task, c.author, now)]
  {
  }

  lemma TreatAssignsNothing(log: seq<Event>, s: Stalled, limit: int, now: Stamp)
    ensures AssignmentsIn(Treat(log, s, limit, now)) == AssignmentsIn(log) && log <= Treat(log, s, limit, now)
  {
    AppendedIs(log, Call(Unassign, s.id, COORDINATOR), now);
    AssignmentsSnoc(log, Event(TaskUnassigned, s.id, COORDINATOR, now));
    AssignmentsSnoc(log, Event(TaskBlocked, s.id, COORDINATOR, now));
  }

  lemma {:induction false} TreatingAssignsNothing(log: seq<Event>, stalled: seq<Stalled>, limit: int, now: Stamp)
    ensures AssignmentsIn(TreatAll(log, stalled, limit, now)) == AssignmentsIn(log)
    ensures log <= TreatAll(log, stalled, limit, now)
  {
    if stalled != [] {
      TreatingAssignsNothing(log, stalled[..|stalled| - 1], limit, now);
      TreatAssignsNothing(TreatAll(log, stalled[..|stalled| - 1], limit, now), stalled[|stalled| - 1], limit, now);
    }
  }

  lemma {:induction false} AssigningIsOnRecord(log: seq<Event>, made: seq<Assignment>, now: Stamp)
    ensures AssignmentsIn(log + AssignedEvents(made, now)) == AssignmentsIn(log) + made
    decreases |made|
  {
    if made == [] {
      assert log + AssignedEvents(made, now) == log;
    } else {
      AssigningIsOnRecord(log, made[..|made| - 1], now);
      OneMoreOnRecord(log, made[..|made| - 1], made[|made| - 1], made, now);
    }
  }

  lemma OneMoreOnRecord(log: seq<Event>, front: seq<Assignment>, last: Assignment, made: seq<Assignment>, now: Stamp)
    requires made == front + [last]
    requires AssignmentsIn(log + AssignedEvents(front, now)) == AssignmentsIn(log) + front
    ensures AssignmentsIn(log + AssignedEvents(made, now)) == AssignmentsIn(log) + made
  {
    AssignedEventsSnoc(log, front, last, now);
    AssignmentsSnoc(log + AssignedEvents(front, now), AssignedEvent(last, now));
    assert AssignmentsIn(log) + front + [last] == AssignmentsIn(log) + made;
  }

  lemma ReopenAssignsNothing(log: seq<Event>, t: Id, now: Stamp)
    ensures var r := Appended(log, Call(Reopen("in_review"), t, COORDINATOR), now);
            AssignmentsIn(r) == AssignmentsIn(log) && log <= r
  {
    AppendedIs(log, Call(Reopen("in_review"), t, COORDINATOR), now);
    AssignmentsSnoc(log, Event(TaskReopened("in_review"), t, COORDINATOR, now));
  }

  lemma {:induction false} ReopeningAssignsNothing(log: seq<Event>, ids: seq<Id>, now: Stamp)
    ensures AssignmentsIn(ReopenAll(log, ids, now)) == AssignmentsIn(log) && log <= ReopenAll(log, ids, now)
  {
    if ids != [] {
      ReopeningAssignsNothing(log, ids[..|ids| - 1], now);
      ReopenAssignsNothing(ReopenAll(log, ids[..|ids| - 1], now), ids[|ids| - 1], now);
    }
  }

  predicate NamedWorkers(roster: seq<Worker>) { forall w :: w in roster ==> w.name != "" }

  /** The board once stalls are treated and work is handed out. */
  function Worked(m: Machine, i: Input): seq<Event>
  {
    Remediated(m.log, m.run.guardrails, i) + AssignedEvents(Handed(m.log, m.run.guardrails, i), At(i.now))
  }

  lemma WorkedRecords(m: Machine, i: Input)
    ensures AssignmentsIn(Worked(m, i)) == AssignmentsIn(m.log) + Handed(m.log, m.run.guardrails, i)
    ensures m.log <= Worked(m, i)
  {
    var g := m.run.guardrails;
    TreatingAssignsNothing(m.log, StalledTasks(Fold(m.log), i.now, g.stallAfter), g.maxReassignments, At(i.now));
    AssigningIsOnRecord(Remediated(m.log, g, i), Handed(m.log, g, i), At(i.now));
  }

  // ---- what happens to a silent task ----------------------------------------

  /** Back in the pool while its owners may still be changed, and blocked after that. */
  ghost predicate Treated(t: Task, t': Task, limit: int)
  {
    if t.reassignments < limit
    then t'.status == Todo && t'.owner == None && t'.reassignments == t.reassignments + 1
    else t'.status == Status.Blocked && t'.owner == t.owner && t'.reassignments == t.reassignments
  }

  ghost predicate OnBoard(s: Stalled, ts: Tasks)
  {
    s.id in ts.at && AtWork(ts.at[s.id]) && s == Stalled(s.id, ts.at[s.id].owner, ts.at[s.id].reassignments)
  }

  lemma TreatOne(log: seq<Event>, s: Stalled, limit: int, now: Stamp)
    requires OnBoard(s, Fold(log))
    ensures var ts, ts' := Fold(log), Fold(Treat(log, s, limit, now));
            && ts'.order == ts.order && s.id in ts'.at && Treated(ts.at[s.id], ts'.at[s.id], limit)
            && ts'.at == ts.at[s.id := ts'.at[s.id]]
  {
    FoldSnoc(log, Event(TaskUnassigned, s.id, COORDINATOR, now));
    FoldSnoc(log, Event(TaskBlocked, s.id, COORDINATOR, now));
  }

  ghost predicate OneStalledEach(stalled: seq<Stalled>)
  {
    forall i, j :: 0 <= i < j < |stalled| ==> stalled[i].id != stalled[j].id
  }

  /** Exactly the stalled tasks are treated. */
  ghost predicate TreatedApart(ts: Tasks, ts': Tasks, stalled: seq<Stalled>, limit: int)
  {
    && ts'.order == ts.order && ts'.at.Keys == ts.at.Keys
    && (forall s :: s in stalled ==> s.id in ts.at && Treated(ts.at[s.id], ts'.at[s.id], limit))
    && (forall t :: t in ts.at && (forall s :: s in stalled ==> s.id != t) ==> ts'.at[t] == ts.at[t])
  }

  lemma {:induction false} AllTreatedApart(log: seq<Event>, stalled: seq<Stalled>, limit: int, now: Stamp)
    requires OneStalledEach(stalled) && forall s :: s in stalled ==> OnBoard(s, Fold(log))
    ensures TreatedApart(Fold(log), Fold(TreatAll(log, stalled, limit, now)), stalled, limit)
  {
    if stalled != [] {
      var front, last := stalled[..|stalled| - 1], stalled[|stalled| - 1];
      assert last in stalled && forall s :: s in front ==> s in stalled;
      AllTreatedApart(log, front, limit, now);
      OneMoreTreated(log, stalled, front, last, limit, now);
    }
  }

  lemma OneMoreTreated(log: seq<Event>, stalled: seq<Stalled>, front: seq<Stalled>, last: Stalled, limit: int,
      now: Stamp)
    requires stalled != [] && front == stalled[..|stalled| - 1] && last == stalled[|stalled| - 1]
    requires OneStalledEach(stalled) && OnBoard(last, Fold(log))
    requires TreatedApart(Fold(log), Fold(TreatAll(log, front, limit, now)), front, limit)
    ensures TreatedApart(Fold(log), Fold(TreatAll(log, stalled, limit, now)), stalled, limit)
  {
    assert forall s :: s in front ==> s.id != last.id;
    assert forall s :: s in stalled <==> s in front || s == last;
    TreatOne(TreatAll(log, front, limit, now), last, limit, now);
  }

  /** Exactly the tasks silent for too long are treated: taken from their owners, or blocked if that was done enough. */
  lemma SilentTasksAreTreated(log: seq<Event>, g: Guardrails, i: Input, t: Id)
    requires t in Fold(log).at
    ensures var ts, ts' := Fold(log), Fold(Remediated(log, g, i));
            && ts'.order == ts.order && ts'.at.Keys == ts.at.Keys
            && (if Silent(ts.at[t], i.now, g.stallAfter) then Treated(ts.at[t], ts'.at[t], g.maxReassignments)
                else ts'.at[t] == ts.at[t])
  {
    var ts := Fold(log);
    FoldValid(log);
    var stalled := StalledTasks(ts, i.now, g.stallAfter);
    StalledAreTheSilent(ts, i.now, g.stallAfter);
    forall a, b | 0 <= a < b < |stalled| ensures stalled[a].id != stalled[b].id {
      LessTrichotomy(stalled[a].id, stalled[b].id);
    }
    forall s | s in stalled ensures OnBoard(s, ts) {
      assert exists x :: x in stalled && x.id == s.id;
    }
    AllTreatedApart(log, stalled, g.maxReassignments, At(i.now));
    assert (exists s :: s in stalled && s.id == t) <==> Silent(ts.at[t], i.now, g.stallAfter);
  }

  /** Kept off a task is exactly the owner it was just taken from. */
  lemma {:induction false} OnlyTheOwnerIsKeptOff(stalled: seq<Stalled>, limit: int, t: Id, a: Agent)
    requires OneStalledEach(stalled)
    ensures KeptOff(Avoid(stalled, limit), t, a) <==>
              a != "" && exists s :: s in stalled && s.id == t && s.reassignments < limit && s.owner == Some(a)
    ensures t in Avoid(stalled, limit) ==> exists s :: s in stalled && s.id == t
  {
    if stalled != [] {
      var front, last := stalled[..|stalled| - 1], stalled[|stalled| - 1];
      OnlyTheOwnerIsKeptOff(front, limit, t, a);
      assert forall s :: s in stalled <==> s in front || s == last;
      assert forall s :: s in front ==> s.id != last.id;
    }
  }

  /** A task taken from a silent owner is handed to somebody else, if anybody else may take it. */
  lemma RepooledTaskChangesHands(m: Machine, i: Input, k: nat, t: Id, o: Agent)
    requires k < |Handed(m.log, m.run.guardrails, i)| && Handed(m.log, m.run.guardrails, i)[k].task == t
    requires t in Fold(m.log).at && Fold(m.log).at[t].owner == Some(o) && o != ""
    requires Silent(Fold(m.log).at[t], i.now, m.run.guardrails.stallAfter)
    requires Fold(m.log).at[t].reassignments < m.run.guardrails.maxReassignments
    requires exists b :: b != o && Candidate(i.roster, Fold(m.log).at[t].scope, b)
    ensures Handed(m.log, m.run.guardrails, i)[k].owner != o
  {
    var g := m.run.guardrails;
    var ts, handed := Fold(m.log), Handed(m.log, g, i);
    var stalled := StalledTasks(ts, i.now, g.stallAfter);
    var log, avoid := Remediated(m.log, g, i), Avoid(stalled, g.maxReassignments);
    FoldValid(m.log);
    StalledAreTheSilent(ts, i.now, g.stallAfter);
    forall x, y | 0 <= x < y < |stalled| ensures stalled[x].id != stalled[y].id {
      LessTrichotomy(stalled[x].id, stalled[y].id);
    }
    assert exists s :: s in stalled && s.id == t;
    OnlyTheOwnerIsKeptOff(stalled, g.maxReassignments, t, o);
    SilentTasksAreTreated(m.log, g, i, t);
    ScopeStays(m.log, g, i, t);
    HandedOutByRule(log, i.roster, avoid, k);
    var b :| b != o && Candidate(i.roster, ts.at[t].scope, b);
    OnlyTheOwnerIsKeptOff(stalled, g.maxReassignments, t, b);
  }

  lemma AppendingKeepsScope(log: seq<Event>, c: Call, now: Stamp, t: Id)
    requires t in Fold(log).at
    ensures t in Fold(Appended(log, c, now)).at
    ensures Fold(Appended(log, c, now)).at[t].scope == Fold(log).at[t].scope
  {
    AppendedIs(log, c, now);
    FoldSnoc(log, Event(KindOf(c.op), c.task, c.author, now));
  }

  lemma TreatKeepsScope(log: seq<Event>, s: Stalled, limit: int, now: Stamp, t: Id)
    requires t in Fold(log).at
    ensures t in Fold(Treat(log, s, limit, now)).at
    ensures Fold(Treat(log, s, limit, now)).at[t].scope == Fold(log).at[t].scope
  {
    AppendingKeepsScope(log, Call(Unassign, s.id, COORDINATOR), now, t);
    FoldSnoc(log, Event(TaskBlocked, s.id, COORDINATOR, now));
  }

  lemma {:induction false} TreatingKeepsScope(log: seq<Event>, stalled: seq<Stalled>, limit: int, now: Stamp, t: Id)
    requires t in Fold(log).at
    ensures t in Fold(TreatAll(log, stalled, limit, now)).at
    ensures Fold(TreatAll(log, stalled, limit, now)).at[t].scope == Fold(log).at[t].scope
  {
    if stalled != [] {
      TreatingKeepsScope(log, stalled[..|stalled| - 1], limit, now, t);
      TreatKeepsScope(TreatAll(log, stalled[..|stalled| - 1], limit, now), stalled[|stalled| - 1], limit, now, t);
    }
  }

  lemma ScopeStays(log: seq<Event>, g: Guardrails, i: Input, t: Id)
    requires t in Fold(log).at
    ensures t in Fold(Remediated(log, g, i)).at && Fold(Remediated(log, g, i)).at[t].scope == Fold(log).at[t].scope
  {
    TreatingKeepsScope(log, StalledTasks(Fold(log), i.now, g.stallAfter), g.maxReassignments, At(i.now), t);
  }

  // ---- what a tick reports --------------------------------------------------

  ghost predicate ListsReviews(review: seq<Id>, ts: Tasks)
  {
    forall t :: t in review <==> t in ts.at && ts.at[t].status == InReview
  }

  ghost predicate ListsTriage(triage: set<Id>, ts: Tasks) { forall t :: t in triage <==> NeedsTriage(t, ts) }

  ghost predicate RoutesReviews(routing: map<Id, Agent>, ts: Tasks, i: Input)
  {
    && (forall t :: t in routing <==> t in ts.at && ts.at[t].status == InReview && i.fable != [])
    && (forall t :: t in routing ==> RouteReviewer(ts.at[t].scope, i.fable, i.idle, i.who) == Some(routing[t]))
  }

  /** Finished without a Fable pass that stands. */
  ghost predicate Unreviewed(t: Id, ts: Tasks, fable: seq<Agent>)
  {
    t in ts.at && ts.at[t].status == Done && !SignedOff(ts.at[t].history, fable)
  }

  ghost predicate ListsViolations(violations: seq<Id>, ts: Tasks, fable: seq<Agent>)
  {
    forall t :: t in violations <==> Unreviewed(t, ts, fable)
  }

  ghost predicate KicksWorkers(kick: set<Agent>, ts: Tasks)
  {
    forall a :: a in kick <==> exists t :: t in ts.at && AtWork(ts.at[t]) && ts.at[t].owner == Some(a) && a != ""
  }

  lemma RoutingShows(ts: Tasks, i: Input)
    ensures RoutesReviews(ReviewRouting(ts, i.fable, i.idle, i.who), ts, i)
  {
  }

  lemma ViolationsShow(ts: Tasks, fable: seq<Agent>)
    requires ts.Valid()
    ensures ListsViolations(GateViolations(ts, fable), ts, fable)
  {
    ViolationsAreDone(ts, fable);
    forall t | t in ts.at ensures Violates(ts.at[t], fable) <==> Unreviewed(t, ts, fable) {
      ReviewedMeansSignedOff(ts.at[t].history, fable);
    }
  }

  lemma KickShows(ts: Tasks, level: Level, now: int, after: int)
    requires ts.Valid()
    ensures KicksWorkers(Snapshot(ts, true, level, now, after).openByAgent.Keys, ts)
  {
    SnapshotLists(ts, true, level, now, after);
    forall a
      ensures a in OpenByAgent(ts) <==>
                exists x :: x in ts.at && AtWork(ts.at[x]) && ts.at[x].owner == Some(a) && a != ""
    {
      OwnersShow(ts, a, "");
    }
  }

  lemma ReviewShows(ts: Tasks)
    requires ts.Valid()
    ensures ListsReviews(InReviewIds(ts), ts)
  {
    forall t ensures t in InReviewIds(ts) <==> t in ts.at && ts.at[t].status == InReview { ListsShow(ts, t); }
  }

  /** What the tick sees of an unfinished board. */
  ghost predicate Sees(f: Findings, ts: Tasks, i: Input, after: int)
  {
    && !f.acts.done && (f.acts.stuck <==> NothingToMove(ts, i.now, after))
    && ListsReviews(f.acts.review, ts) && ListsTriage(f.acts.triage, ts) && RoutesReviews(f.routing, ts, i)
    && ListsViolations(f.violations, ts, i.fable) && KicksWorkers(f.sit.openByAgent.Keys, ts)
  }

  lemma ActionsShow(ts: Tasks, level: Level, now: int, after: int)
    requires ts.Valid() && !AllEnded(ts) && level != Kill
    ensures var acts := NextActions(Snapshot(ts, true, level, now, after));
            && !acts.done && acts.review == InReviewIds(ts)
            && acts.triage == (set t | t in BlockedIds(ts)) + Faults(ts).Keys
  {
    SnapshotLists(ts, true, level, now, after);
    EndedIsConverged(ts);
  }

  lemma TriageShows(ts: Tasks)
    requires ts.Valid()
    ensures ListsTriage((set t | t in BlockedIds(ts)) + Faults(ts).Keys, ts)
  {
    forall t ensures t in (set x | x in BlockedIds(ts)) + Faults(ts).Keys <==> NeedsTriage(t, ts) {
      ListsShow(ts, t);
      FaultLabelsAreTrue(ts, t);
    }
  }

  lemma LookSees(ts: Tasks, g: Guardrails, i: Input)
    requires ts.Valid() && !AllEnded(ts) && i.usage != Some(Kill)
    ensures Sees(Look(ts, g, i), ts, i, g.stallAfter)
  {
    ActionsShow(ts, LevelOf(i), i.now, g.stallAfter);
    StuckExactlyWhen(ts, LevelOf(i), i.now, g.stallAfter);
    ReviewShows(ts);
    TriageShows(ts);
    RoutingShows(ts, i);
    ViolationsShow(ts, i.fable);
    KickShows(ts, LevelOf(i), i.now, g.stallAfter);
  }

  // ---- a tick on an unfinished board ----------------------------------------

  /** The tick is within the iteration cap and not under the kill switch. */
  predicate MayWork(m: Machine, i: Input) { m.run.active && !CapReached(m.run) && i.usage != Some(Kill) }

  function Counted(run: RunState): RunState { run.(iterations := run.iterations + 1) }

  lemma TickIsJudged(m: Machine, i: Input)
    requires MayWork(m, i)
    ensures Tick(m, i) == Judge(m.(run := Counted(m.run), log := Worked(m, i)), i, Handed(m.log, m.run.guardrails, i))
  {
  }

  lemma NoteChangesNoTask(log: seq<Event>, what: string, now: int)
    ensures Fold(log + [NoteEvent(what, now)]) == Fold(log)
    ensures AssignmentsIn(log + [NoteEvent(what, now)]) == AssignmentsIn(log)
  {
    FoldSnoc(log, NoteEvent(what, now));
    FoldValid(log);
    AssignmentsSnoc(log, NoteEvent(what, now));
  }

  /** The usage cannot be read: nobody is sent to work, and the loop halts from the grace limit on. */
  ghost predicate PausedTick(m: Machine, i: Input, m': Machine, r: Report)
  {
    var ts := Fold(m'.log);
    && m'.unknownTicks == m.unknownTicks + 1 && m'.stuckTicks == m.stuckTicks
    && r.halt == (m'.unknownTicks >= m.run.guardrails.unknownGrace) && r.handed == [] && r.kick == {}
    && ListsReviews(r.review, ts) && ListsTriage(r.triage, ts) && RoutesReviews(r.routing, ts, i)
    && ListsViolations(r.violations, ts, i.fable)
  }

  /** Nothing can move, and that for the limit of ticks: only what needs a decision is reported. */
  ghost predicate WedgedTick(m: Machine, i: Input, m': Machine, r: Report)
  {
    && r.halt && m'.unknownTicks == 0 && m'.stuckTicks == m.stuckTicks + 1
    && m'.stuckTicks >= m.run.guardrails.stuckTicksHalt
    && r.handed == [] && r.kick == {} && r.review == [] && r.routing == map[] && r.violations == []
    && ListsTriage(r.triage, Fold(m'.log))
  }

  /** Everybody with open work is woken, and all that needs a review, a decision or a gate is reported. */
  ghost predicate WorkingTick(m: Machine, i: Input, m': Machine, r: Report)
  {
    var ts := Fold(m'.log);
    && !r.halt && m'.unknownTicks == 0
    && m'.stuckTicks == (if NothingToMove(ts, i.now, m.run.guardrails.stallAfter) then m.stuckTicks + 1 else 0)
    && KicksWorkers(r.kick, ts) && ListsReviews(r.review, ts) && ListsTriage(r.triage, ts)
    && RoutesReviews(r.routing, ts, i) && ListsViolations(r.violations, ts, i.fable)
  }

  lemma PausingShows(m: Machine, i: Input, f: Findings)
    requires Sees(f, Fold(m.log), i, m.run.guardrails.stallAfter)
    ensures var (m', r) := Pausing(m, i, f);
            PausedTick(m, i, m', r) && !r.done && AssignmentsIn(m'.log) == AssignmentsIn(m.log) && m.log <= m'.log
  {
    NoteChangesNoTask(m.log, "usage_pause", i.now);
  }

  lemma MovingShows(m: Machine, i: Input, made: seq<Assignment>, f: Findings)
    requires Sees(f, Fold(m.log), i, m.run.guardrails.stallAfter) && m.unknownTicks == 0
    ensures var (m', r) := Moving(m, i, made, f); var after := m.run.guardrails.stallAfter;
            && !r.done && AssignmentsIn(m'.log) == AssignmentsIn(m.log) && m.log <= m'.log
            && Fold(m'.log) == Fold(m.log)
            && (if r.halt then NothingToMove(Fold(m'.log), i.now, after) && WedgedTick(m, i, m', r)
                else WorkingTick(m, i, m', r) && r.handed == made)
            && (r.halt <==> NothingToMove(Fold(m'.log), i.now, after)
                            && m.stuckTicks + 1 >= m.run.guardrails.stuckTicksHalt)
  {
    NoteChangesNoTask(m.log, "run_wedged", i.now);
  }

  lemma WorkedStaysUnfinished(m: Machine, i: Input)
    requires !AllEnded(Fold(m.log))
    ensures !AllEnded(Fold(Worked(m, i)))
  {
    WorkKeepsEnds(m.log, m.run.guardrails, i);
  }

  /** Whoever is handed work is at work. */
  lemma HandedAreAtWork(log: seq<Event>, roster: seq<Worker>, avoid: map<Id, set<Agent>>, now: Stamp)
    requires NamedWorkers(roster) && AssignReady(log, roster, avoid) != []
    ensures !NobodyAtWork(Fold(log + AssignedEvents(AssignReady(log, roster, avoid), now)))
  {
    var made := AssignReady(log, roster, avoid);
    ReadyArePlaceable(log, roster, avoid);
    AssignmentsApplied(log, made, now);
    OwnersAreNamed(log, roster, avoid);
    FirstIsAtWork(made, Fold(log + AssignedEvents(made, now)));
  }

  lemma FirstIsAtWork(made: seq<Assignment>, ts: Tasks)
    requires made != [] && made[0].task in ts.at && made[0].owner != ""
    requires ts.at[made[0].task].status == Assigned && ts.at[made[0].task].owner == Some(made[0].owner)
    ensures !NobodyAtWork(ts)
  {
    assert AtWork(ts.at[made[0].task]);
  }

  lemma OwnersAreNamed(log: seq<Event>, roster: seq<Worker>, avoid: map<Id, set<Agent>>)
    requires NamedWorkers(roster)
    ensures forall a :: a in AssignReady(log, roster, avoid) ==> a.owner != ""
  {
    var made := AssignReady(log, roster, avoid);
    forall a | a in made ensures a.owner != "" {
      var k :| 0 <= k < |made| && made[k] == a;
      HandedOutByRule(log, roster, avoid, k);
    }
  }

  /**
   * On an unfinished board, whatever the workers did to it: the tick is not done; it pauses exactly when the usage
   * cannot be read, and otherwise halts exactly when nothing has been able to move for the limit of ticks; what it
   * reports is what the board it leaves shows; and what it hands out is what that board has gained in assignments.
   */
  lemma TickOnUnfinishedBoard(m: Machine, i: Input)
    requires MayWork(m, i) && !AllEnded(Fold(m.log)) && NamedWorkers(i.roster)
    ensures var (m', r) := Tick(m, i); var g := m.run.guardrails;
            && !r.done && m'.run == Counted(m.run) && m.log <= m'.log
            && AssignmentsIn(m'.log) == AssignmentsIn(m.log) + r.handed
            && (if i.usage == Some(Unknown) then PausedTick(m, i, m', r)
                else if NothingToMove(Fold(m'.log), i.now, g.stallAfter) && m.stuckTicks + 1 >= g.stuckTicksHalt
                then WedgedTick(m, i, m', r)
                else WorkingTick(m, i, m', r))
  {
    var g, made := m.run.guardrails, Handed(m.log, m.run.guardrails, i);
    var m1 := m.(run := Counted(m.run), log := Worked(m, i));
    TickIsJudged(m, i);
    WorkedRecords(m, i);
    WorkedStaysUnfinished(m, i);
    FoldValid(m1.log);
    LookSees(Fold(m1.log), g, i);
    var f := Look(Fold(m1.log), g, i);
    if i.usage == Some(Unknown) {
      PausingShows(m1, i, f);
    } else {
      MovingShows(m1.(unknownTicks := 0), i, made, f);
      if made != [] {
        var avoid := Avoid(StalledTasks(Fold(m.log), i.now, g.stallAfter), g.maxReassignments);
        HandedAreAtWork(Remediated(m.log, g, i), i.roster, avoid, At(i.now));
      }
    }
  }

  // ---- a tick on a finished board -------------------------------------------

  /** What skipped the gate is back in review, and nothing else changed. */
  ghost predicate SentBack(ts: Tasks, ts': Tasks, fable: seq<Agent>)
  {
    && ts'.order == ts.order && ts'.at.Keys == ts.at.Keys
    && forall t :: t in ts.at ==>
         if Unreviewed(t, ts, fable) then ts'.at[t].status == InReview else ts'.at[t] == ts.at[t]
  }

  /**
   * On a finished board nothing is treated or handed out. If everything done has a standing Fable pass, the tick says
   * done and writes nothing; if not, exactly what skipped the gate is sent back to review, and routed there.
   */
  lemma TickOnFinishedBoard(m: Machine, i: Input)
    requires MayWork(m, i) && AllEnded(Fold(m.log))
    ensures var (m', r) := Tick(m, i); var ts, ts' := Fold(m.log), Fold(m'.log);
            && m'.run == Counted(m.run) && m'.unknownTicks == m.unknownTicks && m'.stuckTicks == m.stuckTicks
            && !r.halt && r.handed == [] && r.kick == {} && AssignmentsIn(m'.log) == AssignmentsIn(m.log)
            && SentBack(ts, ts', i.fable)
            && ListsViolations(r.violations, ts, i.fable) && ListsReviews(r.review, ts') && r.triage == {}
            && (r.done <==> forall t :: !Unreviewed(t, ts, i.fable))
            && (if r.done then m'.log == m.log && r.routing == map[] else RoutesReviews(r.routing, ts', i))
  {
    var g, ts := m.run.guardrails, Fold(m.log);
    TickIsJudged(m, i);
    assert AllTerminal(ts);
    NothingToDo(m.log, g, i);
    FoldValid(m.log);
    ViolationsShow(ts, i.fable);
    FinishedLook(ts, g, i);
    var bad := GateViolations(ts, i.fable);
    if bad == [] {
      forall t ensures !Unreviewed(t, ts, i.fable) { assert t !in bad; }
      ReviewShows(ts);
      forall t ensures t !in InReviewIds(ts) { ListsShow(ts, t); }
    } else {
      assert bad[0] in bad;
      FinishedReopens(m, i);
    }
  }

  lemma FinishedLook(ts: Tasks, g: Guardrails, i: Input)
    requires AllEnded(ts) && i.usage != Some(Kill)
    ensures Look(ts, g, i).acts.done && Look(ts, g, i).violations == GateViolations(ts, i.fable)
  {
    SnapshotLists(ts, true, LevelOf(i), i.now, g.stallAfter);
    EndedIsConverged(ts);
  }

  lemma FinishedReopens(m: Machine, i: Input)
    requires AllEnded(Fold(m.log))
    ensures var bad := GateViolations(Fold(m.log), i.fable);
            var (m', r) := Reopening(m, i, [], bad); var ts, ts' := Fold(m.log), Fold(m'.log);
            && SentBack(ts, ts', i.fable) && AssignmentsIn(m'.log) == AssignmentsIn(m.log)
            && r.kick == {} && ListsReviews(r.review, ts') && r.triage == {} && RoutesReviews(r.routing, ts', i)
  {
    var ts, bad := Fold(m.log), GateViolations(Fold(m.log), i.fable);
    var log' := ReopenAll(m.log, bad, At(i.now));
    FoldValid(m.log);
    FoldValid(log');
    var ts' := Fold(log');
    ViolationsAreDone(ts, i.fable);
    ViolationsShow(ts, i.fable);
    ReopenedApart(m.log, bad, At(i.now));
    ReopeningAssignsNothing(m.log, bad, At(i.now));
    assert SentBack(ts, ts', i.fable);
    SnapshotLists(ts', true, LevelOf(i), i.now, m.run.guardrails.stallAfter);
    ReviewShows(ts');
    RoutingShows(ts', i);
    NoneLeftOpen(ts, ts', i.fable);
  }

  lemma EndedOrBack(ts: Tasks, ts': Tasks, fable: seq<Agent>, t: Id)
    requires AllEnded(ts) && SentBack(ts, ts', fable) && t in ts'.at
    ensures ts'.at[t].status == InReview || ts'.at[t].status == Done || ts'.at[t].status == Abandoned
  {
  }

  lemma NoneLeftOpen(ts: Tasks, ts': Tasks, fable: seq<Agent>)
    requires ts'.Valid() && AllEnded(ts) && SentBack(ts, ts', fable)
    ensures OpenByAgent(ts') == map[] && BlockedIds(ts') == []
  {
    forall t | t in ts'.at
      ensures ts'.at[t].status == InReview || ts'.at[t].status == Done || ts'.at[t].status == Abandoned
    {
      EndedOrBack(ts, ts', fable, t);
    }
    NothingAtWorkOrBlocked(ts');
  }

  lemma NothingAtWorkOrBlocked(ts: Tasks)
    requires ts.Valid()
    requires forall t :: t in ts.at ==>
               ts.at[t].status == InReview || ts.at[t].status == Done || ts.at[t].status == Abandoned
    ensures OpenByAgent(ts) == map[] && BlockedIds(ts) == []
  {
    WorkListEmpty(ts);
    HasMember(BlockedIds(ts));
  }
}
