/** The snapshot a coordinator takes each tick, and what it implies when the run cannot move. */
module Situations {
  import opened Order
  import opened BoardModel
  import opened DependencyFaults

  datatype Level = Fine | Warn | Kill | Unknown

  datatype Stalled = Stalled(id: Id, owner: Option<Agent>, reassignments: nat)

  datatype Situation = Situation(
    active: bool, converged: bool, openByAgent: map<Agent, seq<Id>>, needsReview: seq<Id>, blocked: seq<Id>,
    ready: seq<Id>, level: Level, wedged: map<Id, Fault>, stalled: seq<Stalled>, failures: seq<Id>)

  function OpenByAgent(ts: Tasks): map<Agent, seq<Id>>
  {
    map a | a in OpenOwners(ts) :: Select(ts.order, ts.at, (t: Task) => t.owner == Some(a) && Open(t.status))
  }

  function OpenOwners(ts: Tasks): set<Agent>
  {
    set t | t in ts.at && Open(ts.at[t].status) && Truthy(ts.at[t].owner) :: ts.at[t].owner.value
  }

  /** Silent for longer than `after` seconds; a task without a readable date is never stalled. */
  predicate IsStalled(t: Task, now: int, after: int)
  {
    Open(t.status) && t.lastEvent.At? && now - t.lastEvent.seconds > after
  }

  function StalledIds(ts: Tasks, now: int, after: int): seq<Id>
  {
    Sort(Select(ts.order, ts.at, t => IsStalled(t, now, after)))
  }

  function StalledTasks(ts: Tasks, now: int, after: int): (r: seq<Stalled>)
    ensures |r| == |StalledIds(ts, now, after)|
  {
    var ids := StalledIds(ts, now, after);
    seq(|ids|, i requires 0 <= i < |ids| =>
      assert ids[i] in ids; var t := ts.at[ids[i]]; Stalled(t.id, t.owner, t.reassignments))
  }

  function InReviewIds(ts: Tasks): seq<Id> { Select(ts.order, ts.at, (t: Task) => t.status == InReview) }

  function BlockedIds(ts: Tasks): seq<Id> { Select(ts.order, ts.at, (t: Task) => t.status == Status.Blocked) }

  function ReadyIds(ts: Tasks): seq<Id> { Select(ts.order, ts.at, t => ReadyUnassigned(t, ts.at)) }

  function Failures(ts: Tasks): seq<Id> { Sort(Select(ts.order, ts.at, (t: Task) => t.status == Abandoned)) }

  function Snapshot(ts: Tasks, active: bool, level: Level, now: int, after: int): Situation
  {
    Situation(active, Converged(ts), OpenByAgent(ts), InReviewIds(ts), BlockedIds(ts), ReadyIds(ts), level,
              Faults(ts), StalledTasks(ts, now, after), Failures(ts))
  }

  datatype Actions = Actions(halt: bool, done: bool, stuck: bool, review: seq<Id>, triage: set<Id>, assign: seq<Id>)

  function NextActions(sit: Situation): Actions
  {
    if sit.level == Kill || !sit.active then Actions(true, false, false, [], {}, [])
    else if sit.converged then Actions(false, true, false, [], {}, [])
    else
      Actions(false, false,
              sit.openByAgent == map[] && sit.ready == [] && sit.needsReview == [] && sit.stalled == [],
              sit.needsReview, (set t | t in sit.blocked) + sit.wedged.Keys, sit.ready)
  }

  // ---- what the snapshot shows ----------------------------------------------

  predicate AtWork(t: Task) { t.status == Assigned || t.status == InProgress }

  /** At work, and silent for too long. */
  predicate Silent(t: Task, now: int, after: int) { AtWork(t) && t.lastEvent.At? && now - t.lastEvent.seconds > after }

  lemma ListsShow(ts: Tasks, t: Id)
    requires ts.Valid()
    ensures t in InReviewIds(ts) <==> t in ts.at && ts.at[t].status == InReview
    ensures t in BlockedIds(ts) <==> t in ts.at && ts.at[t].status == Status.Blocked
    ensures t in Failures(ts) <==> t in ts.at && ts.at[t].status == Abandoned
    ensures t in ReadyIds(ts) <==> t in ts.at && ts.at[t].status == Todo && ts.at[t].owner == None && DepsDone(t, ts)
  {
  }

  lemma OwnersShow(ts: Tasks, a: Agent, t: Id)
    requires ts.Valid()
    ensures a in OpenByAgent(ts) <==> exists x :: x in ts.at && AtWork(ts.at[x]) && ts.at[x].owner == Some(a) && a != ""
    ensures a in OpenByAgent(ts) ==>
              (t in OpenByAgent(ts)[a] <==> t in ts.at && AtWork(ts.at[t]) && ts.at[t].owner == Some(a))
  {
    if x :| x in ts.at && AtWork(ts.at[x]) && ts.at[x].owner == Some(a) && a != "" {
      assert ts.at[x].owner.value in OpenOwners(ts);
    }
  }

  lemma SnapshotLists(ts: Tasks, active: bool, level: Level, now: int, after: int)
    ensures var sit := Snapshot(ts, active, level, now, after);
            && sit.active == active && sit.level == level && sit.wedged == Faults(ts)
            && sit.needsReview == InReviewIds(ts) && sit.blocked == BlockedIds(ts) && sit.failures == Failures(ts)
            && sit.ready == ReadyIds(ts) && sit.openByAgent == OpenByAgent(ts)
            && sit.stalled == StalledTasks(ts, now, after) && sit.converged == Converged(ts)
  {
  }

  /** Each list of the snapshot holds exactly the tasks it is named after. */
  lemma SnapshotShows(ts: Tasks, active: bool, level: Level, now: int, after: int, t: Id, a: Agent)
    requires ts.Valid()
    ensures var sit := Snapshot(ts, active, level, now, after);
            && (t in sit.needsReview <==> t in ts.at && ts.at[t].status == InReview)
            && (t in sit.blocked <==> t in ts.at && ts.at[t].status == Status.Blocked)
            && (t in sit.failures <==> t in ts.at && ts.at[t].status == Abandoned)
            && (t in sit.ready <==> t in ts.at && ts.at[t].status == Todo && ts.at[t].owner == None && DepsDone(t, ts))
            && (a in sit.openByAgent <==>
                  exists x :: x in ts.at && AtWork(ts.at[x]) && ts.at[x].owner == Some(a) && a != "")
            && (a in sit.openByAgent ==>
                  (t in sit.openByAgent[a] <==> t in ts.at && AtWork(ts.at[t]) && ts.at[t].owner == Some(a)))
            && sit.active == active && sit.level == level && sit.wedged == Faults(ts)
            && (sit.converged <==>
                  ts.order != [] && forall x :: x in ts.at ==> ts.at[x].status == Done || ts.at[x].status == Abandoned)
  {
    SnapshotLists(ts, active, level, now, after);
    ListsShow(ts, t);
    OwnersShow(ts, a, t);
  }

  ghost predicate DepsDone(t: Id, ts: Tasks)
    requires t in ts.at
  {
    forall d :: d in ts.at[t].deps ==> d in ts.at && ts.at[d].status == Done
  }

  /** The stalled tasks are the silent ones, in the order of their ids, each with its owner and its record. */
  lemma StalledAreTheSilent(ts: Tasks, now: int, after: int)
    requires ts.Valid()
    ensures var r := StalledTasks(ts, now, after);
            && (forall t :: (exists s :: s in r && s.id == t) <==> t in ts.at && Silent(ts.at[t], now, after))
            && (forall s :: s in r ==>
                  s.id in ts.at && s == Stalled(s.id, ts.at[s.id].owner, ts.at[s.id].reassignments))
            && (forall i, j :: 0 <= i < j < |r| ==> Less(r[i].id, r[j].id))
  {
    var ids, r := StalledIds(ts, now, after), StalledTasks(ts, now, after);
    var found := Select(ts.order, ts.at, t => IsStalled(t, now, after));
    SelectDistinct(ts.order, ts.at, t => IsStalled(t, now, after));
    SortDistinct(found);
    SortAscends(found);
    forall i | 0 <= i < |r|
      ensures ids[i] in ts.at && r[i] == Stalled(ids[i], ts.at[ids[i]].owner, ts.at[ids[i]].reassignments)
    {
      assert ids[i] in ids;
    }
    forall t ensures (exists s :: s in r && s.id == t) <==> t in ids {
      if t in ids {
        var i :| 0 <= i < |ids| && ids[i] == t;
        assert r[i] in r && r[i].id == t;
      }
    }
    forall i, j | 0 <= i < j < |r| ensures Less(r[i].id, r[j].id) { LessTrichotomy(ids[i], ids[j]); }
  }

  ghost predicate NoneInReview(ts: Tasks) { forall t :: t in ts.at ==> ts.at[t].status != InReview }

  ghost predicate NoneToHandOut(ts: Tasks)
  {
    forall t :: t in ts.at && ts.at[t].status == Todo && ts.at[t].owner == None ==> !DepsDone(t, ts)
  }

  ghost predicate NobodyAtWork(ts: Tasks)
  {
    forall t :: t in ts.at && AtWork(ts.at[t]) ==> ts.at[t].owner == None || ts.at[t].owner == Some("")
  }

  ghost predicate NoneSilent(ts: Tasks, now: int, after: int)
  {
    forall t :: t in ts.at ==> !Silent(ts.at[t], now, after)
  }

  ghost predicate AllEnded(ts: Tasks)
  {
    ts.order != [] && forall x :: x in ts.at ==> ts.at[x].status == Done || ts.at[x].status == Abandoned
  }

  /** Nobody is at work, nothing waits for review or to be handed out, nothing is silent, and it is not finished. */
  ghost predicate NothingToMove(ts: Tasks, now: int, after: int)
  {
    !AllEnded(ts) && NobodyAtWork(ts) && NoneInReview(ts) && NoneToHandOut(ts) && NoneSilent(ts, now, after)
  }

  lemma StuckLists(ts: Tasks, level: Level, now: int, after: int)
    ensures NextActions(Snapshot(ts, true, level, now, after)).stuck <==>
              && level != Kill && !Converged(ts) && OpenByAgent(ts) == map[] && ReadyIds(ts) == []
              && InReviewIds(ts) == [] && StalledTasks(ts, now, after) == []
  {
    SnapshotLists(ts, true, level, now, after);
  }

  lemma ReviewListEmpty(ts: Tasks)
    requires ts.Valid()
    ensures InReviewIds(ts) == [] <==> NoneInReview(ts)
  {
    HasMember(InReviewIds(ts));
  }

  lemma ReadyListEmpty(ts: Tasks)
    requires ts.Valid()
    ensures ReadyIds(ts) == [] <==> NoneToHandOut(ts)
  {
    HasMember(ReadyIds(ts));
    forall t | t in ts.at ensures DepsMet(ts.at[t], ts.at) <==> DepsDone(t, ts) {}
  }

  lemma WorkListEmpty(ts: Tasks)
    requires ts.Valid()
    ensures OpenByAgent(ts) == map[] <==> NobodyAtWork(ts)
  {
    if OpenByAgent(ts) != map[] {
      var a :| a in OpenByAgent(ts);
      OwnersShow(ts, a, "");
    } else {
      forall t | t in ts.at && AtWork(ts.at[t]) && ts.at[t].owner.Some? ensures ts.at[t].owner == Some("") {
        OwnersShow(ts, ts.at[t].owner.value, t);
      }
    }
  }

  lemma NoneStalled(ts: Tasks, now: int, after: int)
    requires ts.Valid()
    ensures StalledTasks(ts, now, after) == [] <==> NoneSilent(ts, now, after)
  {
    var r := StalledTasks(ts, now, after);
    StalledAreTheSilent(ts, now, after);
    if r != [] {
      assert r[0] in r;
      assert exists s :: s in r && s.id == r[0].id;
    }
  }

  /** The run is called stuck exactly then. */
  lemma StuckExactlyWhen(ts: Tasks, level: Level, now: int, after: int)
    requires ts.Valid()
    ensures NextActions(Snapshot(ts, true, level, now, after)).stuck <==> level != Kill && NothingToMove(ts, now, after)
  {
    StuckLists(ts, level, now, after);
    ReviewListEmpty(ts);
    ReadyListEmpty(ts);
    WorkListEmpty(ts);
    NoneStalled(ts, now, after);
    EndedIsConverged(ts);
  }

  lemma EndedIsConverged(ts: Tasks)
    ensures Converged(ts) <==> AllEnded(ts)
  {
  }

  // ---- a stuck run ----------------------------------------------------------

  /** A task its own status and owner contradict: open but nobody's, or waiting in the pool but owned. */
  predicate Orphan(t: Task)
  {
    (Open(t.status) && !Truthy(t.owner)) || (t.status == Todo && t.owner != None)
  }

  predicate NeedsTriage(t: Id, ts: Tasks)
  {
    t in ts.at && (ts.at[t].status == Status.Blocked || t in Faults(ts))
  }

  /** Following dependencies from `t` leads to `w`'s last task, through unfinished tasks only. */
  ghost predicate DependencyWalk(w: seq<Id>, t: Id, at: map<Id, Task>)
  {
    w != [] && w[0] == t && forall i, j :: 0 <= i && j == i + 1 && j < |w| ==> WaitsFor(w[i], w[j], at)
  }

  /** What the four empty lists of a stuck snapshot mean for each task. */
  ghost predicate NothingMoves(ts: Tasks)
  {
    forall t :: t in ts.at ==>
      && ts.at[t].status != InReview && !ReadyUnassigned(ts.at[t], ts.at)
      && !(Open(ts.at[t].status) && Truthy(ts.at[t].owner))
  }

  lemma OpenOwnersListed(ts: Tasks)
    ensures forall t :: t in ts.at && Open(ts.at[t].status) && Truthy(ts.at[t].owner) ==>
              ts.at[t].owner.value in OpenByAgent(ts)
  {
  }

  lemma StuckMeansNothingMoves(ts: Tasks, level: Level, now: int, after: int)
    requires ts.Valid() && NextActions(Snapshot(ts, true, level, now, after)).stuck
    ensures NothingMoves(ts) && !Converged(ts)
  {
    OpenOwnersListed(ts);
    forall t | t in ts.at
      ensures ts.at[t].status != InReview && !ReadyUnassigned(ts.at[t], ts.at)
      ensures !(Open(ts.at[t].status) && Truthy(ts.at[t].owner))
    {
      assert t !in InReviewIds(ts) && t !in ReadyIds(ts);
    }
  }

  /** In a run where nothing moves, an unreported task that is no orphan waits for another unfinished one. */
  ghost predicate RankedBy(ts: Tasks, rank: map<Id, nat>)
  {
    forall a, b :: WaitsFor(a, b, ts.at) && a !in Faults(ts) ==> FallsAlong(rank, a, b)
  }

  lemma WaitsForSomething(ts: Tasks, rank: map<Id, nat>, t: Id) returns (d: Id)
    requires ts.Valid() && NothingMoves(ts) && Unfinished(t, ts.at) && RankedBy(ts, rank)
    requires !NeedsTriage(t, ts) && !Orphan(ts.at[t])
    ensures WaitsFor(t, d, ts.at) && FallsAlong(rank, t, d)
  {
    if forall x :: !WaitsFor(t, x, ts.at) {
      WaitsForNothing(ts, t);
      assert false;
    }
    d :| WaitsFor(t, d, ts.at);
  }

  ghost predicate InTrouble(t: Id, ts: Tasks) { NeedsTriage(t, ts) || (t in ts.at && Orphan(ts.at[t])) }

  lemma {:induction false} TroubleBelow(ts: Tasks, rank: map<Id, nat>, t: Id) returns (w: seq<Id>)
    requires ts.Valid() && NothingMoves(ts) && Unfinished(t, ts.at) && RankedBy(ts, rank)
    ensures DependencyWalk(w, t, ts.at) && InTrouble(w[|w| - 1], ts)
    decreases if t in rank then rank[t] else 0
  {
    w := [t];
    if !InTrouble(t, ts) {
      var d := WaitsForSomething(ts, rank, t);
      var rest := TroubleBelow(ts, rank, d);
      PrependStep(rest, t, d, ts.at);
      w := [t] + rest;
    }
  }

  lemma PrependStep(w: seq<Id>, t: Id, d: Id, at: map<Id, Task>)
    requires DependencyWalk(w, d, at) && WaitsFor(t, d, at)
    ensures DependencyWalk([t] + w, t, at) && ([t] + w)[|w|] == w[|w| - 1]
  {
    var v := [t] + w;
    forall i, j | 0 <= i && j == i + 1 && j < |v| ensures WaitsFor(v[i], v[j], at) {
      assert v[j] == w[i];
      if i > 0 { assert v[i] == w[i - 1]; }
    }
  }

  /** In a stuck run every unfinished task leads, by its dependencies, to one that needs a decision or an orphan. */
  lemma StuckLeadsToTrouble(ts: Tasks, level: Level, now: int, after: int, t: Id)
    requires ts.Valid() && NextActions(Snapshot(ts, true, level, now, after)).stuck && Unfinished(t, ts.at)
    ensures exists w :: DependencyWalk(w, t, ts.at)
                     && (NeedsTriage(w[|w| - 1], ts) || (w[|w| - 1] in ts.at && Orphan(ts.at[w[|w| - 1]])))
  {
    StuckMeansNothingMoves(ts, level, now, after);
    var rank := FaultsRanked(ts);
    var w := TroubleBelow(ts, rank, t);
  }

  /** With every open task owned and every pooled task unowned, a stuck run always has something to triage. */
  lemma StuckIsTriaged(ts: Tasks, level: Level, now: int, after: int)
    requires ts.Valid() && NextActions(Snapshot(ts, true, level, now, after)).stuck
    requires forall t :: t in ts.at ==> !Orphan(ts.at[t])
    ensures NextActions(Snapshot(ts, true, level, now, after)).triage == {} <==> ts.order == []
  {
    var triage := NextActions(Snapshot(ts, true, level, now, after)).triage;
    if ts.order == [] {
      forall t ensures t !in triage {
        if t in Faults(ts) { FaultLabelsAreTrue(ts, t); }
      }
    } else {
      StuckMeansNothingMoves(ts, level, now, after);
      var t :| t in ts.at && !Terminal(ts.at[t].status);
      StuckLeadsToTrouble(ts, level, now, after, t);
      var w :| DependencyWalk(w, t, ts.at)
        && (NeedsTriage(w[|w| - 1], ts) || (w[|w| - 1] in ts.at && Orphan(ts.at[w[|w| - 1]])));
      TriageHolds(ts, level, now, after, w[|w| - 1]);
    }
  }

  lemma TriageHolds(ts: Tasks, level: Level, now: int, after: int, t: Id)
    requires ts.Valid() && NextActions(Snapshot(ts, true, level, now, after)).stuck
    ensures t in NextActions(Snapshot(ts, true, level, now, after)).triage <==> NeedsTriage(t, ts)
  {
    if t in Faults(ts) { FaultLabelsAreTrue(ts, t); }
  }

  /** Block then unblock: open, unowned, and invisible to the snapshot of a run that is stuck on it. */
  lemma OrphanHidesFromTriage()
    ensures var e := (k: Kind) => Event(k, "t", None, NoStamp);
            var ts := Fold([e(TaskCreated(None, None, [])), e(TaskBlocked), e(TaskUnblocked)]);
            var acts := NextActions(Snapshot(ts, true, Fine, 0, 1800));
            acts.stuck && acts.triage == {} && ts.order == ["t"]
  {
    var e := (k: Kind) => Event(k, "t", None, NoStamp);
    var log := [e(TaskCreated(None, None, [])), e(TaskBlocked), e(TaskUnblocked)];
    assert log[..2] == [e(TaskCreated(None, None, [])), e(TaskBlocked)];
    assert log[..2][..1] == [e(TaskCreated(None, None, []))];
    assert log[..2][..1][..0] == [];
    assert Fold(log[..2][..1]) == Apply(Fold([]), e(TaskCreated(None, None, [])));
    assert Fold(log[..2]) == Apply(Fold(log[..2][..1]), e(TaskBlocked));
    assert Fold(log) == Apply(Fold(log[..2]), e(TaskUnblocked));
    FoldValid(log);
    OrphanAlone(Fold(log));
  }

  ghost predicate IsLoneOrphan(ts: Tasks)
  {
    && ts.Valid() && ts.order == ["t"] && ts.at["t"].status == InProgress && ts.at["t"].owner == None
    && ts.at["t"].deps == [] && ts.at["t"].lastEvent == NoStamp
  }

  lemma OrphanNotReported(ts: Tasks)
    requires IsLoneOrphan(ts)
    ensures Faults(ts) == map[]
  {
    assert forall t :: t in ts.at ==> t in ts.order && t == "t";
    forall t | t in Faults(ts) ensures false {
      FaultedIsNotReady(ts, t);
    }
  }

  lemma OrphanNotListed(ts: Tasks)
    requires IsLoneOrphan(ts)
    ensures StalledIds(ts, 0, 1800) == [] && InReviewIds(ts) == [] && ReadyIds(ts) == [] && BlockedIds(ts) == []
    ensures OpenOwners(ts) == {}
  {
    assert forall t :: t in ts.at ==> t in ts.order;
    HasMember(StalledIds(ts, 0, 1800));
    HasMember(InReviewIds(ts));
    HasMember(ReadyIds(ts));
    HasMember(BlockedIds(ts));
  }

  lemma OrphanAlone(ts: Tasks)
    requires IsLoneOrphan(ts)
    ensures var acts := NextActions(Snapshot(ts, true, Fine, 0, 1800)); acts.stuck && acts.triage == {}
  {
    OrphanNotReported(ts);
    OrphanNotListed(ts);
    EmptySnapshotIsStuck(Snapshot(ts, true, Fine, 0, 1800));
    assert !Terminal(ts.at["t"].status);
  }

  lemma EmptySnapshotIsStuck(sit: Situation)
    requires sit.active && sit.level != Kill && !sit.converged && sit.openByAgent == map[] && sit.ready == []
    requires sit.needsReview == [] && sit.stalled == [] && sit.blocked == [] && sit.wedged == map[]
    ensures NextActions(sit).stuck && NextActions(sit).triage == {}
  {
  }
}
