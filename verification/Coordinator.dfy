/** The coordinator's toolkit: hand out ready work, take a snapshot of the run, say what to do next. */
module Coordinator {
  import opened Order
  import opened BoardModel
  import opened DependencyFaults

  // ---- assign_ready ---------------------------------------------------------

  /** One entry of `agent_scopes`. */
  datatype Worker = Worker(name: Agent, scopes: seq<string>)

  type Loads = map<Agent, nat>

  function Names(roster: seq<Worker>): (r: seq<Agent>)
    ensures |r| == |roster| && forall i :: 0 <= i < |r| ==> r[i] == roster[i].name
  {
    seq(|roster|, i requires 0 <= i < |roster| => roster[i].name)
  }

  function InScope(scope: Option<string>, roster: seq<Worker>): set<Agent>
  {
    set w | w in roster && (scope.None? || scope.value in w.scopes) :: w.name
  }

  /** Who may take a task: a scope match if there is one, minus the avoided if anyone is left. */
  function Eligible(scope: Option<string>, roster: seq<Worker>, avoided: set<Agent>): (r: seq<Agent>)
    requires roster != []
    ensures r != [] && forall a :: a in r ==> a in Names(roster)
    ensures InScope(scope, roster) != {} ==> forall a :: a in r ==> a in InScope(scope, roster)
    ensures (exists a :: a in r && a in avoided) ==>
              forall a :: a in Names(roster) && a !in avoided
                  ==> InScope(scope, roster) != {} && a !in InScope(scope, roster)
  {
    var matching := Keep(Names(roster), InScope(scope, roster));
    assert InScope(scope, roster) != {} ==> matching != [] by {
      if a :| a in InScope(scope, roster) {
        var w :| w in roster && w.name == a;
        var i :| 0 <= i < |roster| && roster[i] == w;
        assert Names(roster)[i] == a;
        assert a in matching;
      }
    }
    assert Names(roster)[0] in Names(roster);
    var eligible := if matching == [] then Names(roster) else matching;
    var left := Keep(eligible, (set a | a in eligible) - avoided);
    assert forall a :: a in left <==> a in eligible && a !in avoided;
    if left == [] then eligible else left
  }

  /** The key `(load, name)` orders candidates: lighter first, then by name. */
  predicate Before(a: Agent, b: Agent, load: Loads)
    requires a in load && b in load
  {
    load[a] < load[b] || (load[a] == load[b] && Less(a, b))
  }

  /** `min(eligible, key=...)`. */
  function Lightest(eligible: seq<Agent>, load: Loads): (r: Agent)
    requires eligible != [] && forall a :: a in eligible ==> a in load
    ensures r in eligible && forall a :: a in eligible ==> load[r] <= load[a] && !Before(a, r, load)
  {
    if |eligible| == 1 then
      LessTrichotomy(eligible[0], eligible[0]);
      eligible[0]
    else
      var rest := Lightest(eligible[1..], load);
      LightestOfTwo(eligible, rest, load);
      if Before(rest, eligible[0], load) then rest else eligible[0]
  }

  lemma LightestOfTwo(eligible: seq<Agent>, rest: Agent, load: Loads)
    requires |eligible| > 1 && forall a :: a in eligible ==> a in load
    requires rest in eligible[1..] && forall a :: a in eligible[1..] ==> load[rest] <= load[a] && !Before(a, rest, load)
    ensures var r := if Before(rest, eligible[0], load) then rest else eligible[0];
            forall a :: a in eligible ==> load[r] <= load[a] && !Before(a, r, load)
  {
    var first := eligible[0];
    forall a | a in eligible
      ensures var r := if Before(rest, first, load) then rest else first;
              load[r] <= load[a] && !Before(a, r, load)
    {
      assert a == first || a in eligible[1..];
      LessTrichotomy(first, first);
      LessTrichotomy(rest, first);
      LessTrichotomy(a, rest);
      LessTrichotomy(a, first);
      if Less(a, first) && Less(first, rest) { LessTransitive(a, first, rest); }
    }
  }

  datatype Assignment = Assignment(task: Id, owner: Agent)

  function AvoidedFor(t: Id, avoid: map<Id, set<Agent>>): set<Agent>
  {
    if t in avoid then avoid[t] else {}
  }

  function Choose(t: Task, roster: seq<Worker>, avoid: map<Id, set<Agent>>, load: Loads): (a: Agent)
    requires roster != [] && forall n :: n in Names(roster) ==> n in load
    ensures a in Names(roster)
  {
    Lightest(Eligible(t.scope, roster, AvoidedFor(t.id, avoid)), load)
  }

  function Bump(load: Loads, a: Agent): Loads
  {
    if a in load then load[a := load[a] + 1] else load
  }

  /** The assignments made for the ready tasks `ids`, one after the other. */
  function Place(ids: seq<Id>, at: map<Id, Task>, roster: seq<Worker>, avoid: map<Id, set<Agent>>, load: Loads)
    : seq<Assignment>
    requires roster != [] && (forall n :: n in Names(roster) ==> n in load) && forall t :: t in ids ==> t in at
  {
    if ids == [] then []
    else
      var a := Choose(at[ids[0]], roster, avoid, load);
      [Assignment(ids[0], a)] + Place(ids[1..], at, roster, avoid, Bump(load, a))
  }

  lemma {:induction false} PlaceShape(
    ids: seq<Id>, at: map<Id, Task>, roster: seq<Worker>, avoid: map<Id, set<Agent>>, load: Loads)
    requires roster != [] && (forall n :: n in Names(roster) ==> n in load) && forall t :: t in ids ==> t in at
    ensures |Place(ids, at, roster, avoid, load)| == |ids|
    ensures forall i :: 0 <= i < |ids| ==>
              var m := Place(ids, at, roster, avoid, load)[i];
              m.task == ids[i] && m.owner in Names(roster)
    decreases |ids|
  {
    if ids != [] {
      var a := Choose(at[ids[0]], roster, avoid, load);
      PlaceShape(ids[1..], at, roster, avoid, Bump(load, a));
    }
  }

  function Bumped(load: Loads, made: seq<Assignment>): (r: Loads)
    ensures r.Keys == load.Keys
  {
    if made == [] then load else Bumped(Bump(load, made[0].owner), made[1..])
  }

  function AssignedEvent(m: Assignment, now: Stamp): Event
  {
    Event(TaskAssigned(Some(m.owner)), m.task, Some("coordinator"), now)
  }

  function AssignedEvents(made: seq<Assignment>, now: Stamp): (r: seq<Event>)
    ensures |r| == |made| && forall i :: 0 <= i < |r| ==> r[i] == AssignedEvent(made[i], now)
  {
    seq(|made|, i requires 0 <= i < |made| => AssignedEvent(made[i], now))
  }

  /** How many open tasks the fold says `a` owns. */
  function LoadOf(a: Agent, ts: Tasks): nat { OpenCount(a, ts.order, ts.at) }

  function OpenCount(a: Agent, ids: seq<Id>, at: map<Id, Task>): nat
  {
    if ids == [] then 0
    else
      var t := ids[|ids| - 1];
      OpenCount(a, ids[..|ids| - 1], at)
        + if t in at && at[t].owner == Some(a) && Open(at[t].status) then 1 else 0
  }

  function LoadTable(names: seq<Agent>, ts: Tasks): Loads
  {
    map a | a in names :: LoadOf(a, ts)
  }

  function Ready(ts: Tasks): seq<Id>
  {
    Select(ts.order, ts.at, t => ReadyUnassigned(t, ts.at))
  }

  function AssignReady(log: seq<Event>, roster: seq<Worker>, avoid: map<Id, set<Agent>>): seq<Assignment>
  {
    var ts := Fold(log);
    if roster == [] then [] else Place(Ready(ts), ts.at, roster, avoid, LoadTable(Names(roster), ts))
  }

  // ---- what assignment does to the board ------------------------------------

  /** Those of `made` are distinct, unowned and `todo`: every guarded assignment goes through. */
  ghost predicate Placeable(made: seq<Assignment>, ts: Tasks)
  {
    && (forall i, j :: 0 <= i < j < |made| ==> made[i].task != made[j].task)
    && (forall m :: m in made ==> m.task in ts.at && ts.at[m.task].status == Todo && ts.at[m.task].owner == None)
  }

  lemma AssignStep(log: seq<Event>, made: seq<Assignment>, now: Stamp)
    requires made != [] && Placeable(made, Fold(log))
    ensures var ts, ts' := Fold(log), Fold(log + [AssignedEvent(made[0], now)]);
            && ts' == Tasks(ts.order, ts.at[made[0].task := Touch(ts.at[made[0].task], AssignedEvent(made[0], now))])
            && Placeable(made[1..], ts')
    ensures log + AssignedEvents(made, now) == (log + [AssignedEvent(made[0], now)]) + AssignedEvents(made[1..], now)
  {
    var ts, e := Fold(log), AssignedEvent(made[0], now);
    FoldSnoc(log, e);
    assert made[0] in made;
    assert Apply(ts, e) == Tasks(ts.order, ts.at[made[0].task := Touch(ts.at[made[0].task], e)]);
    RestPlaceable(made, ts, Apply(ts, e));
    EventsHead(made, now);
    AppendsAssociate(log, [e], AssignedEvents(made[1..], now));
  }

  lemma EventsHead(made: seq<Assignment>, now: Stamp)
    requires made != []
    ensures AssignedEvents(made, now) == [AssignedEvent(made[0], now)] + AssignedEvents(made[1..], now)
  {
    var l, r := AssignedEvents(made, now), AssignedEvents(made[1..], now);
    forall i | 0 < i < |l| ensures l[i] == r[i - 1] {
      assert made[i] == made[1..][i - 1];
    }
  }

  lemma AppendsAssociate<T>(a: seq<T>, b: seq<T>, c: seq<T>)
    ensures a + (b + c) == (a + b) + c
  {
  }

  lemma RestPlaceable(made: seq<Assignment>, ts: Tasks, ts': Tasks)
    requires made != [] && Placeable(made, ts) && ts'.at.Keys == ts.at.Keys
    requires forall t :: t in ts.at && t != made[0].task ==> ts'.at[t] == ts.at[t]
    ensures Placeable(made[1..], ts')
  {
    RestAreOthers(made, ts);
  }

  lemma RestAreOthers(made: seq<Assignment>, ts: Tasks)
    requires made != [] && Placeable(made, ts)
    ensures forall m :: m in made <==> m == made[0] || m in made[1..]
    ensures forall m :: m in made[1..] ==> m.task != made[0].task
  {
    forall m | m in made[1..] ensures m in made && m.task != made[0].task {
      var i :| 0 <= i < |made[1..]| && made[1..][i] == m;
      assert made[i + 1] == m;
    }
  }

  /** Exactly those of `made` change: they become `assigned`, to their owner. */
  lemma {:induction false} AssignmentsApplied(log: seq<Event>, made: seq<Assignment>, now: Stamp)
    requires Placeable(made, Fold(log))
    ensures var ts, ts' := Fold(log), Fold(log + AssignedEvents(made, now));
            && ts'.order == ts.order && ts'.at.Keys == ts.at.Keys
            && (forall t :: t in ts.at && (forall m :: m in made ==> m.task != t) ==> ts'.at[t] == ts.at[t])
            && (forall m :: m in made ==>
                  ts'.at[m.task].status == Assigned && ts'.at[m.task].owner == Or(Some(m.owner), None))
    decreases |made|
  {
    if made == [] {
      assert log + AssignedEvents(made, now) == log;
    } else {
      AssignStep(log, made, now);
      AssignmentsApplied(log + [AssignedEvent(made[0], now)], made[1..], now);
      RestAreOthers(made, Fold(log));
    }
  }

  lemma ReadyArePlaceable(log: seq<Event>, roster: seq<Worker>, avoid: map<Id, set<Agent>>)
    ensures Placeable(AssignReady(log, roster, avoid), Fold(log))
    ensures roster != [] ==> forall t :: t in Ready(Fold(log)) ==>
        exists m :: m in AssignReady(log, roster, avoid) && m.task == t
  {
    FoldValid(log);
    var ts, made := Fold(log), AssignReady(log, roster, avoid);
    var ready := Ready(ts);
    SelectDistinct(ts.order, ts.at, t => ReadyUnassigned(t, ts.at));
    if roster != [] {
      PlaceShape(ready, ts.at, roster, avoid, LoadTable(Names(roster), ts));
      OneEach(ready, made);
    }
  }

  lemma OneEach(ids: seq<Id>, made: seq<Assignment>)
    requires |made| == |ids| && forall i :: 0 <= i < |ids| ==> made[i].task == ids[i]
    ensures forall m :: m in made ==> m.task in ids
    ensures forall t :: t in ids ==> exists m :: m in made && m.task == t
  {
    forall t | t in ids ensures exists m :: m in made && m.task == t {
      var i :| 0 <= i < |ids| && ids[i] == t;
      assert made[i] in made;
    }
  }

  ghost predicate NothingReady(ts: Tasks)
  {
    forall t :: t in ts.at ==> !ReadyUnassigned(ts.at[t], ts.at)
  }

  /** After one pass with somebody on the roster, nothing is left ready and unowned. */
  lemma NothingLeftReady(log: seq<Event>, roster: seq<Worker>, avoid: map<Id, set<Agent>>, now: Stamp)
    requires roster != []
    ensures NothingReady(Fold(log + AssignedEvents(AssignReady(log, roster, avoid), now)))
  {
    var made := AssignReady(log, roster, avoid);
    FoldValid(log);
    ReadyArePlaceable(log, roster, avoid);
    AssignmentsApplied(log, made, now);
    AssignedNotReady(made, Fold(log), Fold(log + AssignedEvents(made, now)));
  }

  lemma AssignedNotReady(made: seq<Assignment>, ts: Tasks, ts': Tasks)
    requires ts.Valid() && Placeable(made, ts) && ts'.at.Keys == ts.at.Keys
    requires forall t :: t in Ready(ts) ==> exists m :: m in made && m.task == t
    requires forall t :: t in ts.at && (forall m :: m in made ==> m.task != t) ==> ts'.at[t] == ts.at[t]
    requires forall m :: m in made ==> ts'.at[m.task].status == Assigned
    ensures NothingReady(ts')
  {
    forall t | t in ts'.at ensures !ReadyUnassigned(ts'.at[t], ts'.at) {
      if forall m :: m in made ==> m.task != t {
        assert t !in Ready(ts);
        assert ts'.at[t] == ts.at[t];
        if !DepsMet(ts.at[t], ts.at) {
          var d :| d in ts.at[t].deps && !(d in ts.at && ts.at[d].status == Done);
          assert !(d in ts'.at && ts'.at[d].status == Done);
        }
      }
    }
  }

  // ---- the load table -------------------------------------------------------

  lemma {:induction false} LoadAfterAssign(ids: seq<Id>, at: map<Id, Task>, t: Id, task: Task, a: Agent, b: Agent)
    requires Distinct(ids) && t in at && at[t].owner == None && task.owner == Some(a) && Open(task.status)
    ensures OpenCount(b, ids, at[t := task]) == OpenCount(b, ids, at) + if a == b && t in ids then 1 else 0
    decreases |ids|
  {
    if ids != [] {
      LoadAfterAssign(ids[..|ids| - 1], at, t, task, a, b);
      assert ids == ids[..|ids| - 1] + [ids[|ids| - 1]];
    }
  }

  /** The running load table equals the load recomputed from the new fold, at every agent. */
  lemma {:induction false} LoadTableStaysExact(log: seq<Event>, made: seq<Assignment>, now: Stamp, load: Loads)
    requires Placeable(made, Fold(log))
    requires forall m :: m in made ==> m.owner in load && m.owner != ""
    requires forall a :: a in load ==> load[a] == LoadOf(a, Fold(log))
    ensures Bumped(load, made).Keys == load.Keys
    ensures forall a :: a in load ==> Bumped(load, made)[a] == LoadOf(a, Fold(log + AssignedEvents(made, now)))
    decreases |made|
  {
    if made == [] {
      assert log + AssignedEvents(made, now) == log;
    } else {
      AssignStep(log, made, now);
      var m, e := made[0], AssignedEvent(made[0], now);
      var load' := Bump(load, m.owner);
      FoldValid(log);
      var ts := Fold(log);
      forall a | a in load' ensures load'[a] == LoadOf(a, Fold(log + [e])) {
        LoadAfterAssign(ts.order, ts.at, m.task, Touch(ts.at[m.task], e), m.owner, a);
      }
      LoadTableStaysExact(log + [e], made[1..], now, load');
    }
  }

  /** No two of `names` are more than `gap` apart. */
  ghost predicate Spread(load: Loads, names: seq<Agent>, gap: nat)
  {
    forall a, b :: a in names && b in names ==> a in load && b in load && load[a] <= load[b] + gap
  }

  lemma SpreadStep(load: Loads, names: seq<Agent>, a: Agent, gap: nat)
    requires Spread(load, names, gap) && a in names && forall b :: b in names ==> load[a] <= load[b]
    ensures Spread(Bump(load, a), names, if gap > 1 then gap else 1)
  {
  }

  lemma UnscopedIsForAnyone(roster: seq<Worker>, a: Agent)
    requires roster != [] && a in Names(roster)
    ensures a in Eligible(None, roster, {})
  {
    var names := Names(roster);
    var i :| 0 <= i < |names| && names[i] == a;
    assert roster[i] in roster;
    assert a in InScope(None, roster);
  }

  /** Each assignment goes to an agent no other was lighter than at that moment. */
  ghost predicate Greedy(made: seq<Assignment>, load: Loads, names: seq<Agent>)
    requires forall n :: n in names ==> n in load
  {
    made != [] ==>
      && made[0].owner in names && (forall b :: b in names ==> load[made[0].owner] <= load[b])
      && Greedy(made[1..], Bump(load, made[0].owner), names)
  }

  lemma {:induction false} UnscopedPlacementIsGreedy(ids: seq<Id>, at: map<Id, Task>, roster: seq<Worker>, load: Loads)
    requires roster != [] && (forall t :: t in ids ==> t in at && at[t].scope == None)
    requires forall n :: n in Names(roster) ==> n in load
    ensures Greedy(Place(ids, at, roster, map[], load), load, Names(roster))
    decreases |ids|
  {
    if ids != [] {
      var a := Choose(at[ids[0]], roster, map[], load);
      forall b | b in Names(roster) ensures load[a] <= load[b] {
        UnscopedIsForAnyone(roster, b);
      }
      UnscopedPlacementIsGreedy(ids[1..], at, roster, Bump(load, a));
      PlaceHead(ids, at, roster, map[], load);
    }
  }

  lemma {:induction false} GreedyBalances(made: seq<Assignment>, load: Loads, names: seq<Agent>, gap: nat)
    requires Spread(load, names, gap) && Greedy(made, load, names)
    ensures forall m :: m in made ==> m.owner in names
    ensures Spread(Bumped(load, made), names, if gap > 1 then gap else 1)
    decreases |made|
  {
    if made != [] {
      var a := made[0].owner;
      SpreadStep(load, names, a, gap);
      GreedyBalances(made[1..], Bump(load, a), names, if gap > 1 then gap else 1);
    }
  }

  /** Handing unscoped tasks to anyone never widens the gap between agents beyond one. */
  lemma AssignmentBalances(log: seq<Event>, roster: seq<Worker>, now: Stamp, gap: nat)
    requires forall t :: t in Ready(Fold(log)) && t in Fold(log).at ==> Fold(log).at[t].scope == None
    requires forall a :: a in Names(roster) ==> a != ""
    requires Spread(LoadTable(Names(roster), Fold(log)), Names(roster), gap)
    ensures Spread(LoadTable(Names(roster), Fold(log + AssignedEvents(AssignReady(log, roster, map[]), now))),
                   Names(roster), if gap > 1 then gap else 1)
  {
    var made, load := AssignReady(log, roster, map[]), LoadTable(Names(roster), Fold(log));
    ReadyArePlaceable(log, roster, map[]);
    if roster != [] {
      PlaceShape(Ready(Fold(log)), Fold(log).at, roster, map[], load);
      UnscopedPlacementIsGreedy(Ready(Fold(log)), Fold(log).at, roster, load);
    }
    GreedyBalances(made, load, Names(roster), gap);
    LoadTableStaysExact(log, made, now, load);
    SameTable(Names(roster), Fold(log + AssignedEvents(made, now)), Bumped(load, made));
  }

  lemma SameTable(names: seq<Agent>, ts: Tasks, load: Loads)
    requires load.Keys == (set a | a in names) && forall a :: a in load ==> load[a] == LoadOf(a, ts)
    ensures LoadTable(names, ts) == load
  {
  }

  // ---- who gets what --------------------------------------------------------

  /** The roster says `a` takes tasks of that scope. */
  ghost predicate Takes(roster: seq<Worker>, a: Agent, scope: Option<string>)
  {
    exists w :: w in roster && w.name == a && (scope == None || scope.value in w.scopes)
  }

  ghost predicate OnRoster(roster: seq<Worker>, a: Agent) { exists w :: w in roster && w.name == a }

  ghost predicate KeptOff(avoid: map<Id, set<Agent>>, t: Id, a: Agent) { t in avoid && a in avoid[t] }

  /** Those who may be considered: agents with the scope, or anyone if nobody has it. */
  ghost predicate Candidate(roster: seq<Worker>, scope: Option<string>, a: Agent)
  {
    OnRoster(roster, a) && ((exists b :: Takes(roster, b, scope)) ==> Takes(roster, a, scope))
  }

  /** Of those, the ones not kept off the task, unless that is all of them. */
  ghost predicate MayGet(roster: seq<Worker>, avoid: map<Id, set<Agent>>, t: Id, scope: Option<string>, a: Agent)
  {
    && Candidate(roster, scope, a)
    && ((exists b :: Candidate(roster, scope, b) && !KeptOff(avoid, t, b)) ==> !KeptOff(avoid, t, a))
  }

  function Given(made: seq<Assignment>, a: Agent): nat
  {
    if made == [] then 0 else Given(made[..|made| - 1], a) + if made[|made| - 1].owner == a then 1 else 0
  }

  /** `b` is served before `a`: fewer open tasks on the board and handed out since, or as many and an earlier name. */
  predicate ServedBefore(b: Agent, a: Agent, ts: Tasks, since: seq<Assignment>)
  {
    var x, y := LoadOf(b, ts) + Given(since, b), LoadOf(a, ts) + Given(since, a);
    x < y || (x == y && Less(b, a))
  }

  lemma NamesAreTheRoster(roster: seq<Worker>, a: Agent)
    ensures a in Names(roster) <==> OnRoster(roster, a)
  {
    if a in Names(roster) {
      var i :| 0 <= i < |roster| && Names(roster)[i] == a;
      assert roster[i] in roster;
    }
    if w :| w in roster && w.name == a {
      var i :| 0 <= i < |roster| && roster[i] == w;
      assert Names(roster)[i] == a;
    }
  }

  lemma InScopeTakes(roster: seq<Worker>, scope: Option<string>, a: Agent)
    ensures a in InScope(scope, roster) <==> Takes(roster, a, scope)
  {
  }

  lemma ConsideredIsCandidate(roster: seq<Worker>, scope: Option<string>, a: Agent)
    ensures Considered(scope, roster, a) <==> Candidate(roster, scope, a)
  {
    NamesAreTheRoster(roster, a);
    InScopeTakes(roster, scope, a);
    if b :| Takes(roster, b, scope) {
      InScopeTakes(roster, scope, b);
    }
    if b :| b in InScope(scope, roster) {
      InScopeTakes(roster, scope, b);
    }
  }

  lemma EligibleMayGet(roster: seq<Worker>, avoid: map<Id, set<Agent>>, t: Id, scope: Option<string>)
    requires roster != []
    ensures forall a :: a in Eligible(scope, roster, AvoidedFor(t, avoid)) <==> MayGet(roster, avoid, t, scope, a)
  {
    forall a
      ensures Considered(scope, roster, a) <==> Candidate(roster, scope, a)
      ensures a in AvoidedFor(t, avoid) <==> KeptOff(avoid, t, a)
    {
      ConsideredIsCandidate(roster, scope, a);
    }
    EligibleMeans(scope, roster, AvoidedFor(t, avoid));
  }

  /** `Eligible`, membership only. */
  lemma EligibleMeans(scope: Option<string>, roster: seq<Worker>, avoided: set<Agent>)
    requires roster != []
    ensures forall a :: a in Eligible(scope, roster, avoided) <==>
              && Considered(scope, roster, a)
              && ((exists b :: Considered(scope, roster, b) && b !in avoided) ==> a !in avoided)
  {
    var matching := Keep(Names(roster), InScope(scope, roster));
    var eligible := if matching == [] then Names(roster) else matching;
    assert Names(roster)[0] in Names(roster);
    HasMember(matching);
    assert forall a :: a in InScope(scope, roster) ==> a in Names(roster) by {
      forall a | a in InScope(scope, roster) ensures a in Names(roster) { NamesAreTheRoster(roster, a); }
    }
    assert forall a :: a in eligible <==> Considered(scope, roster, a);
    var left := Keep(eligible, (set a | a in eligible) - avoided);
    HasMember(left);
    assert forall a :: a in left <==> a in eligible && a !in avoided;
  }

  ghost predicate Considered(scope: Option<string>, roster: seq<Worker>, a: Agent)
  {
    a in Names(roster) && (InScope(scope, roster) != {} ==> a in InScope(scope, roster))
  }

  /** The running table is the board's load and what was given since. */
  ghost predicate TableIs(load: Loads, roster: seq<Worker>, ts: Tasks, since: seq<Assignment>)
  {
    forall a :: a in Names(roster) ==> a in load && load[a] == LoadOf(a, ts) + Given(since, a)
  }

  lemma ChosenByRule(t: Task, roster: seq<Worker>, avoid: map<Id, set<Agent>>, load: Loads, ts: Tasks,
      since: seq<Assignment>)
    requires roster != [] && TableIs(load, roster, ts, since)
    ensures var a := Choose(t, roster, avoid, load);
            && MayGet(roster, avoid, t.id, t.scope, a)
            && forall b :: MayGet(roster, avoid, t.id, t.scope, b) ==> !ServedBefore(b, a, ts, since)
  {
    EligibleMayGet(roster, avoid, t.id, t.scope);
  }

  lemma TableAfter(load: Loads, roster: seq<Worker>, ts: Tasks, since: seq<Assignment>, m: Assignment)
    requires TableIs(load, roster, ts, since) && m.owner in Names(roster)
    ensures TableIs(Bump(load, m.owner), roster, ts, since + [m])
  {
    assert (since + [m])[..|since|] == since;
  }

  /** The `i`th assignment goes to an agent who may get it and whom no other such agent is served before. */
  ghost predicate ByRule(made: seq<Assignment>, i: nat, at: map<Id, Task>, roster: seq<Worker>,
      avoid: map<Id, set<Agent>>, ts: Tasks, since: seq<Assignment>)
    requires i < |made|
  {
    var m := made[i];
    && m.task in at && MayGet(roster, avoid, m.task, at[m.task].scope, m.owner)
    && forall b :: MayGet(roster, avoid, m.task, at[m.task].scope, b) ==>
         !ServedBefore(b, m.owner, ts, since + made[..i])
  }

  lemma RuleShifts(made: seq<Assignment>, i: nat, at: map<Id, Task>, roster: seq<Worker>,
      avoid: map<Id, set<Agent>>, ts: Tasks, since: seq<Assignment>)
    requires 0 < i < |made| && ByRule(made[1..], i - 1, at, roster, avoid, ts, since + [made[0]])
    ensures ByRule(made, i, at, roster, avoid, ts, since)
  {
    assert made[1..][i - 1] == made[i];
    assert since + [made[0]] + made[1..][..i - 1] == since + made[..i];
  }

  lemma PlaceSplits(ids: seq<Id>, at: map<Id, Task>, roster: seq<Worker>, avoid: map<Id, set<Agent>>, load: Loads)
    requires roster != [] && (forall n :: n in Names(roster) ==> n in load) && forall t :: t in ids ==> t in at
    requires ids != []
    ensures var made := Place(ids, at, roster, avoid, load);
            && |made| == |ids| && made[0] == Assignment(ids[0], Choose(at[ids[0]], roster, avoid, load))
            && made[1..] == Place(ids[1..], at, roster, avoid, Bump(load, made[0].owner))
  {
    PlaceShape(ids, at, roster, avoid, load);
  }

  lemma {:induction false} PlacedByRule(ids: seq<Id>, at: map<Id, Task>, roster: seq<Worker>,
      avoid: map<Id, set<Agent>>, load: Loads, ts: Tasks, since: seq<Assignment>, i: nat)
    requires roster != [] && (forall n :: n in Names(roster) ==> n in load)
    requires (forall t :: t in ids ==> t in at && at[t].id == t) && TableIs(load, roster, ts, since) && i < |ids|
    ensures |Place(ids, at, roster, avoid, load)| == |ids|
    ensures ByRule(Place(ids, at, roster, avoid, load), i, at, roster, avoid, ts, since)
    decreases i
  {
    var made := Place(ids, at, roster, avoid, load);
    PlaceSplits(ids, at, roster, avoid, load);
    if i == 0 {
      ChosenByRule(at[ids[0]], roster, avoid, load, ts, since);
      assert since + made[..0] == since;
    } else {
      TableAfter(load, roster, ts, since, made[0]);
      PlacedByRule(ids[1..], at, roster, avoid, Bump(load, made[0].owner), ts, since + [made[0]], i - 1);
      RuleShifts(made, i, at, roster, avoid, ts, since);
    }
  }

  /**
   * Each assignment goes to an agent with the task's scope, if anyone has it, and not to one who is kept off the task,
   * unless nobody else is left; and no such agent has fewer open tasks at that moment, or as many and an earlier name.
   */
  lemma HandedOutByRule(log: seq<Event>, roster: seq<Worker>, avoid: map<Id, set<Agent>>, i: nat)
    requires i < |AssignReady(log, roster, avoid)|
    ensures ByRule(AssignReady(log, roster, avoid), i, Fold(log).at, roster, avoid, Fold(log), [])
  {
    var ts := Fold(log);
    FoldValid(log);
    var load := LoadTable(Names(roster), ts);
    PlaceShape(Ready(ts), ts.at, roster, avoid, load);
    PlacedByRule(Ready(ts), ts.at, roster, avoid, load, ts, [], i);
  }

  /** Assignments are made in the order the tasks are listed in. */
  lemma HandedOutInOrder(log: seq<Event>, roster: seq<Worker>, avoid: map<Id, set<Agent>>, i: nat, j: nat)
    requires i < j < |AssignReady(log, roster, avoid)|
    ensures var made := AssignReady(log, roster, avoid); ListedBefore(Fold(log).order, made[i].task, made[j].task)
  {
    var ts := Fold(log);
    FoldValid(log);
    PlaceShape(Ready(ts), ts.at, roster, avoid, LoadTable(Names(roster), ts));
    SelectKeepsOrder(ts.order, ts.at, t => ReadyUnassigned(t, ts.at), i, j);
  }

  /** Handed out are exactly the unowned tasks in the pool whose dependencies are all done. */
  lemma HandedOutAreReady(log: seq<Event>, roster: seq<Worker>, avoid: map<Id, set<Agent>>, t: Id)
    requires roster != []
    ensures (exists m :: m in AssignReady(log, roster, avoid) && m.task == t) <==>
              && t in Fold(log).at && Fold(log).at[t].status == Todo && Fold(log).at[t].owner == None
              && forall d :: d in Fold(log).at[t].deps ==> d in Fold(log).at && Fold(log).at[d].status == Done
  {
    var ts, made := Fold(log), AssignReady(log, roster, avoid);
    FoldValid(log);
    PlaceShape(Ready(ts), ts.at, roster, avoid, LoadTable(Names(roster), ts));
    OneEach(Ready(ts), made);
    assert t in Ready(ts) <==> t in ts.at && ReadyUnassigned(ts.at[t], ts.at);
  }

  ghost function OpenOf(a: Agent, ids: seq<Id>, at: map<Id, Task>): set<Id>
  {
    set t | t in ids && t in at && at[t].owner == Some(a) && (at[t].status == Assigned || at[t].status == InProgress)
  }

  lemma OpenOfSnoc(a: Agent, front: seq<Id>, t: Id, at: map<Id, Task>)
    requires t !in front
    ensures |OpenOf(a, front + [t], at)| == |OpenOf(a, front, at)| + |OpenOf(a, [t], at)|
  {
    assert OpenOf(a, front + [t], at) == OpenOf(a, front, at) + OpenOf(a, [t], at);
    assert OpenOf(a, front, at) !! OpenOf(a, [t], at);
  }

  lemma OpenOfOne(a: Agent, t: Id, at: map<Id, Task>)
    ensures |OpenOf(a, [t], at)| == OpenCount(a, [t], at)
  {
    assert [t][..0] == [];
    if t in at && at[t].owner == Some(a) && Open(at[t].status) {
      assert OpenOf(a, [t], at) == {t};
    } else {
      assert OpenOf(a, [t], at) == {};
    }
  }

  lemma {:induction false} CountIsOpenOf(a: Agent, ids: seq<Id>, at: map<Id, Task>)
    requires Distinct(ids)
    ensures OpenCount(a, ids, at) == |OpenOf(a, ids, at)|
  {
    if ids == [] {
      assert OpenOf(a, ids, at) == {};
    } else {
      var front, t := ids[..|ids| - 1], ids[|ids| - 1];
      CountIsOpenOf(a, front, at);
      OpenOfSnoc(a, front, t, at);
      OpenOfOne(a, t, at);
      assert ids == front + [t] && [t][..0] == [];
    }
  }

  /** An agent's load is the number of tasks it owns that are assigned or in progress. */
  lemma LoadCountsOpenTasks(a: Agent, log: seq<Event>)
    ensures var ts := Fold(log);
            LoadOf(a, ts) == |set t | t in ts.at && ts.at[t].owner == Some(a)
                                      && (ts.at[t].status == Assigned || ts.at[t].status == InProgress)|
  {
    var ts := Fold(log);
    FoldValid(log);
    CountIsOpenOf(a, ts.order, ts.at);
    assert OpenOf(a, ts.order, ts.at)
        == set t | t in ts.at && ts.at[t].owner == Some(a)
                   && (ts.at[t].status == Assigned || ts.at[t].status == InProgress);
  }

  // ---- assign_ready as the code runs it -------------------------------------

  method CountLoad(names: seq<Agent>, ts: Tasks) returns (load: Loads)
    requires ts.Valid()
    ensures load == LoadTable(names, ts)
  {
    load := map a | a in names :: 0;
    for i := 0 to |ts.order|
      invariant load.Keys == set a | a in names
      invariant forall a :: a in load ==> load[a] == OpenCount(a, ts.order[..i], ts.at)
    {
      var t := ts.at[ts.order[i]];
      assert ts.order[..i + 1][..i] == ts.order[..i];
      if t.owner.Some? && t.owner.value in load && Open(t.status) {
        load := load[t.owner.value := load[t.owner.value] + 1];
      }
    }
    assert ts.order[..|ts.order|] == ts.order;
    SameTable(names, ts, load);
  }

  method Assign(board: Board, roster: seq<Worker>, avoid: map<Id, set<Agent>>, now: Stamp)
    returns (made: seq<Assignment>)
    requires board.Valid()
    modifies board
    ensures board.Valid() && board.lockDepth == old(board.lockDepth)
    ensures made == AssignReady(old(board.log), roster, avoid)
    ensures board.log == old(board.log) + AssignedEvents(made, now)
  {
    made := [];
    if roster == [] {
      return;
    }
    ReadyArePlaceable(board.log, roster, avoid);
    var ts := board.ReadTasks();
    FoldValid(board.log);
    var load := CountLoad(Names(roster), ts);
    PlaceShape(Ready(ts), ts.at, roster, avoid, load);
    made := AssignEach(board, Ready(ts), ts.at, roster, avoid, load, now);
  }

  /** The loop over the ready tasks, from the snapshot taken before it. */
  method AssignEach(board: Board, ready: seq<Id>, at: map<Id, Task>, roster: seq<Worker>,
                    avoid: map<Id, set<Agent>>, initial: Loads, now: Stamp)
    returns (made: seq<Assignment>)
    requires board.Valid() && roster != []
    requires (forall n :: n in Names(roster) ==> n in initial) && forall t :: t in ready ==> t in at && at[t].id == t
    requires |Place(ready, at, roster, avoid, initial)| == |ready|
    requires Placeable(Place(ready, at, roster, avoid, initial), Fold(board.log))
    modifies board
    ensures board.Valid() && board.lockDepth == old(board.lockDepth)
    ensures made == Place(ready, at, roster, avoid, initial)
    ensures board.log == old(board.log) + AssignedEvents(made, now)
  {
    ghost var log0, all := board.log, Place(ready, at, roster, avoid, initial);
    var load := initial;
    made := [];
    assert log0 + AssignedEvents(made, now) == log0;
    for i := 0 to |ready|
      invariant board.Valid() && board.lockDepth == old(board.lockDepth)
      invariant made == all[..i] && load == Bumped(initial, made)
      invariant board.log == log0 + AssignedEvents(made, now)
    {
      PlacedAt(ready, at, roster, avoid, initial, i);
      NextTurn(log0, all, i, initial, now);
      var owner := Choose(at[ready[i]], roster, avoid, load);
      var event := board.Mutate(Call(AssignIfFree(owner), at[ready[i]].id, Some("coordinator")), now);
      if event.Some? {
        load := Bump(load, owner);
        made := made + [Assignment(at[ready[i]].id, owner)];
      }
    }
  }

  lemma {:induction false} BumpedSnoc(load: Loads, made: seq<Assignment>, m: Assignment)
    ensures Bumped(load, made + [m]) == Bump(Bumped(load, made), m.owner)
    ensures load.Keys == Bumped(load, made).Keys
    decreases |made|
  {
    if made != [] {
      assert (made + [m])[1..] == made[1..] + [m];
      BumpedSnoc(Bump(load, made[0].owner), made[1..], m);
    }
  }

  /** The i-th placement is chosen from the loads left by the ones before it. */
  lemma BumpedHead(load: Loads, all: seq<Assignment>, i: nat)
    requires 0 < i <= |all|
    ensures Bumped(load, all[..i]) == Bumped(Bump(load, all[0].owner), all[1..][..i - 1])
  {
    assert all[..i][1..] == all[1..][..i - 1];
  }

  lemma {:induction false} PlacedAt(
    ids: seq<Id>, at: map<Id, Task>, roster: seq<Worker>, avoid: map<Id, set<Agent>>, load: Loads, i: nat)
    requires roster != [] && (forall n :: n in Names(roster) ==> n in load) && forall t :: t in ids ==> t in at
    requires i < |ids| == |Place(ids, at, roster, avoid, load)|
    ensures var all := Place(ids, at, roster, avoid, load);
            all[i] == Assignment(ids[i], Choose(at[ids[i]], roster, avoid, Bumped(load, all[..i])))
    decreases |ids|
  {
    PlaceHead(ids, at, roster, avoid, load);
    var all := Place(ids, at, roster, avoid, load);
    if i > 0 {
      PlacedAt(ids[1..], at, roster, avoid, Bump(load, all[0].owner), i - 1);
      BumpedHead(load, all, i);
    }
  }

  /** The earlier assignments of a pass leave the later tasks free. */
  lemma StillFree(log: seq<Event>, all: seq<Assignment>, i: nat, now: Stamp)
    requires i < |all| && Placeable(all, Fold(log))
    ensures var ts := Fold(log + AssignedEvents(all[..i], now));
            all[i].task in ts.at && ts.at[all[i].task].status == Todo && ts.at[all[i].task].owner == None
  {
    AssignmentsApplied(log, all[..i], now);
    assert all[i] in all;
  }

  /** ... so the next one goes through. */
  lemma NextTurn(log: seq<Event>, all: seq<Assignment>, i: nat, load: Loads, now: Stamp)
    requires i < |all| && Placeable(all, Fold(log))
    ensures Appended(log + AssignedEvents(all[..i], now),
                     Call(AssignIfFree(all[i].owner), all[i].task, Some("coordinator")), now)
         == log + AssignedEvents(all[..i + 1], now)
    ensures Allowed(Call(AssignIfFree(all[i].owner), all[i].task, Some("coordinator")),
                    Fold(log + AssignedEvents(all[..i], now)))
    ensures all[..i + 1] == all[..i] + [all[i]]
    ensures Bumped(load, all[..i + 1]) == Bump(Bumped(load, all[..i]), all[i].owner)
  {
    StillFree(log, all, i, now);
    AssignedEventsSnoc(log, all[..i], all[i], now);
    BumpedSnoc(load, all[..i], all[i]);
    assert all[..i + 1] == all[..i] + [all[i]];
  }

  lemma AssignedEventsSnoc(log: seq<Event>, made: seq<Assignment>, m: Assignment, now: Stamp)
    ensures (log + AssignedEvents(made, now)) + [AssignedEvent(m, now)] == log + AssignedEvents(made + [m], now)
  {
    assert AssignedEvents(made + [m], now) == AssignedEvents(made, now) + [AssignedEvent(m, now)];
  }

  lemma PlaceHead(ids: seq<Id>, at: map<Id, Task>, roster: seq<Worker>, avoid: map<Id, set<Agent>>, load: Loads)
    requires ids != [] && roster != [] && (forall n :: n in Names(roster) ==> n in load) &&
        forall t :: t in ids ==> t in at
    ensures var a := Choose(at[ids[0]], roster, avoid, load);
            Place(ids, at, roster, avoid, load) ==
              [Assignment(ids[0], a)] + Place(ids[1..], at, roster, avoid, Bump(load, a))
  {
  }
}
