/** `dependency_faults`: which unfinished tasks can never have their dependencies satisfied. */
module DependencyFaults {
  import opened Order
  import opened BoardModel

  datatype Fault =
    | Missing(dep: Id)
    | AbandonedDep(dep: Id)
    | Cycle(walk: seq<Id>)  // t1, t2, ..., t1

  datatype Color = White | Gray | Black

  type Graph = map<Id, seq<Id>>

  // ---- missing and abandoned dependencies -----------------------------------

  predicate Unfinished(t: Id, at: map<Id, Task>) { t in at && !Terminal(at[t].status) }

  predicate Offends(d: Id, at: map<Id, Task>) { d !in at || at[d].status == Abandoned }

  function OffenceOf(d: Id, at: map<Id, Task>): Fault
  {
    if d !in at then Missing(d) else AbandonedDep(d)
  }

  /** The first offending dependency decides the label. */
  function FirstOffence(deps: seq<Id>, at: map<Id, Task>): (r: Option<Fault>)
    ensures r == None <==> forall d :: d in deps ==> !Offends(d, at)
    ensures r.Some? ==> exists i :: 0 <= i < |deps| && Offends(deps[i], at) && r.value == OffenceOf(deps[i], at)
                                  && forall j :: 0 <= j < i ==> !Offends(deps[j], at)
  {
    if deps == [] then None
    else if Offends(deps[0], at) then Some(OffenceOf(deps[0], at))
    else
      var r := FirstOffence(deps[1..], at);
      assert r.Some? ==>
          exists i :: 0 <= i < |deps[1..]| && Offends(deps[1..][i], at) && r.value == OffenceOf(deps[1..][i], at)
                      && (forall j :: 0 <= j < i ==> !Offends(deps[1..][j], at)) && deps[i + 1] == deps[1..][i];
      r
  }

  function Offences(at: map<Id, Task>): map<Id, Fault>
  {
    map t | t in at && Unfinished(t, at) && FirstOffence(at[t].deps, at).Some? :: FirstOffence(at[t].deps, at).value
  }

  // ---- the graph of unfinished tasks ----------------------------------------

  function KeepUnfinished(deps: seq<Id>, at: map<Id, Task>): (r: seq<Id>)
    ensures forall d :: d in r <==> d in deps && Unfinished(d, at)
  {
    if deps == [] then []
    else (if Unfinished(deps[0], at) then [deps[0]] else []) + KeepUnfinished(deps[1..], at)
  }

  function GraphOf(at: map<Id, Task>): Graph
  {
    map t | t in at && Unfinished(t, at) :: Sort(KeepUnfinished(at[t].deps, at))
  }

  /** `b` is an unfinished dependency of the unfinished task `a`. */
  predicate WaitsFor(a: Id, b: Id, at: map<Id, Task>)
  {
    Unfinished(a, at) && Unfinished(b, at) && b in at[a].deps
  }

  ghost predicate Closed(g: Graph) { forall n, m :: n in g && m in g[n] ==> m in g }

  lemma GraphClosed(at: map<Id, Task>)
    ensures Closed(GraphOf(at))
  {
  }

  lemma GraphEdge(a: Id, b: Id, at: map<Id, Task>)
    ensures WaitsFor(a, b, at) <==> a in GraphOf(at) && b in GraphOf(at)[a]
  {
  }

  // ---- depth-first search ---------------------------------------------------

  datatype Search = Search(color: map<Id, Color>, stack: seq<Id>, faults: map<Id, Fault>)

  function Whites(s: Search): set<Id> { set n | n in s.color && s.color[n] == White }

  ghost predicate Wf(g: Graph, s: Search)
  {
    && Closed(g)
    && s.color.Keys == g.Keys
    && (forall n :: n in s.stack <==> n in s.color && s.color[n] == Gray)
  }

  function IndexOf(s: seq<Id>, x: Id): (i: nat)
    requires x in s
    ensures i < |s| && s[i] == x && x !in s[..i]
  {
    if s[0] == x then 0 else 1 + IndexOf(s[1..], x)
  }

  /** `faults.setdefault(node, label)` for every node of the cycle: earlier labels win. */
  function Label(faults: map<Id, Fault>, nodes: seq<Id>, fault: Fault): map<Id, Fault>
  {
    (map n | n in nodes :: fault) + faults
  }

  /** The back edge to `m` closes the stack from `m` upwards into a cycle. */
  function MarkCycle(s: Search, m: Id): Search
    requires m in s.stack
  {
    var nodes := s.stack[IndexOf(s.stack, m)..];
    s.(faults := Label(s.faults, nodes, Cycle(nodes + [m])))
  }

  function Enter(s: Search, n: Id): Search { s.(color := s.color[n := Gray], stack := s.stack + [n]) }

  function Leave(s: Search, n: Id): Search
    requires s.stack != []
  {
    s.(stack := s.stack[..|s.stack| - 1], color := s.color[n := Black])
  }

  lemma EnterWf(g: Graph, n: Id, s: Search)
    requires Wf(g, s) && n in Whites(s)
    ensures Wf(g, Enter(s, n)) && Whites(Enter(s, n)) == Whites(s) - {n}
  {
  }

  lemma LeaveWf(g: Graph, n: Id, below: seq<Id>, s: Search)
    requires Wf(g, s) && n in g && s.stack == below + [n] && n !in below
    ensures Wf(g, Leave(s, n)) && Leave(s, n).stack == below && Whites(Leave(s, n)) == Whites(s)
  {
    assert n in s.stack;
    forall x ensures x in s.stack <==> x in below || x == n {}
  }

  function Visit(g: Graph, n: Id, s: Search): (r: Search)
    requires Wf(g, s) && n in Whites(s)
    ensures Wf(g, r) && r.stack == s.stack && Whites(r) <= Whites(s) - {n}
    decreases Whites(s), 0, 0
  {
    EnterWf(g, n, s);
    var after := VisitAll(g, g[n], Enter(s, n));
    LeaveWf(g, n, s.stack, after);
    Leave(after, n)
  }

  function VisitAll(g: Graph, ms: seq<Id>, s: Search): (r: Search)
    requires Wf(g, s) && forall m :: m in ms ==> m in g
    ensures Wf(g, r) && r.stack == s.stack && Whites(r) <= Whites(s)
    decreases Whites(s), 1, |ms|
  {
    if ms == [] then s
    else VisitAll(g, ms[1..], See(g, ms[0], s))
  }

  /** What the search does on meeting node `m`, as a root or along an edge. */
  function See(g: Graph, m: Id, s: Search): (r: Search)
    requires Wf(g, s) && m in g
    ensures Wf(g, r) && r.stack == s.stack && Whites(r) <= Whites(s)
    ensures r.color[m] != White
    decreases Whites(s), 1, 0
  {
    match s.color[m]
    case Gray => MarkCycle(s, m)
    case White => Visit(g, m, s)
    case Black => s
  }

  /** Ids of the unfinished tasks in the order the roots are tried. */
  function Roots(ts: Tasks): (r: seq<Id>)
    ensures forall n :: n in r <==> n in ts.order && n in GraphOf(ts.at)
  {
    Sort(Select(ts.order, ts.at, (t: Task) => !Terminal(t.status)))
  }

  function Start(g: Graph, faults: map<Id, Fault>): Search
  {
    Search(map n | n in g :: White, [], faults)
  }

  function SearchFrom(g: Graph, roots: seq<Id>, faults: map<Id, Fault>): map<Id, Fault>
    requires Closed(g) && forall n :: n in roots ==> n in g
  {
    VisitAll(g, roots, Start(g, faults)).faults
  }

  function Faults(ts: Tasks): map<Id, Fault>
  {
    GraphClosed(ts.at);
    SearchFrom(GraphOf(ts.at), Roots(ts), Offences(ts.at))
  }

  // ---- soundness: every label names something real --------------------------

  /** A closed walk of real edges through `t`, visiting no task twice. */
  ghost predicate SimpleCycle(g: Graph, t: Id, walk: seq<Id>)
  {
    && |walk| >= 2 && walk[0] == walk[|walk| - 1]
    && t in walk && Distinct(walk[..|walk| - 1])
    && forall i, j :: 0 <= i && j == i + 1 && j < |walk| ==> walk[i] in g && walk[j] in g[walk[i]]
  }

  ghost predicate Sound(g: Graph, base: map<Id, Fault>, faults: map<Id, Fault>)
  {
    && (forall t :: t in base ==> t in faults && faults[t] == base[t])
    && (forall t :: t in faults && t !in base ==> faults[t].Cycle? && SimpleCycle(g, t, faults[t].walk))
    && (forall t, x :: t in faults && faults[t].Cycle? && x in faults[t].walk ==> x in faults)
  }

  ghost predicate IsPath(g: Graph, stack: seq<Id>)
  {
    && Distinct(stack)
    && (forall i :: 0 <= i < |stack| ==> stack[i] in g)
    && (forall i, j :: 0 <= i && j == i + 1 && j < |stack| ==> stack[j] in g[stack[i]])
  }

  ghost predicate NextFrom(g: Graph, stack: seq<Id>, m: Id)
  {
    stack != [] ==> stack[|stack| - 1] in g && m in g[stack[|stack| - 1]]
  }

  lemma MarkCycleSound(g: Graph, base: map<Id, Fault>, m: Id, s: Search)
    requires Sound(g, base, s.faults) && IsPath(g, s.stack) && m in s.stack && NextFrom(g, s.stack, m)
    ensures Sound(g, base, MarkCycle(s, m).faults)
  {
    var i := IndexOf(s.stack, m);
    StackCycle(g, s.stack, i);
    var nodes := s.stack[i..];
    LabelSound(g, base, s.faults, nodes, nodes + [m]);
  }

  /** The stack from `i` upwards, closed by the back edge, is a cycle through each of its nodes. */
  lemma StackCycle(g: Graph, stack: seq<Id>, i: nat)
    requires IsPath(g, stack) && i < |stack| && NextFrom(g, stack, stack[i])
    ensures forall t :: t in stack[i..] ==> SimpleCycle(g, t, stack[i..] + [stack[i]])
  {
    var nodes := stack[i..];
    var walk := nodes + [stack[i]];
    assert walk[..|walk| - 1] == nodes;
    forall j, k | 0 <= j && k == j + 1 && k < |walk| ensures walk[j] in g && walk[k] in g[walk[j]] {
      assert walk[j] == stack[i + j];
      if k < |nodes| { assert walk[k] == stack[i + k]; }
    }
    forall t | t in nodes ensures t in walk {}
  }

  lemma LabelSound(g: Graph, base: map<Id, Fault>, faults: map<Id, Fault>, nodes: seq<Id>, walk: seq<Id>)
    requires Sound(g, base, faults)
    requires forall x :: x in walk ==> x in nodes
    requires forall t :: t in nodes ==> SimpleCycle(g, t, walk)
    ensures Sound(g, base, Label(faults, nodes, Cycle(walk)))
  {
    var r := Label(faults, nodes, Cycle(walk));
    forall t | t in r ensures (t in faults && r[t] == faults[t]) || (t in nodes && r[t] == Cycle(walk)) {}
  }

  lemma {:induction false} VisitSound(g: Graph, base: map<Id, Fault>, n: Id, s: Search)
    requires Wf(g, s) && n in Whites(s) && Sound(g, base, s.faults) && IsPath(g, s.stack) && NextFrom(g, s.stack, n)
    ensures Sound(g, base, Visit(g, n, s).faults)
    decreases Whites(s), 0
  {
    EnterWf(g, n, s);
    assert IsPath(g, Enter(s, n).stack);
    VisitAllSound(g, base, g[n], Enter(s, n));
    LeaveWf(g, n, s.stack, VisitAll(g, g[n], Enter(s, n)));
  }

  lemma {:induction false} VisitAllSound(g: Graph, base: map<Id, Fault>, ms: seq<Id>, s: Search)
    requires Wf(g, s) && (forall m :: m in ms ==> m in g && NextFrom(g, s.stack, m))
    requires Sound(g, base, s.faults) && IsPath(g, s.stack)
    ensures Sound(g, base, VisitAll(g, ms, s).faults)
    decreases Whites(s), 1, |ms|
  {
    if ms != [] {
      match s.color[ms[0]] {
        case Gray => MarkCycleSound(g, base, ms[0], s);
        case White => VisitSound(g, base, ms[0], s);
        case Black =>
      }
      VisitAllSound(g, base, ms[1..], See(g, ms[0], s));
    }
  }

  // ---- completeness: no cycle escapes ---------------------------------------

  /** Every finished task without a fault points only at tasks that finished earlier. */
  ghost predicate Ranked(g: Graph, s: Search, rank: map<Id, nat>, clock: nat)
    requires s.color.Keys == g.Keys && Closed(g)
  {
    forall n :: n in g && s.color[n] == Black ==>
      && n in rank && rank[n] < clock
      && (n in s.faults || forall m :: m in g[n] ==> s.color[m] == Black && m in rank && rank[m] < rank[n])
  }

  ghost predicate Grown(s: Search, r: Search)
    requires s.color.Keys == r.color.Keys
  {
    s.faults.Keys <= r.faults.Keys && forall n :: n in s.color && s.color[n] == Black ==> r.color[n] == Black
  }

  lemma {:induction false} VisitRanked(g: Graph, n: Id, s: Search, rank: map<Id, nat>, clock: nat)
    returns (rank': map<Id, nat>, clock': nat)
    requires Wf(g, s) && n in Whites(s) && Ranked(g, s, rank, clock)
    ensures var r := Visit(g, n, s);
            Grown(s, r) && r.color[n] == Black && Ranked(g, r, rank', clock')
    decreases Whites(s), 0
  {
    EnterWf(g, n, s);
    rank', clock' := VisitAllRanked(g, g[n], Enter(s, n), rank, clock);
    var after := VisitAll(g, g[n], Enter(s, n));
    LeaveWf(g, n, s.stack, after);
    assert n in after.stack;
    rank', clock' := rank'[n := clock'], clock' + 1;
  }

  lemma {:induction false} VisitAllRanked(g: Graph, ms: seq<Id>, s: Search, rank: map<Id, nat>, clock: nat)
    returns (rank': map<Id, nat>, clock': nat)
    requires Wf(g, s) && (forall m :: m in ms ==> m in g) && Ranked(g, s, rank, clock)
    ensures var r := VisitAll(g, ms, s);
            && Grown(s, r) && Ranked(g, r, rank', clock')
            && forall m :: m in ms ==> r.color[m] == Black || (s.stack != [] && s.stack[|s.stack| - 1] in r.faults)
    decreases Whites(s), 1, |ms|
  {
    rank', clock' := rank, clock;
    if ms != [] {
      var s' := See(g, ms[0], s);
      match s.color[ms[0]] {
        case Gray =>
          assert s.stack[|s.stack| - 1] in s.stack[IndexOf(s.stack, ms[0])..];
        case White => rank', clock' := VisitRanked(g, ms[0], s, rank, clock);
        case Black =>
      }
      rank', clock' := VisitAllRanked(g, ms[1..], s', rank', clock');
    }
  }

  // ---- what the caller learns -----------------------------------------------

  /** After the whole search: labels are sound, and unlabelled nodes have a finishing order. */
  lemma SearchRanked(g: Graph, roots: seq<Id>, base: map<Id, Fault>) returns (rank: map<Id, nat>)
    requires Closed(g) && (forall n :: n in roots <==> n in g) && forall t :: t in base ==> !base[t].Cycle?
    ensures Sound(g, base, SearchFrom(g, roots, base))
    ensures forall a, b :: a in g && b in g[a] && a !in SearchFrom(g, roots, base) ==> FallsAlong(rank, a, b)
  {
    var s := Start(g, base);
    VisitAllSound(g, base, roots, s);
    var clock;
    rank, clock := VisitAllRanked(g, roots, s, map[], 0);
  }

  lemma OffencesAreNotCycles(at: map<Id, Task>)
    ensures forall t :: t in Offences(at) ==> !Offences(at)[t].Cycle?
  {
  }

  ghost predicate FallsAlong(rank: map<Id, nat>, a: Id, b: Id)
  {
    a in rank && b in rank && rank[b] < rank[a]
  }

  lemma FaultsRanked(ts: Tasks) returns (rank: map<Id, nat>)
    requires ts.Valid()
    ensures Sound(GraphOf(ts.at), Offences(ts.at), Faults(ts))
    ensures forall a, b :: WaitsFor(a, b, ts.at) && a !in Faults(ts) ==> FallsAlong(rank, a, b)
  {
    GraphClosed(ts.at);
    OffencesAreNotCycles(ts.at);
    var g, faults := GraphOf(ts.at), Faults(ts);
    rank := SearchRanked(g, Roots(ts), Offences(ts.at));
    RanksFallOnBoard(ts.at, g, faults, rank);
  }

  lemma RanksFallOnBoard(at: map<Id, Task>, g: Graph, faults: map<Id, Fault>, rank: map<Id, nat>)
    requires g == GraphOf(at)
    requires forall a, b :: a in g && b in g[a] && a !in faults ==> FallsAlong(rank, a, b)
    ensures forall a, b :: WaitsFor(a, b, at) && a !in faults ==> FallsAlong(rank, a, b)
  {
    forall a, b | WaitsFor(a, b, at) && a !in faults ensures FallsAlong(rank, a, b) {
      GraphEdge(a, b, at);
    }
  }

  /** `t` has a successor on its cycle. */
  lemma CycleStep(g: Graph, t: Id, walk: seq<Id>) returns (next: Id)
    requires SimpleCycle(g, t, walk)
    ensures t in g && next in g[t]
  {
    var i :| 0 <= i < |walk| && walk[i] == t;
    var j := if i == |walk| - 1 then 0 else i;
    next := walk[j + 1];
    assert walk[j] == t;
  }

  /** The first offending dependency, or, if none offends, a real cycle through `t` whose tasks are all reported. */
  ghost predicate TrueLabel(at: map<Id, Task>, t: Id, faults: map<Id, Fault>)
    requires t in at && t in faults
  {
    match FirstOffence(at[t].deps, at)
    case Some(offence) => faults[t] == offence
    case None =>
      && faults[t].Cycle? && SimpleCycle(GraphOf(at), t, faults[t].walk)
      && forall x :: x in faults[t].walk ==> x in faults
  }

  /** Every label is true: the named dependency offends and is the first to, or the walk is a real cycle. */
  lemma FaultLabelsAreTrue(ts: Tasks, t: Id)
    requires ts.Valid()
    ensures t in Faults(ts) ==> Unfinished(t, ts.at) && TrueLabel(ts.at, t, Faults(ts))
  {
    var rank := FaultsRanked(ts);
    if t in Faults(ts) && t !in Offences(ts.at) {
      var next := CycleStep(GraphOf(ts.at), t, Faults(ts)[t].walk);
    }
  }

  lemma {:induction false} RanksFallAlong(rank: map<Id, nat>, w: seq<Id>, k: nat)
    requires k < |w|
    requires forall i :: 0 <= i < |w| ==> w[i] in rank
    requires forall i, j :: 0 <= i && j == i + 1 && j < |w| ==> rank[w[j]] < rank[w[i]]
    ensures rank[w[k]] + k <= rank[w[0]]
  {
    if k > 0 {
      RanksFallAlong(rank, w, k - 1);
      assert rank[w[k]] < rank[w[k - 1]];
    }
  }

  ghost predicate ClosedWalk(w: seq<Id>, at: map<Id, Task>)
  {
    |w| >= 2 && w[0] == w[|w| - 1] && forall i, j :: 0 <= i && j == i + 1 && j < |w| ==> WaitsFor(w[i], w[j], at)
  }

  /** Every cycle of unfinished tasks runs through a task that is reported. */
  lemma EveryCycleIsReported(ts: Tasks, w: seq<Id>)
    requires ts.Valid() && ClosedWalk(w, ts.at)
    ensures exists i :: 0 <= i < |w| && w[i] in Faults(ts)
  {
    var faults := Faults(ts);
    if forall i :: 0 <= i < |w| ==> w[i] !in faults {
      var rank := FaultsRanked(ts);
      forall i | 0 <= i < |w| ensures w[i] in rank {
        assert WaitsFor(w[if i == |w| - 1 then 0 else i], w[if i == |w| - 1 then 1 else i + 1], ts.at);
      }
      forall i, j | 0 <= i && j == i + 1 && j < |w| ensures rank[w[j]] < rank[w[i]] {
        assert WaitsFor(w[i], w[j], ts.at);
      }
      RanksFallAlong(rank, w, |w| - 1);
      assert false;
    }
  }

  /** A task that is reported is never handed out or worked on. */
  lemma FaultedIsNotReady(ts: Tasks, t: Id)
    requires ts.Valid()
    ensures t in Faults(ts) ==> t in ts.at && !DepsMet(ts.at[t], ts.at)
  {
    FaultLabelsAreTrue(ts, t);
    if t in Faults(ts) {
      match FirstOffence(ts.at[t].deps, ts.at)
      case None =>
        var next := CycleStep(GraphOf(ts.at), t, Faults(ts)[t].walk);
        GraphEdge(t, next, ts.at);
        assert WaitsFor(t, next, ts.at);
      case Some(_) =>
        var d :| d in ts.at[t].deps && Offends(d, ts.at);
    }
  }

  lemma {:induction false} LeastRanked(xs: set<Id>, rank: map<Id, nat>) returns (least: Id)
    requires xs != {} && forall x :: x in xs ==> x in rank
    ensures least in xs && forall x :: x in xs ==> rank[least] <= rank[x]
  {
    least :| least in xs;
    if xs != {least} {
      var other := LeastRanked(xs - {least}, rank);
      if rank[other] < rank[least] { least := other; }
    }
  }

  /** A task without a report has every dependency on the board and none abandoned. */
  lemma UnreportedDependency(ts: Tasks, t: Id, d: Id)
    requires ts.Valid() && Unfinished(t, ts.at) && d in ts.at[t].deps
    ensures t !in Faults(ts) ==> d in ts.at && ts.at[d].status != Abandoned
  {
    var rank := FaultsRanked(ts);
    assert t in Offences(ts.at) ==> t in Faults(ts);
  }

  /** An unreported task that waits for nothing unfinished has its dependencies met. */
  lemma WaitsForNothing(ts: Tasks, t: Id)
    requires ts.Valid() && Unfinished(t, ts.at)
    requires forall d :: !WaitsFor(t, d, ts.at)
    ensures t !in Faults(ts) ==> DepsMet(ts.at[t], ts.at)
  {
    forall d | d in ts.at[t].deps && t !in Faults(ts) ensures d in ts.at && ts.at[d].status == Done {
      UnreportedDependency(ts, t, d);
      assert !WaitsFor(t, d, ts.at);
    }
  }

  /** If nothing is reported and something is unfinished, some unfinished task can be worked on. */
  lemma NoFaultsMeansProgress(ts: Tasks)
    requires ts.Valid() && Faults(ts) == map[]
    ensures (exists t :: Unfinished(t, ts.at)) ==> exists t :: Unfinished(t, ts.at) && DepsMet(ts.at[t], ts.at)
  {
    if some :| Unfinished(some, ts.at) {
      var t := LeastUnfinished(ts, some);
    }
  }

  lemma LeastUnfinished(ts: Tasks, some: Id) returns (t: Id)
    requires ts.Valid() && Faults(ts) == map[] && Unfinished(some, ts.at)
    ensures Unfinished(t, ts.at) && DepsMet(ts.at[t], ts.at)
  {
    var rank := FaultsRanked(ts);
    var unfinished := set t | t in ts.at && Unfinished(t, ts.at);
    assert some in unfinished;
    t := LeastRanked(unfinished, map t | t in unfinished :: if t in rank then rank[t] else 0);
    forall d ensures !WaitsFor(t, d, ts.at) {
      assert d in unfinished ==> !FallsAlong(rank, t, d);
    }
    WaitsForNothing(ts, t);
  }

  lemma RootsIgnoreOrder(a: Tasks, b: Tasks)
    requires a.Valid() && b.Valid() && a.at == b.at
    ensures Roots(a) == Roots(b)
  {
    var p := (t: Task) => !Terminal(t.status);
    var l, r := Select(a.order, a.at, p), Select(b.order, b.at, p);
    SelectDistinct(a.order, a.at, p);
    SelectDistinct(b.order, b.at, p);
    DistinctMultiset(l);
    DistinctMultiset(r);
    assert forall x :: multiset(l)[x] == multiset(r)[x];
    SortCanonical(l, r);
  }

  /** The report does not depend on the order of creation. */
  lemma ReportIsDeterministic(a: Tasks, b: Tasks)
    requires a.Valid() && b.Valid() && a.at == b.at
    ensures Faults(a) == Faults(b)
  {
    RootsIgnoreOrder(a, b);
  }

  // ---- the search as the code runs it ---------------------------------------

  lemma VisitFrom(g: Graph, ms: seq<Id>, i: nat, s: Search)
    requires Wf(g, s) && i < |ms| && forall m :: m in ms ==> m in g
    ensures VisitAll(g, ms[i..], s) == VisitAll(g, ms[i + 1..], See(g, ms[i], s))
  {
    assert ms[i..][1..] == ms[i + 1..];
  }

  /** The closure `_dfs` works in: the colours, the stack and the faults it updates in place. */
  class Scan {
    const graph: Graph
    var color: map<Id, Color>
    var stack: seq<Id>
    var faults: map<Id, Fault>

    ghost function State(): Search
      reads this
    {
      Search(color, stack, faults)
    }

    constructor (graph: Graph, faults: map<Id, Fault>)
      ensures this.graph == graph && State() == Start(graph, faults)
    {
      this.graph, this.faults := graph, faults;
      color, stack := map n | n in graph :: White, [];
    }

    /** One turn of the loop over `m`: a back edge is labelled, a new node is searched. */
    method Meet(m: Id)
      requires Wf(graph, State()) && m in graph
      modifies this
      ensures State() == See(graph, m, old(State()))
      decreases Whites(State()), 1
    {
      if color[m] == Gray {
        var nodes := stack[IndexOf(stack, m)..];
        faults := Label(faults, nodes, Cycle(nodes + [m]));
      } else if color[m] == White {
        Dfs(m);
      }
    }

    method Dfs(n: Id)
      requires Wf(graph, State()) && n in Whites(State())
      modifies this
      ensures State() == Visit(graph, n, old(State()))
      decreases Whites(State()), 0
    {
      EnterWf(graph, n, State());
      color := color[n := Gray];
      stack := stack + [n];
      ghost var entered := State();
      assert entered == Enter(old(State()), n);
      var i := 0;
      while i < |graph[n]|
        invariant 0 <= i <= |graph[n]|
        invariant Wf(graph, State()) && Whites(State()) <= Whites(entered)
        invariant VisitAll(graph, graph[n], entered) == VisitAll(graph, graph[n][i..], State())
      {
        VisitFrom(graph, graph[n], i, State());
        Meet(graph[n][i]);
        i := i + 1;
      }
      assert State() == VisitAll(graph, graph[n], entered);
      assert stack == old(stack) + [n];
      stack := stack[..|stack| - 1];
      color := color[n := Black];
    }

    method Run(roots: seq<Id>)
      requires Wf(graph, State()) && stack == [] && forall n :: n in roots ==> n in graph
      modifies this
      ensures State() == VisitAll(graph, roots, old(State()))
    {
      var i := 0;
      while i < |roots|
        invariant 0 <= i <= |roots|
        invariant Wf(graph, State()) && stack == []
        invariant VisitAll(graph, roots, old(State())) == VisitAll(graph, roots[i..], State())
      {
        var n := roots[i];
        assert roots[i..][0] == n && roots[i..][1..] == roots[i + 1..];
        assert n !in stack;
        if color[n] == White {
          Dfs(n);
        }
        i := i + 1;
      }
    }
  }

  method FindFaults(ts: Tasks) returns (faults: map<Id, Fault>)
    ensures faults == Faults(ts)
  {
    GraphClosed(ts.at);
    var scan := new Scan(GraphOf(ts.at), Offences(ts.at));
    scan.Run(Roots(ts));
    faults := scan.faults;
  }
}
