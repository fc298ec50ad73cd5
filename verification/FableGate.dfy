/** The review gate: which finished tasks hold a valid Fable sign-off, and who reviews what. */
module FableGate {
  import opened Order
  import opened BoardModel

  predicate IsFablePass(e: Event, fable: seq<Agent>)
  {
    e.kind.ReviewPassed? && e.author.Some? && e.author.value in fable
  }

  /** The running `passed` flag after the history. */
  function Reviewed(history: seq<Event>, fable: seq<Agent>): bool
  {
    if history == [] then false
    else
      var e := history[|history| - 1];
      if e.kind.TaskReopened? then false
      else IsFablePass(e, fable) || Reviewed(history[..|history| - 1], fable)
  }

  method ReviewedByFable(t: Task, fable: seq<Agent>) returns (passed: bool)
    ensures passed <==> SignedOff(t.history, fable)
  {
    passed := false;
    for i := 0 to |t.history|
      invariant passed == Reviewed(t.history[..i], fable)
    {
      var e := t.history[i];
      assert t.history[..i + 1][..i] == t.history[..i];
      if e.kind.TaskReopened? {
        passed := false;
      } else if IsFablePass(e, fable) {
        passed := true;
      }
    }
    assert t.history[..|t.history|] == t.history;
    ReviewedMeansSignedOff(t.history, fable);
  }

  /** A Fable pass that no later reopen follows. */
  ghost predicate SignedOff(history: seq<Event>, fable: seq<Agent>)
  {
    exists i :: 0 <= i < |history| && history[i].kind.ReviewPassed?
             && history[i].author.Some? && history[i].author.value in fable
             && forall j :: i < j < |history| ==> !history[j].kind.TaskReopened?
  }

  lemma {:induction false} ReviewedMeansSignedOff(history: seq<Event>, fable: seq<Agent>)
    ensures Reviewed(history, fable) <==> SignedOff(history, fable)
  {
    if history != [] {
      var n := |history| - 1;
      var front := history[..n];
      ReviewedMeansSignedOff(front, fable);
      if IsFablePass(history[n], fable) {
        assert SignedOff(history, fable);
      } else if !history[n].kind.TaskReopened? {
        if SignedOff(front, fable) {
          var i :| 0 <= i < |front| && IsFablePass(front[i], fable) &&
              forall j :: i < j < |front| ==> !front[j].kind.TaskReopened?;
          assert history[i] == front[i] && forall j :: i < j < |history| ==> j == n || history[j] == front[j];
        }
        if SignedOff(history, fable) {
          var i :| 0 <= i < |history| && IsFablePass(history[i], fable) &&
              forall j :: i < j < |history| ==> !history[j].kind.TaskReopened?;
          assert front[i] == history[i] && forall j :: i < j < |front| ==> front[j] == history[j];
        }
      }
    }
  }

  predicate Violates(t: Task, fable: seq<Agent>)
  {
    t.status == Done && !Reviewed(t.history, fable)
  }

  function GateViolations(ts: Tasks, fable: seq<Agent>): seq<Id>
  {
    Sort(Select(ts.order, ts.at, (t: Task) => Violates(t, fable)))
  }

  // ---- routing --------------------------------------------------------------

  datatype Reviewers = Reviewers(specialist: Agent, generalist: Agent)

  const GAME_SCOPES := {"game", "pmd", "pmd-infinite", "donjon"}

  function Preferred(scope: Option<string>, fable: seq<Agent>, who: Reviewers): Agent
    requires fable != []
  {
    var wanted := if scope.Some? && scope.value in GAME_SCOPES then who.specialist else who.generalist;
    if wanted in fable then wanted else fable[0]
  }

  /** A reviewer exists exactly when the roster is not empty; idleness beats scope, scope breaks the tie. */
  function RouteReviewer(scope: Option<string>, fable: seq<Agent>, idle: Option<set<Agent>>, who: Reviewers)
    : (r: Option<Agent>)
    ensures r.Some? <==> fable != []
    ensures r.Some? ==> r.value in fable
    ensures r.Some? && idle.Some? && (exists a :: a in fable && a in idle.value) ==> r.value in idle.value
    ensures r.Some? && (idle.None? || Preferred(scope, fable, who) in idle.value)
        ==> r.value == Preferred(scope, fable, who)
  {
    if fable == [] then None
    else
      var preferred := Preferred(scope, fable, who);
      if idle.None? then Some(preferred)
      else
        var free := Keep(fable, idle.value);
        if free == [] then Some(preferred)
        else Some(if preferred in free then preferred else free[0])
  }

  predicate Specialised(scope: Option<string>)
  {
    scope in [Some("game"), Some("pmd"), Some("pmd-infinite"), Some("donjon")]
  }

  /** Idleness unknown counts as idle. */
  predicate Idle(a: Agent, idle: Option<set<Agent>>) { idle.None? || a in idle.value }

  /**
   * The wanted reviewer, by scope, is taken if on the roster, else its first agent; a busy one gives way to the first
   * idle agent of the roster, if there is one.
   */
  lemma ChosenReviewer(scope: Option<string>, fable: seq<Agent>, idle: Option<set<Agent>>, who: Reviewers)
    requires fable != []
    ensures var r := RouteReviewer(scope, fable, idle, who);
            var wanted := if Specialised(scope) then who.specialist else who.generalist;
            var first := if wanted in fable then wanted else fable[0];
            && r.Some?
            && (Idle(first, idle) || (forall a :: a in fable ==> !Idle(a, idle)) ==> r.value == first)
            && (!Idle(first, idle) && r.value != first ==> FirstIdle(r.value, fable, idle))
            && (!Idle(first, idle) && (exists a :: a in fable && Idle(a, idle)) ==> r.value != first)
  {
    if idle.Some? {
      KeptFirst(fable, idle.value);
    }
  }

  ghost predicate FirstIdle(a: Agent, fable: seq<Agent>, idle: Option<set<Agent>>)
  {
    exists i :: 0 <= i < |fable| && fable[i] == a && Idle(a, idle) && forall j :: 0 <= j < i ==> !Idle(fable[j], idle)
  }

  lemma {:induction false} KeptFirst(names: seq<Agent>, ok: set<Agent>)
    ensures Keep(names, ok) != [] ==> FirstIdle(Keep(names, ok)[0], names, Some(ok))
  {
    if names != [] && names[0] !in ok {
      KeptFirst(names[1..], ok);
      if Keep(names, ok) != [] {
        var a := Keep(names, ok)[0];
        var i :| 0 <= i < |names[1..]| && names[1..][i] == a && forall j :: 0 <= j < i ==> names[1..][j] !in ok;
        assert names[i + 1] == a && forall j :: 0 <= j < i + 1 ==> j == 0 || names[j] == names[1..][j - 1];
      }
    }
  }

  function ReviewRouting(ts: Tasks, fable: seq<Agent>, idle: Option<set<Agent>>, who: Reviewers): map<Id, Agent>
  {
    map t | t in ts.at && ts.at[t].status == InReview && RouteReviewer(ts.at[t].scope, fable, idle, who).Some?
      :: RouteReviewer(ts.at[t].scope, fable, idle, who).value
  }
}
