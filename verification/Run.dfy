/** The run record: what makes the engine active, its iteration budget, and the night reconciler. */
module RunLifecycle {
  import opened Order

  const NIGHT_PAUSE := "night window closed"
  const MAX_KICKS := 3
  const MAX_PAUSE_AGE: int := 7 * 86400

  datatype Guardrails = Guardrails(
    maxIterations: Option<int>, maxReassignments: int, stallAfter: int, unknownGrace: int, stuckTicksHalt: int)

  /** `run.json`. A missing or unreadable file reads as an inactive run. */
  datatype RunState = RunState(
    active: bool, participants: seq<string>, guardrails: Guardrails, iterations: nat,
    ended: Option<int>, endReason: Option<string>)

  function Started(participants: seq<string>, g: Guardrails): RunState
  {
    RunState(true, participants, g, 0, None, None)
  }

  function Ended(st: RunState, reason: string, now: int): RunState
  {
    st.(active := false, ended := Some(now), endReason := if reason != "" then Some(reason) else st.endReason)
  }

  function Resumed(st: RunState): RunState
  {
    st.(active := true, ended := None, endReason := None)
  }

  function Bumped(st: RunState): RunState { st.(iterations := st.iterations + 1) }

  /** Who takes part and under which limits is fixed when the run starts. */
  predicate KeepsSetup(st: RunState, st': RunState)
  {
    st'.participants == st.participants && st'.guardrails == st.guardrails
  }

  /** Over budget: a cap of zero or no cap at all never bites. */
  predicate OverCap(st: RunState)
  {
    st.guardrails.maxIterations.Some? && st.guardrails.maxIterations.value != 0
    && st.iterations > st.guardrails.maxIterations.value
  }

  const CAP_REACHED := "max_iterations reached"

  /** What a coordinator tick does to the run record, and whether it gets past the cap check. */
  function TickRun(st: RunState, now: int): (RunState, bool)
  {
    if !st.active then (st, false)
    else if OverCap(Bumped(st)) then (Ended(Bumped(st), CAP_REACHED, now), false)
    else (Bumped(st), true)
  }

  class Run {
    var state: RunState

    constructor (participants: seq<string>, g: Guardrails)
      ensures state == Started(participants, g)
    {
      state := Started(participants, g);
    }

    method BumpIteration() returns (it: nat)
      modifies this
      ensures state == Bumped(old(state)) && it == state.iterations == old(state.iterations) + 1
      ensures KeepsSetup(old(state), state) && state.active == old(state.active)
      ensures state.ended == old(state.ended) && state.endReason == old(state.endReason)
    {
      var st := state;
      st := st.(iterations := st.iterations + 1);
      state := st;
      it := st.iterations;
    }

    method End(reason: string, now: int)
      modifies this
      ensures state == Ended(old(state), reason, now) && state.iterations == old(state.iterations)
      ensures KeepsSetup(old(state), state) && !state.active && state.ended == Some(now)
      ensures reason != "" ==> state.endReason == Some(reason)
      ensures reason == "" ==> state.endReason == old(state.endReason)
    {
      var st := state;
      st := st.(active := false, ended := Some(now));
      if reason != "" {
        st := st.(endReason := Some(reason));
      }
      state := st;
    }

    method Resume()
      modifies this
      ensures state == Resumed(old(state)) && state.iterations == old(state.iterations)
      ensures KeepsSetup(old(state), state) && state.active && state.ended == None && state.endReason == None
    {
      var st := state.(active := true);
      st := st.(ended := None);
      state := st.(endReason := None);
    }
  }

  // ---- the iteration budget over a whole run --------------------------------

  datatype Step = TickStep(at: int) | EndStep(reason: string, at: int) | ResumeStep

  datatype Tally = Tally(state: RunState, activeTicks: nat, passes: nat)

  function Advance(t: Tally, s: Step): Tally
  {
    match s
    case TickStep(now) =>
      var (st, passed) := TickRun(t.state, now);
      Tally(st, t.activeTicks + (if t.state.active then 1 else 0), t.passes + (if passed then 1 else 0))
    case EndStep(reason, now) => t.(state := Ended(t.state, reason, now))
    case ResumeStep => t.(state := Resumed(t.state))
  }

  function RunSteps(t: Tally, steps: seq<Step>): Tally
  {
    if steps == [] then t else Advance(RunSteps(t, steps[..|steps| - 1]), steps[|steps| - 1])
  }

  /** After one `start` with a cap, exactly the first `cap` active ticks pass it, whatever ends and resumes the run. */
  lemma {:induction false} CapBitesForGood(participants: seq<string>, g: Guardrails, steps: seq<Step>)
    requires g.maxIterations.Some? && g.maxIterations.value >= 1
    ensures var t := RunSteps(Tally(Started(participants, g), 0, 0), steps);
            && t.state.iterations == t.activeTicks
            && t.passes == (if t.activeTicks <= g.maxIterations.value then t.activeTicks else g.maxIterations.value)
            && t.state.guardrails == g
  {
    if steps != [] {
      CapBitesForGood(participants, g, steps[..|steps| - 1]);
    }
  }

  // ---- the night reconciler -------------------------------------------------

  datatype Reconciled = Reconciled(runs: seq<RunState>, paused: seq<nat>, resumed: seq<nat>,
                                   nudged: seq<string>, deferred: seq<string>)

  predicate Fresh(st: RunState, now: int)
  {
    st.ended.Some? && now - st.ended.value <= MAX_PAUSE_AGE
  }

  predicate ToResume(st: RunState, now: int)
  {
    !st.active && st.endReason == Some(NIGHT_PAUSE) && Fresh(st, now)
  }

  /** What one pass makes of one run: `window` is open, closed, or not configured. */
  function ReconcileOne(st: RunState, window: Option<bool>, now: int): RunState
  {
    match window
    case None => st
    case Some(isOpen) =>
      if !isOpen && st.active then Ended(st, NIGHT_PAUSE, now)
      else if isOpen && ToResume(st, now) then Resumed(st)
      else st
  }

  /** Whatever the window says, one pass pauses an active run when closed, and when open undoes a fresh night pause. */
  lemma ReconcileTells(st: RunState, window: Option<bool>, now: int)
    ensures var st' := ReconcileOne(st, window, now);
            && KeepsSetup(st, st') && st'.iterations == st.iterations
            && (window == None ==> st' == st)
            && (window == Some(false) ==>
                  && !st'.active && (!st.active ==> st' == st)
                  && (st.active ==> st'.ended == Some(now) && st'.endReason == Some("night window closed")))
            && (window == Some(true) ==>
                  && (st.active ==> st' == st)
                  && (!st.active ==>
                        (st'.active <==>
                           && st.endReason == Some("night window closed") && st.ended.Some?
                           && now - st.ended.value <= 604800))
                  && (st'.active && !st.active ==> st'.ended == None && st'.endReason == None)
                  && (!st'.active ==> st' == st))
  {
  }

  ghost predicate OfResumed(a: string, runs: seq<RunState>, resumed: seq<nat>)
  {
    exists i :: i in resumed && i < |runs| && a in runs[i].participants
  }

  lemma StaysOfResumed(runs: seq<RunState>, resumed: seq<nat>, i: nat)
    ensures forall a :: OfResumed(a, runs, resumed) ==> OfResumed(a, runs, resumed + [i])
  {
    forall a | OfResumed(a, runs, resumed) ensures OfResumed(a, runs, resumed + [i]) {
      var k :| k in resumed && k < |runs| && a in runs[k].participants;
      assert k in resumed + [i];
    }
  }

  /** One pass over all runs. `answers` says whether the bus accepts a nudge to each agent. */
  method Reconcile(runs: seq<RunState>, window: Option<bool>, now: int, answers: string -> bool) returns (r: Reconciled)
    ensures |r.runs| == |runs| && forall i :: 0 <= i < |runs| ==> r.runs[i] == ReconcileOne(runs[i], window, now)
    ensures forall i :: i in r.paused <==> 0 <= i < |runs| && window == Some(false) && runs[i].active
    ensures forall i :: i in r.resumed <==> 0 <= i < |runs| && window == Some(true) && ToResume(runs[i], now)
    ensures |r.nudged| <= MAX_KICKS
    ensures r.deferred != [] ==> |r.nudged| == MAX_KICKS
    ensures forall i, a :: i in r.resumed && i < |runs| && a in runs[i].participants && answers(a) ==>
              a in r.nudged || a in r.deferred
    ensures r.resumed == [] ==> r.nudged == [] && r.deferred == []
    ensures forall a :: a in r.nudged ==> answers(a) && OfResumed(a, runs, r.resumed)
    ensures forall a :: a in r.deferred ==> OfResumed(a, runs, r.resumed)
  {
    var out: seq<RunState>, paused: seq<nat>, resumed: seq<nat> := [], [], [];
    var nudged: seq<string>, deferred: seq<string> := [], [];
    if window == None {
      return Reconciled(runs, [], [], [], []);
    }
    for i := 0 to |runs|
      invariant |out| == i && forall k :: 0 <= k < i ==> out[k] == ReconcileOne(runs[k], window, now)
      invariant forall k :: k in paused <==> 0 <= k < i && window == Some(false) && runs[k].active
      invariant forall k :: k in resumed <==> 0 <= k < i && window == Some(true) && ToResume(runs[k], now)
      invariant |nudged| <= MAX_KICKS && (deferred != [] ==> |nudged| == MAX_KICKS)
      invariant forall k, a :: k in resumed && k < i && a in runs[k].participants && answers(a) ==>
                  a in nudged || a in deferred
      invariant resumed == [] ==> nudged == [] && deferred == []
      invariant forall a :: a in nudged ==> answers(a) && OfResumed(a, runs, resumed)
      invariant forall a :: a in deferred ==> OfResumed(a, runs, resumed)
    {
      var st := runs[i];
      if window == Some(false) && st.active {
        out := out + [Ended(st, NIGHT_PAUSE, now)];
        paused := paused + [i];
      } else if window == Some(true) && ToResume(st, now) {
        out := out + [Resumed(st)];
        ghost var resumed0 := resumed;
        resumed := resumed + [i];
        StaysOfResumed(runs, resumed0, i);
        ghost var nudged0, deferred0 := nudged, deferred;
        for j := 0 to |st.participants|
          invariant |nudged| <= MAX_KICKS && (deferred != [] ==> |nudged| == MAX_KICKS)
          invariant forall x :: x in nudged0 ==> x in nudged
          invariant forall x :: x in deferred0 ==> x in deferred
          invariant forall x :: x in st.participants[..j] && answers(x) ==> x in nudged || x in deferred
          invariant forall x :: x in nudged ==> answers(x) && OfResumed(x, runs, resumed)
          invariant forall x :: x in deferred ==> OfResumed(x, runs, resumed)
        {
          var a := st.participants[j];
          assert i in resumed && a in runs[i].participants;
          if |nudged| >= MAX_KICKS {
            deferred := deferred + [a];
          } else if answers(a) {
            nudged := nudged + [a];
          }
        }
        assert st.participants[..|st.participants|] == st.participants;
      } else {
        out := out + [st];
      }
    }
    r := Reconciled(out, paused, resumed, nudged, deferred);
  }

  /** A later pass, the window unchanged, finds nothing to pause and nothing to resume in what the first one left. */
  lemma ReconcileIsIdempotent(st: RunState, window: Option<bool>, now: int, later: int)
    requires now <= later
    ensures var once := ReconcileOne(st, window, now);
            && ReconcileOne(once, window, later) == once
            && !(window == Some(false) && once.active)
            && !(window == Some(true) && ToResume(once, later))
  {
  }

  /** So an agent deferred by one pass is not nudged by a later one, whatever the bus then answers. */
  method ReconcileTwice(runs: seq<RunState>, window: Option<bool>, now: int, answers: string -> bool, later: int,
      laterAnswers: string -> bool)
    returns (first: Reconciled, second: Reconciled)
    requires now <= later
    ensures forall i :: 0 <= i < |runs| ==> i < |first.runs| && first.runs[i] == ReconcileOne(runs[i], window, now)
    ensures forall i, a :: i in first.resumed && i < |runs| && a in runs[i].participants && answers(a) ==>
              a in first.nudged || a in first.deferred
    ensures second.runs == first.runs
    ensures second.paused == [] && second.resumed == [] && second.nudged == [] && second.deferred == []
  {
    first := Reconcile(runs, window, now, answers);
    second := Reconcile(first.runs, window, later, laterAnswers);
    forall i | 0 <= i < |runs| ensures second.runs[i] == first.runs[i] && i !in second.paused && i !in second.resumed {
      ReconcileIsIdempotent(runs[i], window, now, later);
    }
    HasMember(second.paused);
    HasMember(second.resumed);
  }

  /** Exactly which ends the next open window undoes: the night's own, and an end given without a reason after it. */
  lemma ResurrectedExactlyWhen(st: RunState, reason: string, at: int, now: int)
    requires at <= now <= at + MAX_PAUSE_AGE
    ensures ReconcileOne(Ended(st, reason, at), Some(true), now).active <==>
              reason == NIGHT_PAUSE || (reason == "" && st.endReason == Some(NIGHT_PAUSE))
  {
  }

  datatype AfterEnd = NightPass(window: Option<bool>, at: int) | CoordinatorTick(at: int)

  function Later(st: RunState, events: seq<AfterEnd>): RunState
  {
    if events == [] then st
    else
      var before := Later(st, events[..|events| - 1]);
      match events[|events| - 1]
      case NightPass(window, now) => ReconcileOne(before, window, now)
      case CoordinatorTick(now) => TickRun(before, now).0
  }

  /** A run ended for any stated reason but the night's is never brought back by night passes or ticks. */
  lemma {:induction false} FinishedStaysFinished(st: RunState, reason: string, at: int, events: seq<AfterEnd>)
    requires reason != "" && reason != NIGHT_PAUSE
    ensures Later(Ended(st, reason, at), events) == Ended(st, reason, at)
  {
    if events != [] {
      FinishedStaysFinished(st, reason, at, events[..|events| - 1]);
    }
  }

  /** Ending a night-paused run by hand, with no reason given, leaves it to be resumed by the next night. */
  lemma EndedByHandComesBack(participants: seq<string>, g: Guardrails)
    ensures var paused := ReconcileOne(Started(participants, g), Some(false), 0);
            ReconcileOne(Ended(paused, "", 100), Some(true), 200).active
  {
  }
}
