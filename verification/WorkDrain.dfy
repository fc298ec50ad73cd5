/** The Stop hook: an agent with open work keeps going, until its work stops moving. */
module WorkDrain {
  import opened Order
  import opened BoardModel
  import opened Situations

  const MAX_STALE := 30

  /** Which tasks, how much progress, in what state: one entry per open task, by id. */
  type Signature = seq<(Id, nat, Status)>

  /** `work-drain-<agent>.json`. */
  datatype Marker = Marker(sig: Signature, stale: nat)

  datatype Decision = Stop | KeepGoing | Escalate

  function OpenIds(ts: Tasks, agent: Agent): seq<Id>
  {
    Select(ts.order, ts.at, t => OpenForAgent(t, agent, ts.at))
  }

  function SignatureOf(ts: Tasks, agent: Agent): (s: Signature)
    ensures |s| == |OpenIds(ts, agent)|
  {
    var ids := Sort(OpenIds(ts, agent));
    seq(|ids|, i requires 0 <= i < |ids| =>
      assert ids[i] in ids; (ids[i], ts.at[ids[i]].attempts, ts.at[ids[i]].status))
  }

  function Stale(marker: Option<Marker>, sig: Signature): nat
  {
    if marker.Some? && marker.value.sig == sig then marker.value.stale + 1 else 0
  }

  /** The backstop alone: what an in-window call with this signature does, and the marker it leaves. */
  function Backstop(marker: Option<Marker>, sig: Signature): (Decision, Option<Marker>)
  {
    var stale := Stale(marker, sig);
    if stale >= MAX_STALE then (Escalate, None) else (KeepGoing, Some(Marker(sig, stale)))
  }

  function BlockAll(log: seq<Event>, ids: seq<Id>, agent: Agent, now: Stamp): seq<Event>
  {
    if ids == [] then log
    else BlockAll(log, ids[..|ids| - 1], agent, now) + [Event(TaskBlocked, ids[|ids| - 1], Some(agent), now)]
  }

  /** `armed`: the run is active and lists the agent. `usage` is absent when nothing is monitored. */
  datatype Call = Call(agent: Agent, armed: bool, closed: bool, usage: Option<Level>, now: Stamp)

  datatype Outcome = Outcome(decision: Decision, log: seq<Event>, marker: Option<Marker>)

  function NoteBy(what: string, c: Call): Event { Event(Note(what), "", Some(c.agent), c.now) }

  function Hook(log: seq<Event>, marker: Option<Marker>, c: Call): Outcome
  {
    var ts := Fold(log);
    var open := OpenIds(ts, c.agent);
    if !c.armed then Outcome(Stop, log, marker)
    else if open == [] then Outcome(Stop, log, None)
    else if c.closed then Outcome(Stop, log + [NoteBy("night_window_closed", c)], marker)
    else if c.usage == Some(Kill) then Outcome(Stop, BlockAll(log, open, c.agent, c.now) + [NoteBy("usage_kill", c)],
        None)
    else if c.usage == Some(Unknown) then Outcome(Stop, log, None)
    else
      var (decision, marker') := Backstop(marker, SignatureOf(ts, c.agent));
      Outcome(decision, if decision == Escalate then BlockAll(log, open, c.agent, c.now) else log, marker')
  }

  // ---- the backstop over many stops -----------------------------------------

  /** What others wrote since the agent's last stop, and the stop. */
  datatype Beat = Beat(others: seq<Event>, call: Call)

  /** The hook's outcome at the last of a row of stops. */
  function Stops(log: seq<Event>, marker: Option<Marker>, beats: seq<Beat>): Outcome
    decreases |beats|, 1
  {
    if beats == [] then Outcome(Stop, log, marker)
    else
      var last := beats[|beats| - 1];
      Hook(BoardBefore(log, marker, beats), Stops(log, marker, beats[..|beats| - 1]).marker, last.call)
  }

  /** The board the last stop reads. */
  function BoardBefore(log: seq<Event>, marker: Option<Marker>, beats: seq<Beat>): seq<Event>
    requires beats != []
    decreases |beats|, 0
  {
    Stops(log, marker, beats[..|beats| - 1]).log + beats[|beats| - 1].others
  }

  /** Every stop finds the same open work at the same progress; some fall outside the window. */
  ghost predicate Frozen(log: seq<Event>, marker: Option<Marker>, beats: seq<Beat>, agent: Agent, sig: Signature)
  {
    beats == [] ||
      var c := beats[|beats| - 1].call;
      && Frozen(log, marker, beats[..|beats| - 1], agent, sig)
      && c.agent == agent && c.armed && c.usage != Some(Kill) && c.usage != Some(Unknown)
      && SignatureOf(Fold(BoardBefore(log, marker, beats)), agent) == sig
  }

  function InWindow(beats: seq<Beat>): nat
  {
    if beats == [] then 0
    else InWindow(beats[..|beats| - 1]) + if beats[|beats| - 1].call.closed then 0 else 1
  }

  /** The marker after `w` stops inside the window. */
  function MarkerAfter(w: nat, marker: Option<Marker>, sig: Signature): Option<Marker>
  {
    if w == 0 then marker
    else if w % (MAX_STALE + 1) == 0 then None
    else Some(Marker(sig, w % (MAX_STALE + 1) - 1))
  }

  lemma OneMoreStop(w: nat, marker: Option<Marker>, sig: Signature)
    requires marker.Some? ==> marker.value.sig != sig
    ensures Backstop(MarkerAfter(w, marker, sig), sig)
         == (if (w + 1) % (MAX_STALE + 1) == 0 then Escalate else KeepGoing, MarkerAfter(w + 1, marker, sig))
  {
  }

  lemma StopInAStreak(log: seq<Event>, marker: Option<Marker>, c: Call, sig: Signature)
    requires c.armed && c.usage != Some(Kill) && c.usage != Some(Unknown)
    requires sig != [] && SignatureOf(Fold(log), c.agent) == sig
    ensures c.closed ==> Hook(log, marker, c) == Outcome(Stop, log + [NoteBy("night_window_closed", c)], marker)
    ensures !c.closed ==>
              var o, (decision, marker') := Hook(log, marker, c), Backstop(marker, sig);
              && o.decision == decision && o.marker == marker'
              && (decision == KeepGoing ==> o.log == log)
              && (decision == Escalate ==> OpenIds(Fold(o.log), c.agent) == [])
  {
    BlockingAllLeavesNoneOpen(log, c.agent, c.now);
  }

  /** The outcome `o` of a stop on the board `before`, the `w`th inside the window unless it is outside. */
  ghost predicate StopOutcome(o: Outcome, before: seq<Event>, c: Call, w: nat)
  {
    if c.closed then o.decision == Stop && o.log == before + [NoteBy("night_window_closed", c)]
    else if w % (MAX_STALE + 1) != 0 then o.decision == KeepGoing && o.log == before
    else o.decision == Escalate && OpenIds(Fold(o.log), c.agent) == []
  }

  lemma StopOfStreak(before: seq<Event>, w: nat, marker: Option<Marker>, c: Call, sig: Signature, o: Outcome)
    requires c.armed && c.usage != Some(Kill) && c.usage != Some(Unknown) && (marker.Some? ==> marker.value.sig != sig)
    requires sig != [] && SignatureOf(Fold(before), c.agent) == sig
    requires o == Hook(before, MarkerAfter(w, marker, sig), c)
    ensures var w' := if c.closed then w else w + 1;
            o.marker == MarkerAfter(w', marker, sig) && StopOutcome(o, before, c, w')
  {
    StopInAStreak(before, MarkerAfter(w, marker, sig), c, sig);
    OneMoreStop(w, marker, sig);
  }

  /**
   * While an agent's open work does not move, each stop inside the window forces it on, but every 31st blocks that
   * work and frees it, whatever else is written and however many nights lie between; a stop that forces it on writes
   * nothing, and one outside the window leaves one note.
   */
  lemma {:induction false} ThirtyTurnsThenEscalate(log: seq<Event>, marker: Option<Marker>, beats: seq<Beat>,
      agent: Agent, sig: Signature)
    requires sig != [] && Frozen(log, marker, beats, agent, sig) && (marker.Some? ==> marker.value.sig != sig)
    ensures Stops(log, marker, beats).marker == MarkerAfter(InWindow(beats), marker, sig)
    ensures beats != [] ==>
              StopOutcome(Stops(log, marker, beats), BoardBefore(log, marker, beats), beats[|beats| - 1].call,
                          InWindow(beats))
  {
    if beats != [] {
      var front, last := beats[..|beats| - 1], beats[|beats| - 1];
      ThirtyTurnsThenEscalate(log, marker, front, agent, sig);
      StopOfStreak(BoardBefore(log, marker, beats), InWindow(front), marker, last.call, sig, Stops(log, marker, beats));
    }
  }

  // ---- what escalation leaves -----------------------------------------------

  lemma BlockOne(log: seq<Event>, t: Id, agent: Agent, now: Stamp)
    requires t in Fold(log).at
    ensures var ts, ts' := Fold(log), Fold(log + [Event(TaskBlocked, t, Some(agent), now)]);
            && ts'.order == ts.order && t in ts'.at && ts'.at[t].status == Status.Blocked
            && ts'.at == ts.at[t := ts'.at[t]]
  {
    FoldSnoc(log, Event(TaskBlocked, t, Some(agent), now));
  }

  lemma {:induction false} BlockedApart(log: seq<Event>, ids: seq<Id>, agent: Agent, now: Stamp)
    requires forall t :: t in ids ==> t in Fold(log).at
    ensures var ts, ts' := Fold(log), Fold(BlockAll(log, ids, agent, now));
            && ts'.order == ts.order && ts'.at.Keys == ts.at.Keys
            && (forall t :: t in ts.at && t !in ids ==> ts'.at[t] == ts.at[t])
            && (forall t :: t in ids ==> t in ts'.at && ts'.at[t].status == Status.Blocked)
  {
    if ids != [] {
      var front, last := ids[..|ids| - 1], ids[|ids| - 1];
      assert ids == front + [last];
      BlockedApart(log, front, agent, now);
      BlockOne(BlockAll(log, front, agent, now), last, agent, now);
    }
  }

  /** Blocking every open task of an agent leaves it none: nothing else became open meanwhile. */
  lemma BlockingAllLeavesNoneOpen(log: seq<Event>, agent: Agent, now: Stamp)
    ensures OpenIds(Fold(BlockAll(log, OpenIds(Fold(log), agent), agent, now)), agent) == []
  {
    var open := OpenIds(Fold(log), agent);
    var ts, ts' := Fold(log), Fold(BlockAll(log, open, agent, now));
    FoldValid(log);
    BlockedApart(log, open, agent, now);
    forall t ensures t !in OpenIds(ts', agent) {
      StillNotOpen(ts, ts', open, agent, t);
    }
    HasMember(OpenIds(ts', agent));
  }

  lemma StillNotOpen(ts: Tasks, ts': Tasks, open: seq<Id>, agent: Agent, t: Id)
    requires ts.Valid() && open == OpenIds(ts, agent) && ts'.order == ts.order && ts'.at.Keys == ts.at.Keys
    requires forall x :: x in ts.at && x !in open ==> ts'.at[x] == ts.at[x]
    requires forall x :: x in open ==> x in ts'.at && ts'.at[x].status == Status.Blocked
    ensures t !in OpenIds(ts', agent)
  {
    if t in ts.at && t !in open && !DepsMet(ts.at[t], ts.at) {
      var d :| d in ts.at[t].deps && !(d in ts.at && ts.at[d].status == Done);
      assert !(d in ts'.at && ts'.at[d].status == Done);
    }
  }

  /** After an escalation the agent has no open task left, so its next stop is allowed. */
  lemma EscalationFreesTheAgent(log: seq<Event>, marker: Option<Marker>, c: Call, next: Call)
    requires Hook(log, marker, c).decision == Escalate && next.agent == c.agent
    ensures var o := Hook(log, marker, c);
            OpenIds(Fold(o.log), c.agent) == [] && Hook(o.log, o.marker, next).decision == Stop
  {
    BlockingAllLeavesNoneOpen(log, c.agent, c.now);
  }

  /** The kill switch blocks the agent's open work before it lets go; unknown usage leaves that work open. */
  lemma KillBlocksUnknownWaits(log: seq<Event>, marker: Option<Marker>, c: Call)
    requires c.armed && !c.closed && OpenIds(Fold(log), c.agent) != []
    ensures var o := Hook(log, marker, c);
            && (c.usage == Some(Kill) ==> o.decision == Stop && OpenIds(Fold(o.log), c.agent) == [])
            && (c.usage == Some(Unknown) ==>
                  o.decision == Stop && OpenIds(Fold(o.log), c.agent) == OpenIds(Fold(log), c.agent))
  {
    BlockingAllLeavesNoneOpen(log, c.agent, c.now);
    var blocked := BlockAll(log, OpenIds(Fold(log), c.agent), c.agent, c.now);
    FoldValid(blocked);
    FoldSnoc(blocked, NoteBy("usage_kill", c));
  }

  // ---- what the signature sees ----------------------------------------------

  ghost predicate HasOpen(ts: Tasks, agent: Agent, t: Id)
  {
    && t in ts.at && ts.at[t].owner == Some(agent) && (ts.at[t].status == Assigned || ts.at[t].status == InProgress)
    && forall d :: d in ts.at[t].deps ==> d in ts.at && ts.at[d].status == Done
  }

  lemma OpenIdsAreOpen(ts: Tasks, agent: Agent, t: Id)
    requires ts.Valid()
    ensures t in OpenIds(ts, agent) <==> HasOpen(ts, agent, t)
  {
  }

  /** The agent has the same open work on both boards, as far along and in the same status. */
  ghost predicate SameWork(ts: Tasks, ts': Tasks, agent: Agent)
  {
    && (forall t :: HasOpen(ts, agent, t) <==> HasOpen(ts', agent, t))
    && forall t :: HasOpen(ts, agent, t) && HasOpen(ts', agent, t) ==>
         ts'.at[t].attempts == ts.at[t].attempts && ts'.at[t].status == ts.at[t].status
  }

  lemma SameMembers(a: seq<Id>, b: seq<Id>)
    requires Distinct(a) && Distinct(b) && forall t :: t in a <==> t in b
    ensures multiset(a) == multiset(b)
  {
    DistinctMultiset(a);
    DistinctMultiset(b);
    assert forall t :: multiset(a)[t] == multiset(b)[t];
  }

  lemma SameOpenIds(ts: Tasks, ts': Tasks, agent: Agent)
    requires ts.Valid() && ts'.Valid() && forall t :: HasOpen(ts, agent, t) <==> HasOpen(ts', agent, t)
    ensures Sort(OpenIds(ts, agent)) == Sort(OpenIds(ts', agent))
  {
    var a, b := OpenIds(ts, agent), OpenIds(ts', agent);
    SelectDistinct(ts.order, ts.at, t => OpenForAgent(t, agent, ts.at));
    SelectDistinct(ts'.order, ts'.at, t => OpenForAgent(t, agent, ts'.at));
    forall t ensures t in a <==> t in b {
      OpenIdsAreOpen(ts, agent, t);
      OpenIdsAreOpen(ts', agent, t);
    }
    SameMembers(a, b);
    SortCanonical(a, b);
  }

  lemma SignatureAt(ts: Tasks, agent: Agent, i: nat)
    requires i < |OpenIds(ts, agent)|
    ensures var t := Sort(OpenIds(ts, agent))[i];
            t in OpenIds(ts, agent) && SignatureOf(ts, agent)[i] == (t, ts.at[t].attempts, ts.at[t].status)
  {
    assert Sort(OpenIds(ts, agent))[i] in Sort(OpenIds(ts, agent));
  }

  lemma SameSignatureSameIds(ts: Tasks, ts': Tasks, agent: Agent)
    requires SignatureOf(ts, agent) == SignatureOf(ts', agent)
    ensures Sort(OpenIds(ts, agent)) == Sort(OpenIds(ts', agent))
  {
    var a, b := Sort(OpenIds(ts, agent)), Sort(OpenIds(ts', agent));
    assert |a| == |b|;
    forall i | 0 <= i < |a| ensures a[i] == b[i] {
      SignatureAt(ts, agent, i);
      SignatureAt(ts', agent, i);
    }
  }

  lemma SignatureHas(ts: Tasks, ts': Tasks, agent: Agent, t: Id)
    requires SignatureOf(ts, agent) == SignatureOf(ts', agent) && t in OpenIds(ts, agent)
    ensures t in OpenIds(ts', agent)
    ensures ts'.at[t].attempts == ts.at[t].attempts && ts'.at[t].status == ts.at[t].status
  {
    SameSignatureSameIds(ts, ts', agent);
    var a := Sort(OpenIds(ts, agent));
    assert t in a;
    var i :| 0 <= i < |a| && a[i] == t;
    SignatureAt(ts, agent, i);
    SignatureAt(ts', agent, i);
  }

  /** The signature stays exactly while the agent's open work does: the same tasks, attempts and statuses. */
  lemma SignatureStaysExactlyWhen(ts: Tasks, ts': Tasks, agent: Agent)
    requires ts.Valid() && ts'.Valid()
    ensures SignatureOf(ts, agent) == SignatureOf(ts', agent) <==> SameWork(ts, ts', agent)
  {
    if SignatureOf(ts, agent) == SignatureOf(ts', agent) {
      SignatureShowsWork(ts, ts', agent);
    }
    if SameWork(ts, ts', agent) {
      WorkMakesSignature(ts, ts', agent);
    }
  }

  lemma SignatureShowsWork(ts: Tasks, ts': Tasks, agent: Agent)
    requires ts.Valid() && ts'.Valid() && SignatureOf(ts, agent) == SignatureOf(ts', agent)
    ensures SameWork(ts, ts', agent)
  {
    forall t
      ensures HasOpen(ts, agent, t) <==> HasOpen(ts', agent, t)
      ensures HasOpen(ts, agent, t) && HasOpen(ts', agent, t) ==>
                ts'.at[t].attempts == ts.at[t].attempts && ts'.at[t].status == ts.at[t].status
    {
      OpenIdsAreOpen(ts, agent, t);
      OpenIdsAreOpen(ts', agent, t);
      if t in OpenIds(ts, agent) { SignatureHas(ts, ts', agent, t); }
      if t in OpenIds(ts', agent) { SignatureHas(ts', ts, agent, t); }
    }
  }

  lemma WorkMakesSignature(ts: Tasks, ts': Tasks, agent: Agent)
    requires ts.Valid() && ts'.Valid() && SameWork(ts, ts', agent)
    ensures SignatureOf(ts, agent) == SignatureOf(ts', agent)
  {
    SameOpenIds(ts, ts', agent);
    var a := Sort(OpenIds(ts, agent));
    assert |a| == |OpenIds(ts, agent)| == |OpenIds(ts', agent)| by {
      assert |multiset(a)| == |a|;
    }
    forall i | 0 <= i < |a| ensures SignatureOf(ts, agent)[i] == SignatureOf(ts', agent)[i] {
      SignatureAt(ts, agent, i);
      SignatureAt(ts', agent, i);
      OpenIdsAreOpen(ts, agent, a[i]);
      OpenIdsAreOpen(ts', agent, a[i]);
    }
  }

  /** So progress on any open task starts the count over. */
  lemma ProgressStartsOver(log: seq<Event>, t: Id, who: Option<Agent>, agent: Agent, now: Stamp, stale: nat)
    requires HasOpen(Fold(log), agent, t)
    ensures var sig, log' := SignatureOf(Fold(log), agent), log + [Event(TaskProgress, t, who, now)];
            Stale(Some(Marker(sig, stale)), SignatureOf(Fold(log'), agent)) == 0
  {
    var log' := log + [Event(TaskProgress, t, who, now)];
    FoldValid(log);
    FoldSnoc(log, Event(TaskProgress, t, who, now));
    assert Fold(log').at[t].attempts == Fold(log).at[t].attempts + 1;
    OpenIdsAreOpen(Fold(log), agent, t);
    if SignatureOf(Fold(log), agent) == SignatureOf(Fold(log'), agent) {
      SignatureHas(Fold(log), Fold(log'), agent, t);
    }
  }

  // ---- one stop, branch by branch -------------------------------------------

  /** One block per open task, in the board's order, by the agent. */
  ghost predicate Blocks(log: seq<Event>, log': seq<Event>, open: seq<Id>, agent: Agent, now: Stamp)
  {
    && |log'| == |log| + |open| && log <= log'
    && forall i :: 0 <= i < |open| ==> log'[|log| + i] == Event(TaskBlocked, open[i], Some(agent), now)
  }

  lemma {:induction false} BlockAllBlocks(log: seq<Event>, ids: seq<Id>, agent: Agent, now: Stamp)
    ensures Blocks(log, BlockAll(log, ids, agent, now), ids, agent, now)
  {
    if ids != [] {
      var front := ids[..|ids| - 1];
      BlockAllBlocks(log, front, agent, now);
      forall i | 0 <= i < |ids|
        ensures BlockAll(log, ids, agent, now)[|log| + i] == Event(TaskBlocked, ids[i], Some(agent), now)
      {
        if i < |front| { assert front[i] == ids[i]; }
      }
    }
  }

  /**
   * A stop is allowed for a run that does not arm the agent, without open work, outside the window (the count is
   * kept), on the kill verdict (which blocks the work) and on an unknown one (which does not); every other is judged
   * by how often in a row this work has been seen.
   */
  lemma StopTells(log: seq<Event>, marker: Option<Marker>, c: Call)
    ensures var o, open, sig := Hook(log, marker, c), OpenIds(Fold(log), c.agent), SignatureOf(Fold(log), c.agent);
            var seen := if marker.Some? && marker.value.sig == sig then marker.value.stale + 1 else 0;
            if !c.armed then o == Outcome(Stop, log, marker)
            else if forall t :: !HasOpen(Fold(log), c.agent, t) then o == Outcome(Stop, log, None)
            else if c.closed then
              && o.decision == Stop && o.marker == marker
              && o.log == log + [Event(Note("night_window_closed"), "", Some(c.agent), c.now)]
            else if c.usage == Some(Kill) then
              && o.decision == Stop && o.marker == None && o.log != []
              && o.log[|o.log| - 1] == Event(Note("usage_kill"), "", Some(c.agent), c.now)
              && Blocks(log, o.log[..|o.log| - 1], open, c.agent, c.now)
            else if c.usage == Some(Unknown) then o == Outcome(Stop, log, None)
            else if seen >= 30 then
              o.decision == Escalate && o.marker == None && Blocks(log, o.log, open, c.agent, c.now)
            else o == Outcome(KeepGoing, log, Some(Marker(sig, seen)))
  {
    var open := OpenIds(Fold(log), c.agent);
    FoldValid(log);
    BlockAllBlocks(log, open, c.agent, c.now);
    NoneOpen(Fold(log), c.agent);
  }

  lemma NoneOpen(ts: Tasks, agent: Agent)
    requires ts.Valid()
    ensures OpenIds(ts, agent) == [] <==> forall t :: !HasOpen(ts, agent, t)
  {
    forall t ensures t in OpenIds(ts, agent) <==> HasOpen(ts, agent, t) { OpenIdsAreOpen(ts, agent, t); }
    HasMember(OpenIds(ts, agent));
  }

  // ---- the hook as the code runs it -----------------------------------------

  class StopHook {
    var marker: Option<Marker>

    constructor ()
      ensures marker == None
    {
      marker := None;
    }

    method BlockEach(board: Board, ids: seq<Id>, agent: Agent, now: Stamp)
      requires board.Valid()
      modifies board
      ensures board.Valid() && board.log == BlockAll(old(board.log), ids, agent, now)
    {
      for n := 0 to |ids|
        invariant board.Valid() && board.log == BlockAll(old(board.log), ids[..n], agent, now)
      {
        assert ids[..n + 1][..n] == ids[..n];
        board.Append(Event(TaskBlocked, ids[n], Some(agent), now));
      }
      assert ids[..|ids|] == ids;
    }

    method OnStop(board: Board, c: Call) returns (decision: Decision)
      requires board.Valid()
      modifies this, board
      ensures board.Valid()
      ensures Outcome(decision, board.log, marker) == Hook(old(board.log), old(marker), c)
    {
      if !c.armed {
        return Stop;
      }
      var ts := board.ReadTasks();
      var open := OpenIds(ts, c.agent);
      if open == [] {
        marker := None;
        return Stop;
      }
      if c.closed {
        board.Append(NoteBy("night_window_closed", c));
        return Stop;
      }
      if c.usage == Some(Kill) {
        BlockEach(board, open, c.agent, c.now);
        board.Append(NoteBy("usage_kill", c));
        marker := None;
        return Stop;
      }
      if c.usage == Some(Unknown) {
        marker := None;
        return Stop;
      }
      var sig := SignatureOf(ts, c.agent);
      var stale := if marker.Some? && marker.value.sig == sig then marker.value.stale + 1 else 0;
      if stale >= MAX_STALE {
        BlockEach(board, open, c.agent, c.now);
        marker := None;
        return Escalate;
      }
      marker := Some(Marker(sig, stale));
      decision := KeepGoing;
    }
  }
}
