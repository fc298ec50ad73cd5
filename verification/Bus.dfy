/** The bus inbox under concurrency: a locked append against a locked rewrite of the whole file. */
module Bus {
  import opened Order
  import opened InboxText

  // ---- any sequence of sends and acks ---------------------------------------

  function Replay(initial: seq<Rec>, ops: seq<AtomicOp>): seq<Rec>
  {
    if ops == [] then initial else Apply(Replay(initial, ops[..|ops| - 1]), ops[|ops| - 1])
  }

  function SentBy(ops: seq<AtomicOp>): seq<Rec>
  {
    if ops == [] then []
    else SentBy(ops[..|ops| - 1]) + if ops[|ops| - 1].Send? then [ops[|ops| - 1].rec] else []
  }

  /** The same messages in the same order; acknowledgements may only have been added. */
  ghost predicate Preserves(before: seq<Rec>, after: seq<Rec>)
  {
    && |after| == |before|
    && forall i :: 0 <= i < |before| ==> SameButAcked(before[i], after[i])
  }

  predicate SameButAcked(r: Rec, s: Rec) { s.(acked := false) == r.(acked := false) && (r.acked ==> s.acked) }

  lemma {:induction false} CleanOnlyIsClean(rs: seq<Rec>, ids: set<string>)
    ensures CleanOnly(Mark(CleanOnly(rs), ids)) == Mark(CleanOnly(rs), ids)
  {
    if rs != [] {
      var front, last := rs[..|rs| - 1], rs[|rs| - 1];
      CleanOnlyIsClean(front, ids);
      if Clean(last) {
        assert CleanOnly(rs) == CleanOnly(front) + [last];
        MarkSnoc(CleanOnly(front), last, ids);
        CleanSnoc(Mark(CleanOnly(front), ids), MarkOne(last, ids));
      } else {
        assert CleanOnly(rs) == CleanOnly(front);
      }
    }
  }

  lemma AckPreserves(before: seq<Rec>, inbox: seq<Rec>, ids: set<string>)
    requires Preserves(before, CleanOnly(inbox))
    ensures Preserves(before, CleanOnly(Apply(inbox, Ack(ids))))
  {
    CleanOnlyIsClean(inbox, ids);
    var kept := CleanOnly(inbox);
    forall i | 0 <= i < |before| ensures SameButAcked(before[i], Mark(kept, ids)[i]) {
      assert SameButAcked(before[i], kept[i]);
    }
  }

  lemma PreservesSnoc(before: seq<Rec>, after: seq<Rec>, r: Rec)
    requires Preserves(before, after)
    ensures Preserves(before + [r], after + [r])
  {
    forall i | 0 <= i <= |before| ensures SameButAcked((before + [r])[i], (after + [r])[i]) {
      if i < |before| { assert SameButAcked(before[i], after[i]); }
    }
  }

  lemma SendPreserves(before: seq<Rec>, inbox: seq<Rec>, r: Rec)
    requires Preserves(CleanOnly(before), CleanOnly(inbox))
    ensures Preserves(CleanOnly(before + [r]), CleanOnly(Apply(inbox, Send(r))))
  {
    var b, i := CleanOnly(before), CleanOnly(inbox);
    CleanSnoc(before, r);
    CleanSnoc(inbox, r);
    if Clean(r) {
      PreservesSnoc(b, i, r);
    } else {
      assert b + [] == b && i + [] == i;
    }
  }

  /** Whatever is sent and acked, the messages without a separator all stay, in the order they were sent. */
  lemma {:induction false} ReplayPreserves(initial: seq<Rec>, ops: seq<AtomicOp>)
    ensures Preserves(CleanOnly(initial + SentBy(ops)), CleanOnly(Replay(initial, ops)))
  {
    if ops == [] {
      assert initial + SentBy(ops) == initial;
    } else {
      var front := ops[..|ops| - 1];
      ReplayPreserves(initial, front);
      match ops[|ops| - 1]
      case Send(r) =>
        assert initial + SentBy(ops) == (initial + SentBy(front)) + [r];
        SendPreserves(initial + SentBy(front), Replay(initial, front), r);
      case Ack(ids) =>
        assert SentBy(ops) == SentBy(front);
        AckPreserves(CleanOnly(initial + SentBy(front)), Replay(initial, front), ids);
    }
  }

  /** How many operations there are up to the last ack, itself included. */
  function LastAck(ops: seq<AtomicOp>): (n: nat)
    ensures n <= |ops|
  {
    if ops == [] then 0 else if ops[|ops| - 1].Ack? then |ops| else LastAck(ops[..|ops| - 1])
  }

  /** What should be left: of what came up to the last ack the messages without a separator, and all that came after. */
  function Surviving(initial: seq<Rec>, ops: seq<AtomicOp>): seq<Rec>
  {
    var n := LastAck(ops);
    (if n == 0 then initial else CleanOnly(initial + SentBy(ops[..n]))) + SentBy(ops[n..])
  }

  lemma SurvivingSend(initial: seq<Rec>, front: seq<AtomicOp>, r: Rec)
    ensures Surviving(initial, front + [Send(r)]) == Surviving(initial, front) + [r]
  {
    var ops, n := front + [Send(r)], LastAck(front);
    assert ops[..|front|] == front && ops[..n] == front[..n];
    assert ops[n..][..|ops[n..]| - 1] == front[n..];
  }

  /** Exactly those are in the inbox, in the order they came; acknowledgements may only have been added. */
  lemma {:induction false} InboxIsWhatSurvives(initial: seq<Rec>, ops: seq<AtomicOp>)
    ensures Preserves(Surviving(initial, ops), Replay(initial, ops))
  {
    if ops == [] {
      assert Surviving(initial, ops) == initial;
    } else {
      var front, last := ops[..|ops| - 1], ops[|ops| - 1];
      assert ops == front + [last];
      match last
      case Send(r) =>
        InboxIsWhatSurvives(initial, front);
        SurvivingSend(initial, front, r);
        PreservesSnoc(Surviving(initial, front), Replay(initial, front), r);
      case Ack(ids) =>
        ReplayPreserves(initial, ops);
        CleanOnlyIsClean(Replay(initial, front), ids);
        assert ops[..|ops|] == ops && ops[|ops|..] == [];
        assert Surviving(initial, ops) == CleanOnly(initial + SentBy(ops));
    }
  }

  /** Some ack from the `n`th operation on names the id. */
  predicate NamedSince(ops: seq<AtomicOp>, n: nat, id: string)
  {
    exists j :: n <= j < |ops| && ops[j].Ack? && id in ops[j].ids
  }

  /** A message without a separator keeps its place, and is acked exactly when it was or an ack since then named it. */
  lemma {:induction false} AckedExactlyWhen(initial: seq<Rec>, ops: seq<AtomicOp>, n: nat, k: nat)
    requires n <= |ops| && k < |CleanOnly(Replay(initial, ops[..n]))|
    ensures k < |CleanOnly(Replay(initial, ops))|
    ensures var r := CleanOnly(Replay(initial, ops[..n]))[k];
            CleanOnly(Replay(initial, ops))[k] == r.(acked := r.acked || NamedSince(ops, n, r.id))
    decreases |ops| - n, |ops|
  {
    if n == |ops| {
      assert ops[..n] == ops;
    } else {
      var front, last := ops[..|ops| - 1], ops[|ops| - 1];
      assert front[..n] == ops[..n];
      AckedExactlyWhen(initial, front, n, k);
      NamedSinceSnoc(front, last, n, CleanOnly(Replay(initial, ops[..n]))[k].id);
      assert ops == front + [last];
      match last
      case Send(r) => CleanSnoc(Replay(initial, front), r);
      case Ack(ids) => CleanOnlyIsClean(Replay(initial, front), ids);
    }
  }

  lemma NamedSinceSnoc(front: seq<AtomicOp>, last: AtomicOp, n: nat, id: string)
    requires n <= |front|
    ensures NamedSince(front + [last], n, id) <==> NamedSince(front, n, id) || (last.Ack? && id in last.ids)
  {
    var ops := front + [last];
    assert forall j :: n <= j < |front| ==> ops[j] == front[j];
    assert ops[|front|] == last;
  }

  predicate AckedAfter(ops: seq<AtomicOp>, k: nat) { exists j :: k < j < |ops| && ops[j].Ack? }

  predicate NamedAfter(ops: seq<AtomicOp>, k: nat, id: string) { NamedSince(ops, k + 1, id) }

  predicate Holds(inbox: seq<Rec>, id: string) { exists r :: r in inbox && r.id == id }

  /** The only message with its id. */
  predicate OnlySend(initial: seq<Rec>, ops: seq<AtomicOp>, k: nat)
  {
    && k < |ops| && ops[k].Send? && !Holds(initial, ops[k].rec.id)
    && forall j :: 0 <= j < |ops| && j != k && ops[j].Send? ==> ops[j].rec.id != ops[k].rec.id
  }

  lemma {:induction false} CleanMembers(rs: seq<Rec>)
    ensures forall r :: r in CleanOnly(rs) <==> r in rs && Clean(r)
  {
    if rs != [] {
      CleanMembers(rs[..|rs| - 1]);
      assert rs == rs[..|rs| - 1] + [rs[|rs| - 1]];
    }
  }

  lemma AckMembers(inbox: seq<Rec>, ids: set<string>, r: Rec)
    ensures r in Apply(inbox, Ack(ids)) <==> exists o :: o in inbox && Clean(o) && r == MarkOne(o, ids)
  {
    CleanMembers(inbox);
    var kept := CleanOnly(inbox);
    if r in Mark(kept, ids) {
      var i :| 0 <= i < |kept| && Mark(kept, ids)[i] == r;
      assert kept[i] in inbox;
    }
    if o :| o in inbox && Clean(o) && r == MarkOne(o, ids) {
      var i :| 0 <= i < |kept| && kept[i] == o;
      assert Mark(kept, ids)[i] == r;
    }
  }

  lemma {:induction false} NeverSent(initial: seq<Rec>, ops: seq<AtomicOp>, id: string)
    requires !Holds(initial, id) && forall j :: 0 <= j < |ops| && ops[j].Send? ==> ops[j].rec.id != id
    ensures !Holds(Replay(initial, ops), id)
  {
    if ops != [] {
      var front := ops[..|ops| - 1];
      NeverSent(initial, front, id);
      if ops[|ops| - 1].Ack? {
        forall r | r in Replay(initial, ops) ensures r.id != id {
          AckMembers(Replay(initial, front), ops[|ops| - 1].ids, r);
        }
      }
    }
  }

  /** What is left of the message sent at `k`. */
  ghost predicate Fate(inbox: seq<Rec>, ops: seq<AtomicOp>, k: nat)
    requires k < |ops| && ops[k].Send?
  {
    var m := ops[k].rec;
    && (Holds(inbox, m.id) <==> Clean(m) || !AckedAfter(ops, k))
    && forall r :: r in inbox && r.id == m.id ==> r == m.(acked := m.acked || NamedAfter(ops, k, m.id))
  }

  lemma FateStep(inbox: seq<Rec>, ops: seq<AtomicOp>, k: nat, op: AtomicOp)
    requires k < |ops| && ops[k].Send? && Fate(inbox, ops, k) && (op.Send? ==> op.rec.id != ops[k].rec.id)
    ensures Fate(Apply(inbox, op), ops + [op], k)
  {
    var m, ops' := ops[k].rec, ops + [op];
    assert forall j :: 0 <= j < |ops| ==> ops'[j] == ops[j];
    assert ops'[|ops|] == op;
    if op.Send? {
      assert AckedAfter(ops', k) == AckedAfter(ops, k) && NamedAfter(ops', k, m.id) == NamedAfter(ops, k, m.id);
      assert forall r :: r in inbox + [op.rec] <==> r in inbox || r == op.rec;
    } else {
      forall r ensures r in Apply(inbox, op) <==> exists o :: o in inbox && Clean(o) && r == MarkOne(o, op.ids) {
        AckMembers(inbox, op.ids, r);
      }
      if Clean(m) {
        var o :| o in inbox && o.id == m.id;
        assert Clean(o) && MarkOne(o, op.ids) in Apply(inbox, op);
      }
    }
  }

  /** A message with an id of its own is there at the end exactly when it has no separator or no ack came after it. */
  lemma {:induction false} FateOfMessage(initial: seq<Rec>, ops: seq<AtomicOp>, k: nat)
    requires OnlySend(initial, ops, k)
    ensures Fate(Replay(initial, ops), ops, k)
  {
    var front, last := ops[..|ops| - 1], ops[|ops| - 1];
    assert ops == front + [last];
    if k == |ops| - 1 {
      NeverSent(initial, front, last.rec.id);
      assert forall r :: r in Replay(initial, ops) <==> r in Replay(initial, front) || r == last.rec;
      assert last.rec in Replay(initial, ops);
    } else {
      assert front[k] == ops[k];
      FateOfMessage(initial, front, k);
      FateStep(Replay(initial, front), front, k, last);
    }
  }

  // ---- the processes, step by step ------------------------------------------

  type Pid = nat

  datatype Phase =
    | Idle
    | Waiting(op: AtomicOp)
    | Locked(op: AtomicOp)
    | Buffered(rec: Rec)                       // send: written to the buffer, not flushed
    | Unflushed(rec: Rec)                      // send: unlocked with the line still in the buffer
    | Marked(ids: set<string>, msgs: seq<Rec>) // ack: read the file and marked it in memory
    | Rewriting(pos: nat, rest: seq<Rec>)      // ack: truncated and wrote up to `pos`, `rest` to go
    | Finished

  datatype World = World(file: string, holder: Option<Pid>, phases: map<Pid, Phase>, ops: seq<AtomicOp>)

  datatype Action = Begin(pid: Pid, op: AtomicOp) | Acquire(pid: Pid) | Advance(pid: Pid) | Release(pid: Pid)

  function PhaseOf(w: World, p: Pid): Phase { if p in w.phases then w.phases[p] else Idle }

  function To(w: World, p: Pid, ph: Phase): World { w.(phases := w.phases[p := ph]) }

  /** Writing at a position overwrites what is there. */
  function WriteAt(file: string, pos: nat, s: string): string
  {
    if pos >= |file| then file + s
    else file[..pos] + s + if pos + |s| < |file| then file[pos + |s|..] else ""
  }

  function Line(c: Codec, r: Rec): string { c.encode(r) + "\n" }

  /** The process `p` takes its next step; `late` is the variant whose send unlocks first and flushes on closing. */
  function Progress(c: Codec, w: World, p: Pid, late: bool): World
  {
    match PhaseOf(w, p)
    case Locked(Send(r)) => To(w, p, Buffered(r))
    case Locked(Ack(ids)) => To(w, p, Marked(ids, Mark(Reads(c, w.file, ALL), ids)))
    case Buffered(r) =>
      if late then w else To(w, p, Finished).(file := ApplyText(c, w.file, Send(r)), ops := w.ops + [Send(r)])
    case Unflushed(r) => To(w, p, Idle).(file := ApplyText(c, w.file, Send(r)), ops := w.ops + [Send(r)])
    case Marked(ids, msgs) => To(w, p, Rewriting(0, msgs)).(file := "", ops := w.ops + [Ack(ids)])
    case Rewriting(pos, rest) =>
      if rest == [] then To(w, p, Finished)
      else
        To(w, p, Rewriting(pos + |Line(c, rest[0])|, rest[1..])).(file := WriteAt(w.file, pos, Line(c, rest[0])))
    case _ => w
  }

  function Act(c: Codec, w: World, a: Action, late: bool): World
  {
    var ph := PhaseOf(w, a.pid);
    match a
    case Begin(p, op) => if ph.Idle? && Named(op) then To(w, p, Waiting(op)) else w
    case Acquire(p) => if ph.Waiting? && w.holder.None? then To(w, p, Locked(ph.op)).(holder := Some(p)) else w
    case Advance(p) => Progress(c, w, p, late)
    case Release(p) =>
      if ph.Finished? then To(w, p, Idle).(holder := None)
      else if late && ph.Buffered? then To(w, p, Unflushed(ph.rec)).(holder := None)
      else w
  }

  function Run(c: Codec, w: World, actions: seq<Action>, late: bool): World
  {
    if actions == [] then w else Act(c, Run(c, w, actions[..|actions| - 1], late), actions[|actions| - 1], late)
  }

  function Initially(file: string): World { World(file, None, map[], []) }

  predicate Inside(ph: Phase) { !ph.Idle? && !ph.Waiting? && !ph.Unflushed? }

  /** What the rewriter still has to put back. */
  function Owed(w: World): seq<Rec>
  {
    if w.holder.Some? && PhaseOf(w, w.holder.value).Rewriting? then PhaseOf(w, w.holder.value).rest else []
  }

  /** The inbox as the protocol means it. */
  function Meant(c: Codec, w: World): seq<Rec> { Inbox(c, w.file) + Real(Owed(w)) }

  ghost predicate PhaseOk(c: Codec, ph: Phase, file: string)
  {
    match ph
    case Waiting(op) => Named(op)
    case Locked(op) => Named(op)
    case Buffered(r) => r.id != ""
    case Unflushed(_) => false
    case Marked(ids, msgs) => msgs == Mark(Reads(c, file, ALL), ids)
    case Rewriting(pos, _) => pos == |file|
    case _ => true
  }

  ghost predicate LockOk(w: World) { forall p: Pid :: Inside(PhaseOf(w, p)) <==> w.holder == Some(p) }

  ghost predicate PhasesOk(c: Codec, w: World) { forall p: Pid :: PhaseOk(c, PhaseOf(w, p), w.file) }

  ghost predicate Inv(c: Codec, w: World, initial: seq<Rec>)
  {
    LockOk(w) && PhasesOk(c, w) && FileOk(c, w.file) && Meant(c, w) == Replay(initial, w.ops)
  }

  lemma ReplaySnoc(initial: seq<Rec>, ops: seq<AtomicOp>, op: AtomicOp)
    ensures Replay(initial, ops + [op]) == Apply(Replay(initial, ops), op)
  {
    assert (ops + [op])[..|ops|] == ops;
  }

  lemma OthersUntouched(c: Codec, w: World, a: Action, late: bool)
    ensures forall p: Pid :: p != a.pid ==> PhaseOf(Act(c, w, a, late), p) == PhaseOf(w, p)
  {
  }

  /** A step of the process that holds the lock. */
  lemma HolderMoves(c: Codec, w: World, w': World, p: Pid, initial: seq<Rec>)
    requires Inv(c, w, initial) && w.holder == Some(p) == w'.holder && Inside(PhaseOf(w', p))
    requires forall q: Pid :: q != p ==> PhaseOf(w', q) == PhaseOf(w, q)
    requires PhaseOk(c, PhaseOf(w', p), w'.file) && FileOk(c, w'.file) && Meant(c, w') == Replay(initial, w'.ops)
    ensures Inv(c, w', initial)
  {
    forall q: Pid ensures PhaseOk(c, PhaseOf(w', q), w'.file) {
      assert q != p ==> !Inside(PhaseOf(w, q)) && PhaseOk(c, PhaseOf(w, q), w.file);
    }
  }

  lemma SendRefines(c: Codec, w: World, p: Pid, initial: seq<Rec>)
    requires Lawful(c) && Inv(c, w, initial) && PhaseOf(w, p).Buffered? && w.holder == Some(p)
    ensures Inv(c, Progress(c, w, p, false), initial)
  {
    var r, w' := PhaseOf(w, p).rec, Progress(c, w, p, false);
    assert PhaseOk(c, PhaseOf(w, p), w.file);
    TextRefinesInbox(c, w.file, Send(r));
    ReplaySnoc(initial, w.ops, Send(r));
    NothingOwed(c, w);
    NothingOwed(c, w');
    HolderMoves(c, w, w', p, initial);
  }

  lemma NothingOwed(c: Codec, w: World)
    ensures Owed(w) == [] ==> Meant(c, w) == Inbox(c, w.file)
  {
  }

  lemma EmptyFile(c: Codec, w: World)
    requires w.file == ""
    ensures FileOk(c, w.file) && Meant(c, w) == Real(Owed(w))
  {
    assert Lines("", NL) == [] && Inbox(c, "") == [];
  }

  lemma TruncateRefines(c: Codec, w: World, p: Pid, initial: seq<Rec>)
    requires Inv(c, w, initial) && PhaseOf(w, p).Marked? && w.holder == Some(p)
    requires var ids := PhaseOf(w, p).ids; Real(Mark(Reads(c, w.file, ALL), ids)) == Apply(Inbox(c, w.file), Ack(ids))
    ensures Inv(c, Progress(c, w, p, false), initial)
  {
    var ids, msgs, w' := PhaseOf(w, p).ids, PhaseOf(w, p).msgs, Progress(c, w, p, false);
    assert PhaseOk(c, PhaseOf(w, p), w.file);
    ReplaySnoc(initial, w.ops, Ack(ids));
    NothingOwed(c, w);
    EmptyFile(c, w');
    HolderMoves(c, w, w', p, initial);
  }

  lemma RewriteRefines(c: Codec, w: World, p: Pid, initial: seq<Rec>)
    requires RoundTrips(c) && Inv(c, w, initial) && PhaseOf(w, p).Rewriting? && w.holder == Some(p)
    ensures Inv(c, Progress(c, w, p, false), initial)
  {
    var rest, w' := PhaseOf(w, p).rest, Progress(c, w, p, false);
    assert PhaseOk(c, PhaseOf(w, p), w.file);
    if rest == [] {
      NothingOwed(c, w);
      NothingOwed(c, w');
    } else {
      SentReads(c, w.file, rest[0]);
      assert [rest[0]][..0] == [] && rest == [rest[0]] + rest[1..];
      RealConcat([rest[0]], rest[1..]);
      RealConcat(Reads(c, w.file, NL), [rest[0]]);
      assert Inbox(c, w.file) + (Real([rest[0]]) + Real(rest[1..]))
          == (Inbox(c, w.file) + Real([rest[0]])) + Real(rest[1..]);
    }
    HolderMoves(c, w, w', p, initial);
  }

  /** The steps that do not write. */
  lemma QuietStepRefines(c: Codec, w: World, a: Action, initial: seq<Rec>)
    requires Inv(c, w, initial)
    requires a.Advance? ==> var ph := PhaseOf(w, a.pid); !ph.Buffered? && !ph.Marked? && !ph.Rewriting?
    ensures Inv(c, Act(c, w, a, false), initial)
  {
    var ph, w' := PhaseOf(w, a.pid), Act(c, w, a, false);
    OthersUntouched(c, w, a, false);
    assert PhaseOk(c, ph, w.file) && (Inside(ph) <==> w.holder == Some(a.pid));
    assert w'.file == w.file && w'.ops == w.ops && PhaseOk(c, PhaseOf(w', a.pid), w'.file);
    assert Owed(w') == Owed(w);
  }

  /** Every step of the locked protocol either leaves the inbox alone or is one atomic send or ack. */
  lemma StepRefinesAtomic(c: Codec, w: World, a: Action, initial: seq<Rec>)
    requires Lawful(c) && Inv(c, w, initial)
    ensures Inv(c, Act(c, w, a, false), initial)
  {
    var ph := PhaseOf(w, a.pid);
    assert Inside(ph) <==> w.holder == Some(a.pid);
    if a.Advance? && ph.Buffered? {
      SendRefines(c, w, a.pid, initial);
    } else if a.Advance? && ph.Marked? {
      MarkedMeans(c, w.file, ph.ids);
      TruncateRefines(c, w, a.pid, initial);
    } else if a.Advance? && ph.Rewriting? {
      RewriteRefines(c, w, a.pid, initial);
    } else {
      QuietStepRefines(c, w, a, initial);
    }
  }

  lemma {:induction false} RunRefinesAtomic(c: Codec, file: string, actions: seq<Action>)
    requires Lawful(c) && FileOk(c, file)
    ensures Inv(c, Run(c, Initially(file), actions, false), Inbox(c, file))
  {
    if actions == [] {
      NothingOwed(c, Initially(file));
    } else {
      var front := actions[..|actions| - 1];
      RunRefinesAtomic(c, file, front);
      StepRefinesAtomic(c, Run(c, Initially(file), front, false), actions[|actions| - 1], Inbox(c, file));
    }
  }

  /**
   * Under every interleaving, the inbox is the sequential result of the completed operations, it is what the file
   * shows whenever the lock is free, and no message without a separator is lost, moved or un-acked; with those sent
   * after the last ack, they are all it holds.
   */
  lemma NoMessageIsLost(c: Codec, file: string, actions: seq<Action>)
    requires Lawful(c) && FileOk(c, file)
    ensures var w := Run(c, Initially(file), actions, false);
            && Meant(c, w) == Replay(Inbox(c, file), w.ops)
            && (w.holder.None? ==> Inbox(c, w.file) == Replay(Inbox(c, file), w.ops))
            && Preserves(CleanOnly(Inbox(c, file) + SentBy(w.ops)), CleanOnly(Meant(c, w)))
            && Preserves(Surviving(Inbox(c, file), w.ops), Meant(c, w))
  {
    var w := Run(c, Initially(file), actions, false);
    RunRefinesAtomic(c, file, actions);
    ReplayPreserves(Inbox(c, file), w.ops);
    InboxIsWhatSurvives(Inbox(c, file), w.ops);
    NothingOwed(c, w);
  }

  /**
   * A sent message is in the inbox after any run exactly when its line holds no separator or nothing was acked since;
   * it is then as it was sent, acked exactly when an ack has named it.
   */
  lemma SurvivesExactlyWhen(c: Codec, file: string, actions: seq<Action>, k: nat)
    requires Lawful(c) && FileOk(c, file)
    requires OnlySend(Inbox(c, file), Run(c, Initially(file), actions, false).ops, k)
    ensures var w := Run(c, Initially(file), actions, false); var m := w.ops[k].rec;
            && (Holds(Meant(c, w), m.id) <==> !Breaks(c.encode(m)) || !AckedAfter(w.ops, k))
            && forall r :: r in Meant(c, w) && r.id == m.id ==> r == m.(acked := m.acked || NamedAfter(w.ops, k, m.id))
  {
    RunRefinesAtomic(c, file, actions);
    FateOfMessage(Inbox(c, file), Run(c, Initially(file), actions, false).ops, k);
  }

  // ---- what goes wrong ------------------------------------------------------

  const SPLIT := Rec("1", "a\U{2028}b", false)
  const PLAIN := Rec("2", "c", false)

  /** A body with a line separator is accepted and read, and the next ack of another message drops it. */
  lemma SeparatorIsLost(c: Codec)
    requires Lawful(c)
    ensures var sent := ApplyText(c, ApplyText(c, "", Send(SPLIT)), Send(PLAIN));
            Inbox(c, sent) == [SPLIT, PLAIN] &&
            Inbox(c, ApplyText(c, sent, Ack({PLAIN.id}))) == [PLAIN.(acked := true)]
  {
    assert SPLIT.body[1] in SEPARATORS;
    assert !Clean(SPLIT) && Clean(PLAIN);
    EmptyFile(c, Initially(""));
    assert Inbox(c, "") == [];
    TextRefinesInbox(c, "", Send(SPLIT));
    var one := ApplyText(c, "", Send(SPLIT));
    TextRefinesInbox(c, one, Send(PLAIN));
    var two := ApplyText(c, one, Send(PLAIN));
    assert Inbox(c, two) == [SPLIT, PLAIN];
    TextRefinesInbox(c, two, Ack({PLAIN.id}));
    CleanSnoc([SPLIT], PLAIN);
    CleanSnoc([], SPLIT);
    assert [SPLIT] + [PLAIN] == [SPLIT, PLAIN] && [] + [SPLIT] == [SPLIT] && [] + [PLAIN] == [PLAIN];
    assert CleanOnly([SPLIT, PLAIN]) == [PLAIN];
  }

  /** A send fills its buffer and unlocks; an ack that was waiting takes the lock and reads the file. */
  function UnlockThenRead(sent: Rec, ids: set<string>): seq<Action>
  {
    [Begin(0, Send(sent)), Acquire(0), Advance(0), Begin(1, Ack(ids)), Release(0), Acquire(1), Advance(1)]
  }

  /** The ack truncates, the send's line lands, and the ack writes its own line over it. */
  const TRUNCATE_FLUSH_WRITE := [Advance(1), Advance(0), Advance(1), Advance(1), Release(1)]

  lemma LateUnlock(c: Codec, was: Rec, sent: Rec)
    requires Reads(c, Line(c, was), ALL) == [was] && sent.id != ""
    ensures Run(c, Initially(Line(c, was)), UnlockThenRead(sent, {was.id}), true)
         == World(Line(c, was), Some(1), map[0 := Unflushed(sent), 1 := Marked({was.id}, [was.(acked := true)])], [])
  {
    var acts, w0 := UnlockThenRead(sent, {was.id}), Initially(Line(c, was));
    var w1 := Act(c, w0, acts[0], true);
    var w2 := Act(c, w1, acts[1], true);
    var w3 := Act(c, w2, acts[2], true);
    var w4 := Act(c, w3, acts[3], true);
    var w5 := Act(c, w4, acts[4], true);
    var w6 := Act(c, w5, acts[5], true);
    var w7 := Act(c, w6, acts[6], true);
    assert w5 == World(Line(c, was), None, map[0 := Unflushed(sent), 1 := Waiting(Ack({was.id}))], []);
    assert Mark([was], {was.id}) == [was.(acked := true)];
    assert w7.phases == map[0 := Unflushed(sent), 1 := Marked({was.id}, [was.(acked := true)])];
    Unroll(c, w0, acts, [w0, w1, w2, w3, w4, w5, w6, w7], true, 7);
    assert acts[..7] == acts;
  }

  lemma LateClobber(c: Codec, ids: set<string>, put: Rec, sent: Rec)
    requires |Line(c, sent)| <= |Line(c, put)|
    ensures var w := Run(c, World("", Some(1), map[0 := Unflushed(sent), 1 := Marked(ids, [put])], []),
                         TRUNCATE_FLUSH_WRITE, true);
            && w.holder.None? && PhaseOf(w, 0).Idle? && PhaseOf(w, 1).Idle?
            && w.ops == [Ack(ids), Send(sent)] && w.file == Line(c, put)
  {
    var acts := TRUNCATE_FLUSH_WRITE;
    var w0 := World("", Some(1), map[0 := Unflushed(sent), 1 := Marked(ids, [put])], []);
    var w1 := Act(c, w0, acts[0], true);
    var w2 := Act(c, w1, acts[1], true);
    var w3 := Act(c, w2, acts[2], true);
    var w4 := Act(c, w3, acts[3], true);
    var w5 := Act(c, w4, acts[4], true);
    assert w2.file == Line(c, sent) && w2.ops == [Ack(ids), Send(sent)];
    assert w3.file == Line(c, put);
    Unroll(c, w0, acts, [w0, w1, w2, w3, w4, w5], true, 5);
    assert acts[..5] == acts;
  }

  lemma {:induction false} RunConcat(c: Codec, w: World, a: seq<Action>, b: seq<Action>, late: bool)
    ensures Run(c, w, a + b, late) == Run(c, Run(c, w, a, late), b, late)
    decreases |b|
  {
    if b == [] {
      assert a + b == a;
    } else {
      assert (a + b)[..|a + b| - 1] == a + b[..|b| - 1];
      RunConcat(c, w, a, b[..|b| - 1], late);
    }
  }

  lemma {:induction false} Unroll(c: Codec, w: World, actions: seq<Action>, ws: seq<World>, late: bool, n: nat)
    requires |ws| == |actions| + 1 && n <= |actions| && ws[0] == w
    requires forall i {:trigger actions[i]} :: 0 <= i < |actions| ==> ws[i + 1] == Act(c, ws[i], actions[i], late)
    ensures Run(c, w, actions[..n], late) == ws[n]
  {
    if n > 0 {
      Unroll(c, w, actions, ws, late, n - 1);
      assert actions[..n][..n - 1] == actions[..n - 1] && actions[..n][n - 1] == actions[n - 1];
    }
  }

  /** What the ack has read is in memory: the file it truncates no longer matters. */
  lemma FileIsForgotten(c: Codec, w: World, b: seq<Action>)
    requires PhaseOf(w, 1).Marked? && b != [] && b[0] == Advance(1)
    ensures Run(c, w, b, true) == Run(c, w.(file := ""), b, true)
  {
    assert b == [b[0]] + b[1..];
    assert [b[0]][..0] == [];
    RunConcat(c, w, [b[0]], b[1..], true);
    RunConcat(c, w.(file := ""), [b[0]], b[1..], true);
    assert Run(c, w, [b[0]], true) == Act(c, w, b[0], true);
    assert Run(c, w.(file := ""), [b[0]], true) == Act(c, w.(file := ""), b[0], true);
  }

  lemma WholeLineReads(c: Codec, line: string, r: Rec)
    requires '\n' !in line && !Breaks(line) && c.parse(line) == Some(r)
    ensures Reads(c, line + "\n", ALL) == [r]
  {
    WholePiece(line);
    CutTextEnds(line);
    OneMessage(c, r, line);
    assert Lines(line + "\n", ALL) == [line];
  }

  lemma CleanLineReads(c: Codec, r: Rec)
    requires Lawful(c) && Clean(r)
    ensures Reads(c, Line(c, r), ALL) == [r]
  {
    assert !Breaks(c.encode(r));
    WholeLineReads(c, c.encode(r), r);
  }

  /**
   * Flushing after the unlock admits an interleaving that loses a delivered message, for any message already in the
   * inbox whose line is at least as long.
   */
  lemma LateFlushLosesMessages(c: Codec, was: Rec, sent: Rec)
    requires Lawful(c) && Clean(was) && sent.id != "" && |Line(c, sent)| <= |Line(c, was.(acked := true))|
    ensures var w := Run(c, Initially(Line(c, was)), UnlockThenRead(sent, {was.id}) + TRUNCATE_FLUSH_WRITE, true);
            && w.holder.None? && PhaseOf(w, 0).Idle? && PhaseOf(w, 1).Idle?
            && Send(sent) in w.ops && w.file == Line(c, was.(acked := true))
  {
    RunConcat(c, Initially(Line(c, was)), UnlockThenRead(sent, {was.id}), TRUNCATE_FLUSH_WRITE, true);
    CleanLineReads(c, was);
    LateUnlock(c, was, sent);
    FileIsForgotten(c, Run(c, Initially(Line(c, was)), UnlockThenRead(sent, {was.id}), true), TRUNCATE_FLUSH_WRITE);
    LateClobber(c, {was.id}, was.(acked := true), sent);
  }

  // ---- the inbox file as the code handles it --------------------------------

  /** How many records an ack newly marks. */
  function NewlyAcked(rs: seq<Rec>, ids: set<string>): nat
  {
    if rs == [] then 0
    else NewlyAcked(rs[..|rs| - 1], ids) + if rs[|rs| - 1].id in ids && !rs[|rs| - 1].acked then 1 else 0
  }

  class InboxFile {
    const codec: Codec
    var text: string

    constructor (codec: Codec, text: string)
      ensures this.codec == codec && this.text == text
    {
      this.codec, this.text := codec, text;
    }

    method Append(r: Rec)
      modifies this
      ensures text == ApplyText(codec, old(text), Send(r))
    {
      text := text + (codec.encode(r) + "\n");
    }

    method ReadLines(at: set<char>) returns (msgs: seq<Rec>)
      ensures msgs == Reads(codec, text, at)
    {
      var lines := Lines(text, at);
      msgs := [];
      for i := 0 to |lines|
        invariant msgs == Parsed(codec, lines[..i])
      {
        assert lines[..i + 1][..i] == lines[..i];
        var r := codec.parse(lines[i]);
        if r.Some? {
          msgs := msgs + [r.value];
        }
      }
      assert lines[..|lines|] == lines;
    }

    /** `load_inbox` of the bus: the file is read line by line. */
    method ReadMessages() returns (msgs: seq<Rec>)
      ensures msgs == Reads(codec, text, NL)
    {
      msgs := ReadLines(NL);
    }

    method Rewrite(msgs: seq<Rec>)
      modifies this
      ensures text == Text(Encoded(codec, msgs))
    {
      text := "";
      for i := 0 to |msgs|
        invariant text == Text(Encoded(codec, msgs[..i]))
      {
        assert msgs[..i + 1][..i] == msgs[..i];
        TextSnoc(Encoded(codec, msgs[..i]), codec.encode(msgs[i]));
        text := text + (codec.encode(msgs[i]) + "\n");
      }
      assert msgs[..|msgs|] == msgs;
    }

    method AckInbox(ids: set<string>) returns (n: nat)
      modifies this
      ensures n == NewlyAcked(Reads(codec, old(text), ALL), ids)
      ensures text == ApplyText(codec, old(text), Ack(ids))
    {
      var msgs := ReadLines(ALL);
      ghost var read := msgs;
      n := 0;
      for i := 0 to |msgs|
        invariant |msgs| == |read| && n == NewlyAcked(read[..i], ids) && text == old(text)
        invariant forall k :: 0 <= k < i ==> msgs[k] == MarkOne(read[k], ids)
        invariant forall k :: i <= k < |read| ==> msgs[k] == read[k]
      {
        assert read[..i + 1][..i] == read[..i];
        if msgs[i].id in ids && !msgs[i].acked {
          msgs := msgs[i := msgs[i].(acked := true)];
          n := n + 1;
        }
      }
      assert read[..|read|] == read && msgs == Mark(read, ids);
      Rewrite(msgs);
    }
  }
}
