/** Direction mesh to Matrix: the inbox cursor, retries, the hold on a stuck line, and giving it up. */
module InboxRelay {
  import opened Order

  // ---- what is posted -------------------------------------------------------

  datatype Message = Message(sender: string, id: string, ts: string, priority: string, body: string)

  datatype Line = Blank | Torn | Record(msg: Message)

  datatype Config = Config(
    rooms: map<string, string>, tokens: map<string, string>, alertAfter: int, skipAfter: int)

  /** Stable across retries; absent only for a message with neither a timestamp nor an id. */
  function TxnFor(m: Message): Option<string>
  {
    if m.ts == "" && m.id == "" then None else Some(m.ts + "-" + m.id)
  }

  function TextFor(m: Message): string
  {
    (if m.priority == "normal" || m.priority == "low" then "" else "[" + m.priority + "] ") + m.body
  }

  predicate Addressable(l: Line, cfg: Config)
  {
    l.Record? && l.msg.sender in cfg.rooms && cfg.rooms[l.msg.sender] != "" && l.msg.body != ""
  }

  /** Ids without a dash make the concatenated transaction id an injective key. */
  lemma {:induction false} TxnInjective(a: Message, b: Message)
    requires TxnFor(a).Some? && TxnFor(a) == TxnFor(b) && '-' !in a.id && '-' !in b.id
    ensures a.ts == b.ts && a.id == b.id
  {
    var s, t := a.ts + "-" + a.id, b.ts + "-" + b.id;
    assert s == t;
    if |a.id| < |b.id| {
      LaterDash(a.ts, a.id, b.ts, b.id);
    } else if |b.id| < |a.id| {
      LaterDash(b.ts, b.id, a.ts, a.id);
    } else {
      assert a.ts == s[..|a.ts|] && b.ts == t[..|b.ts|];
      assert a.id == s[|a.ts| + 1..] && b.id == t[|b.ts| + 1..];
    }
  }

  lemma LaterDash(ts: string, id: string, ts': string, id': string)
    requires ts + "-" + id == ts' + "-" + id' && |id| < |id'|
    ensures '-' in id'
  {
    var s := ts + "-" + id;
    assert s[|ts|] == '-';
    assert (ts' + "-" + id')[|ts|] == id'[|ts| - |ts'| - 1];
  }

  // ---- the homeserver -------------------------------------------------------

  datatype Identity = Agent(name: string) | Bot

  /** One event the server holds, and the inbox line it was posted for. */
  datatype Posted = Posted(identity: Identity, room: string, txn: Option<string>, text: string, line: nat)

  predicate SameTxn(p: Posted, q: Posted)
  {
    p.identity == q.identity && p.room == q.room && p.txn.Some? && p.txn == q.txn
  }

  /** A repeated transaction id under one identity and room is the same event. */
  function Accept(held: seq<Posted>, p: Posted): seq<Posted>
  {
    if exists q :: q in held && SameTxn(q, p) then held else held + [p]
  }

  /** What the server holds, and every request it took on the way, repeated ones included. */
  datatype Server = Server(held: seq<Posted>, taken: seq<Posted>)

  datatype Failure = Http(code: int) | Transport | Defect

  /** How one request ends: answered, or failed before or after the server took it. */
  datatype Attempt = Answered | Failed(failure: Failure, taken: bool)

  predicate ShouldHold(f: Failure)
  {
    match f
    case Http(code) => code == 401 || code == 403 || code == 408 || code == 429 || code >= 500
    case Transport => true
    case Defect => false
  }

  predicate Refusal(a: Attempt) { a.Failed? && (a.failure == Http(401) || a.failure == Http(403)) }

  function Send(s: Server, p: Posted, a: Attempt): Server
  {
    if a.Answered? || a.taken then Server(Accept(s.held, p), s.taken + [p]) else s
  }

  /** The environment of one line in one poll: its two possible requests, and the clock when it fails. */
  datatype Turn = Turn(first: Attempt, asBot: Attempt, now: int)

  function PostingOf(m: Message, idx: nat, who: Identity, cfg: Config): Posted
    requires m.sender in cfg.rooms
  {
    Posted(who, cfg.rooms[m.sender], TxnFor(m), TextFor(m), idx)
  }

  /** Post as the agent; on 401/403 try once as the bot. */
  function Post(s: Server, m: Message, idx: nat, t: Turn, cfg: Config): (Server, Attempt)
    requires m.sender in cfg.rooms
  {
    if m.sender !in cfg.tokens then (Send(s, PostingOf(m, idx, Bot, cfg), t.first), t.first)
    else
      var s' := Send(s, PostingOf(m, idx, Agent(m.sender), cfg), t.first);
      if Refusal(t.first) then (Send(s', PostingOf(m, idx, Bot, cfg), t.asBot), t.asBot) else (s', t.first)
  }

  // ---- the hold on a stuck line ---------------------------------------------

  datatype Hold = Free | Held(line: nat, sender: string, since: int, tickedAt: int, alerted: bool)

  datatype Notice = Stuck(line: nat) | GaveUp(line: nat)

  /** One failed attempt on a line: the hold it leaves, whether to give up, and the notices sent. */
  function HoldExpired(h: Hold, idx: nat, sender: string, now: int, syncFails: nat, cfg: Config): (Hold, bool,
      seq<Notice>)
  {
    if h.Free? || h.line != idx || h.sender != sender then (Held(idx, sender, now, now, false), false, [])
    else if syncFails > 0 then (h.(since := h.since + (now - h.tickedAt), tickedAt := now), false, [])
    else
      var held := now - h.since;
      var alert := !h.alerted && held >= cfg.alertAfter;
      var expired := held >= cfg.skipAfter;
      (h.(tickedAt := now, alerted := h.alerted || alert), expired,
       (if alert then [Stuck(idx)] else []) + (if expired then [GaveUp(idx)] else []))
  }

  datatype HoldTick = HoldTick(now: int, syncFails: nat)

  /** Time spent in the intervals that ended with a healthy /sync. */
  function Reachable(start: int, ticks: seq<HoldTick>): int
  {
    if ticks == [] then 0
    else
      var before, last := ticks[..|ticks| - 1], ticks[|ticks| - 1];
      Reachable(start, before) + if last.syncFails == 0 then last.now - LastTick(start, before) else 0
  }

  function LastTick(start: int, ticks: seq<HoldTick>): int
  {
    if ticks == [] then start else ticks[|ticks| - 1].now
  }

  /** The hold after failures at `start` and at every tick, and all notices sent on the way. */
  function HoldRun(idx: nat, sender: string, start: int, ticks: seq<HoldTick>, cfg: Config): (Hold, seq<Notice>)
  {
    if ticks == [] then (HoldExpired(Free, idx, sender, start, 0, cfg).0, [])
    else
      var (h, sent) := HoldRun(idx, sender, start, ticks[..|ticks| - 1], cfg);
      var last := ticks[|ticks| - 1];
      var (h', _, notices) := HoldExpired(h, idx, sender, last.now, last.syncFails, cfg);
      (h', sent + notices)
  }

  function StuckNotices(ns: seq<Notice>): nat
  {
    if ns == [] then 0 else StuckNotices(ns[..|ns| - 1]) + if ns[|ns| - 1].Stuck? then 1 else 0
  }

  /** The hold clock measures exactly the reachable time, and at most one stall notice is sent. */
  lemma {:induction false} HoldMeasuresReachableTime(idx: nat, sender: string, start: int, ticks: seq<HoldTick>,
      cfg: Config)
    ensures var (h, sent) := HoldRun(idx, sender, start, ticks, cfg);
            && h.Held? && h.line == idx && h.sender == sender
            && h.tickedAt == LastTick(start, ticks) && h.tickedAt - h.since == Reachable(start, ticks)
            && StuckNotices(sent) == (if h.alerted then 1 else 0)
  {
    if ticks != [] {
      var before, last := ticks[..|ticks| - 1], ticks[|ticks| - 1];
      HoldMeasuresReachableTime(idx, sender, start, before, cfg);
      var (h, sent) := HoldRun(idx, sender, start, before, cfg);
      var (_, _, notices) := HoldExpired(h, idx, sender, last.now, last.syncFails, cfg);
      StuckNoticesAdd(sent, notices);
    }
  }

  lemma {:induction false} StuckNoticesAdd(a: seq<Notice>, b: seq<Notice>)
    requires |b| <= 2 && (|b| == 2 ==> b[1].GaveUp?)
    ensures StuckNotices(a + b) == StuckNotices(a) + if |b| > 0 && b[0].Stuck? then 1 else 0
  {
    if |b| == 1 {
      assert (a + b)[..|a + b| - 1] == a;
    } else if |b| == 2 {
      assert (a + b)[..|a + b| - 1] == a + [b[0]];
      assert (a + [b[0]])[..|a|] == a;
    } else {
      assert a + b == a;
    }
  }

  /** A held line is given up at a tick exactly when /sync answers and it has been reachable for `skipAfter` seconds. */
  lemma GivenUpExactlyWhen(idx: nat, sender: string, start: int, ticks: seq<HoldTick>, last: HoldTick, cfg: Config)
    ensures HoldExpired(HoldRun(idx, sender, start, ticks, cfg).0, idx, sender, last.now, last.syncFails, cfg).1 <==>
              last.syncFails == 0 && Reachable(start, ticks + [last]) >= cfg.skipAfter
  {
    HoldMeasuresReachableTime(idx, sender, start, ticks, cfg);
    assert (ticks + [last])[..|ticks|] == ticks;
  }

  // ---- one poll -------------------------------------------------------------

  /** `refused` is the bridge's own log of lines skipped because no retry could help. */
  datatype State = State(offset: nat, server: Server, hold: Hold, notices: seq<Notice>, refused: seq<nat>)

  /** Handles one line; the flag says the cursor stays on it. */
  function HandleLine(s: State, idx: nat, l: Line, t: Turn, syncFails: nat, cfg: Config): (State, bool)
  {
    if !Addressable(l, cfg) then (s, false)
    else
      var (server, result) := Post(s.server, l.msg, idx, t, cfg);
      if result.Answered? then (s.(server := server, hold := Free), false)
      else if !ShouldHold(result.failure) then
        (s.(server := server, hold := Free, refused := s.refused + [idx]), false)
      else
        var (hold, expired, sent) := HoldExpired(s.hold, idx, l.msg.sender, t.now, syncFails, cfg);
        if expired then (s.(server := server, hold := Free, notices := s.notices + sent), false)
        else (s.(server := server, hold := hold, notices := s.notices + sent, offset := idx), true)
  }

  function PollFrom(s: State, lines: seq<Line>, idx: nat, turns: nat -> Turn, syncFails: nat, cfg: Config): State
    requires idx <= |lines|
    decreases |lines| - idx
  {
    if idx == |lines| then s.(offset := |lines|)
    else
      var (s', stay) := HandleLine(s, idx, lines[idx], turns(idx), syncFails, cfg);
      if stay then s' else PollFrom(s', lines, idx + 1, turns, syncFails, cfg)
  }

  function Poll(s: State, lines: seq<Line>, turns: nat -> Turn, syncFails: nat, cfg: Config): State
  {
    if |lines| <= s.offset then s.(offset := |lines|) else PollFrom(s, lines, s.offset, turns, syncFails, cfg)
  }

  // ---- exactly-once delivery over any run -----------------------------------

  /** Addressable lines have pairwise different transaction ids. */
  ghost predicate DistinctKeys(lines: seq<Line>, cfg: Config)
  {
    && (forall i :: 0 <= i < |lines| && Addressable(lines[i], cfg) ==> TxnFor(lines[i].msg).Some?)
    && (forall i, j :: 0 <= i < j < |lines| && Addressable(lines[i], cfg) && Addressable(lines[j], cfg) ==>
          TxnFor(lines[i].msg) != TxnFor(lines[j].msg))
  }

  /** Messages told apart by timestamp and id, with ids free of dashes, have distinct transaction ids. */
  lemma DistinctMessagesHaveDistinctKeys(lines: seq<Line>, cfg: Config)
    requires forall i :: 0 <= i < |lines| && Addressable(lines[i], cfg) ==>
               '-' !in lines[i].msg.id && (lines[i].msg.ts != "" || lines[i].msg.id != "")
    requires forall i, j :: 0 <= i < j < |lines| && Addressable(lines[i], cfg) && Addressable(lines[j], cfg) ==>
               lines[i].msg.ts != lines[j].msg.ts || lines[i].msg.id != lines[j].msg.id
    ensures DistinctKeys(lines, cfg)
  {
    forall i, j | 0 <= i < j < |lines| && Addressable(lines[i], cfg) && Addressable(lines[j], cfg)
      ensures TxnFor(lines[i].msg) != TxnFor(lines[j].msg)
    {
      if TxnFor(lines[i].msg) == TxnFor(lines[j].msg) {
        TxnInjective(lines[i].msg, lines[j].msg);
      }
    }
  }

  /** An inbox line as its own agent, if that has a token, or the bot would post it. */
  ghost predicate IsPosting(p: Posted, lines: seq<Line>, cfg: Config)
  {
    && p.line < |lines| && Addressable(lines[p.line], cfg)
    && p == PostingOf(lines[p.line].msg, p.line, p.identity, cfg)
    && (p.identity == Bot || p.identity == Agent(lines[p.line].msg.sender))
  }

  /**
   * What the server holds: the requests it took, each once, in inbox order; each of them an inbox line, none from
   * beyond `upTo`.
   */
  ghost predicate InOrder(s: Server, lines: seq<Line>, upTo: nat, cfg: Config)
  {
    && (forall p :: p in s.taken ==> IsPosting(p, lines, cfg) && p.line <= upTo)
    && (forall p :: p in s.held <==> p in s.taken)
    && (forall i, j :: 0 <= i < j < |s.held| ==> s.held[i].line <= s.held[j].line && s.held[i] != s.held[j])
  }

  ghost predicate OnServer(idx: nat, s: Server) { exists p :: p in s.held && p.line == idx }

  /** With distinct keys a request repeats a transaction exactly when the same posting is held. */
  lemma SameTxnIsSamePosting(q: Posted, p: Posted, lines: seq<Line>, cfg: Config)
    requires DistinctKeys(lines, cfg) && IsPosting(q, lines, cfg) && IsPosting(p, lines, cfg)
    ensures SameTxn(q, p) <==> q == p
  {
  }

  lemma SendKeepsOrder(s: Server, lines: seq<Line>, p: Posted, a: Attempt, cfg: Config)
    requires DistinctKeys(lines, cfg) && IsPosting(p, lines, cfg) && InOrder(s, lines, p.line, cfg)
    ensures InOrder(Send(s, p, a), lines, p.line, cfg) && s.held <= Send(s, p, a).held
    ensures a.Answered? ==> OnServer(p.line, Send(s, p, a))
  {
    forall q | q in s.held ensures SameTxn(q, p) <==> q == p { SameTxnIsSamePosting(q, p, lines, cfg); }
    forall i | 0 <= i < |s.held| ensures s.held[i].line <= p.line && (SameTxn(s.held[i], p) <==> s.held[i] == p) {
      assert s.held[i] in s.held;
    }
    assert Accept(s.held, p) == if p in s.held then s.held else s.held + [p];
    if a.Answered? || a.taken {
      assert p in Accept(s.held, p);
    }
  }

  lemma PostKeepsOrder(s: Server, lines: seq<Line>, idx: nat, t: Turn, cfg: Config)
    requires DistinctKeys(lines, cfg) && idx < |lines| && Addressable(lines[idx], cfg) && InOrder(s, lines, idx, cfg)
    ensures var (s', result) := Post(s, lines[idx].msg, idx, t, cfg);
            InOrder(s', lines, idx, cfg) && s.held <= s'.held && (result.Answered? ==> OnServer(idx, s'))
  {
    var m := lines[idx].msg;
    var asAgent, asBot := PostingOf(m, idx, Agent(m.sender), cfg), PostingOf(m, idx, Bot, cfg);
    if m.sender !in cfg.tokens {
      SendKeepsOrder(s, lines, asBot, t.first, cfg);
    } else {
      SendKeepsOrder(s, lines, asAgent, t.first, cfg);
      if Refusal(t.first) {
        SendKeepsOrder(Send(s, asAgent, t.first), lines, asBot, t.asBot, cfg);
      }
    }
  }

  /** A line the cursor has passed: nothing to post, on the server, or reported as lost. */
  ghost predicate Settled(idx: nat, lines: seq<Line>, s: State, cfg: Config)
  {
    idx < |lines| &&
    (!Addressable(lines[idx], cfg) || OnServer(idx, s.server) || idx in s.refused || GaveUp(idx) in s.notices)
  }

  ghost predicate Inv(s: State, lines: seq<Line>, first: nat, upTo: nat, cfg: Config)
  {
    InOrder(s.server, lines, upTo, cfg) && forall i :: first <= i < upTo ==> Settled(i, lines, s, cfg)
  }

  ghost predicate Extends(s: State, s': State)
  {
    s.server.held <= s'.server.held && s.refused <= s'.refused && s.notices <= s'.notices
  }

  lemma SettledStays(idx: nat, lines: seq<Line>, s: State, lines': seq<Line>, s': State, cfg: Config)
    requires Settled(idx, lines, s, cfg) && lines <= lines' && Extends(s, s')
    ensures Settled(idx, lines', s', cfg)
  {
    if OnServer(idx, s.server) {
      var p :| p in s.server.held && p.line == idx;
      assert p in s'.server.held;
    }
  }

  lemma HandleLineSettles(s: State, idx: nat, lines: seq<Line>, t: Turn, syncFails: nat, cfg: Config)
    requires DistinctKeys(lines, cfg) && idx < |lines| && InOrder(s.server, lines, idx, cfg)
    ensures var (s', stay) := HandleLine(s, idx, lines[idx], t, syncFails, cfg);
            && Extends(s, s') && InOrder(s'.server, lines, idx, cfg)
            && (!stay ==> Settled(idx, lines, s', cfg)) && (stay ==> s'.offset == idx)
  {
    if Addressable(lines[idx], cfg) {
      PostKeepsOrder(s.server, lines, idx, t, cfg);
    }
  }

  lemma {:induction false} PollFromKeepsInv(s: State, lines: seq<Line>, first: nat, idx: nat, turns: nat -> Turn,
      syncFails: nat, cfg: Config)
    requires DistinctKeys(lines, cfg) && first <= idx <= |lines| && Inv(s, lines, first, idx, cfg)
    ensures var s' := PollFrom(s, lines, idx, turns, syncFails, cfg);
            idx <= s'.offset <= |lines| && Inv(s', lines, first, s'.offset, cfg)
    decreases |lines| - idx
  {
    if idx < |lines| {
      var (s', stay) := HandleLine(s, idx, lines[idx], turns(idx), syncFails, cfg);
      HandleLineSettles(s, idx, lines, turns(idx), syncFails, cfg);
      forall i | first <= i < idx ensures Settled(i, lines, s', cfg) {
        SettledStays(i, lines, s, lines, s', cfg);
      }
      if !stay {
        PollFromKeepsInv(s', lines, first, idx + 1, turns, syncFails, cfg);
      }
    } else {
      forall i | first <= i < idx ensures Settled(i, lines, s.(offset := |lines|), cfg) {
        SettledStays(i, lines, s, lines, s.(offset := |lines|), cfg);
      }
    }
  }

  datatype PollInput = PollInput(lines: seq<Line>, turns: nat -> Turn, syncFails: nat)

  function Polls(s: State, inputs: seq<PollInput>, cfg: Config): State
  {
    if inputs == [] then s
    else
      var last := inputs[|inputs| - 1];
      Poll(Polls(s, inputs[..|inputs| - 1], cfg), last.lines, last.turns, last.syncFails, cfg)
  }

  /** The inbox only grows by whole lines, from `initial` on. */
  ghost predicate Growing(initial: seq<Line>, inputs: seq<PollInput>)
  {
    inputs == [] ||
      (Growing(initial, inputs[..|inputs| - 1])
          && LinesAfter(initial, inputs[..|inputs| - 1]) <= inputs[|inputs| - 1].lines)
  }

  function LinesAfter(initial: seq<Line>, inputs: seq<PollInput>): seq<Line>
  {
    if inputs == [] then initial else inputs[|inputs| - 1].lines
  }

  /** A bridge started cold ignores what the inbox already held. */
  function ColdStart(initial: seq<Line>): State { State(|initial|, Server([], []), Free, [], []) }

  lemma FewerKeys(lines: seq<Line>, lines': seq<Line>, cfg: Config)
    requires lines <= lines' && DistinctKeys(lines', cfg)
    ensures DistinctKeys(lines, cfg)
  {
    forall i | 0 <= i < |lines| ensures lines[i] == lines'[i] {}
  }

  /**
   * Over any run, whatever happens to tokens and requests: the server holds the requests it took in inbox order, each
   * once, and no line is lost in silence.
   */
  lemma {:induction false} EveryLineSettledInOrder(initial: seq<Line>, inputs: seq<PollInput>, cfg: Config)
    requires Growing(initial, inputs) && DistinctKeys(LinesAfter(initial, inputs), cfg)
    ensures var s, lines := Polls(ColdStart(initial), inputs, cfg), LinesAfter(initial, inputs);
            |initial| <= s.offset <= |lines| && Inv(s, lines, |initial|, s.offset, cfg)
  {
    if inputs != [] {
      var front, last := inputs[..|inputs| - 1], inputs[|inputs| - 1];
      FewerKeys(LinesAfter(initial, front), last.lines, cfg);
      EveryLineSettledInOrder(initial, front, cfg);
      var s, lines := Polls(ColdStart(initial), front, cfg), LinesAfter(initial, front);
      GrowthKeepsInv(s, lines, last.lines, |initial|, cfg);
      if s.offset < |last.lines| {
        PollFromKeepsInv(s, last.lines, |initial|, s.offset, last.turns, last.syncFails, cfg);
      }
    }
  }

  lemma GrowthKeepsInv(s: State, lines: seq<Line>, lines': seq<Line>, first: nat, cfg: Config)
    requires lines <= lines' && Inv(s, lines, first, s.offset, cfg)
    ensures Inv(s, lines', first, s.offset, cfg)
  {
    forall i | first <= i < s.offset ensures Settled(i, lines', s, cfg) {
      SettledStays(i, lines, s, lines', s, cfg);
    }
    forall p | p in s.server.taken ensures IsPosting(p, lines', cfg) {
      assert IsPosting(p, lines, cfg);
    }
  }

  // ---- how often a line is held ---------------------------------------------

  function Copies(held: seq<Posted>, idx: nat): nat
  {
    if held == [] then 0 else Copies(held[..|held| - 1], idx) + if held[|held| - 1].line == idx then 1 else 0
  }

  predicate TakenAsAgent(idx: nat, s: Server) { exists p :: p in s.taken && p.line == idx && p.identity.Agent? }

  predicate TakenAsBot(idx: nat, s: Server) { exists p :: p in s.taken && p.line == idx && p.identity.Bot? }

  predicate NoRepeats(held: seq<Posted>) { forall i, j :: 0 <= i < j < |held| ==> held[i] != held[j] }

  lemma {:induction false} CopiesOfTwo(held: seq<Posted>, idx: nat, a: Posted, b: Posted)
    requires NoRepeats(held) && a.line == b.line == idx && a != b
    requires forall p :: p in held && p.line == idx ==> p == a || p == b
    ensures Copies(held, idx) == (if a in held then 1 else 0) + (if b in held then 1 else 0)
  {
    if held != [] {
      var front, last := held[..|held| - 1], held[|held| - 1];
      assert held == front + [last];
      forall i | 0 <= i < |front| ensures front[i] != last { assert front[i] == held[i]; }
      CopiesOfTwo(front, idx, a, b);
    }
  }

  lemma {:induction false} CopiesOfNone(held: seq<Posted>, idx: nat)
    requires forall p :: p in held ==> p.line != idx
    ensures Copies(held, idx) == 0
  {
    if held != [] { CopiesOfNone(held[..|held| - 1], idx); }
  }

  lemma CopiesWhenInOrder(s: Server, lines: seq<Line>, upTo: nat, idx: nat, cfg: Config)
    requires InOrder(s, lines, upTo, cfg)
    ensures Copies(s.held, idx) == (if TakenAsAgent(idx, s) then 1 else 0) + (if TakenAsBot(idx, s) then 1 else 0)
  {
    if idx < |lines| && Addressable(lines[idx], cfg) {
      var m := lines[idx].msg;
      var asAgent, asBot := PostingOf(m, idx, Agent(m.sender), cfg), PostingOf(m, idx, Bot, cfg);
      forall p | p in s.taken && p.line == idx ensures p == asAgent || p == asBot { assert IsPosting(p, lines, cfg); }
      CopiesOfTwo(s.held, idx, asAgent, asBot);
    } else {
      forall p | p in s.taken ensures p.line != idx { assert IsPosting(p, lines, cfg); }
      CopiesOfNone(s.held, idx);
    }
  }

  predicate Strict(held: seq<Posted>) { forall i, j :: 0 <= i < j < |held| ==> held[i].line < held[j].line }

  lemma BothTakenIsNotStrict(s: Server, idx: nat)
    requires TakenAsAgent(idx, s) && TakenAsBot(idx, s) && forall p :: p in s.taken ==> p in s.held
    ensures !Strict(s.held)
  {
    var p :| p in s.taken && p.line == idx && p.identity.Agent?;
    var q :| q in s.taken && q.line == idx && q.identity.Bot?;
    assert p in s.held && q in s.held;
    var i :| 0 <= i < |s.held| && s.held[i] == p;
    var j :| 0 <= j < |s.held| && s.held[j] == q;
    assert s.held[i].line == s.held[j].line && i != j;
  }

  lemma OnlyIdentityDiffers(p: Posted, q: Posted, lines: seq<Line>, cfg: Config)
    requires IsPosting(p, lines, cfg) && IsPosting(q, lines, cfg) && p.line == q.line && p != q
    ensures p.identity.Agent? <==> q.identity.Bot?
  {
  }

  lemma StrictWhenInOrder(s: Server, lines: seq<Line>, upTo: nat, cfg: Config)
    requires InOrder(s, lines, upTo, cfg)
    ensures Strict(s.held) <==> forall idx: nat :: !(TakenAsAgent(idx, s) && TakenAsBot(idx, s))
  {
    if idx: nat :| TakenAsAgent(idx, s) && TakenAsBot(idx, s) {
      BothTakenIsNotStrict(s, idx);
    } else {
      forall i, j | 0 <= i < j < |s.held| ensures s.held[i].line < s.held[j].line {
        var p, q := s.held[i], s.held[j];
        assert p in s.held && q in s.held;
        if p.line == q.line {
          OnlyIdentityDiffers(p, q, lines, cfg);
          assert TakenAsAgent(p.line, s) && TakenAsBot(p.line, s);
        }
      }
    }
  }

  /**
   * After any run the server holds a line twice exactly when it took it under both identities, and never more often;
   * what it holds is strictly in order, without duplicates, exactly when that happened to no line.
   */
  lemma DuplicatedExactlyWhen(initial: seq<Line>, inputs: seq<PollInput>, cfg: Config)
    requires Growing(initial, inputs) && DistinctKeys(LinesAfter(initial, inputs), cfg)
    ensures var s := Polls(ColdStart(initial), inputs, cfg).server;
            && (forall idx: nat :: Copies(s.held, idx) ==
                  (if TakenAsAgent(idx, s) then 1 else 0) + (if TakenAsBot(idx, s) then 1 else 0))
            && (Strict(s.held) <==> forall idx: nat :: !(TakenAsAgent(idx, s) && TakenAsBot(idx, s)))
  {
    var state, lines := Polls(ColdStart(initial), inputs, cfg), LinesAfter(initial, inputs);
    EveryLineSettledInOrder(initial, inputs, cfg);
    forall idx: nat ensures Copies(state.server.held, idx) ==
        (if TakenAsAgent(idx, state.server) then 1 else 0) + (if TakenAsBot(idx, state.server) then 1 else 0)
    {
      CopiesWhenInOrder(state.server, lines, state.offset, idx, cfg);
    }
    StrictWhenInOrder(state.server, lines, state.offset, cfg);
  }

  /** A token revoked between a post that was taken but not answered and its retry puts the message up twice. */
  lemma RevokedBetweenRetriesDuplicates()
    ensures var cfg := Config(map["a" := "room"], map["a" := "secret"], 300, 3600);
            var lines := [Record(Message("a", "01", "t", "normal", "hello"))];
            var first := PollInput(lines, (i: nat) => Turn(Failed(Transport, true), Answered, 0), 0);
            var second := PollInput(lines, (i: nat) => Turn(Failed(Http(401), false), Answered, 1), 0);
            var held := Polls(ColdStart([]), [first, second], cfg).server.held;
            |held| == 2 && held[0].line == held[1].line == 0 && held[0].text == held[1].text
  {
    var cfg := Config(map["a" := "room"], map["a" := "secret"], 300, 3600);
    var msg := Message("a", "01", "t", "normal", "hello");
    var lines := [Record(msg)];
    var first := PollInput(lines, (i: nat) => Turn(Failed(Transport, true), Answered, 0), 0);
    var second := PollInput(lines, (i: nat) => Turn(Failed(Http(401), false), Answered, 1), 0);
    var asAgent, asBot := PostingOf(msg, 0, Agent("a"), cfg), PostingOf(msg, 0, Bot, cfg);
    assert [first, second][..1] == [first] && [first][..0] == [];
    assert Polls(ColdStart([]), [first][..0], cfg) == ColdStart([]);
    var s1 := Polls(ColdStart([]), [first], cfg);
    assert s1 == Poll(ColdStart([]), lines, first.turns, 0, cfg);
    assert Addressable(lines[0], cfg);
    assert Post(Server([], []), msg, 0, first.turns(0), cfg)
        == (Server([asAgent], [asAgent]), Failed(Transport, true)) by {
      assert [] + [asAgent] == [asAgent];
    }
    assert s1.server == Server([asAgent], [asAgent]) && s1.offset == 0;
    assert !SameTxn(asAgent, asBot);
    assert Post(s1.server, msg, 0, second.turns(0), cfg).0.held == [asAgent] + [asBot];
  }

  // ---- the poll as the code runs it -----------------------------------------

  class Homeserver {
    var held: seq<Posted>
    var taken: seq<Posted>

    constructor ()
      ensures Abs() == Server([], [])
    {
      held, taken := [], [];
    }

    ghost function Abs(): Server
      reads this
    {
      Server(held, taken)
    }

    method Put(p: Posted, a: Attempt)
      modifies this
      ensures Abs() == Send(old(Abs()), p, a)
    {
      if a.Answered? || a.taken {
        taken := taken + [p];
        var i := 0;
        while i < |held|
          invariant 0 <= i <= |held| && forall j :: 0 <= j < i ==> !SameTxn(held[j], p)
        {
          if SameTxn(held[i], p) {
            return;
          }
          i := i + 1;
        }
        held := held + [p];
      }
    }
  }

  class Bridge {
    const cfg: Config
    const server: Homeserver
    var inboxOffset: nat
    var syncFails: nat
    var hold: Hold
    var notices: seq<Notice>
    var refused: seq<nat>

    constructor (cfg: Config, server: Homeserver, initial: seq<Line>)
      requires server.Abs() == Server([], [])
      ensures this.cfg == cfg && this.server == server && syncFails == 0 && Abs() == ColdStart(initial)
    {
      this.cfg, this.server := cfg, server;
      inboxOffset, syncFails, hold, notices, refused := |initial|, 0, Free, [], [];
    }

    ghost function Abs(): State
      reads this, server
    {
      State(inboxOffset, server.Abs(), hold, notices, refused)
    }

    method PostWithFallback(m: Message, idx: nat, t: Turn) returns (result: Attempt)
      requires m.sender in cfg.rooms
      modifies server
      ensures (server.Abs(), result) == Post(old(server.Abs()), m, idx, t, cfg)
    {
      if m.sender !in cfg.tokens {
        server.Put(PostingOf(m, idx, Bot, cfg), t.first);
        return t.first;
      }
      server.Put(PostingOf(m, idx, Agent(m.sender), cfg), t.first);
      if !Refusal(t.first) {
        return t.first;
      }
      server.Put(PostingOf(m, idx, Bot, cfg), t.asBot);
      result := t.asBot;
    }

    method Expire(idx: nat, sender: string, now: int) returns (expired: bool)
      modifies this`hold, this`notices
      ensures var (h, e, sent) := HoldExpired(old(hold), idx, sender, now, syncFails, cfg);
              hold == h && expired == e && notices == old(notices) + sent
    {
      if hold.Free? || hold.line != idx || hold.sender != sender {
        hold := Held(idx, sender, now, now, false);
        return false;
      }
      var elapsed := now - hold.tickedAt;
      hold := hold.(tickedAt := now);
      if syncFails > 0 {
        hold := hold.(since := hold.since + elapsed);
        return false;
      }
      var held := now - hold.since;
      if !hold.alerted && held >= cfg.alertAfter {
        hold := hold.(alerted := true);
        notices := notices + [Stuck(idx)];
      }
      if held >= cfg.skipAfter {
        notices := notices + [GaveUp(idx)];
        return true;
      }
      return false;
    }

    method PollInbox(lines: seq<Line>, turns: nat -> Turn)
      modifies this`inboxOffset, this`hold, this`notices, this`refused, server
      ensures Abs() == Poll(old(Abs()), lines, turns, syncFails, cfg)
    {
      if |lines| <= inboxOffset {
        inboxOffset := |lines|;
        return;
      }
      var idx := inboxOffset;
      while idx < |lines|
        invariant inboxOffset <= idx <= |lines|
        invariant PollFrom(Abs(), lines, idx, turns, syncFails, cfg) == Poll(old(Abs()), lines, turns, syncFails, cfg)
      {
        var l := lines[idx];
        if Addressable(l, cfg) {
          var result := PostWithFallback(l.msg, idx, turns(idx));
          if result.Answered? {
            hold := Free;
          } else if !ShouldHold(result.failure) {
            refused := refused + [idx];
            hold := Free;
          } else {
            var expired := Expire(idx, l.msg.sender, turns(idx).now);
            if !expired {
              inboxOffset := idx;
              return;
            }
            hold := Free;
          }
        }
        idx := idx + 1;
      }
      inboxOffset := |lines|;
    }
  }
}
