/** What became of each inbox line over a run of polls, read off what its requests met. */
module Delivery {
  import opened Order
  import opened InboxRelay

  // ---- what the environment says of one line --------------------------------

  /** The line is a message with a body, and its sender has a room. */
  predicate Posts(l: Line, cfg: Config)
  {
    l.Record? && l.msg.body != "" && l.msg.sender in cfg.rooms && cfg.rooms[l.msg.sender] != ""
  }

  predicate TokenRefused(a: Attempt) { a.Failed? && a.failure.Http? && a.failure.code in {401, 403} }

  /** The last request made for a message: the agent's, or the bot's once the agent's token is refused. */
  function Deciding(m: Message, t: Turn, cfg: Config): Attempt
  {
    if m.sender in cfg.tokens && TokenRefused(t.first) then t.asBot else t.first
  }

  /** No retry can help: a defect of the bridge, or a code that neither the operator nor the server will clear. */
  predicate Hopeless(a: Attempt)
  {
    && a.Failed?
    && (a.failure.Defect? || (a.failure.Http? && a.failure.code < 500 && a.failure.code !in {401, 403, 408, 429}))
  }

  /** The link, a token, throttling, or the server's own trouble. */
  predicate Temporary(a: Attempt)
  {
    && a.Failed?
    && (a.failure.Transport? || (a.failure.Http? && (a.failure.code >= 500 || a.failure.code in {401, 403, 408, 429})))
  }

  predicate Succeeds(l: Line, t: Turn, cfg: Config) { Posts(l, cfg) && Deciding(l.msg, t, cfg).Answered? }

  predicate FailsForGood(l: Line, t: Turn, cfg: Config) { Posts(l, cfg) && Hopeless(Deciding(l.msg, t, cfg)) }

  predicate FailsForNow(l: Line, t: Turn, cfg: Config) { Posts(l, cfg) && Temporary(Deciding(l.msg, t, cfg)) }

  predicate Took(a: Attempt) { a.Answered? || a.taken }

  /** The posting carries this message: to its sender's room, the urgency in front, keyed by time and id. */
  predicate Carries(p: Posted, m: Message, cfg: Config)
  {
    && m.sender in cfg.rooms && p.room == cfg.rooms[m.sender]
    && (p.text == m.body <==> m.priority in {"normal", "low"})
    && (m.priority !in {"normal", "low"} ==> p.text == "[" + m.priority + "] " + m.body)
    && (p.txn.None? <==> m.ts == m.id == "")
    && (p.txn.Some? ==> p.txn.value == m.ts + "-" + m.id)
  }

  /** The homeserver took the posting as the request for this line. */
  predicate TakenFor(p: Posted, idx: nat, l: Line, t: Turn, cfg: Config)
  {
    && Posts(l, cfg) && p.line == idx && Carries(p, l.msg, cfg)
    && (match p.identity
        case Agent(name) => name == l.msg.sender && name in cfg.tokens && Took(t.first)
        case Bot =>
          if l.msg.sender !in cfg.tokens then Took(t.first) else TokenRefused(t.first) && Took(t.asBot))
  }

  lemma CarriesIsPosting(p: Posted, m: Message, cfg: Config)
    requires m.sender in cfg.rooms
    ensures Carries(p, m, cfg) <==> p == PostingOf(m, p.line, p.identity, cfg)
  {
    if m.priority !in {"normal", "low"} {
      assert |"[" + m.priority + "] " + m.body| > |m.body|;
    }
  }

  // ---- one line -------------------------------------------------------------

  lemma LineTakes(s: State, idx: nat, l: Line, t: Turn, syncFails: nat, cfg: Config, p: Posted)
    ensures p in HandleLine(s, idx, l, t, syncFails, cfg).0.server.taken <==>
              p in s.server.taken || TakenFor(p, idx, l, t, cfg)
  {
    if Posts(l, cfg) {
      CarriesIsPosting(p, l.msg, cfg);
    }
  }

  lemma ExpiryNotices(h: Hold, idx: nat, sender: string, now: int, syncFails: nat, cfg: Config, k: nat)
    ensures var (_, gone, sent) := HoldExpired(h, idx, sender, now, syncFails, cfg);
            GaveUp(k) in sent <==> gone && k == idx
  {
  }

  /** What one line does to the refusals, the notices and the cursor. */
  lemma LineTells(s: State, idx: nat, l: Line, t: Turn, syncFails: nat, cfg: Config, k: nat)
    ensures var (s', stay) := HandleLine(s, idx, l, t, syncFails, cfg);
            && (k in s'.refused <==> k in s.refused || (k == idx && FailsForGood(l, t, cfg)))
            && (GaveUp(k) in s'.notices <==> GaveUp(k) in s.notices || (k == idx && !stay && FailsForNow(l, t, cfg)))
            && (stay ==> FailsForNow(l, t, cfg) && s'.offset == idx)
  {
    if l.Record? {
      ExpiryNotices(s.hold, idx, l.msg.sender, t.now, syncFails, cfg, k);
    }
  }

  // ---- one poll -------------------------------------------------------------

  lemma {:induction false} PollFromTells(s: State, lines: seq<Line>, idx: nat, turns: nat -> Turn, syncFails: nat,
      cfg: Config, k: nat)
    requires idx <= |lines|
    ensures var s' := PollFrom(s, lines, idx, turns, syncFails, cfg);
            && idx <= s'.offset <= |lines|
            && (s'.offset < |lines| ==> FailsForNow(lines[s'.offset], turns(s'.offset), cfg))
            && (k in s'.refused <==>
                  k in s.refused || (idx <= k < s'.offset && FailsForGood(lines[k], turns(k), cfg)))
            && (GaveUp(k) in s'.notices <==>
                  GaveUp(k) in s.notices || (idx <= k < s'.offset && FailsForNow(lines[k], turns(k), cfg)))
    decreases |lines| - idx
  {
    if idx < |lines| {
      LineTells(s, idx, lines[idx], turns(idx), syncFails, cfg, k);
      var (s', stay) := HandleLine(s, idx, lines[idx], turns(idx), syncFails, cfg);
      if !stay {
        PollFromTells(s', lines, idx + 1, turns, syncFails, cfg, k);
      }
    }
  }

  lemma {:induction false} PollFromTakes(s: State, lines: seq<Line>, idx: nat, turns: nat -> Turn, syncFails: nat,
      cfg: Config, p: Posted)
    requires idx <= |lines|
    ensures var s' := PollFrom(s, lines, idx, turns, syncFails, cfg); var k := p.line;
            && idx <= s'.offset <= |lines|
            && (p in s'.server.taken <==>
                  p in s.server.taken
                  || (idx <= k <= s'.offset && k < |lines| && TakenFor(p, k, lines[k], turns(k), cfg)))
    decreases |lines| - idx
  {
    if idx < |lines| {
      LineTakes(s, idx, lines[idx], turns(idx), syncFails, cfg, p);
      var (s', stay) := HandleLine(s, idx, lines[idx], turns(idx), syncFails, cfg);
      if !stay {
        PollFromTakes(s', lines, idx + 1, turns, syncFails, cfg, p);
      }
    }
  }

  // ---- a run of polls -------------------------------------------------------

  /** The bridge's state after the first `n` polls. */
  function After(initial: seq<Line>, inputs: seq<PollInput>, n: nat, cfg: Config): State
    requires n <= |inputs|
  {
    Polls(ColdStart(initial), inputs[..n], cfg)
  }

  /** Poll `n` moved the cursor past line `k`. */
  predicate PassedIn(initial: seq<Line>, inputs: seq<PollInput>, n: nat, k: nat, cfg: Config)
  {
    && n < |inputs| && k < |inputs[n].lines|
    && After(initial, inputs, n, cfg).offset <= k < After(initial, inputs, n + 1, cfg).offset
  }

  /** Poll `n` tried line `k`, whether or not the cursor moved past it. */
  predicate TriedIn(initial: seq<Line>, inputs: seq<PollInput>, n: nat, k: nat, cfg: Config)
  {
    && n < |inputs| && k < |inputs[n].lines|
    && After(initial, inputs, n, cfg).offset <= k <= After(initial, inputs, n + 1, cfg).offset
  }

  predicate RefusedIn(initial: seq<Line>, inputs: seq<PollInput>, n: nat, k: nat, cfg: Config)
  {
    && PassedIn(initial, inputs, n, k, cfg)
    && FailsForGood(inputs[n].lines[k], inputs[n].turns(k), cfg)
  }

  predicate GivenUpIn(initial: seq<Line>, inputs: seq<PollInput>, n: nat, k: nat, cfg: Config)
  {
    && PassedIn(initial, inputs, n, k, cfg)
    && FailsForNow(inputs[n].lines[k], inputs[n].turns(k), cfg)
  }

  predicate TakenIn(initial: seq<Line>, inputs: seq<PollInput>, n: nat, p: Posted, cfg: Config)
  {
    && TriedIn(initial, inputs, n, p.line, cfg)
    && TakenFor(p, p.line, inputs[n].lines[p.line], inputs[n].turns(p.line), cfg)
  }

  lemma EarlierStates(initial: seq<Line>, inputs: seq<PollInput>, n: nat, cfg: Config)
    requires inputs != [] && n <= |inputs| - 1
    ensures After(initial, inputs, n, cfg) == After(initial, inputs[..|inputs| - 1], n, cfg)
  {
    assert inputs[..|inputs| - 1][..n] == inputs[..n];
  }

  lemma WholeRun(initial: seq<Line>, inputs: seq<PollInput>, cfg: Config)
    ensures After(initial, inputs, |inputs|, cfg) == Polls(ColdStart(initial), inputs, cfg)
  {
    assert inputs[..|inputs|] == inputs;
  }

  lemma {:induction false} CursorStaysInside(initial: seq<Line>, inputs: seq<PollInput>, cfg: Config)
    requires Growing(initial, inputs)
    ensures Polls(ColdStart(initial), inputs, cfg).offset <= |LinesAfter(initial, inputs)|
  {
    if inputs != [] {
      var front, last := inputs[..|inputs| - 1], inputs[|inputs| - 1];
      CursorStaysInside(initial, front, cfg);
      var s := Polls(ColdStart(initial), front, cfg);
      if s.offset < |last.lines| {
        PollFromTells(s, last.lines, s.offset, last.turns, last.syncFails, cfg, 0);
      }
    }
  }

  /** One poll more. */
  lemma LastPollTells(initial: seq<Line>, inputs: seq<PollInput>, cfg: Config, k: nat)
    requires inputs != [] && Growing(initial, inputs)
    ensures var n := |inputs| - 1;
            var s, s' := Polls(ColdStart(initial), inputs[..n], cfg), Polls(ColdStart(initial), inputs, cfg);
            && s.offset <= s'.offset <= |inputs[n].lines|
            && (k in s'.refused <==> k in s.refused || RefusedIn(initial, inputs, n, k, cfg))
            && (GaveUp(k) in s'.notices <==> GaveUp(k) in s.notices || GivenUpIn(initial, inputs, n, k, cfg))
            && (s'.offset < |inputs[n].lines| ==>
                  FailsForNow(inputs[n].lines[s'.offset], inputs[n].turns(s'.offset), cfg))
  {
    var n := |inputs| - 1;
    var s, last := Polls(ColdStart(initial), inputs[..n], cfg), inputs[n];
    CursorStaysInside(initial, inputs[..n], cfg);
    WholeRun(initial, inputs, cfg);
    if s.offset < |last.lines| {
      PollFromTells(s, last.lines, s.offset, last.turns, last.syncFails, cfg, k);
    }
  }

  lemma LastPollTakes(initial: seq<Line>, inputs: seq<PollInput>, cfg: Config, p: Posted)
    requires inputs != [] && Growing(initial, inputs)
    ensures var n := |inputs| - 1;
            p in Polls(ColdStart(initial), inputs, cfg).server.taken <==>
              p in Polls(ColdStart(initial), inputs[..n], cfg).server.taken || TakenIn(initial, inputs, n, p, cfg)
  {
    var n := |inputs| - 1;
    var s, last := Polls(ColdStart(initial), inputs[..n], cfg), inputs[n];
    CursorStaysInside(initial, inputs[..n], cfg);
    WholeRun(initial, inputs, cfg);
    if s.offset < |last.lines| {
      PollFromTakes(s, last.lines, s.offset, last.turns, last.syncFails, cfg, p);
    }
  }

  lemma EarlierVerdicts(initial: seq<Line>, inputs: seq<PollInput>, n: nat, k: nat, cfg: Config)
    requires n + 1 < |inputs|
    ensures var front := inputs[..|inputs| - 1];
            && PassedIn(initial, inputs, n, k, cfg) == PassedIn(initial, front, n, k, cfg)
            && RefusedIn(initial, inputs, n, k, cfg) == RefusedIn(initial, front, n, k, cfg)
            && GivenUpIn(initial, inputs, n, k, cfg) == GivenUpIn(initial, front, n, k, cfg)
  {
    EarlierPolls(initial, inputs, n, k, cfg);
  }

  lemma EarlierPolls(initial: seq<Line>, inputs: seq<PollInput>, n: nat, k: nat, cfg: Config)
    requires n + 1 < |inputs|
    ensures var front := inputs[..|inputs| - 1];
            && PassedIn(initial, inputs, n, k, cfg) == PassedIn(initial, front, n, k, cfg)
            && TriedIn(initial, inputs, n, k, cfg) == TriedIn(initial, front, n, k, cfg)
  {
    EarlierStates(initial, inputs, n, cfg);
    EarlierStates(initial, inputs, n + 1, cfg);
  }

  ghost predicate EverPassed(initial: seq<Line>, inputs: seq<PollInput>, k: nat, cfg: Config)
  {
    exists n :: 0 <= n < |inputs| && PassedIn(initial, inputs, n, k, cfg)
  }

  ghost predicate EverRefused(initial: seq<Line>, inputs: seq<PollInput>, k: nat, cfg: Config)
  {
    exists n :: 0 <= n < |inputs| && RefusedIn(initial, inputs, n, k, cfg)
  }

  ghost predicate EverGivenUp(initial: seq<Line>, inputs: seq<PollInput>, k: nat, cfg: Config)
  {
    exists n :: 0 <= n < |inputs| && GivenUpIn(initial, inputs, n, k, cfg)
  }

  ghost predicate EverTaken(initial: seq<Line>, inputs: seq<PollInput>, p: Posted, cfg: Config)
  {
    exists n :: 0 <= n < |inputs| && TakenIn(initial, inputs, n, p, cfg)
  }

  lemma OneMorePollPassed(initial: seq<Line>, inputs: seq<PollInput>, k: nat, cfg: Config)
    requires inputs != []
    ensures var m := |inputs| - 1;
            EverPassed(initial, inputs, k, cfg) <==>
              EverPassed(initial, inputs[..m], k, cfg) || PassedIn(initial, inputs, m, k, cfg)
  {
    var m := |inputs| - 1;
    forall n | 0 <= n < m
      ensures PassedIn(initial, inputs, n, k, cfg) == PassedIn(initial, inputs[..m], n, k, cfg)
    {
      EarlierVerdicts(initial, inputs, n, k, cfg);
    }
  }

  lemma OneMorePollRefused(initial: seq<Line>, inputs: seq<PollInput>, k: nat, cfg: Config)
    requires inputs != []
    ensures var m := |inputs| - 1;
            EverRefused(initial, inputs, k, cfg) <==>
              EverRefused(initial, inputs[..m], k, cfg) || RefusedIn(initial, inputs, m, k, cfg)
  {
    var m := |inputs| - 1;
    forall n | 0 <= n < m
      ensures RefusedIn(initial, inputs, n, k, cfg) == RefusedIn(initial, inputs[..m], n, k, cfg)
    {
      EarlierVerdicts(initial, inputs, n, k, cfg);
    }
  }

  lemma OneMorePollGivenUp(initial: seq<Line>, inputs: seq<PollInput>, k: nat, cfg: Config)
    requires inputs != []
    ensures var m := |inputs| - 1;
            EverGivenUp(initial, inputs, k, cfg) <==>
              EverGivenUp(initial, inputs[..m], k, cfg) || GivenUpIn(initial, inputs, m, k, cfg)
  {
    var m := |inputs| - 1;
    forall n | 0 <= n < m
      ensures GivenUpIn(initial, inputs, n, k, cfg) == GivenUpIn(initial, inputs[..m], n, k, cfg)
    {
      EarlierVerdicts(initial, inputs, n, k, cfg);
    }
  }

  lemma OneMorePollTaken(initial: seq<Line>, inputs: seq<PollInput>, p: Posted, cfg: Config)
    requires inputs != []
    ensures var m := |inputs| - 1;
            EverTaken(initial, inputs, p, cfg) <==>
              EverTaken(initial, inputs[..m], p, cfg) || TakenIn(initial, inputs, m, p, cfg)
  {
    var m := |inputs| - 1;
    forall n | 0 <= n < m
      ensures TakenIn(initial, inputs, n, p, cfg) == TakenIn(initial, inputs[..m], n, p, cfg)
    {
      EarlierPolls(initial, inputs, n, p.line, cfg);
    }
  }

  /**
   * Over any run, a line is recorded as refused exactly when the poll that moved the cursor past it had its last
   * request end in a defect, or in a code below 500 other than 401, 403, 408 and 429.
   */
  lemma {:induction false} RefusedExactlyWhen(initial: seq<Line>, inputs: seq<PollInput>, cfg: Config, k: nat)
    requires Growing(initial, inputs)
    ensures k in Polls(ColdStart(initial), inputs, cfg).refused <==> EverRefused(initial, inputs, k, cfg)
  {
    if inputs != [] {
      RefusedExactlyWhen(initial, inputs[..|inputs| - 1], cfg, k);
      LastPollTells(initial, inputs, cfg, k);
      OneMorePollRefused(initial, inputs, k, cfg);
    }
  }

  /** Given up exactly when it was passed over a failure that a retry might have cleared. */
  lemma {:induction false} GivenUpExactlyIn(initial: seq<Line>, inputs: seq<PollInput>, cfg: Config, k: nat)
    requires Growing(initial, inputs)
    ensures GaveUp(k) in Polls(ColdStart(initial), inputs, cfg).notices <==> EverGivenUp(initial, inputs, k, cfg)
  {
    if inputs != [] {
      GivenUpExactlyIn(initial, inputs[..|inputs| - 1], cfg, k);
      LastPollTells(initial, inputs, cfg, k);
      OneMorePollGivenUp(initial, inputs, k, cfg);
    }
  }

  /** The server took exactly the postings some poll made for a line it tried, and that reached it. */
  lemma {:induction false} TakenExactlyWhen(initial: seq<Line>, inputs: seq<PollInput>, cfg: Config, p: Posted)
    requires Growing(initial, inputs)
    ensures p in Polls(ColdStart(initial), inputs, cfg).server.taken <==> EverTaken(initial, inputs, p, cfg)
  {
    if inputs != [] {
      TakenExactlyWhen(initial, inputs[..|inputs| - 1], cfg, p);
      LastPollTakes(initial, inputs, cfg, p);
      OneMorePollTaken(initial, inputs, p, cfg);
    }
  }

  /** Poll `n` posted line `k` under the agent's own token, and the server took it. */
  predicate AgentTookIn(initial: seq<Line>, inputs: seq<PollInput>, n: nat, k: nat, cfg: Config)
  {
    && TriedIn(initial, inputs, n, k, cfg) && Posts(inputs[n].lines[k], cfg)
    && inputs[n].lines[k].msg.sender in cfg.tokens && Took(inputs[n].turns(k).first)
  }

  /** Poll `n` posted line `k` as the bot, for want of a token or after its refusal, and the server took it. */
  predicate BotTookIn(initial: seq<Line>, inputs: seq<PollInput>, n: nat, k: nat, cfg: Config)
  {
    && TriedIn(initial, inputs, n, k, cfg) && Posts(inputs[n].lines[k], cfg)
    && (if inputs[n].lines[k].msg.sender !in cfg.tokens then Took(inputs[n].turns(k).first)
        else TokenRefused(inputs[n].turns(k).first) && Took(inputs[n].turns(k).asBot))
  }

  lemma TakenForBy(initial: seq<Line>, inputs: seq<PollInput>, n: nat, k: nat, cfg: Config, who: Identity)
    requires TriedIn(initial, inputs, n, k, cfg) && Posts(inputs[n].lines[k], cfg)
    requires who == Bot || who == Agent(inputs[n].lines[k].msg.sender)
    ensures var p := PostingOf(inputs[n].lines[k].msg, k, who, cfg);
            TakenIn(initial, inputs, n, p, cfg) <==>
              if who == Bot then BotTookIn(initial, inputs, n, k, cfg) else AgentTookIn(initial, inputs, n, k, cfg)
  {
    CarriesIsPosting(PostingOf(inputs[n].lines[k].msg, k, who, cfg), inputs[n].lines[k].msg, cfg);
  }

  /** Some poll made the request that `p` is. */
  lemma TakenBySome(initial: seq<Line>, inputs: seq<PollInput>, cfg: Config, p: Posted) returns (n: nat)
    requires Growing(initial, inputs) && p in Polls(ColdStart(initial), inputs, cfg).server.taken
    ensures n < |inputs|
    ensures p.identity.Bot? ==> BotTookIn(initial, inputs, n, p.line, cfg)
    ensures p.identity.Agent? ==> AgentTookIn(initial, inputs, n, p.line, cfg)
  {
    TakenExactlyWhen(initial, inputs, cfg, p);
    n :| 0 <= n < |inputs| && TakenIn(initial, inputs, n, p, cfg);
  }

  lemma TookIsTaken(initial: seq<Line>, inputs: seq<PollInput>, cfg: Config, n: nat, k: nat, who: Identity)
    requires Growing(initial, inputs) && TriedIn(initial, inputs, n, k, cfg) && Posts(inputs[n].lines[k], cfg)
    requires if who == Bot then BotTookIn(initial, inputs, n, k, cfg)
             else AgentTookIn(initial, inputs, n, k, cfg) && who == Agent(inputs[n].lines[k].msg.sender)
    ensures var p := PostingOf(inputs[n].lines[k].msg, k, who, cfg);
            p in Polls(ColdStart(initial), inputs, cfg).server.taken && p.line == k && p.identity == who
  {
    TakenForBy(initial, inputs, n, k, cfg, who);
    TakenExactlyWhen(initial, inputs, cfg, PostingOf(inputs[n].lines[k].msg, k, who, cfg));
  }

  /** A line is taken under an identity exactly when some poll that tried it made that request and it got through. */
  lemma TakenAsExactlyWhen(initial: seq<Line>, inputs: seq<PollInput>, cfg: Config, k: nat)
    requires Growing(initial, inputs)
    ensures var s := Polls(ColdStart(initial), inputs, cfg).server;
            && (TakenAsAgent(k, s) <==> exists n :: 0 <= n < |inputs| && AgentTookIn(initial, inputs, n, k, cfg))
            && (TakenAsBot(k, s) <==> exists n :: 0 <= n < |inputs| && BotTookIn(initial, inputs, n, k, cfg))
  {
    var s := Polls(ColdStart(initial), inputs, cfg).server;
    if TakenAsAgent(k, s) {
      var p :| p in s.taken && p.line == k && p.identity.Agent?;
      var n := TakenBySome(initial, inputs, cfg, p);
    }
    if TakenAsBot(k, s) {
      var p :| p in s.taken && p.line == k && p.identity.Bot?;
      var n := TakenBySome(initial, inputs, cfg, p);
    }
    if n :| 0 <= n < |inputs| && AgentTookIn(initial, inputs, n, k, cfg) {
      TookIsTaken(initial, inputs, cfg, n, k, Agent(inputs[n].lines[k].msg.sender));
    }
    if n :| 0 <= n < |inputs| && BotTookIn(initial, inputs, n, k, cfg) {
      TookIsTaken(initial, inputs, cfg, n, k, Bot);
    }
  }

  /** While every failure is one of the link, a token, throttling or the server's own, no line is refused. */
  lemma NothingRefusedInPassing(initial: seq<Line>, inputs: seq<PollInput>, cfg: Config)
    requires Growing(initial, inputs)
    requires forall n, k: nat :: 0 <= n < |inputs| && k < |inputs[n].lines| ==>
               !FailsForGood(inputs[n].lines[k], inputs[n].turns(k), cfg)
    ensures Polls(ColdStart(initial), inputs, cfg).refused == []
  {
    var refused := Polls(ColdStart(initial), inputs, cfg).refused;
    forall k | k in refused ensures false {
      RefusedExactlyWhen(initial, inputs, cfg, k);
    }
    HasMember(refused);
  }

  /** The cursor passes every line behind it exactly once. */
  lemma {:induction false} PassedExactlyOnce(initial: seq<Line>, inputs: seq<PollInput>, cfg: Config, k: nat)
    requires Growing(initial, inputs)
    ensures |initial| <= Polls(ColdStart(initial), inputs, cfg).offset
    ensures |initial| <= k < Polls(ColdStart(initial), inputs, cfg).offset <==> EverPassed(initial, inputs, k, cfg)
  {
    if inputs != [] {
      PassedExactlyOnce(initial, inputs[..|inputs| - 1], cfg, k);
      LastPollTells(initial, inputs, cfg, k);
      OneMorePollPassed(initial, inputs, k, cfg);
      WholeRun(initial, inputs, cfg);
    }
  }

  /** So no line ends in two ways, or twice. */
  lemma PassedInOneOnly(initial: seq<Line>, inputs: seq<PollInput>, n: nat, j: nat, k: nat, cfg: Config)
    requires Growing(initial, inputs) && n < j < |inputs| && PassedIn(initial, inputs, n, k, cfg)
    ensures !PassedIn(initial, inputs, j, k, cfg)
  {
    var upTo := inputs[..j];
    GrowingPrefix(initial, inputs, j);
    assert upTo[..n] == inputs[..n] && upTo[..n + 1] == inputs[..n + 1];
    assert PassedIn(initial, upTo, n, k, cfg);
    PassedExactlyOnce(initial, upTo, cfg, k);
  }

  lemma {:induction false} GrowingPrefix(initial: seq<Line>, inputs: seq<PollInput>, j: nat)
    requires Growing(initial, inputs) && j <= |inputs|
    ensures Growing(initial, inputs[..j])
    decreases |inputs|
  {
    if j < |inputs| {
      GrowingPrefix(initial, inputs[..|inputs| - 1], j);
      assert inputs[..|inputs| - 1][..j] == inputs[..j];
    } else {
      assert inputs[..j] == inputs;
    }
  }

  // ---- how long the cursor waits --------------------------------------------

  function SenderOf(l: Line): string { if l.Record? then l.msg.sender else "" }

  /** The hold is on the line the cursor stands on, or there is none. */
  ghost predicate HoldsCursor(s: State, lines: seq<Line>, cfg: Config)
  {
    s.hold.Held? ==> s.offset < |lines| && s.hold.line == s.offset && Posts(lines[s.offset], cfg)
  }

  /** The line tried first keeps the clock it has; one reached later in the poll starts a new one, and stays. */
  lemma {:induction false} PollFromHolds(s: State, lines: seq<Line>, idx: nat, turns: nat -> Turn, syncFails: nat,
      cfg: Config)
    requires idx <= |lines| && HoldsCursor(s.(offset := idx), lines, cfg)
    ensures var s' := PollFrom(s, lines, idx, turns, syncFails, cfg);
            && idx <= s'.offset <= |lines| && HoldsCursor(s', lines, cfg)
            && (s'.offset < |lines| ==>
                  s'.hold == HoldExpired(if s'.offset == idx then s.hold else Free, s'.offset,
                                         SenderOf(lines[s'.offset]), turns(s'.offset).now, syncFails, cfg).0)
            && (forall k :: idx < k < s'.offset ==> !FailsForNow(lines[k], turns(k), cfg))
            && (idx < |lines| && FailsForNow(lines[idx], turns(idx), cfg) ==>
                  (idx < s'.offset <==>
                     HoldExpired(s.hold, idx, SenderOf(lines[idx]), turns(idx).now, syncFails, cfg).1))
    decreases |lines| - idx
  {
    if idx < |lines| {
      var (s', stay) := HandleLine(s, idx, lines[idx], turns(idx), syncFails, cfg);
      if !stay {
        PollFromHolds(s', lines, idx + 1, turns, syncFails, cfg);
      }
    }
  }

  lemma PollAt(initial: seq<Line>, inputs: seq<PollInput>, n: nat, cfg: Config)
    requires Growing(initial, inputs) && n < |inputs|
    ensures var s, s', p := After(initial, inputs, n, cfg), After(initial, inputs, n + 1, cfg), inputs[n];
            && s.offset <= |p.lines| && LinesAfter(initial, inputs[..n]) <= p.lines
            && s' == (if s.offset < |p.lines| then PollFrom(s, p.lines, s.offset, p.turns, p.syncFails, cfg) else s)
  {
    GrowingPrefix(initial, inputs, n);
    GrowingPrefix(initial, inputs, n + 1);
    CursorStaysInside(initial, inputs[..n], cfg);
    assert inputs[..n + 1][..n] == inputs[..n];
  }

  lemma {:induction false} HoldStaysOnCursor(initial: seq<Line>, inputs: seq<PollInput>, n: nat, cfg: Config)
    requires Growing(initial, inputs) && n <= |inputs|
    ensures HoldsCursor(After(initial, inputs, n, cfg), LinesAfter(initial, inputs[..n]), cfg)
  {
    if n > 0 {
      var s, p := After(initial, inputs, n - 1, cfg), inputs[n - 1];
      HoldStaysOnCursor(initial, inputs, n - 1, cfg);
      PollAt(initial, inputs, n - 1, cfg);
      if s.offset < |p.lines| {
        PollFromHolds(s, p.lines, s.offset, p.turns, p.syncFails, cfg);
      }
    }
  }

  /** Poll `n` ended with the cursor on line `k`. */
  predicate LeftOn(initial: seq<Line>, inputs: seq<PollInput>, n: nat, k: nat, cfg: Config)
  {
    n < |inputs| && k == After(initial, inputs, n + 1, cfg).offset < |inputs[n].lines|
  }

  /** The cursor reached line `k` in poll `m`, and every poll from there to before `n` left it there. */
  ghost predicate StuckFrom(initial: seq<Line>, inputs: seq<PollInput>, m: nat, n: nat, k: nat, cfg: Config)
  {
    && m <= n <= |inputs|
    && (m > 0 ==> !LeftOn(initial, inputs, m - 1, k, cfg))
    && (forall j :: m <= j < n ==> LeftOn(initial, inputs, j, k, cfg))
  }

  /** When line `k` was tried, and how `/sync` was, from poll `m` to before `n`. */
  function Tries(inputs: seq<PollInput>, m: nat, n: nat, k: nat): seq<HoldTick>
    requires m <= n <= |inputs|
    decreases n
  {
    if m == n then []
    else Tries(inputs, m, n - 1, k) + [HoldTick(inputs[n - 1].turns(k).now, inputs[n - 1].syncFails)]
  }

  lemma NextTry(initial: seq<Line>, inputs: seq<PollInput>, n: nat, k: nat, cfg: Config)
    requires Growing(initial, inputs) && n < |inputs| && TriedIn(initial, inputs, n, k, cfg)
    ensures var s, s', p := After(initial, inputs, n, cfg), After(initial, inputs, n + 1, cfg), inputs[n];
            var h := HoldExpired(if s.offset == k then s.hold else Free, k, SenderOf(p.lines[k]), p.turns(k).now,
                                 p.syncFails, cfg);
            && (LeftOn(initial, inputs, n, k, cfg) ==> s'.hold == h.0)
            && (FailsForNow(p.lines[k], p.turns(k), cfg) ==>
                  (PassedIn(initial, inputs, n, k, cfg) <==> h.1))
  {
    var s, p := After(initial, inputs, n, cfg), inputs[n];
    PollAt(initial, inputs, n, cfg);
    HoldStaysOnCursor(initial, inputs, n, cfg);
    PollFromHolds(s, p.lines, s.offset, p.turns, p.syncFails, cfg);
  }

  /** A failure on a line just reached never moves the cursor past it. */
  lemma FirstFailureStays(initial: seq<Line>, inputs: seq<PollInput>, n: nat, k: nat, cfg: Config)
    requires Growing(initial, inputs) && TriedIn(initial, inputs, n, k, cfg)
    requires n > 0 ==> !LeftOn(initial, inputs, n - 1, k, cfg)
    requires FailsForNow(inputs[n].lines[k], inputs[n].turns(k), cfg)
    ensures LeftOn(initial, inputs, n, k, cfg)
    ensures After(initial, inputs, n + 1, cfg).hold
         == HoldRun(k, SenderOf(inputs[n].lines[k]), inputs[n].turns(k).now, [], cfg).0
  {
    NextTry(initial, inputs, n, k, cfg);
    if After(initial, inputs, n, cfg).offset == k {
      NoHoldOnArrival(initial, inputs, n, k, cfg);
    }
  }

  lemma NoHoldOnArrival(initial: seq<Line>, inputs: seq<PollInput>, n: nat, k: nat, cfg: Config)
    requires Growing(initial, inputs) && n < |inputs|
    requires n > 0 ==> !LeftOn(initial, inputs, n - 1, k, cfg)
    requires After(initial, inputs, n, cfg).offset == k
    ensures After(initial, inputs, n, cfg).hold == Free
  {
    HoldStaysOnCursor(initial, inputs, n, cfg);
    if n == 0 {
      assert inputs[..0] == [];
    }
  }

  lemma {:induction false} LinesGrow(initial: seq<Line>, inputs: seq<PollInput>, m: nat, n: nat)
    requires Growing(initial, inputs) && m <= n < |inputs|
    ensures inputs[m].lines <= inputs[n].lines
    decreases n
  {
    if m < n {
      LinesGrow(initial, inputs, m, n - 1);
      GrowingPrefix(initial, inputs, n + 1);
      assert inputs[..n + 1][..n] == inputs[..n];
    }
  }

  lemma LeftOnIsFailure(initial: seq<Line>, inputs: seq<PollInput>, n: nat, k: nat, cfg: Config)
    requires Growing(initial, inputs) && LeftOn(initial, inputs, n, k, cfg)
    ensures TriedIn(initial, inputs, n, k, cfg) && FailsForNow(inputs[n].lines[k], inputs[n].turns(k), cfg)
  {
    var s, p := After(initial, inputs, n, cfg), inputs[n];
    PollAt(initial, inputs, n, cfg);
    if s.offset < |p.lines| {
      PollFromTells(s, p.lines, s.offset, p.turns, p.syncFails, cfg, k);
    }
  }

  lemma HoldRunSnoc(idx: nat, sender: string, start: int, ticks: seq<HoldTick>, last: HoldTick, cfg: Config)
    ensures HoldRun(idx, sender, start, ticks + [last], cfg).0
         == HoldExpired(HoldRun(idx, sender, start, ticks, cfg).0, idx, sender, last.now, last.syncFails, cfg).0
  {
    assert (ticks + [last])[..|ticks|] == ticks;
  }

  /** The hold after the polls before `n` is what the failures on line `k` since poll `m` make of it. */
  ghost predicate CountsTries(initial: seq<Line>, inputs: seq<PollInput>, m: nat, n: nat, k: nat, cfg: Config)
  {
    && m < n <= |inputs| && k < |inputs[m].lines| && After(initial, inputs, n, cfg).offset == k
    && After(initial, inputs, n, cfg).hold
       == HoldRun(k, SenderOf(inputs[m].lines[k]), inputs[m].turns(k).now, Tries(inputs, m + 1, n, k), cfg).0
  }

  lemma TriesAgain(initial: seq<Line>, inputs: seq<PollInput>, m: nat, n: nat, k: nat, cfg: Config)
    requires Growing(initial, inputs) && CountsTries(initial, inputs, m, n, k, cfg)
    requires LeftOn(initial, inputs, n, k, cfg)
    ensures CountsTries(initial, inputs, m, n + 1, k, cfg)
  {
    LeftOnIsFailure(initial, inputs, n, k, cfg);
    NextTry(initial, inputs, n, k, cfg);
    LinesGrow(initial, inputs, m, n);
    HoldRunSnoc(k, SenderOf(inputs[m].lines[k]), inputs[m].turns(k).now, Tries(inputs, m + 1, n, k),
                HoldTick(inputs[n].turns(k).now, inputs[n].syncFails), cfg);
  }

  /** While the cursor stays on a line, the hold counts every failure on it. */
  lemma {:induction false} HoldCountsTries(initial: seq<Line>, inputs: seq<PollInput>, m: nat, n: nat, k: nat,
      cfg: Config)
    requires Growing(initial, inputs) && m < n && StuckFrom(initial, inputs, m, n, k, cfg)
    ensures CountsTries(initial, inputs, m, n, k, cfg)
    decreases n
  {
    assert LeftOn(initial, inputs, n - 1, k, cfg);
    if n == m + 1 {
      LeftOnIsFailure(initial, inputs, m, k, cfg);
      FirstFailureStays(initial, inputs, m, k, cfg);
    } else {
      HoldCountsTries(initial, inputs, m, n - 1, k, cfg);
      TriesAgain(initial, inputs, m, n - 1, k, cfg);
    }
  }

  /**
   * The cursor leaves a line on a failure that a retry might clear exactly when `/sync` answers and, counting only
   * the intervals that ended with a healthy `/sync`, it has tried that line for the whole of `skipAfter`.
   */
  lemma SkippedExactlyWhen(initial: seq<Line>, inputs: seq<PollInput>, m: nat, n: nat, k: nat, cfg: Config)
    requires Growing(initial, inputs) && m < n < |inputs| && StuckFrom(initial, inputs, m, n, k, cfg)
    requires k < |inputs[n].lines| && FailsForNow(inputs[n].lines[k], inputs[n].turns(k), cfg)
    ensures PassedIn(initial, inputs, n, k, cfg) <==>
              inputs[n].syncFails == 0
              && Reachable(inputs[m].turns(k).now, Tries(inputs, m + 1, n + 1, k)) >= cfg.skipAfter
  {
    HoldCountsTries(initial, inputs, m, n, k, cfg);
    PollAt(initial, inputs, n, cfg);
    var s, p := After(initial, inputs, n, cfg), inputs[n];
    PollFromTells(s, p.lines, k, p.turns, p.syncFails, cfg, k);
    NextTry(initial, inputs, n, k, cfg);
    LinesGrow(initial, inputs, m, n);
    GivenUpExactlyWhen(k, SenderOf(p.lines[k]), inputs[m].turns(k).now, Tries(inputs, m + 1, n, k),
                       HoldTick(p.turns(k).now, p.syncFails), cfg);
  }

  // ---- the stall notice -----------------------------------------------------

  /** Only the line the poll starts on can have been held long enough to be reported. */
  lemma {:induction false} PollFromReports(s: State, lines: seq<Line>, idx: nat, turns: nat -> Turn, syncFails: nat,
      cfg: Config, k: nat)
    requires idx <= |lines| && HoldsCursor(s.(offset := idx), lines, cfg)
    ensures Stuck(k) in PollFrom(s, lines, idx, turns, syncFails, cfg).notices <==>
              || Stuck(k) in s.notices
              || (k == idx < |lines| && FailsForNow(lines[k], turns(k), cfg)
                  && Stuck(k) in HoldExpired(s.hold, k, SenderOf(lines[k]), turns(k).now, syncFails, cfg).2)
    decreases |lines| - idx
  {
    if idx < |lines| {
      var (s', stay) := HandleLine(s, idx, lines[idx], turns(idx), syncFails, cfg);
      if !stay {
        PollFromReports(s', lines, idx + 1, turns, syncFails, cfg, k);
      }
    }
  }

  /** A report is about a line behind the cursor, or the one it is held on. */
  ghost predicate ReportsBehind(s: State, k: nat)
  {
    Stuck(k) in s.notices ==> k < s.offset || (k == s.offset && s.hold.Held?)
  }

  lemma PollReportsBehind(s: State, p: PollInput, cfg: Config, k: nat)
    requires s.offset < |p.lines| && HoldsCursor(s, p.lines, cfg) && ReportsBehind(s, k)
    ensures ReportsBehind(PollFrom(s, p.lines, s.offset, p.turns, p.syncFails, cfg), k)
  {
    PollFromReports(s, p.lines, s.offset, p.turns, p.syncFails, cfg, k);
    PollFromHolds(s, p.lines, s.offset, p.turns, p.syncFails, cfg);
  }

  lemma {:induction false} ReportsLieBehind(initial: seq<Line>, inputs: seq<PollInput>, n: nat, k: nat, cfg: Config)
    requires Growing(initial, inputs) && n <= |inputs|
    ensures ReportsBehind(After(initial, inputs, n, cfg), k)
  {
    if n > 0 {
      var s, p := After(initial, inputs, n - 1, cfg), inputs[n - 1];
      ReportsLieBehind(initial, inputs, n - 1, k, cfg);
      PollAt(initial, inputs, n - 1, cfg);
      HoldStaysOnCursor(initial, inputs, n - 1, cfg);
      if s.offset < |p.lines| { PollReportsBehind(s, p, cfg, k); }
    }
  }

  lemma NextReport(initial: seq<Line>, inputs: seq<PollInput>, n: nat, k: nat, cfg: Config)
    requires Growing(initial, inputs) && LeftOn(initial, inputs, n, k, cfg)
    ensures var s, s', p := After(initial, inputs, n, cfg), After(initial, inputs, n + 1, cfg), inputs[n];
            Stuck(k) in s'.notices <==>
              || Stuck(k) in s.notices
              || (s.offset == k
                  && Stuck(k) in HoldExpired(s.hold, k, SenderOf(p.lines[k]), p.turns(k).now, p.syncFails, cfg).2)
  {
    var s, p := After(initial, inputs, n, cfg), inputs[n];
    LeftOnIsFailure(initial, inputs, n, k, cfg);
    PollAt(initial, inputs, n, cfg);
    HoldStaysOnCursor(initial, inputs, n, cfg);
    PollFromReports(s, p.lines, s.offset, p.turns, p.syncFails, cfg, k);
  }

  lemma ReportedWhenAlerted(h: Hold, idx: nat, sender: string, now: int, syncFails: nat, cfg: Config)
    requires h.Held? && h.line == idx && h.sender == sender
    ensures var (h', _, sent) := HoldExpired(h, idx, sender, now, syncFails, cfg);
            h'.Held? && h'.line == idx && h'.sender == sender && (h'.alerted <==> h.alerted || Stuck(idx) in sent)
  {
  }

  /** The cursor is held on line `k`, and the line has been reported exactly when the hold says so. */
  ghost predicate ReportedAs(s: State, k: nat, sender: string)
  {
    && s.offset == k && s.hold.Held? && s.hold.line == k && s.hold.sender == sender
    && (Stuck(k) in s.notices <==> s.hold.alerted)
  }

  lemma ReportedOnArrival(initial: seq<Line>, inputs: seq<PollInput>, m: nat, k: nat, cfg: Config)
    requires Growing(initial, inputs) && LeftOn(initial, inputs, m, k, cfg)
    requires m > 0 ==> !LeftOn(initial, inputs, m - 1, k, cfg)
    ensures ReportedAs(After(initial, inputs, m + 1, cfg), k, SenderOf(inputs[m].lines[k]))
  {
    LeftOnIsFailure(initial, inputs, m, k, cfg);
    NextReport(initial, inputs, m, k, cfg);
    FirstFailureStays(initial, inputs, m, k, cfg);
    ReportsLieBehind(initial, inputs, m, k, cfg);
    if After(initial, inputs, m, cfg).offset == k { NoHoldOnArrival(initial, inputs, m, k, cfg); }
  }

  lemma ReportedAgain(initial: seq<Line>, inputs: seq<PollInput>, n: nat, k: nat, cfg: Config)
    requires Growing(initial, inputs) && LeftOn(initial, inputs, n, k, cfg)
    requires ReportedAs(After(initial, inputs, n, cfg), k, SenderOf(inputs[n].lines[k]))
    ensures ReportedAs(After(initial, inputs, n + 1, cfg), k, SenderOf(inputs[n].lines[k]))
  {
    var s, p := After(initial, inputs, n, cfg), inputs[n];
    LeftOnIsFailure(initial, inputs, n, k, cfg);
    NextReport(initial, inputs, n, k, cfg);
    NextTry(initial, inputs, n, k, cfg);
    ReportedWhenAlerted(s.hold, k, SenderOf(p.lines[k]), p.turns(k).now, p.syncFails, cfg);
  }

  /** While the cursor stays on a line, it has been reported exactly when the hold says so. */
  lemma {:induction false} ReportedAsHeld(initial: seq<Line>, inputs: seq<PollInput>, m: nat, n: nat, k: nat,
      cfg: Config)
    requires Growing(initial, inputs) && m < n && StuckFrom(initial, inputs, m, n, k, cfg)
    ensures k < |inputs[m].lines| && ReportedAs(After(initial, inputs, n, cfg), k, SenderOf(inputs[m].lines[k]))
    decreases n
  {
    assert LeftOn(initial, inputs, n - 1, k, cfg);
    if n == m + 1 {
      ReportedOnArrival(initial, inputs, m, k, cfg);
    } else {
      ReportedAsHeld(initial, inputs, m, n - 1, k, cfg);
      LinesGrow(initial, inputs, m, n - 1);
      ReportedAgain(initial, inputs, n - 1, k, cfg);
    }
  }

  /** So it is reported exactly when some failure came with `/sync` answering and `alertAfter` reached. */
  lemma ReportedExactlyWhen(initial: seq<Line>, inputs: seq<PollInput>, m: nat, n: nat, k: nat, cfg: Config)
    requires Growing(initial, inputs) && m < n && StuckFrom(initial, inputs, m, n, k, cfg)
    ensures var tries := Tries(inputs, m + 1, n, k);
            Stuck(k) in After(initial, inputs, n, cfg).notices <==>
              exists i :: 0 <= i < |tries| && AlertDueAt(inputs[m].turns(k).now, tries, i, cfg)
  {
    HoldCountsTries(initial, inputs, m, n, k, cfg);
    ReportedAsHeld(initial, inputs, m, n, k, cfg);
    AlertedExactlyWhen(k, SenderOf(inputs[m].lines[k]), inputs[m].turns(k).now, Tries(inputs, m + 1, n, k), cfg);
  }

  /** The hold records the notice exactly when, at some failure with `/sync` answering, `alertAfter` was reached. */
  lemma {:induction false} AlertedExactlyWhen(idx: nat, sender: string, start: int, ticks: seq<HoldTick>, cfg: Config)
    ensures HoldRun(idx, sender, start, ticks, cfg).0.Held?
    ensures HoldRun(idx, sender, start, ticks, cfg).0.alerted <==>
              exists i :: 0 <= i < |ticks| && AlertDueAt(start, ticks, i, cfg)
  {
    HoldMeasuresReachableTime(idx, sender, start, ticks, cfg);
    if ticks != [] {
      var n := |ticks| - 1;
      AlertedExactlyWhen(idx, sender, start, ticks[..n], cfg);
      HoldMeasuresReachableTime(idx, sender, start, ticks[..n], cfg);
      assert ticks[..n + 1] == ticks;
      forall i | 0 <= i < n ensures AlertDueAt(start, ticks[..n], i, cfg) == AlertDueAt(start, ticks, i, cfg) {
        assert ticks[..n][..i + 1] == ticks[..i + 1];
      }
      assert HoldRun(idx, sender, start, ticks, cfg).0.alerted
         <==> HoldRun(idx, sender, start, ticks[..n], cfg).0.alerted || AlertDueAt(start, ticks, n, cfg);
    }
  }

  predicate AlertDueAt(start: int, ticks: seq<HoldTick>, i: nat, cfg: Config)
  {
    i < |ticks| && ticks[i].syncFails == 0 && Reachable(start, ticks[..i + 1]) >= cfg.alertAfter
  }

  /** An inbox that has become shorter pulls the cursor back to its end, and nothing is sent. */
  lemma ShorterInboxPullsBack(s: State, lines: seq<Line>, turns: nat -> Turn, syncFails: nat, cfg: Config)
    requires |lines| < s.offset
    ensures Poll(s, lines, turns, syncFails, cfg) == State(|lines|, s.server, s.hold, s.notices, s.refused)
  {
  }
}
