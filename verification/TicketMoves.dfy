/** What every step of the three ticket programs does to the files, and how a tick is made of such steps. */
module TicketMoves {
  import opened Order
  import opened Tickets

  // ---- the table of steps ---------------------------------------------------

  /** A new file, and no other change. */
  ghost predicate Added(fs: Files, fs': Files, at: Path, t: Ticket) { at !in fs && fs' == fs[at := t] }

  ghost predicate Waits(fs: Files, deps: seq<string>, agents: seq<string>)
  {
    exists dep :: dep in deps && forall p :: p in fs && p.agent in agents && p.dir == Done ==> !Contains(p.name, dep)
  }

  /** The file under which a new ticket is stored: queued ones carry a number in front. */
  ghost predicate NamedFor(name: string, id: string, queued: bool)
  {
    if queued then exists k: nat :: 0 < k < |name| && AllDigits(name[..k]) && name[k..] == "-" + id + ".json"
    else name == id + ".json"
  }

  /** The number in front of a name, if it has one. */
  ghost predicate Numbered(name: string, n: nat)
  {
    exists k: nat :: 0 < k < |name| && AllDigits(name[..k]) && name[k] == '-' && Number(name[..k]) == n
  }

  ghost predicate HasNumber(name: string) { exists n: nat :: Numbered(name, n) }

  /** The name is numbered one past the last of the queue; where that has no number, past their count. */
  ghost predicate Follows(name: string, queue: seq<string>)
  {
    if queue == [] then Numbered(name, 1)
    else
      var last := queue[|queue| - 1];
      if HasNumber(last) then forall n: nat :: Numbered(last, n) ==> Numbered(name, n + 1)
      else Numbered(name, |queue| + 1)
  }

  predicate AllDigits(s: string) { forall i :: 0 <= i < |s| ==> '0' <= s[i] <= '9' }

  ghost predicate CreatedAs(fs: Files, fs': Files, e: Step, s: State, name: string)
    requires e.Create?
  {
    && NamedFor(name, e.id, s == Queued) && (s == Queued ==> Follows(name, Listing(fs, e.to, Queued)))
    && Added(fs, fs', Path(e.to, s, name), Ticket(e.id, e.to, s, e.mode, e.prompt, e.deps, e.now, None, false))
  }

  ghost predicate CreateSays(fs: Files, fs': Files, e: Step, agents: seq<string>)
    requires e.Create?
  {
    var s := if e.mode == Armed && Waits(fs, e.deps, agents) then Blocked else e.mode;
    exists name :: CreatedAs(fs, fs', e, s, name)
  }

  function Edited(t: Ticket, patch: Patch): Ticket
  {
    if patch.prompt.Some? then t.(prompt := patch.prompt.value) else t
  }

  /** The same name with another number in front. */
  ghost predicate Replaced(name: string, name': string, position: int)
  {
    if position >= 0 then Numbered(name', position) && Unprefixed(name') == Unprefixed(name)
    else Prefix(position) + "-" <= name'
  }

  /** A started ticket is left alone; a new mode moves the ticket, and only a queued one can change its place. */
  ghost predicate PatchSays(fs: Files, fs': Files, p: Path, patch: Patch, agents: seq<string>)
    requires p in fs
  {
    var t := Edited(fs[p], patch);
    if p.dir in {Running, Done, Failed, Cancelled} then fs' == fs
    else if patch.mode.Some? then
      var s := match patch.mode.value
               case Draft => Draft
               case Armed => if Waits(fs, t.deps, agents) then Blocked else Armed
               case _ => p.dir;
      MovedTo(fs, fs', p, p.(dir := s), t.(mode := patch.mode.value, status := s))
    else if patch.position.Some? && p.dir == Queued then
      exists name :: Named(name, t.id) && Replaced(p.name, name, patch.position.value)
                     && MovedTo(fs, fs', p, p.(name := name), t)
    else MovedTo(fs, fs', p, p, t)
  }

  ghost predicate DeleteSays(fs: Files, fs': Files, p: Path)
    requires p in fs
  {
    match p.dir
    case Running => MovedTo(fs, fs', p, p.(dir := Cancelled), fs[p].(status := Cancelled))
    case Done | Failed | Cancelled => fs' == fs
    case _ => fs' == fs - {p}
  }

  ghost predicate Relabelled(fs: Files, fs': Files, p: Path, s: State)
    requires p in fs
  {
    MovedTo(fs, fs', p, p.(dir := s), fs[p].(status := s))
  }

  /** What one step does, step by step; a step whose condition fails does nothing. */
  ghost predicate Says(fs: Files, fs': Files, e: Step, c: Config)
  {
    match e
    case Create(to, _, _, _, _, _) => if to in c.api then CreateSays(fs, fs', e, c.api) else fs' == fs
    case Change(agent, id, patch) =>
      if forall p :: p in fs && p.agent == agent ==> !Contains(p.name, id) then fs' == fs
      else exists p :: p in fs && p.agent == agent && Contains(p.name, id) && PatchSays(fs, fs', p, patch, c.api)
    case Delete(agent, id) =>
      if forall p :: p in fs && p.agent == agent ==> !Contains(p.name, id) then fs' == fs
      else exists p :: p in fs && p.agent == agent && Contains(p.name, id) && DeleteSays(fs, fs', p)
    case Promote(p) =>
      if p in fs && p.dir == Blocked && p.agent in c.driven && !Waits(fs, fs[p].deps, c.driven)
      then Relabelled(fs, fs', p, Armed) else fs' == fs
    case Demote(p) =>
      if p in fs && p.dir == Armed && p.agent in c.driven && Waits(fs, fs[p].deps, c.driven)
      then Relabelled(fs, fs', p, Blocked) else fs' == fs
    case Dispatch(p, now) =>
      if p in fs && p.dir == Armed && p.agent in c.driven && !Waits(fs, fs[p].deps, c.driven)
         && (forall q :: q in fs && q.dir == Running ==> q.agent != p.agent)
      then MovedTo(fs, fs', p, Path(p.agent, Running, fs[p].id + ".json"),
                   fs[p].(status := Running, startedAt := Some(now)))
      else fs' == fs
    case Expire(p) =>
      if p in fs && p.dir == Running && p.agent in c.driven then Relabelled(fs, fs', p, Failed) else fs' == fs
    case Notify(p) =>
      if p in fs && p.dir in {Done, Failed} then MovedTo(fs, fs', p, p, fs[p].(notified := true)) else fs' == fs
    case Complete(id, failed) =>
      if forall p :: p in fs && p.agent in c.closers && p.dir == Running ==> fs[p].id != id && p.name != id + ".json"
      then fs' == fs
      else exists p :: p in fs && p.agent in c.closers && p.dir == Running && (fs[p].id == id || p.name == id + ".json")
                       && Relabelled(fs, fs', p, if failed then Failed else Done)
  }

  lemma WaitsUnlessDone(fs: Files, deps: seq<string>, agents: seq<string>)
    ensures Waits(fs, deps, agents) <==> !DepsDone(fs, deps, agents)
  {
    if Waits(fs, deps, agents) {
      var dep :| dep in deps && forall p :: p in fs && p.agent in agents && p.dir == Done ==> !Contains(p.name, dep);
      assert !DoneIn(fs, dep, agents);
    } else {
      forall dep | dep in deps ensures DoneIn(fs, dep, agents) {}
    }
  }

  // ---- the numbers in front of queued tickets -------------------------------

  lemma {:induction false} LeadingZero(s: string)
    requires AllDigits(s)
    ensures Number("0" + s) == Number(s)
  {
    if s == [] {
      assert "0"[..0] == [];
    } else {
      LeadingZero(s[..|s| - 1]);
      assert ("0" + s)[..|s|] == "0" + s[..|s| - 1];
    }
  }

  lemma {:induction false} PaddingReads(s: string, width: nat)
    requires AllDigits(s)
    ensures AllDigits(PadLeft(s, width)) && Number(PadLeft(s, width)) == Number(s)
    ensures |PadLeft(s, width)| == if |s| >= width then |s| else width
    decreases width - |s|
  {
    if |s| < width {
      LeadingZero(s);
      PaddingReads("0" + s, width);
    }
  }

  lemma NumberSnoc(s: string, d: nat)
    requires AllDigits(s) && d < 10
    ensures var c := ('0' as int + d) as char; AllDigits(s + [c]) && Number(s + [c]) == Number(s) * 10 + d
  {
    assert (s + [('0' as int + d) as char])[..|s|] == s;
  }

  lemma {:induction false} DecimalReads(n: nat)
    ensures AllDigits(Decimal(n)) && Number(Decimal(n)) == n
  {
    if n >= 10 { DecimalReads(n / 10); }
    NumberSnoc(if n < 10 then "" else Decimal(n / 10), n % 10);
  }

  /** A number in front is at least three digits wide and reads back. */
  lemma PrefixReads(n: nat)
    ensures var s := Prefix(n); |s| >= 3 && AllDigits(s) && Number(s) == n
  {
    DecimalReads(n);
    PaddingReads(Decimal(n), 3);
  }

  lemma {:induction false} NumberIsNat(s: string)
    requires AllDigits(s)
    ensures Number(s) >= 0
  {
    if s != [] { NumberIsNat(s[..|s| - 1]); }
  }

  lemma {:induction false} LeadingDigitsEnd(s: string, k: nat)
    requires k < |s| && AllDigits(s[..k]) && !Digit(s[k])
    ensures LeadingDigits(s) == k
  {
    if k > 0 {
      assert Digit(s[..k][0]);
      assert s[1..][..k - 1] == s[..k][1..];
      LeadingDigitsEnd(s[1..], k - 1);
    }
  }

  lemma NumberedExactly(name: string, n: nat)
    ensures var k := LeadingDigits(name);
            Numbered(name, n) <==> 0 < k < |name| && name[k] == '-' && Number(name[..k]) == n
  {
    if Numbered(name, n) {
      var j: nat :| 0 < j < |name| && AllDigits(name[..j]) && name[j] == '-' && Number(name[..j]) == n;
      LeadingDigitsEnd(name, j);
    }
  }

  lemma NumberedWhen(name: string)
    ensures var k := LeadingDigits(name); HasNumber(name) <==> 0 < k < |name| && name[k] == '-'
  {
    var k := LeadingDigits(name);
    if 0 < k < |name| && name[k] == '-' {
      NumberIsNat(name[..k]);
      NumberedExactly(name, Number(name[..k]));
    }
    if n: nat :| Numbered(name, n) { NumberedExactly(name, n); }
  }

  lemma NextReads(queue: seq<string>, last: string, n: nat)
    requires queue != [] ==> last == queue[|queue| - 1]
    ensures |NextPrefix(queue)| >= 3 && AllDigits(NextPrefix(queue))
    ensures queue == [] ==> Number(NextPrefix(queue)) == 1
    ensures queue != [] && Numbered(last, n) ==> Number(NextPrefix(queue)) == n + 1
    ensures queue != [] && !HasNumber(last) ==> Number(NextPrefix(queue)) == |queue| + 1
  {
    if queue == [] {
      FirstPrefix();
    } else {
      var k := LeadingDigits(last);
      NumberedExactly(last, n);
      NumberedWhen(last);
      if 0 < k < |last| && last[k] == '-' {
        NumberIsNat(last[..k]);
        PrefixReads(Number(last[..k]) + 1);
      } else {
        PrefixReads(|queue| + 1);
      }
    }
  }

  lemma WithNumber(prefix: string, rest: string)
    requires prefix != [] && AllDigits(prefix)
    ensures Number(prefix) >= 0 && Numbered(prefix + "-" + rest, Number(prefix))
  {
    var name := prefix + "-" + rest;
    NumberIsNat(prefix);
    assert name[..|prefix|] == prefix && name[|prefix|] == '-';
  }

  /** A new queued ticket is numbered one past the last in name order; where that has no number, past their count. */
  lemma NextFollows(queue: seq<string>, rest: string)
    ensures Follows(NextPrefix(queue) + "-" + rest, queue)
  {
    var last := if queue == [] then "" else queue[|queue| - 1];
    NextReads(queue, last, 0);
    WithNumber(NextPrefix(queue), rest);
    forall n: nat | Numbered(last, n) ensures Numbered(NextPrefix(queue) + "-" + rest, n + 1) {
      NumberedExactly(last, n);
      NumberedWhen(last);
      NextReads(queue, last, n);
    }
  }

  lemma FirstPrefix()
    ensures AllDigits("001") && Number("001") == 1
  {
    assert "001"[..2] == "00" && "00"[..1] == "0" && "0"[..0] == [];
  }

  lemma NumberedFor(prefix: string, id: string)
    requires prefix != [] && AllDigits(prefix)
    ensures NamedFor(prefix + "-" + Plain(id), id, true)
  {
    var name := prefix + "-" + Plain(id);
    assert name[..|prefix|] == prefix && name[|prefix|..] == "-" + id + ".json";
  }

  lemma {:induction false} LessAt(a: string, b: string, i: nat)
    requires i < |a| && i < |b| && a[..i] == b[..i] && a[i] < b[i]
    ensures Less(a, b)
  {
    if i > 0 {
      assert a[0] == a[..i][0] == b[..i][0];
      assert a[1..][..i - 1] == a[..i][1..] && b[1..][..i - 1] == b[..i][1..];
      LessAt(a[1..], b[1..], i - 1);
    }
  }

  lemma ThreeDigits(a: string)
    requires |a| == 3 && AllDigits(a)
    ensures Number(a) == (a[0] as int - '0' as int) * 100 + (a[1] as int - '0' as int) * 10 + (a[2] as int - '0' as int)
  {
    assert a[..1][..0] == [] && a[..2][..1] == a[..1];
    assert Number(a[..1]) == a[0] as int - '0' as int;
    assert Number(a[..2]) == Number(a[..1]) * 10 + (a[1] as int - '0' as int);
  }

  lemma ShortDecimal(n: nat)
    requires n <= 1000
    ensures |Decimal(n)| == if n < 10 then 1 else if n < 100 then 2 else if n < 1000 then 3 else 4
    ensures n == 1000 ==> Decimal(n)[0] == '1'
  {
    assert Decimal(n / 10 / 10 / 10) == [('0' as int + n / 10 / 10 / 10) as char];
  }

  /** Three-digit numbers in front order names as they order themselves. */
  lemma SmallerGoesFirst(a: string, b: string)
    requires |a| >= 3 && |b| >= 3 && AllDigits(a[..3]) && AllDigits(b[..3]) && Number(a[..3]) < Number(b[..3])
    ensures Less(a, b)
  {
    ThreeDigits(a[..3]);
    ThreeDigits(b[..3]);
    var i := if a[0] != b[0] then 0 else if a[1] != b[1] then 1 else 2;
    assert a[..i] == b[..i];
    LessAt(a, b, i);
  }

  lemma ThreeDigitRange(a: string)
    requires |a| == 3 && AllDigits(a)
    ensures 0 <= Number(a) <= 999 && (Number(a) == 999 ==> a[0] == '9')
  {
    ThreeDigits(a);
  }

  lemma PrefixWidth(n: nat)
    requires n <= 1000
    ensures |Prefix(n)| == if n < 1000 then 3 else 4
    ensures n == 1000 ==> Prefix(n)[0] == '1'
  {
    ShortDecimal(n);
    PaddingReads(Decimal(n), 3);
  }

  lemma NextIsOneMore(queue: seq<string>, last: string, n: nat)
    requires queue != [] && last == queue[|queue| - 1] && |last| > 3 && AllDigits(last[..3]) && last[3] == '-'
    requires n == Number(last[..3])
    ensures NextPrefix(queue) == Prefix(n + 1)
  {
    LeadingDigitsEnd(last, 3);
  }

  lemma NextAfterThreeDigits(queue: seq<string>, last: string)
    requires queue != [] && last == queue[|queue| - 1] && |last| > 3 && AllDigits(last[..3]) && last[3] == '-'
    ensures var n, prefix := Number(last[..3]), NextPrefix(queue);
            && 0 <= n <= 999 && AllDigits(prefix) && Number(prefix) == n + 1
            && (if n < 999 then |prefix| == 3 else |prefix| == 4 && prefix[0] == '1' && last[0] == '9')
  {
    var n := Number(last[..3]);
    ThreeDigitRange(last[..3]);
    NextIsOneMore(queue, last, n);
    PrefixReads(n + 1);
    PrefixWidth(n + 1);
  }

  /** Behind a last ticket numbered with three digits, a new one comes last in name order exactly below 999. */
  lemma NewTicketGoesLastExactlyWhen(queue: seq<string>, last: string, rest: string)
    requires Ascending(queue) && queue != [] && last == queue[|queue| - 1]
    requires |last| > 3 && AllDigits(last[..3]) && last[3] == '-'
    ensures (forall x :: x in queue ==> Less(x, NextPrefix(queue) + "-" + rest)) <==> Number(last[..3]) < 999
  {
    var name := NextPrefix(queue) + "-" + rest;
    NextAfterThreeDigits(queue, last);
    if Number(last[..3]) < 999 {
      assert name[..3] == NextPrefix(queue);
      SmallerGoesFirst(last, name);
      forall x | x in queue ensures Less(x, name) { BelowTheLast(queue, x, name); }
    } else {
      LessAt(name, last, 0);
      LessTrichotomy(name, last);
      assert last in queue;
    }
  }

  lemma BelowTheLast(queue: seq<string>, x: string, name: string)
    requires Ascending(queue) && x in queue && Less(queue[|queue| - 1], name)
    ensures Less(x, name)
  {
    var i :| 0 <= i < |queue| && queue[i] == x;
    var last := queue[|queue| - 1];
    LessTrichotomy(x, last);
    if Less(x, last) { LessTransitive(x, last, name); }
  }

  lemma CreatedUnderItsName(fs: Files, e: Step, agents: seq<string>)
    requires e.Create?
    ensures var at := CreatePath(fs, e.to, e.id, e.mode, e.deps, agents);
            && NamedFor(at.name, e.id, at.dir == Queued)
            && (at.dir == Queued ==> Follows(at.name, Listing(fs, e.to, Queued)))
            && at.agent == e.to && at.dir == InitialState(fs, e.mode, e.deps, agents)
  {
    var s, at := InitialState(fs, e.mode, e.deps, agents), CreatePath(fs, e.to, e.id, e.mode, e.deps, agents);
    var prefix := NextPrefix(Listing(fs, e.to, Queued));
    if s == Queued {
      var names := Listing(fs, e.to, Queued);
      NextReads(names, if names == [] then "" else names[|names| - 1], 0);
      NextFollows(names, Plain(e.id));
      NumberedFor(prefix, e.id);
    }
  }

  lemma CreatedIsNew(fs: Files, e: Step, agents: seq<string>)
    requires Inv(fs) && e.Create? && Sensible(fs, e)
    ensures CreatePath(fs, e.to, e.id, e.mode, e.deps, agents) !in fs
  {
    CreateIsNamed(e.id, InitialState(fs, e.mode, e.deps, agents), NextPrefix(Listing(fs, e.to, Queued)));
  }

  lemma CreateDoes(fs: Files, e: Step, agents: seq<string>)
    requires Inv(fs) && e.Create? && Sensible(fs, e)
    ensures CreateSays(fs, Created(fs, e, agents), e, agents)
  {
    var at := CreatePath(fs, e.to, e.id, e.mode, e.deps, agents);
    CreatedUnderItsName(fs, e, agents);
    CreatedIsNew(fs, e, agents);
    WaitsUnlessDone(fs, e.deps, agents);
    assert CreatedAs(fs, Created(fs, e, agents), e, at.dir, at.name);
  }

  // ---- the other steps ------------------------------------------------------

  /** A move inside the invariant is what it says. */
  lemma ShiftMoves(fs: Files, src: Path, dst: Path, t: Ticket)
    requires src in fs
    ensures MovedTo(fs, Shift(fs, src, dst, t), src, dst, t)
  {
  }

  lemma ReplacedBy(name: string, position: int)
    ensures Replaced(name, Prefix(position) + "-" + Unprefixed(name), position)
  {
    if position >= 0 {
      var prefix := Prefix(position);
      var name' := prefix + "-" + Unprefixed(name);
      PrefixReads(position);
      WithNumber(prefix, Unprefixed(name));
      assert name'[..|prefix|] == prefix && name'[|prefix|] == '-' && name'[|prefix| + 1..] == Unprefixed(name);
      LeadingDigitsEnd(name', |prefix|);
    }
  }

  lemma PatchDoes(fs: Files, p: Path, patch: Patch, agents: seq<string>)
    requires Inv(fs) && p in fs
    ensures PatchSays(fs, Patched(fs, p, patch, agents), p, patch, agents)
  {
    var t := Edited(fs[p], patch);
    WaitsUnlessDone(fs, t.deps, agents);
    if !Started(p.dir) {
      if patch.mode.Some? {
        var s := PatchedStatus(fs, t, patch.mode.value, agents);
        ShiftMoves(fs, p, p.(dir := s), t.(mode := patch.mode.value, status := s));
      } else if patch.position.Some? && p.dir == Queued {
        var name := Prefix(patch.position.value) + "-" + Unprefixed(p.name);
        UnprefixedIsNamed(p.name, t.id);
        PrefixIsIgnored(Prefix(patch.position.value) + "-", Unprefixed(p.name));
        ShiftMoves(fs, p, p.(dir := Queued, name := name), t);
        ReplacedBy(p.name, patch.position.value);
      } else {
        assert fs[p := t] == Shift(fs, p, p, t);
        ShiftMoves(fs, p, p, t);
      }
    }
  }

  lemma DeleteDoes(fs: Files, p: Path)
    requires Inv(fs) && p in fs
    ensures DeleteSays(fs, Deleted(fs, p), p)
  {
  }

  lemma SweepStepDoes(fs: Files, e: Step, c: Config)
    requires Inv(fs) && (e.Promote? || e.Demote?)
    ensures Says(fs, Apply(fs, e, c), e, c)
  {
    if e.path in fs {
      WaitsUnlessDone(fs, fs[e.path].deps, c.driven);
      ShiftMoves(fs, e.path, e.path.(dir := Armed), fs[e.path].(status := Armed));
      ShiftMoves(fs, e.path, e.path.(dir := Blocked), fs[e.path].(status := Blocked));
    }
  }

  lemma DispatchDoes(fs: Files, p: Path, now: int, c: Config)
    requires Inv(fs)
    ensures Says(fs, Apply(fs, Dispatch(p, now), c), Dispatch(p, now), c)
  {
    if p in fs {
      WaitsUnlessDone(fs, fs[p].deps, c.driven);
      ShiftMoves(fs, p, Path(p.agent, Running, Plain(fs[p].id)), fs[p].(status := Running, startedAt := Some(now)));
    }
  }

  lemma ExpireDoes(fs: Files, p: Path, c: Config)
    requires Inv(fs)
    ensures Says(fs, Apply(fs, Expire(p), c), Expire(p), c)
  {
    if p in fs { ShiftMoves(fs, p, p.(dir := Failed), fs[p].(status := Failed)); }
  }

  lemma NotifyDoes(fs: Files, p: Path, c: Config)
    requires Inv(fs)
    ensures Says(fs, Apply(fs, Notify(p), c), Notify(p), c)
  {
  }

  lemma ChangeDoes(fs: Files, agent: string, id: string, patch: Patch, c: Config)
    requires Inv(fs)
    ensures Says(fs, Apply(fs, Change(agent, id, patch), c), Change(agent, id, patch), c)
  {
    var fs' := Apply(fs, Change(agent, id, patch), c);
    if exists p :: Found(fs, p, [agent], id) {
      var p :| Found(fs, p, [agent], id) && fs' == Patched(fs, p, patch, c.api);
      PatchDoes(fs, p, patch, c.api);
    } else {
      forall p | p in fs && p.agent == agent ensures !Contains(p.name, id) { assert !Found(fs, p, [agent], id); }
    }
  }

  lemma DeletionDoes(fs: Files, agent: string, id: string, c: Config)
    requires Inv(fs)
    ensures Says(fs, Apply(fs, Delete(agent, id), c), Delete(agent, id), c)
  {
    var fs' := Apply(fs, Delete(agent, id), c);
    if exists p :: Found(fs, p, [agent], id) {
      var p :| Found(fs, p, [agent], id) && fs' == Deleted(fs, p);
      DeleteDoes(fs, p);
    } else {
      forall p | p in fs && p.agent == agent ensures !Contains(p.name, id) { assert !Found(fs, p, [agent], id); }
    }
  }

  lemma CompletionDoes(fs: Files, id: string, failed: bool, c: Config)
    requires Inv(fs)
    ensures Says(fs, Apply(fs, Complete(id, failed), c), Complete(id, failed), c)
  {
    var fs' := Apply(fs, Complete(id, failed), c);
    if exists p :: Closes(fs, p, c.closers, id) {
      var p :| Closes(fs, p, c.closers, id) && fs' == Closed(fs, p, failed);
      ClosedIsFiled(fs, p, failed);
      assert fs[p].to == p.agent;
    } else {
      NoneToClose(fs, id, c);
    }
  }

  lemma NoneToClose(fs: Files, id: string, c: Config)
    requires forall p :: !Closes(fs, p, c.closers, id)
    ensures forall p :: p in fs && p.agent in c.closers && p.dir == Running ==>
              fs[p].id != id && p.name != id + ".json"
  {
    forall p | p in fs && p.agent in c.closers && p.dir == Running ensures fs[p].id != id && p.name != id + ".json" {
      assert !Closes(fs, p, c.closers, id);
    }
  }

  /** Every step of the three programs does exactly what the table says. */
  lemma StepDoes(fs: Files, e: Step, c: Config)
    requires Inv(fs) && Sensible(fs, e)
    ensures Says(fs, Apply(fs, e, c), e, c)
  {
    match e
    case Create(to, _, _, _, _, _) => if to in c.api { CreateDoes(fs, e, c.api); }
    case Change(agent, id, patch) => ChangeDoes(fs, agent, id, patch, c);
    case Delete(agent, id) => DeletionDoes(fs, agent, id, c);
    case Dispatch(p, now) => DispatchDoes(fs, p, now, c);
    case Expire(p) => ExpireDoes(fs, p, c);
    case Notify(p) => NotifyDoes(fs, p, c);
    case Complete(id, failed) => CompletionDoes(fs, id, failed, c);
    case _ => SweepStepDoes(fs, e, c);
  }

  // ---- a tick is a run of steps ---------------------------------------------

  lemma {:induction false} RunsCompose(fs: Files, a: seq<Step>, b: seq<Step>, c: Config)
    ensures RunOf(fs, a + b, c) == RunOf(RunOf(fs, a, c), b, c)
  {
    if b == [] {
      assert a + b == a;
    } else {
      RunsCompose(fs, a, b[..|b| - 1], c);
      assert (a + b)[..|a + b| - 1] == a + b[..|b| - 1];
    }
  }

  lemma RunOfOne(fs: Files, e: Step, c: Config)
    ensures RunOf(fs, [e], c) == Apply(fs, e, c)
  {
    assert [e][..0] == [];
  }

  /** A step of the dispatcher; it hands work only to an idle pane. */
  ghost predicate TickStep(e: Step, panes: string -> Pane, now: int)
  {
    match e
    case Dispatch(p, at) => panes(p.agent).idle && at == now
    case Promote(_) | Demote(_) | Expire(_) | Notify(_) => true
    case _ => false
  }

  ghost predicate TickSteps(es: seq<Step>, panes: string -> Pane, now: int)
  {
    forall e :: e in es ==> TickStep(e, panes, now)
  }

  lemma StepFirst(fs: Files, e: Step, es: seq<Step>, c: Config, panes: string -> Pane, now: int)
    requires TickStep(e, panes, now) && TickSteps(es, panes, now)
    ensures RunOf(fs, [e] + es, c) == RunOf(Apply(fs, e, c), es, c) && TickSteps([e] + es, panes, now)
  {
    RunsCompose(fs, [e], es, c);
    RunOfOne(fs, e, c);
  }

  function StepOf(p: Path, s: Sweep): Step
  {
    match s case Promoting(_) => Promote(p) case Demoting(_) => Demote(p) case Expiring(_, _) => Expire(p)
  }

  ghost predicate Drives(s: Sweep, c: Config) { s.Expiring? || s.agents == c.driven }

  lemma SweepOneIsStep(fs: Files, p: Path, s: Sweep, c: Config)
    requires p.dir == s.From() && p.agent in c.driven && Drives(s, c)
    ensures SweepOne(fs, p, s) == Apply(fs, StepOf(p, s), c) || SweepOne(fs, p, s) == fs
  {
  }

  lemma {:induction false} SweepIsRun(fs: Files, agent: string, names: seq<string>, s: Sweep, c: Config,
      panes: string -> Pane, now: int) returns (es: seq<Step>)
    requires agent in c.driven && Drives(s, c)
    ensures RunOf(fs, es, c) == SweepAll(fs, agent, names, s) && TickSteps(es, panes, now)
    decreases |names|
  {
    es := [];
    if names != [] {
      var p := Path(agent, s.From(), names[0]);
      es := SweepIsRun(SweepOne(fs, p, s), agent, names[1..], s, c, panes, now);
      if SweepOne(fs, p, s) != fs {
        SweepOneIsStep(fs, p, s, c);
        StepFirst(fs, StepOf(p, s), es, c, panes, now);
        es := [StepOf(p, s)] + es;
      }
    }
  }

  lemma {:induction false} DispatchPassIsRun(fs: Files, agent: string, names: seq<string>, c: Config,
      panes: string -> Pane, now: int) returns (es: seq<Step>)
    requires agent in c.driven && NoRunning(fs, agent) && panes(agent).idle
    ensures RunOf(fs, es, c) == DispatchPass(fs, agent, names, c.driven, now) && TickSteps(es, panes, now)
    decreases |names|
  {
    es := [];
    if names != [] {
      var p := Path(agent, Armed, names[0]);
      if Ready(fs, p, c.driven) {
        es := [Dispatch(p, now)];
        RunOfOne(fs, Dispatch(p, now), c);
      } else {
        var fs' := SweepOne(fs, p, Demoting(c.driven));
        es := DispatchPassIsRun(fs', agent, names[1..], c, panes, now);
        if fs' != fs {
          SweepOneIsStep(fs, p, Demoting(c.driven), c);
          StepFirst(fs, Demote(p), es, c, panes, now);
          es := [Demote(p)] + es;
        }
      }
    }
  }

  lemma {:induction false} NotifyIsRun(fs: Files, agent: string, dir: State, names: seq<string>, c: Config,
      panes: string -> Pane, now: int) returns (es: seq<Step>)
    requires dir == Done || dir == Failed
    ensures RunOf(fs, es, c) == NotifyAll(fs, agent, dir, names) && TickSteps(es, panes, now)
    decreases |names|
  {
    es := [];
    if names != [] {
      var p := Path(agent, dir, names[0]);
      if p in fs && !fs[p].notified {
        es := NotifyIsRun(fs[p := fs[p].(notified := true)], agent, dir, names[1..], c, panes, now);
        StepFirst(fs, Notify(p), es, c, panes, now);
        es := [Notify(p)] + es;
      } else {
        es := NotifyIsRun(fs, agent, dir, names[1..], c, panes, now);
      }
    }
  }

  lemma AgentIsRun(fs: Files, agent: string, panes: string -> Pane, clock: Clock, c: Config) returns (es: seq<Step>)
    requires agent in c.driven
    ensures var promoted := SweepAll(fs, agent, Listing(fs, agent, Blocked), Promoting(c.driven));
            RunOf(fs, es, c) == Notified(ArmedPass(promoted, agent, panes(agent), clock, c.driven), agent)
    ensures TickSteps(es, panes, clock.now)
  {
    var promoted := SweepAll(fs, agent, Listing(fs, agent, Blocked), Promoting(c.driven));
    var passed := ArmedPass(promoted, agent, panes(agent), clock, c.driven);
    var half := NotifyAll(passed, agent, Done, Listing(passed, agent, Done));
    var first := SweepIsRun(fs, agent, Listing(fs, agent, Blocked), Promoting(c.driven), c, panes, clock.now);
    var second := [];
    if MayDispatch(promoted, agent, panes(agent), clock) {
      second := DispatchPassIsRun(promoted, agent, Listing(promoted, agent, Armed), c, panes, clock.now);
    }
    var third := NotifyIsRun(passed, agent, Done, Listing(passed, agent, Done), c, panes, clock.now);
    var fourth := NotifyIsRun(half, agent, Failed, Listing(half, agent, Failed), c, panes, clock.now);
    RunsCompose(fs, first, second, c);
    RunsCompose(fs, first + second, third, c);
    RunsCompose(fs, first + second + third, fourth, c);
    es := first + second + third + fourth;
  }

  lemma {:induction false} AgentsAreRun(fs: Files, todo: seq<string>, panes: string -> Pane, clock: Clock,
      c: Config) returns (es: seq<Step>)
    requires forall a :: a in todo ==> a in c.driven
    ensures RunOf(fs, es, c) == AgentsPass(fs, todo, panes, clock, c.driven) && TickSteps(es, panes, clock.now)
    decreases |todo|
  {
    es := [];
    if todo != [] {
      var first := AgentIsRun(fs, todo[0], panes, clock, c);
      var rest := AgentsAreRun(RunOf(fs, first, c), todo[1..], panes, clock, c);
      RunsCompose(fs, first, rest, c);
      es := first + rest;
    }
  }

  lemma {:induction false} ExpiryIsRun(fs: Files, todo: seq<string>, panes: string -> Pane, clock: Clock,
      c: Config) returns (es: seq<Step>)
    requires forall a :: a in todo ==> a in c.driven
    ensures RunOf(fs, es, c) == ExpireAll(fs, todo, clock) && TickSteps(es, panes, clock.now)
    decreases |todo|
  {
    es := [];
    if todo != [] {
      var s := Expiring(clock.now, clock.limit);
      var first := SweepIsRun(fs, todo[0], Listing(fs, todo[0], Running), s, c, panes, clock.now);
      var rest := ExpiryIsRun(RunOf(fs, first, c), todo[1..], panes, clock, c);
      RunsCompose(fs, first, rest, c);
      es := first + rest;
    }
  }

  /** A tick is a run of single steps, so what holds of every interleaving of steps holds of every tick in it. */
  lemma TickIsRun(fs: Files, panes: string -> Pane, clock: Clock, c: Config) returns (es: seq<Step>)
    ensures RunOf(fs, es, c) == Ticked(fs, c.driven, panes, clock) && TickSteps(es, panes, clock.now)
  {
    var first := AgentsAreRun(fs, c.driven, panes, clock, c);
    var rest := ExpiryIsRun(RunOf(fs, first, c), c.driven, panes, clock, c);
    RunsCompose(fs, first, rest, c);
    es := first + rest;
  }

  // ---- what a tick moves, starts and ends -----------------------------------

  ghost predicate Late(t: Ticket, clock: Clock) { t.startedAt.Some? && clock.now - t.startedAt.value > clock.limit }

  ghost function LateOnes(fs: Files, agents: seq<string>, clock: Clock): set<Path>
  {
    set p | p in fs && p.agent in agents && p.dir == Running && Late(fs[p], clock)
  }

  lemma LateOnesSplit(fs: Files, fs': Files, agents: seq<string>, clock: Clock)
    requires agents != [] && Moved(fs, fs', LateOnes(fs, [agents[0]], clock), Running, Failed)
    ensures LateOnes(fs, [agents[0]], clock) + LateOnes(fs', agents[1..], clock) == LateOnes(fs, agents, clock)
  {
    assert agents == [agents[0]] + agents[1..];
  }

  lemma PickedAreLate(fs: Files, agent: string, clock: Clock)
    ensures Picked(fs, agent, Listing(fs, agent, Running), Expiring(clock.now, clock.limit))
         == LateOnes(fs, [agent], clock)
  {
    assert forall p :: p in fs && p.agent == agent && p.dir == Running ==> p == Path(agent, Running, p.name);
  }

  /** The running tickets of driven agents that fail in a tick are exactly those started longer ago than the limit. */
  lemma {:induction false} ExpiryMovesExactly(fs: Files, agents: seq<string>, clock: Clock)
    requires Inv(fs)
    ensures Moved(fs, ExpireAll(fs, agents, clock), LateOnes(fs, agents, clock), Running, Failed)
    decreases |agents|
  {
    if agents != [] {
      var names, s := Listing(fs, agents[0], Running), Expiring(clock.now, clock.limit);
      var fs' := SweepAll(fs, agents[0], names, s);
      ListingSorted(fs, agents[0], Running);
      SweepAllMoves(fs, agents[0], names, s);
      SweepAllKeepsInv(fs, agents[0], names, s);
      PickedAreLate(fs, agents[0], clock);
      LateOnesSplit(fs, fs', agents, clock);
      ExpiryMovesExactly(fs', agents[1..], clock);
      MovedThen(fs, fs', ExpireAll(fs, agents, clock), LateOnes(fs, [agents[0]], clock),
                LateOnes(fs', agents[1..], clock), Running, Failed);
    }
  }

  ghost function Unblocked(fs: Files, agent: string, agents: seq<string>): set<Path>
  {
    set p | p in fs && p.agent == agent && p.dir == Blocked && !Waits(fs, fs[p].deps, agents)
  }

  /** An agent's blocked tickets that are armed in a pass are exactly those that no longer wait for a dependency. */
  lemma PromotionMovesExactly(fs: Files, agent: string, agents: seq<string>)
    requires Inv(fs)
    ensures Moved(fs, SweepAll(fs, agent, Listing(fs, agent, Blocked), Promoting(agents)),
                  Unblocked(fs, agent, agents), Blocked, Armed)
  {
    var names, s := Listing(fs, agent, Blocked), Promoting(agents);
    ListingSorted(fs, agent, Blocked);
    SweepAllMoves(fs, agent, names, s);
    forall p ensures p in Picked(fs, agent, names, s) <==> p in Unblocked(fs, agent, agents) {
      if p in fs && p.agent == agent && p.dir == Blocked {
        assert p == Path(agent, Blocked, p.name);
        WaitsUnlessDone(fs, fs[p].deps, agents);
      }
    }
    assert Picked(fs, agent, names, s) == Unblocked(fs, agent, agents);
  }

  /** The pane is idle and the inbox quiet, or some armed ticket has waited long enough. */
  ghost predicate Quiet(fs: Files, agent: string, pane: Pane, clock: Clock)
  {
    && pane.idle
    && (pane.inboxAge.None? || pane.inboxAge.value >= clock.idleMin
        || exists p :: p in fs && p.agent == agent && p.dir == Armed && clock.now - fs[p].queuedAt >= clock.idleMin)
  }

  ghost predicate AtWork(fs: Files, agent: string) { exists p :: p in fs && p.agent == agent && p.dir == Running }

  ghost predicate SomeReady(fs: Files, agent: string, agents: seq<string>)
  {
    exists p :: p in fs && p.agent == agent && p.dir == Armed && !Waits(fs, fs[p].deps, agents)
  }

  lemma SomeReadyWaits(fs: Files, agent: string, agents: seq<string>)
    ensures SomeReady(fs, agent, agents) <==> exists p :: p in Waiting(fs, agent) && Ready(fs, p, agents)
  {
    forall p | p in fs ensures Ready(fs, p, agents) <==> !Waits(fs, fs[p].deps, agents) {
      WaitsUnlessDone(fs, fs[p].deps, agents);
    }
  }

  lemma MayDispatchWhenQuiet(fs: Files, agent: string, pane: Pane, clock: Clock)
    requires !AtWork(fs, agent)
    ensures MayDispatch(fs, agent, pane, clock) <==> Quiet(fs, agent, pane, clock)
  {
    assert NoRunning(fs, agent);
  }

  /** A pass over the armed tickets starts one exactly when the agent is free and quiet and one of them is ready. */
  lemma WorkStartsExactlyWhen(fs: Files, agent: string, pane: Pane, clock: Clock, agents: seq<string>)
    requires Inv(fs) && !AtWork(fs, agent)
    ensures AtWork(ArmedPass(fs, agent, pane, clock, agents), agent) <==>
              Quiet(fs, agent, pane, clock) && SomeReady(fs, agent, agents)
  {
    MayDispatchWhenQuiet(fs, agent, pane, clock);
    PassStartsExactlyWhen(fs, agent, agents, clock.now);
    SomeReadyWaits(fs, agent, agents);
  }

  lemma PassStartsExactlyWhen(fs: Files, agent: string, agents: seq<string>, now: int)
    requires Inv(fs) && !AtWork(fs, agent)
    ensures AtWork(DispatchPass(fs, agent, Listing(fs, agent, Armed), agents, now), agent) <==>
              exists p :: p in Waiting(fs, agent) && Ready(fs, p, agents)
  {
    var names := Listing(fs, agent, Armed);
    var k := NotReady(fs, agent, names, agents);
    var mid := SweepAll(fs, agent, names[..k], Demoting(agents));
    ListingSorted(fs, agent, Armed);
    NotReadyMeans(fs, agent, names, agents);
    DispatchPassSplits(fs, agent, names, agents, now);
    if k < |names| {
      var p := Path(agent, Armed, names[k]);
      assert names[k] in names;
      assert p in Waiting(fs, agent) && Ready(fs, p, agents);
      assert Path(agent, Running, Plain(mid[p].id)) in Dispatched(mid, p, now);
    } else {
      SweepAllMoves(fs, agent, names[..k], Demoting(agents));
      forall p | p in Waiting(fs, agent) ensures !Ready(fs, p, agents) {
        assert p == Path(agent, Armed, p.name);
        var i :| 0 <= i < |names| && names[i] == p.name;
      }
    }
  }

  /** An agent at work, busy, or with a fresh inbox and no ticket kept waiting, is left alone. */
  lemma BusyAgentIsLeftAlone(fs: Files, agent: string, pane: Pane, clock: Clock, agents: seq<string>)
    requires AtWork(fs, agent) || !Quiet(fs, agent, pane, clock)
    ensures ArmedPass(fs, agent, pane, clock, agents) == fs
  {
    if !AtWork(fs, agent) { MayDispatchWhenQuiet(fs, agent, pane, clock); }
  }
}
