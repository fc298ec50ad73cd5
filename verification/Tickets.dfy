/**
 * The ticket store: a ticket's state is the directory its file sits in, and three programs
 * (the dispatcher, the API library and the completion command) move files between directories.
 */
module Tickets {
  import opened Order

  datatype State = Draft | Armed | Blocked | Queued | Running | Done | Failed | Cancelled

  datatype Path = Path(agent: string, dir: State, name: string)

  /** `status` is the state written inside the file; the API guards on it, the dispatcher on the directory. */
  datatype Ticket = Ticket(id: string, to: string, status: State, mode: State, prompt: string, deps: seq<string>,
                           queuedAt: int, startedAt: Option<int>, notified: bool)

  type Files = map<Path, Ticket>

  /** The agents known to the API, to the completion command, and driven by the dispatcher. */
  datatype Config = Config(api: seq<string>, closers: seq<string>, driven: seq<string>)

  // ---- names and ids --------------------------------------------------------

  predicate Hex(c: char) { '0' <= c <= '9' || 'a' <= c <= 'f' }

  lemma HexDigits(c: char)
    ensures Hex(c) <==> c in "0123456789abcdef"
  {
    var digits := "0123456789abcdef";
    if Hex(c) {
      var i := if c <= '9' then c as int - '0' as int else c as int - 'a' as int + 10;
      assert digits[i] == c;
    }
  }

  /** `tk-` and six hexadecimal digits. */
  predicate ValidId(id: string) { |id| == 9 && id[..3] == "tk-" && forall i :: 3 <= i < 9 ==> Hex(id[i]) }

  function Plain(id: string): string { id + ".json" }

  /** The id a file is named after: from the first `t` on, the name is the id and the extension. */
  function IdOf(name: string): Option<string>
  {
    if name == [] then None
    else if name[0] != 't' then IdOf(name[1..])
    else if |name| == 14 && ValidId(name[..9]) && name[9..] == ".json" then Some(name[..9])
    else None
  }

  predicate Named(name: string, id: string) { IdOf(name) == Some(id) }

  lemma PlainIsNamed(id: string)
    requires ValidId(id)
    ensures Named(Plain(id), id)
  {
    assert Plain(id)[..9] == id && Plain(id)[9..] == ".json" && id[0] == id[..3][0];
  }

  lemma {:induction false} NamedIsValid(name: string, id: string)
    requires Named(name, id)
    ensures ValidId(id)
  {
    if name[0] != 't' {
      NamedIsValid(name[1..], id);
    }
  }

  lemma {:induction false} PrefixIsIgnored(prefix: string, name: string)
    requires 't' !in prefix
    ensures IdOf(prefix + name) == IdOf(name)
  {
    if prefix == [] {
      assert prefix + name == name;
    } else {
      PrefixIsIgnored(prefix[1..], name);
      assert (prefix + name)[1..] == prefix[1..] + name;
    }
  }

  predicate OccursAt(name: string, dep: string, i: int)
  {
    0 <= i <= |name| - |dep| && name[i..i + |dep|] == dep
  }

  /** The glob `*dep*`, for a `dep` without glob metacharacters. */
  predicate Contains(name: string, dep: string)
  {
    exists i :: 0 <= i <= |name| && OccursAt(name, dep, i)
  }

  lemma OccursShift(name: string, dep: string, i: int)
    requires 0 < i && name != []
    ensures OccursAt(name, dep, i) <==> OccursAt(name[1..], dep, i - 1)
  {
    if i <= |name| - |dep| {
      var here, there := name[i..i + |dep|], name[1..][i - 1..i - 1 + |dep|];
      assert forall k :: 0 <= k < |dep| ==> here[k] == name[i + k] == there[k];
      assert here == there;
    }
  }

  lemma ContainsStep(name: string, dep: string)
    requires name != [] && dep != []
    ensures Contains(name, dep) <==> OccursAt(name, dep, 0) || Contains(name[1..], dep)
  {
    if i :| 0 < i <= |name| && OccursAt(name, dep, i) {
      OccursShift(name, dep, i);
    }
    if i :| 0 <= i <= |name[1..]| && OccursAt(name[1..], dep, i) {
      OccursShift(name, dep, i + 1);
    }
  }

  lemma IdsBeginAlike(id: string)
    requires ValidId(id)
    ensures id[0] == 't' && forall i :: 0 < i < 9 ==> id[i] != 't'
  {
    assert id[0] == id[..3][0] && id[1] == id[..3][1] && id[2] == id[..3][2];
  }

  /** A whole id matches only the names of its own ticket. */
  lemma {:induction false} WholeIdMatchesItself(name: string, id: string, dep: string)
    requires Named(name, id) && ValidId(dep)
    ensures Contains(name, dep) <==> dep == id
  {
    IdsBeginAlike(dep);
    if name[0] != 't' {
      ContainsStep(name, dep);
      WholeIdMatchesItself(name[1..], id, dep);
    } else {
      NamedIsValid(name, id);
      IdsBeginAlike(id);
      assert name == id + ".json";
      if i :| 0 <= i <= |name| && OccursAt(name, dep, i) {
        assert name[i] == name[i..i + |dep|][0] == 't';
        assert i == 0;
      }
      if dep == id { assert OccursAt(name, dep, 0); }
    }
  }

  // ---- which strings name one ticket ----------------------------------------

  /** The character can stand at that place of a file name `tk-……….json` without a queue prefix. */
  predicate FitsChar(c: char, at: nat)
  {
    if 3 <= at < 9 then Hex(c) else at < 14 && c == Plain("tk-000000")[at]
  }

  predicate FitsAt(dep: string, o: nat)
  {
    o + |dep| <= 14 && forall k :: 0 <= k < |dep| ==> FitsChar(dep[k], o + k)
  }

  /** Wherever it fits into a file name, it covers the six digits, and they are those of `own`. */
  ghost predicate Pins(dep: string, own: string)
    requires ValidId(own)
  {
    forall o: nat :: FitsAt(dep, o) ==> o <= 3 && o + |dep| >= 9 && dep[3 - o..9 - o] == own[3..]
  }

  function DigitBut(own: char): char { if own == '0' then '1' else '0' }

  /** An id that has `dep` at place `o` of its file name, and a digit of its own wherever `dep` leaves one open. */
  function Stranger(dep: string, o: nat, own: string): (id: string)
    requires ValidId(own)
    ensures |id| == 9 && id[..3] == "tk-"
    ensures forall i :: 3 <= i < 9 ==> id[i] == if o <= i < o + |dep| then dep[i - o] else DigitBut(own[i])
  {
    "tk-" + seq(6, i requires 0 <= i < 6 => if o <= i + 3 < o + |dep| then dep[i + 3 - o] else DigitBut(own[i + 3]))
  }

  lemma StrangerHolds(dep: string, o: nat, own: string)
    requires ValidId(own) && FitsAt(dep, o)
    ensures ValidId(Stranger(dep, o, own)) && OccursAt(Plain(Stranger(dep, o, own)), dep, o)
  {
    var id := Stranger(dep, o, own);
    var name := Plain(id);
    forall i | 3 <= i < 9 ensures Hex(id[i]) {
      if o <= i < o + |dep| { assert FitsChar(dep[i - o], o + (i - o)); }
    }
    forall k | 0 <= k < |dep| ensures name[o + k] == dep[k] {
      assert FitsChar(dep[k], o + k);
      if o + k < 3 { assert name[o + k] == id[..3][o + k]; }
    }
    assert name[o..o + |dep|] == dep;
  }

  lemma StrangerDiffers(dep: string, o: nat, own: string)
    requires ValidId(own) && FitsAt(dep, o)
    requires !(o <= 3 && o + |dep| >= 9 && dep[3 - o..9 - o] == own[3..])
    ensures Stranger(dep, o, own) != own
  {
    var id := Stranger(dep, o, own);
    if o > 3 {
      assert id[3] == DigitBut(own[3]);
    } else if o + |dep| < 9 {
      assert id[8] == DigitBut(own[8]);
    } else {
      assert id[3..] == dep[3 - o..9 - o];
    }
  }

  lemma OccurrenceFits(id: string, dep: string, o: nat)
    requires ValidId(id) && OccursAt(Plain(id), dep, o)
    ensures FitsAt(dep, o)
    ensures o <= 3 && o + |dep| >= 9 ==> dep[3 - o..9 - o] == id[3..]
  {
    var name := Plain(id);
    forall k | 0 <= k < |dep| ensures dep[k] == name[o + k] && FitsChar(dep[k], o + k) {
      assert dep[k] == name[o..o + |dep|][k];
      if o + k < 3 { assert name[o + k] == id[..3][o + k]; }
    }
  }

  /** A string is found in the names of one ticket at most, exactly when it pins that ticket's id. */
  lemma MatchesOnlyItsOwnExactlyWhen(dep: string, own: string)
    requires ValidId(own)
    ensures (forall id :: ValidId(id) && Contains(Plain(id), dep) ==> id == own) <==> Pins(dep, own)
  {
    if Pins(dep, own) {
      forall id | ValidId(id) && Contains(Plain(id), dep) ensures id == own {
        var o :| 0 <= o <= |Plain(id)| && OccursAt(Plain(id), dep, o);
        OccurrenceFits(id, dep, o);
        assert id == id[..3] + id[3..] && own == own[..3] + own[3..];
      }
    } else {
      var o: nat :| FitsAt(dep, o) && !(o <= 3 && o + |dep| >= 9 && dep[3 - o..9 - o] == own[3..]);
      StrangerHolds(dep, o, own);
      StrangerDiffers(dep, o, own);
      assert Contains(Plain(Stranger(dep, o, own)), dep);
    }
  }

  /** A whole id pins itself. */
  lemma WholeIdPinsItself(id: string)
    requires ValidId(id)
    ensures Pins(id, id)
  {
    IdsBeginAlike(id);
    forall o: nat | FitsAt(id, o) ensures o == 0 {
      assert FitsChar(id[0], o + 0);
    }
    assert id[3 - 0..9 - 0] == id[3..];
  }

  /** Anything shorter matches a stranger: `tk-1` is "done" as soon as some other `tk-1…` is. */
  lemma PartOfAnIdMatchesStrangers(id: string, n: nat)
    requires ValidId(id) && n < 9
    ensures exists other :: ValidId(other) && other != id && Contains(Plain(other), id[..n])
  {
    assert FitsAt(id[..n], 0) by {
      forall k | 0 <= k < n ensures FitsChar(id[..n][k], 0 + k) {
        if k < 3 { assert id[k] == id[..3][k]; }
      }
    }
    StrangerHolds(id[..n], 0, id);
    StrangerDiffers(id[..n], 0, id);
    assert Contains(Plain(Stranger(id[..n], 0, id)), id[..n]);
  }

  // ---- dependency check -----------------------------------------------------

  predicate DoneIn(fs: Files, dep: string, agents: seq<string>)
  {
    exists p :: p in fs && p.agent in agents && p.dir == Done && Contains(p.name, dep)
  }

  predicate DepsDone(fs: Files, deps: seq<string>, agents: seq<string>)
  {
    forall dep :: dep in deps ==> DoneIn(fs, dep, agents)
  }

  ghost predicate DoneSomewhere(fs: Files, dep: string)
  {
    exists p :: p in fs && p.dir == Done && Contains(p.name, dep)
  }

  ghost predicate DepsMet(fs: Files, deps: seq<string>) { forall dep :: dep in deps ==> DoneSomewhere(fs, dep) }

  lemma DoneMeansMet(fs: Files, deps: seq<string>, agents: seq<string>)
    requires DepsDone(fs, deps, agents)
    ensures DepsMet(fs, deps)
  {
    forall dep | dep in deps ensures DoneSomewhere(fs, dep) {
      assert DoneIn(fs, dep, agents);
    }
  }

  predicate Final(s: State) { s.Done? || s.Failed? || s.Cancelled? }

  /** Nothing leaves the directories of finished tickets. */
  ghost predicate KeepsFinal(fs: Files, fs': Files)
  {
    forall p :: p in fs && Final(p.dir) ==> p in fs' && fs'[p].id == fs[p].id
  }

  lemma MetStays(fs: Files, fs': Files, deps: seq<string>)
    requires KeepsFinal(fs, fs') && DepsMet(fs, deps)
    ensures DepsMet(fs', deps)
  {
    forall dep | dep in deps ensures DoneSomewhere(fs', dep) {
      assert DoneSomewhere(fs, dep);
      var p :| p in fs && p.dir == Done && Contains(p.name, dep);
      assert p in fs';
    }
  }

  // ---- the invariant --------------------------------------------------------

  predicate Started(s: State) { s.Running? || s.Done? || s.Failed? || s.Cancelled? }

  ghost predicate NoRunning(fs: Files, agent: string) { forall p :: p in fs && p.agent == agent ==> !p.dir.Running? }

  ghost predicate WellFiled(fs: Files)
  {
    forall p :: p in fs ==>
      && fs[p].status == p.dir && fs[p].to == p.agent && Named(p.name, fs[p].id)
      && (Started(p.dir) ==> p.name == Plain(fs[p].id))
  }

  ghost predicate OneFileEach(fs: Files) { forall p, q :: p in fs && q in fs && fs[p].id == fs[q].id ==> p == q }

  ghost predicate OneRunningEach(fs: Files)
  {
    forall p, q :: p in fs && q in fs && p.dir.Running? && q.dir.Running? && p.agent == q.agent ==> p == q
  }

  ghost predicate StartedHaveDeps(fs: Files) { forall p :: p in fs && Started(p.dir) ==> DepsMet(fs, fs[p].deps) }

  ghost predicate Inv(fs: Files) { WellFiled(fs) && OneFileEach(fs) && OneRunningEach(fs) && StartedHaveDeps(fs) }

  /** What the invariant says of a dependency that pins an id: that ticket is done. */
  lemma PinnedDependencyIsDone(fs: Files, p: Path, dep: string, own: string)
    requires Inv(fs) && p in fs && Started(p.dir) && dep in fs[p].deps && ValidId(own) && Pins(dep, own)
    ensures exists q :: q in fs && q.dir == Done && fs[q].id == own && fs[q].status == Done
  {
    assert DoneSomewhere(fs, dep);
    var q :| q in fs && q.dir == Done && Contains(q.name, dep);
    NamedIsValid(q.name, fs[q].id);
    MatchesOnlyItsOwnExactlyWhen(dep, own);
  }

  /** In particular one in the generated form. */
  lemma StartedMeansDependenciesDone(fs: Files, p: Path, dep: string)
    requires Inv(fs) && p in fs && Started(p.dir) && dep in fs[p].deps && ValidId(dep)
    ensures exists q :: q in fs && q.dir == Done && fs[q].id == dep && fs[q].status == Done
  {
    WholeIdPinsItself(dep);
    PinnedDependencyIsDone(fs, p, dep, dep);
  }

  /** One that does not pin its ticket is met in some store by a stranger alone. */
  lemma UnpinnedDependencyMetByStranger(dep: string, own: string) returns (fs: Files)
    requires ValidId(own) && !Pins(dep, own)
    ensures Inv(fs) && DoneSomewhere(fs, dep) && forall q :: q in fs ==> fs[q].id != own
  {
    MatchesOnlyItsOwnExactlyWhen(dep, own);
    var id :| ValidId(id) && Contains(Plain(id), dep) && id != own;
    var at := Path("a", Done, Plain(id));
    fs := map[at := Ticket(id, "a", Done, Armed, "", [], 0, None, false)];
    PlainIsNamed(id);
    assert at in fs && at.dir == Done && Contains(at.name, dep);
  }

  // ---- moves ----------------------------------------------------------------

  /** Writing the destination and unlinking the source; also a rewrite in place. */
  function Shift(fs: Files, src: Path, dst: Path, t: Ticket): Files { (fs - {src})[dst := t] }

  /** `src` has become `dst`, which holds `t`; every other file is as it was. */
  ghost predicate MovedTo(fs: Files, fs': Files, src: Path, dst: Path, t: Ticket)
  {
    && dst in fs' && fs'[dst] == t && (src != dst ==> src !in fs')
    && forall o :: o != src && o != dst ==> (o in fs' <==> o in fs) && (o in fs ==> fs'[o] == fs[o])
  }

  ghost predicate Movable(fs: Files, src: Path, dst: Path, t: Ticket)
  {
    && src in fs && t.id == fs[src].id && t.to == fs[src].to && t.deps == fs[src].deps
    && dst.agent == src.agent && dst.dir == t.status && Named(dst.name, t.id)
    && (Final(src.dir) ==> dst == src) && (Started(dst.dir) ==> dst.name == Plain(t.id))
    && (dst.dir == Running ==> src.dir == Running || NoRunning(fs, src.agent))
    && (Started(dst.dir) ==> Started(src.dir) || DepsMet(fs, t.deps))
  }

  lemma ShiftKeepsInv(fs: Files, src: Path, dst: Path, t: Ticket)
    requires Inv(fs) && Movable(fs, src, dst, t)
    ensures Inv(Shift(fs, src, dst, t)) && KeepsFinal(fs, Shift(fs, src, dst, t))
    ensures dst in fs ==> dst == src
  {
    ShiftKeepsFiling(fs, src, dst, t);
    ShiftKeepsDeps(fs, src, dst, t);
  }

  lemma ShiftKeepsFiling(fs: Files, src: Path, dst: Path, t: Ticket)
    requires WellFiled(fs) && OneFileEach(fs) && OneRunningEach(fs) && Movable(fs, src, dst, t)
    ensures WellFiled(Shift(fs, src, dst, t)) && OneFileEach(Shift(fs, src, dst, t))
    ensures OneRunningEach(Shift(fs, src, dst, t))
  {
    var fs' := Shift(fs, src, dst, t);
    assert forall p :: p in fs' && p != dst ==> p in fs && p != src && fs'[p] == fs[p];
  }

  lemma ShiftKeepsDeps(fs: Files, src: Path, dst: Path, t: Ticket)
    requires StartedHaveDeps(fs) && Movable(fs, src, dst, t) && (dst in fs ==> dst == src)
    ensures StartedHaveDeps(Shift(fs, src, dst, t)) && KeepsFinal(fs, Shift(fs, src, dst, t))
  {
    var fs' := Shift(fs, src, dst, t);
    forall p | p in fs' && Started(p.dir) ensures DepsMet(fs', fs'[p].deps) {
      if p != dst { assert p in fs; }
      MetStays(fs, fs', fs'[p].deps);
    }
  }

  // ---- the API library ------------------------------------------------------

  predicate Digit(c: char) { '0' <= c <= '9' }

  function LeadingDigits(s: string): (n: nat)
    ensures n <= |s| && forall i :: 0 <= i < n ==> Digit(s[i])
  {
    if s != [] && Digit(s[0]) then 1 + LeadingDigits(s[1..]) else 0
  }

  function Number(s: string): int
    requires forall i :: 0 <= i < |s| ==> Digit(s[i])
  {
    if s == [] then 0 else Number(s[..|s| - 1]) * 10 + (s[|s| - 1] as int - '0' as int)
  }

  function Decimal(n: nat): (s: string)
    ensures s != [] && forall i :: 0 <= i < |s| ==> Digit(s[i])
  {
    (if n < 10 then "" else Decimal(n / 10)) + [('0' as int + n % 10) as char]
  }

  function PadLeft(s: string, width: nat): (r: string)
    requires forall i :: 0 <= i < |s| ==> Digit(s[i])
    ensures forall i :: 0 <= i < |r| ==> Digit(r[i])
    decreases width - |s|
  {
    if |s| >= width then s else PadLeft("0" + s, width)
  }

  /** `{n:03d}`. */
  function Prefix(n: int): (s: string)
    ensures 't' !in s
  {
    if n >= 0 then PadLeft(Decimal(n), 3) else "-" + PadLeft(Decimal(-n), 2)
  }

  /** The name without its leading `\d+-`. */
  function Unprefixed(name: string): string
  {
    var k := LeadingDigits(name);
    if 0 < k < |name| && name[k] == '-' then name[k + 1..] else name
  }

  lemma UnprefixedIsNamed(name: string, id: string)
    requires Named(name, id)
    ensures Named(Unprefixed(name), id)
  {
    var k := LeadingDigits(name);
    if 0 < k < |name| && name[k] == '-' {
      PrefixIsIgnored(name[..k + 1], name[k + 1..]);
      assert name == name[..k + 1] + name[k + 1..];
    }
  }

  ghost function Elements(s: set<string>): (r: seq<string>)
    ensures Distinct(r) && forall x :: x in r <==> x in s
  {
    if s == {} then [] else var x :| x in s; [x] + Elements(s - {x})
  }

  function NamesIn(fs: Files, agent: string, dir: State): set<string>
  {
    set p | p in fs && p.agent == agent && p.dir == dir :: p.name
  }

  /** `sorted(directory.glob("*.json"))`. */
  ghost function Listing(fs: Files, agent: string, dir: State): (r: seq<string>)
    ensures forall x :: x in r <==> Path(agent, dir, x) in fs
  {
    Sort(Elements(NamesIn(fs, agent, dir)))
  }

  function NextPrefix(names: seq<string>): (s: string)
    ensures 't' !in s
  {
    if names == [] then "001"
    else
      var last := names[|names| - 1];
      var k := LeadingDigits(last);
      Prefix(if 0 < k < |last| && last[k] == '-' then Number(last[..k]) + 1 else |names| + 1)
  }

  datatype Patch = Patch(prompt: Option<string>, mode: Option<State>, position: Option<int>)

  function InitialState(fs: Files, mode: State, deps: seq<string>, agents: seq<string>): State
  {
    if mode == Armed && deps != [] && !DepsDone(fs, deps, agents) then Blocked else mode
  }

  function PatchedStatus(fs: Files, t: Ticket, mode: State, agents: seq<string>): State
  {
    if mode == Draft then Draft
    else if mode == Armed then (if t.deps != [] && !DepsDone(fs, t.deps, agents) then Blocked else Armed)
    else t.status
  }

  function Patched(fs: Files, p: Path, patch: Patch, agents: seq<string>): Files
    requires p in fs
  {
    var t := fs[p];
    if Started(t.status) then fs
    else
      var t := if patch.prompt.Some? then t.(prompt := patch.prompt.value) else t;
      if patch.mode.Some? then
        var s := PatchedStatus(fs, t, patch.mode.value, agents);
        Shift(fs, p, p.(dir := s), t.(mode := patch.mode.value, status := s))
      else if patch.position.Some? && t.status == Queued then
        Shift(fs, p, p.(dir := Queued, name := Prefix(patch.position.value) + "-" + Unprefixed(p.name)), t)
      else fs[p := t]
  }

  function Deleted(fs: Files, p: Path): Files
    requires p in fs
  {
    var t := fs[p];
    if t.status == Running then Shift(fs, p, p.(dir := Cancelled), t.(status := Cancelled))
    else if Started(t.status) then fs
    else fs - {p}
  }

  // ---- steps of the three programs ------------------------------------------

  datatype Step =
    | Create(to: string, id: string, mode: State, prompt: string, deps: seq<string>, now: int)
    | Change(agent: string, id: string, patch: Patch)
    | Delete(agent: string, id: string)
    | Promote(path: Path)
    | Demote(path: Path)
    | Dispatch(path: Path, now: int)
    | Expire(path: Path)
    | Notify(path: Path)
    | Complete(id: string, failed: bool)

  ghost predicate Found(fs: Files, p: Path, agents: seq<string>, id: string)
  {
    p in fs && p.agent in agents && Contains(p.name, id)
  }

  /** What the completion command looks for: the id in the file, or the file's stem. */
  predicate Closes(fs: Files, p: Path, agents: seq<string>, id: string)
  {
    p in fs && p.agent in agents && p.dir == Running && (fs[p].id == id || p.name == Plain(id))
  }

  predicate ByDispatcher(fs: Files, p: Path, dir: State, c: Config) { p in fs && p.dir == dir && p.agent in c.driven }

  function CreateName(id: string, dir: State, prefix: string): string
  {
    if dir == Queued then prefix + "-" + Plain(id) else Plain(id)
  }

  ghost function CreatePath(fs: Files, to: string, id: string, mode: State, deps: seq<string>,
      agents: seq<string>): Path
  {
    var s := InitialState(fs, mode, deps, agents);
    Path(to, s, CreateName(id, s, NextPrefix(Listing(fs, to, Queued))))
  }

  ghost function Created(fs: Files, e: Step, agents: seq<string>): Files
    requires e.Create?
  {
    fs[CreatePath(fs, e.to, e.id, e.mode, e.deps, agents) :=
       Ticket(e.id, e.to, InitialState(fs, e.mode, e.deps, agents), e.mode, e.prompt, e.deps, e.now, None, false)]
  }

  function Relocated(fs: Files, p: Path, dir: State): Files
    requires p in fs
  {
    Shift(fs, p, p.(dir := dir), fs[p].(status := dir))
  }

  function Dispatched(fs: Files, p: Path, now: int): Files
    requires p in fs
  {
    Shift(fs, p, Path(p.agent, Running, Plain(fs[p].id)), fs[p].(status := Running, startedAt := Some(now)))
  }

  function Closed(fs: Files, p: Path, failed: bool): Files
    requires p in fs
  {
    var s := if failed then Failed else Done;
    Shift(fs, p, Path(fs[p].to, s, p.name), fs[p].(status := s))
  }

  /** The ticket at `p` now lies under `s`, with that status, at the agent it was for; no other file has changed. */
  ghost predicate FiledUnder(fs: Files, fs': Files, p: Path, s: State)
  {
    p in fs && MovedTo(fs, fs', p, Path(fs[p].to, s, p.name), fs[p].(status := s))
  }

  lemma ClosedIsFiled(fs: Files, p: Path, failed: bool)
    requires p in fs && p.dir == Running
    ensures FiledUnder(fs, Closed(fs, p, failed), p, if failed then Failed else Done)
  {
  }

  /** A refused request changes nothing. */
  ghost function Apply(fs: Files, e: Step, c: Config): Files
  {
    match e
    case Create(to, _, _, _, _, _) => if to in c.api then Created(fs, e, c.api) else fs
    case Change(agent, id, patch) =>
      if exists p :: Found(fs, p, [agent], id) then
        var p :| Found(fs, p, [agent], id);
        Patched(fs, p, patch, c.api)
      else fs
    case Delete(agent, id) =>
      if exists p :: Found(fs, p, [agent], id) then
        var p :| Found(fs, p, [agent], id);
        Deleted(fs, p)
      else fs
    case Promote(p) =>
      if ByDispatcher(fs, p, Blocked, c) && DepsDone(fs, fs[p].deps, c.driven) then Relocated(fs, p, Armed) else fs
    case Demote(p) =>
      if ByDispatcher(fs, p, Armed, c) && !DepsDone(fs, fs[p].deps, c.driven) then Relocated(fs, p, Blocked) else fs
    case Dispatch(p, now) =>
      if ByDispatcher(fs, p, Armed, c) && DepsDone(fs, fs[p].deps, c.driven) && NoRunning(fs, p.agent)
      then Dispatched(fs, p, now) else fs
    case Expire(p) =>
      if ByDispatcher(fs, p, Running, c) then Relocated(fs, p, Failed) else fs
    case Notify(p) =>
      if p in fs && (p.dir == Done || p.dir == Failed) then fs[p := fs[p].(notified := true)] else fs
    case Complete(id, failed) =>
      if exists p :: Closes(fs, p, c.closers, id) then
        var p :| Closes(fs, p, c.closers, id);
        Closed(fs, p, failed)
      else fs
  }

  /** The modes the API accepts, and a generated id that no ticket holds yet. */
  ghost predicate Sensible(fs: Files, e: Step)
  {
    match e
    case Create(to, id, mode, prompt, deps, now) =>
      (mode == Draft || mode == Armed || mode == Queued) && ValidId(id) && forall p :: p in fs ==> fs[p].id != id
    case _ => true
  }

  lemma CreateIsNamed(id: string, dir: State, prefix: string)
    requires ValidId(id) && 't' !in prefix
    ensures Named(CreateName(id, dir, prefix), id)
  {
    PlainIsNamed(id);
    PrefixIsIgnored(prefix + "-", Plain(id));
  }

  ghost predicate NoneElseHolds(fs: Files, id: string, at: Path) { forall p :: p in fs && fs[p].id == id ==> p == at }

  /** Writing a new or an existing file. */
  lemma WriteKeepsInvExactlyWhen(fs: Files, at: Path, t: Ticket)
    requires Inv(fs) && at.dir == t.status && at.agent == t.to && Named(at.name, t.id) && !Started(at.dir)
    ensures Inv(fs[at := t]) <==> NoneElseHolds(fs, t.id, at)
    ensures KeepsFinal(fs, fs[at := t])
  {
    WriteKeepsDeps(fs, at, t);
    WriteKeepsFilingExactlyWhen(fs, at, t);
  }

  lemma WriteKeepsDeps(fs: Files, at: Path, t: Ticket)
    requires StartedHaveDeps(fs) && !Started(at.dir)
    ensures StartedHaveDeps(fs[at := t]) && KeepsFinal(fs, fs[at := t])
  {
    var fs' := fs[at := t];
    forall p | p in fs' && Started(p.dir) ensures DepsMet(fs', fs'[p].deps) {
      assert p in fs;
      MetStays(fs, fs', fs[p].deps);
    }
  }

  lemma WriteKeepsFilingExactlyWhen(fs: Files, at: Path, t: Ticket)
    requires WellFiled(fs) && OneFileEach(fs) && OneRunningEach(fs)
    requires at.dir == t.status && at.agent == t.to && Named(at.name, t.id) && !Started(at.dir)
    ensures WellFiled(fs[at := t]) && OneRunningEach(fs[at := t])
    ensures OneFileEach(fs[at := t]) <==> NoneElseHolds(fs, t.id, at)
  {
    var fs' := fs[at := t];
    if p :| p in fs && fs[p].id == t.id && p != at {
      assert p in fs' && at in fs' && fs'[p].id == fs'[at].id;
    }
  }

  /** The library never checks that a generated id is new: the invariant survives exactly when no other file has it. */
  lemma CreateKeepsInvExactlyWhen(fs: Files, e: Step, agents: seq<string>)
    requires Inv(fs) && e.Create? && ValidId(e.id) && (e.mode == Draft || e.mode == Armed || e.mode == Queued)
    ensures Inv(Created(fs, e, agents)) <==>
            NoneElseHolds(fs, e.id, CreatePath(fs, e.to, e.id, e.mode, e.deps, agents))
    ensures KeepsFinal(fs, Created(fs, e, agents))
  {
    var s, at := InitialState(fs, e.mode, e.deps, agents), CreatePath(fs, e.to, e.id, e.mode, e.deps, agents);
    assert Named(at.name, e.id) by { CreateIsNamed(e.id, s, NextPrefix(Listing(fs, e.to, Queued))); }
    WriteKeepsInvExactlyWhen(fs, at, Ticket(e.id, e.to, s, e.mode, e.prompt, e.deps, e.now, None, false));
  }

  lemma FoundIsTheTicket(fs: Files, p: Path, agents: seq<string>, id: string)
    requires Inv(fs) && ValidId(id)
    ensures Found(fs, p, agents, id) <==> p in fs && p.agent in agents && fs[p].id == id
  {
    if p in fs { WholeIdMatchesItself(p.name, fs[p].id, id); }
  }

  lemma PatchKeepsInv(fs: Files, p: Path, patch: Patch, agents: seq<string>)
    requires Inv(fs) && p in fs
    ensures Inv(Patched(fs, p, patch, agents)) && KeepsFinal(fs, Patched(fs, p, patch, agents))
  {
    var t := fs[p];
    if !Started(t.status) {
      t := if patch.prompt.Some? then t.(prompt := patch.prompt.value) else t;
      if patch.mode.Some? {
        var s := PatchedStatus(fs, t, patch.mode.value, agents);
        ShiftKeepsInv(fs, p, p.(dir := s), t.(mode := patch.mode.value, status := s));
      } else if patch.position.Some? && t.status == Queued {
        UnprefixedIsNamed(p.name, t.id);
        PrefixIsIgnored(Prefix(patch.position.value) + "-", Unprefixed(p.name));
        ShiftKeepsInv(fs, p, p.(dir := Queued, name := Prefix(patch.position.value) + "-" + Unprefixed(p.name)), t);
      } else {
        assert fs[p := t] == Shift(fs, p, p, t);
        ShiftKeepsInv(fs, p, p, t);
      }
    }
  }

  /** Arming an unstarted ticket puts it in armed or in blocked, as its dependencies say, and moves no other. */
  lemma ArmingFollowsDependencies(fs: Files, p: Path, patch: Patch, agents: seq<string>)
    requires Inv(fs) && p in fs && !Started(p.dir) && patch.mode == Some(Armed)
    ensures var q := p.(dir := if DepsDone(fs, fs[p].deps, agents) then Armed else Blocked);
            var r := Patched(fs, p, patch, agents);
            && q in r && r[q].id == fs[p].id && r[q].deps == fs[p].deps && r[q].mode == Armed && r[q].status == q.dir
            && r[q].prompt == (if patch.prompt.Some? then patch.prompt.value else fs[p].prompt)
            && (forall o :: o in fs && o != p ==> o in r && r[o] == fs[o])
            && (forall o :: o in r ==> o == q || (o in fs && o != p))
  {
    var t := if patch.prompt.Some? then fs[p].(prompt := patch.prompt.value) else fs[p];
    var s := PatchedStatus(fs, t, Armed, agents);
    assert s == if DepsDone(fs, fs[p].deps, agents) then Armed else Blocked;
    ShiftKeepsInv(fs, p, p.(dir := s), t.(mode := Armed, status := s));
  }

  lemma DeleteKeepsInv(fs: Files, p: Path)
    requires Inv(fs) && p in fs
    ensures Inv(Deleted(fs, p)) && KeepsFinal(fs, Deleted(fs, p))
  {
    if fs[p].status == Running {
      ShiftKeepsInv(fs, p, p.(dir := Cancelled), fs[p].(status := Cancelled));
    } else if !Started(fs[p].status) {
      var fs' := fs - {p};
      forall q | q in fs' && Started(q.dir) ensures DepsMet(fs', fs'[q].deps) {
        MetStays(fs, fs', fs[q].deps);
      }
    }
  }

  lemma RelocatedKeepsInv(fs: Files, p: Path, dir: State)
    requires Inv(fs) && p in fs && !Final(p.dir) && dir != Running
    requires Started(dir) ==> Started(p.dir)
    ensures Inv(Relocated(fs, p, dir)) && KeepsFinal(fs, Relocated(fs, p, dir))
    ensures p.(dir := dir) in fs ==> dir == p.dir
  {
    ShiftKeepsInv(fs, p, p.(dir := dir), fs[p].(status := dir));
  }

  lemma DispatchKeepsInv(fs: Files, p: Path, now: int)
    requires Inv(fs) && p in fs && p.dir == Armed && DepsMet(fs, fs[p].deps) && NoRunning(fs, p.agent)
    ensures Inv(Dispatched(fs, p, now)) && KeepsFinal(fs, Dispatched(fs, p, now))
  {
    var dst, t := Path(p.agent, Running, Plain(fs[p].id)), fs[p].(status := Running, startedAt := Some(now));
    assert Named(dst.name, t.id) by { NamedIsValid(p.name, t.id); PlainIsNamed(t.id); }
    ShiftKeepsInv(fs, p, dst, t);
  }

  lemma NotifyKeepsInv(fs: Files, p: Path)
    requires Inv(fs) && p in fs
    ensures Inv(fs[p := fs[p].(notified := true)]) && KeepsFinal(fs, fs[p := fs[p].(notified := true)])
  {
    assert fs[p := fs[p].(notified := true)] == Shift(fs, p, p, fs[p].(notified := true));
    ShiftKeepsInv(fs, p, p, fs[p].(notified := true));
  }

  lemma ClosedKeepsInv(fs: Files, p: Path, failed: bool)
    requires Inv(fs) && p in fs && p.dir == Running
    ensures Inv(Closed(fs, p, failed)) && KeepsFinal(fs, Closed(fs, p, failed))
  {
    var s := if failed then Failed else Done;
    ShiftKeepsInv(fs, p, Path(fs[p].to, s, p.name), fs[p].(status := s));
  }

  lemma DispatcherStepKeepsInv(fs: Files, e: Step, c: Config)
    requires Inv(fs) && (e.Promote? || e.Demote? || e.Dispatch? || e.Expire? || e.Notify?)
    ensures Inv(Apply(fs, e, c)) && KeepsFinal(fs, Apply(fs, e, c))
  {
    if Apply(fs, e, c) != fs {
      match e
      case Promote(p) => RelocatedKeepsInv(fs, p, Armed);
      case Demote(p) => RelocatedKeepsInv(fs, p, Blocked);
      case Dispatch(p, now) =>
        DoneMeansMet(fs, fs[p].deps, c.driven);
        DispatchKeepsInv(fs, p, now);
      case Expire(p) => RelocatedKeepsInv(fs, p, Failed);
      case Notify(p) => NotifyKeepsInv(fs, p);
    }
  }

  lemma RequestKeepsInv(fs: Files, e: Step, c: Config)
    requires Inv(fs) && (e.Change? || e.Delete? || e.Complete?)
    ensures Inv(Apply(fs, e, c)) && KeepsFinal(fs, Apply(fs, e, c))
  {
    if Apply(fs, e, c) != fs {
      match e
      case Change(agent, id, patch) =>
        var p :| Found(fs, p, [agent], id) && Apply(fs, e, c) == Patched(fs, p, patch, c.api);
        PatchKeepsInv(fs, p, patch, c.api);
      case Delete(agent, id) =>
        var p :| Found(fs, p, [agent], id) && Apply(fs, e, c) == Deleted(fs, p);
        DeleteKeepsInv(fs, p);
      case Complete(id, failed) =>
        var p :| Closes(fs, p, c.closers, id) && Apply(fs, e, c) == Closed(fs, p, failed);
        ClosedKeepsInv(fs, p, failed);
    }
  }

  /** Every step of the three programs keeps the store well filed, and `done` only grows. */
  lemma StepKeepsInv(fs: Files, e: Step, c: Config)
    requires Inv(fs) && Sensible(fs, e)
    ensures Inv(Apply(fs, e, c)) && KeepsFinal(fs, Apply(fs, e, c))
  {
    if e.Create? {
      if e.to in c.api { CreateKeepsInvExactlyWhen(fs, e, c.api); }
    } else if e.Change? || e.Delete? || e.Complete? {
      RequestKeepsInv(fs, e, c);
    } else {
      DispatcherStepKeepsInv(fs, e, c);
    }
  }

  ghost function RunOf(fs: Files, es: seq<Step>, c: Config): Files
  {
    if es == [] then fs else Apply(RunOf(fs, es[..|es| - 1], c), es[|es| - 1], c)
  }

  ghost predicate SensibleRun(fs: Files, es: seq<Step>, c: Config)
  {
    es != [] ==> SensibleRun(fs, es[..|es| - 1], c) && Sensible(RunOf(fs, es[..|es| - 1], c), es[|es| - 1])
  }

  /** Safety over every interleaving of the three programs, one file move at a time. */
  lemma {:induction false} RunKeepsInv(fs: Files, es: seq<Step>, c: Config)
    requires Inv(fs) && SensibleRun(fs, es, c)
    ensures Inv(RunOf(fs, es, c)) && KeepsFinal(fs, RunOf(fs, es, c))
  {
    if es != [] {
      RunKeepsInv(fs, es[..|es| - 1], c);
      StepKeepsInv(RunOf(fs, es[..|es| - 1], c), es[|es| - 1], c);
    }
  }

  datatype Reply = Accepted | Malformed | Missing | Refused

  const STATES: seq<State> := [Draft, Armed, Blocked, Queued, Running, Done, Failed, Cancelled]

  lemma AllStates()
    ensures forall s: State :: s in STATES
  {
    assert STATES[0] == Draft && STATES[1] == Armed && STATES[2] == Blocked && STATES[3] == Queued;
    assert STATES[4] == Running && STATES[5] == Done && STATES[6] == Failed && STATES[7] == Cancelled;
    forall s: State ensures s in STATES {
      match s
      case Draft => assert STATES[0] in STATES;
      case Armed => assert STATES[1] in STATES;
      case Blocked => assert STATES[2] in STATES;
      case Queued => assert STATES[3] in STATES;
      case Running => assert STATES[4] in STATES;
      case Done => assert STATES[5] in STATES;
      case Failed => assert STATES[6] in STATES;
      case Cancelled => assert STATES[7] in STATES;
    }
  }

  ghost predicate HasTicket(fs: Files, p: Path, agent: string, id: string)
  {
    p in fs && p.agent == agent && fs[p].id == id
  }

  /** The reply to a change of the ticket `id` of `agent`: ids are checked first, and a started ticket is refused. */
  ghost function Asked(fs: Files, agent: string, id: string): Reply
  {
    if !ValidId(id) then Malformed
    else if !exists p :: HasTicket(fs, p, agent, id) then Missing
    else if exists p :: HasTicket(fs, p, agent, id) && Started(p.dir) then Refused
    else Accepted
  }

  /** Deleting a running ticket is not refused: it cancels it. */
  ghost predicate AskedToStop(fs: Files, agent: string, id: string)
  {
    ValidId(id) && exists p :: HasTicket(fs, p, agent, id) && p.dir == Running
  }

  lemma ReplyFor(fs: Files, p: Path, agent: string, id: string)
    requires Inv(fs) && ValidId(id) && HasTicket(fs, p, agent, id)
    ensures Asked(fs, agent, id) == if Started(p.dir) then Refused else Accepted
    ensures AskedToStop(fs, agent, id) <==> p.dir == Running
  {
    assert forall q :: HasTicket(fs, q, agent, id) ==> q == p;
  }

  lemma NotFoundMeansAbsent(fs: Files, agent: string, id: string)
    requires Inv(fs) && ValidId(id) && forall p :: !Found(fs, p, [agent], id)
    ensures forall p :: !HasTicket(fs, p, agent, id)
  {
    forall p ensures !HasTicket(fs, p, agent, id) { FoundIsTheTicket(fs, p, [agent], id); }
  }

  /** What the completion command closes is the ticket it was given, whenever it was given a ticket id. */
  lemma CompletionNamesItsTicket(fs: Files, p: Path, agents: seq<string>, id: string)
    requires Inv(fs) && ValidId(id)
    ensures Closes(fs, p, agents, id) <==> p in fs && p.agent in agents && p.dir == Running && fs[p].id == id
  {
    PlainIsNamed(id);
  }

  /** Completing a ticket satisfies its dependants exactly when it did not fail. */
  lemma CompletionSatisfiesExactlyWhen(fs: Files, fs': Files, p: Path, failed: bool, agents: seq<string>)
    requires Inv(fs) && p in fs && p.dir == Running && p.agent in agents
    requires FiledUnder(fs, fs', p, if failed then Failed else Done)
    ensures DepsDone(fs', [fs[p].id], agents) <==> !failed
  {
    var id, s := fs[p].id, if failed then Failed else Done;
    var q := p.(dir := s);
    NamedIsValid(p.name, id);
    WholeIdMatchesItself(p.name, id, id);
    forall o | o in fs' && o.dir == Done && Contains(o.name, id) ensures o == q {
      if o != q { WholeIdMatchesItself(o.name, fs[o].id, id); }
    }
    assert DoneIn(fs', id, agents) <==> !failed;
  }

  /** A failed or cancelled dependency strands its dependants: no schedule ever starts one. */
  lemma FailedDependencyStrands(fs: Files, es: seq<Step>, c: Config, at: Path, q: Path)
    requires Inv(fs) && SensibleRun(fs, es, c)
    requires at in fs && (at.dir == Failed || at.dir == Cancelled)
    requires q in RunOf(fs, es, c) && fs[at].id in RunOf(fs, es, c)[q].deps
    ensures !Started(q.dir)
  {
    var fs' := RunOf(fs, es, c);
    RunKeepsInv(fs, es, c);
    NamedIsValid(at.name, fs[at].id);
    assert at in fs' && fs'[at].id == fs[at].id;
    if Started(q.dir) {
      StartedMeansDependenciesDone(fs', q, fs[at].id);
    }
  }

  // ---- the programs as the code runs them -----------------------------------

  /** `chosen` went from one directory to another; every other file is as it was. */
  ghost predicate Moved(fs: Files, fs': Files, chosen: set<Path>, from: State, to: State)
  {
    && (forall p :: p in fs && p !in chosen ==> p in fs' && fs'[p] == fs[p])
    && (forall p :: p in chosen ==>
          p in fs && p.dir == from && p.(dir := to) in fs' && fs'[p.(dir := to)] == fs[p].(status := to))
    && (forall q :: q in fs' ==> (q in fs && q !in chosen) || (q.dir == to && q.(dir := from) in chosen))
  }

  lemma MovedOne(fs: Files, p: Path, to: State)
    requires p in fs && p.(dir := to) !in fs
    ensures Moved(fs, Relocated(fs, p, to), {p}, p.dir, to)
  {
  }

  lemma MovedThen(a: Files, b: Files, c: Files, x: set<Path>, y: set<Path>, from: State, to: State)
    requires Moved(a, b, x, from, to) && Moved(b, c, y, from, to) && from != to
    ensures Moved(a, c, x + y, from, to)
  {
  }

  lemma MovedKeepsDepCheck(fs: Files, fs': Files, chosen: set<Path>, from: State, to: State, deps: seq<string>,
      agents: seq<string>)
    requires Moved(fs, fs', chosen, from, to) && from != Done && to != Done
    ensures DepsDone(fs', deps, agents) <==> DepsDone(fs, deps, agents)
  {
    forall dep ensures DoneIn(fs', dep, agents) <==> DoneIn(fs, dep, agents) {
      assert forall p: Path :: p.dir == Done ==> (p in fs <==> p in fs');
    }
  }

  // ---- sweeps of one directory ----------------------------------------------

  predicate Overdue(t: Ticket, now: int, limit: int) { t.startedAt.Some? && now - t.startedAt.value > limit }

  /** The dispatcher's three loops over a directory, which move the tickets they pick to another one. */
  datatype Sweep = Promoting(agents: seq<string>) | Demoting(agents: seq<string>) | Expiring(now: int, limit: int) {
    function From(): State { if Promoting? then Blocked else if Demoting? then Armed else Running }
    function To(): State { if Promoting? then Armed else if Demoting? then Blocked else Failed }
    predicate Picks(fs: Files, t: Ticket)
    {
      if Promoting? then DepsDone(fs, t.deps, agents)
      else if Demoting? then !DepsDone(fs, t.deps, agents)
      else Overdue(t, now, limit)
    }
  }

  ghost function Picked(fs: Files, agent: string, names: seq<string>, s: Sweep): set<Path>
  {
    set p | p in fs && p.agent == agent && p.dir == s.From() && p.name in names && s.Picks(fs, fs[p])
  }

  function SweepOne(fs: Files, p: Path, s: Sweep): Files
  {
    if p in fs && s.Picks(fs, fs[p]) then Relocated(fs, p, s.To()) else fs
  }

  function SweepAll(fs: Files, agent: string, names: seq<string>, s: Sweep): Files
    decreases |names|
  {
    if names == [] then fs else SweepAll(SweepOne(fs, Path(agent, s.From(), names[0]), s), agent, names[1..], s)
  }

  lemma SweepOneKeepsInv(fs: Files, p: Path, s: Sweep)
    requires Inv(fs) && p.dir == s.From()
    ensures Inv(SweepOne(fs, p, s)) && KeepsFinal(fs, SweepOne(fs, p, s))
    ensures p in fs ==> p.(dir := s.To()) !in fs
  {
    if p in fs { RelocatedKeepsInv(fs, p, s.To()); }
  }

  lemma {:induction false} SweepAllKeepsInv(fs: Files, agent: string, names: seq<string>, s: Sweep)
    requires Inv(fs)
    ensures Inv(SweepAll(fs, agent, names, s)) && KeepsFinal(fs, SweepAll(fs, agent, names, s))
    decreases |names|
  {
    if names != [] {
      var p := Path(agent, s.From(), names[0]);
      SweepOneKeepsInv(fs, p, s);
      SweepAllKeepsInv(SweepOne(fs, p, s), agent, names[1..], s);
    }
  }

  ghost function First(fs: Files, agent: string, names: seq<string>, s: Sweep): set<Path>
    requires names != []
  {
    var p := Path(agent, s.From(), names[0]);
    if p in fs && s.Picks(fs, fs[p]) then {p} else {}
  }

  lemma SweepOneMoves(fs: Files, agent: string, names: seq<string>, s: Sweep)
    requires Inv(fs) && names != []
    ensures var p := Path(agent, s.From(), names[0]);
            Moved(fs, SweepOne(fs, p, s), First(fs, agent, names, s), s.From(), s.To())
  {
    var p := Path(agent, s.From(), names[0]);
    SweepOneKeepsInv(fs, p, s);
    if p in fs { MovedOne(fs, p, s.To()); }
  }

  lemma PickedAfter(fs: Files, fs': Files, agent: string, names: seq<string>, s: Sweep)
    requires names != [] && Distinct(names) && Moved(fs, fs', First(fs, agent, names, s), s.From(), s.To())
    ensures First(fs, agent, names, s) + Picked(fs', agent, names[1..], s) == Picked(fs, agent, names, s)
  {
    var first := First(fs, agent, names, s);
    assert names == [names[0]] + names[1..];
    forall q ensures q in first + Picked(fs', agent, names[1..], s) <==> q in Picked(fs, agent, names, s) {
      if q in fs && !s.Expiring? { MovedKeepsDepCheck(fs, fs', first, s.From(), s.To(), fs[q].deps, s.agents); }
    }
  }

  /** A sweep moves exactly the tickets that qualified when it started; no other file changes. */
  lemma {:induction false} SweepAllMoves(fs: Files, agent: string, names: seq<string>, s: Sweep)
    requires Inv(fs) && Distinct(names)
    ensures Moved(fs, SweepAll(fs, agent, names, s), Picked(fs, agent, names, s), s.From(), s.To())
    decreases |names|
  {
    if names == [] {
      assert Picked(fs, agent, names, s) == {};
    } else {
      var p := Path(agent, s.From(), names[0]);
      var fs' := SweepOne(fs, p, s);
      SweepOneKeepsInv(fs, p, s);
      SweepOneMoves(fs, agent, names, s);
      PickedAfter(fs, fs', agent, names, s);
      SweepAllMoves(fs', agent, names[1..], s);
      MovedThen(fs, fs', SweepAll(fs, agent, names, s), First(fs, agent, names, s), Picked(fs', agent, names[1..], s),
                s.From(), s.To());
    }
  }

  // ---- armed tickets of an idle agent ---------------------------------------

  /** In name order: send back what is not ready, hand over the first ticket that is, and stop. */
  function DispatchPass(fs: Files, agent: string, names: seq<string>, agents: seq<string>, now: int): Files
    decreases |names|
  {
    if names == [] then fs
    else
      var p := Path(agent, Armed, names[0]);
      if p in fs && DepsDone(fs, fs[p].deps, agents) then Dispatched(fs, p, now)
      else DispatchPass(SweepOne(fs, p, Demoting(agents)), agent, names[1..], agents, now)
  }

  /** How many of `names` come before the first ready one. */
  function NotReady(fs: Files, agent: string, names: seq<string>, agents: seq<string>): (k: nat)
    ensures k <= |names|
  {
    if names == [] then 0
    else
      var p := Path(agent, Armed, names[0]);
      if p in fs && DepsDone(fs, fs[p].deps, agents) then 0 else 1 + NotReady(fs, agent, names[1..], agents)
  }

  lemma {:induction false} NotReadyStays(fs: Files, fs': Files, agent: string, names: seq<string>,
      agents: seq<string>, first: set<Path>)
    requires Moved(fs, fs', first, Armed, Blocked) && forall p :: p in first ==> p.name !in names
    ensures NotReady(fs', agent, names, agents) == NotReady(fs, agent, names, agents)
  {
    if names != [] {
      var p := Path(agent, Armed, names[0]);
      if p in fs { MovedKeepsDepCheck(fs, fs', first, Armed, Blocked, fs[p].deps, agents); }
      NotReadyStays(fs, fs', agent, names[1..], agents, first);
    }
  }

  lemma DemoteFirst(fs: Files, agent: string, names: seq<string>, agents: seq<string>)
    requires Inv(fs) && Distinct(names) && names != []
    requires var p := Path(agent, Armed, names[0]); !(p in fs && DepsDone(fs, fs[p].deps, agents))
    ensures var s, k := Demoting(agents), NotReady(fs, agent, names, agents);
            var fs' := SweepOne(fs, Path(agent, Armed, names[0]), s);
            && Inv(fs') && k > 0 && NotReady(fs', agent, names[1..], agents) == k - 1
            && SweepAll(fs, agent, names[..k], s) == SweepAll(fs', agent, names[1..][..k - 1], s)
  {
    var p, s, k := Path(agent, Armed, names[0]), Demoting(agents), NotReady(fs, agent, names, agents);
    SweepOneKeepsInv(fs, p, s);
    SweepOneMoves(fs, agent, names, s);
    NotReadyStays(fs, SweepOne(fs, p, s), agent, names[1..], agents, First(fs, agent, names, s));
    SweepHead(fs, agent, names, k, s);
  }

  lemma SweepHead(fs: Files, agent: string, names: seq<string>, k: nat, s: Sweep)
    requires 0 < k <= |names|
    ensures SweepAll(fs, agent, names[..k], s)
         == SweepAll(SweepOne(fs, Path(agent, s.From(), names[0]), s), agent, names[1..][..k - 1], s)
  {
    assert names[..k][0] == names[0] && names[..k][1..] == names[1..][..k - 1];
  }

  /** The pass is a sweep of the names before the first ready one, then that ticket's dispatch. */
  lemma {:induction false} DispatchPassSplits(fs: Files, agent: string, names: seq<string>, agents: seq<string>,
      now: int)
    requires Inv(fs) && Distinct(names)
    ensures var k := NotReady(fs, agent, names, agents); var mid := SweepAll(fs, agent, names[..k], Demoting(agents));
            if k == |names| then DispatchPass(fs, agent, names, agents, now) == mid
            else Path(agent, Armed, names[k]) in mid &&
                 DispatchPass(fs, agent, names, agents, now) == Dispatched(mid, Path(agent, Armed, names[k]), now)
    decreases |names|
  {
    if names != [] {
      var p := Path(agent, Armed, names[0]);
      if !(p in fs && DepsDone(fs, fs[p].deps, agents)) {
        DemoteFirst(fs, agent, names, agents);
        DispatchPassSplits(SweepOne(fs, p, Demoting(agents)), agent, names[1..], agents, now);
      }
    }
  }

  ghost function Waiting(fs: Files, agent: string): set<Path> { set p | p in fs && p.agent == agent && p.dir == Armed }

  ghost function Before(fs: Files, agent: string, name: string): set<Path>
  {
    set p | p in Waiting(fs, agent) && Less(p.name, name)
  }

  predicate Ready(fs: Files, p: Path, agents: seq<string>) { p in fs && DepsDone(fs, fs[p].deps, agents) }

  lemma {:induction false} NotReadyMeans(fs: Files, agent: string, names: seq<string>, agents: seq<string>)
    ensures var k := NotReady(fs, agent, names, agents);
            && (forall i :: 0 <= i < k ==> !Ready(fs, Path(agent, Armed, names[i]), agents))
            && (k < |names| ==> Ready(fs, Path(agent, Armed, names[k]), agents))
  {
    if names != [] && !Ready(fs, Path(agent, Armed, names[0]), agents) {
      NotReadyMeans(fs, agent, names[1..], agents);
      forall i | 0 <= i < NotReady(fs, agent, names, agents) ensures !Ready(fs, Path(agent, Armed, names[i]), agents) {
        if i > 0 { assert names[i] == names[1..][i - 1]; }
      }
    }
  }

  /** The first `k` names of a directory are exactly the names before the next one. */
  lemma PrefixIsBefore(fs: Files, agent: string, names: seq<string>, k: nat, agents: seq<string>)
    requires Ascending(names) && Distinct(names) && k <= NotReady(fs, agent, names, agents)
    requires forall x :: x in names <==> Path(agent, Armed, x) in fs
    ensures k < |names| ==> Picked(fs, agent, names[..k], Demoting(agents)) == Before(fs, agent, names[k])
    ensures k == |names| ==> Picked(fs, agent, names[..k], Demoting(agents)) == Waiting(fs, agent)
  {
    NotReadyMeans(fs, agent, names, agents);
    forall q | q in Waiting(fs, agent)
      ensures k < |names| ==> (Less(q.name, names[k]) <==> q.name in names[..k])
      ensures q.name in names[..k] ==> !Ready(fs, q, agents)
    {
      var i :| 0 <= i < |names| && names[i] == q.name;
      assert q == Path(agent, Armed, names[i]);
      if k < |names| { LessTrichotomy(names[i], names[k]); }
    }
  }

  lemma {:induction false} DispatchPassKeepsInv(fs: Files, agent: string, names: seq<string>, agents: seq<string>,
      now: int)
    requires Inv(fs) && NoRunning(fs, agent)
    ensures var r := DispatchPass(fs, agent, names, agents, now); Inv(r) && KeepsFinal(fs, r)
    decreases |names|
  {
    if names != [] {
      var p := Path(agent, Armed, names[0]);
      if Ready(fs, p, agents) {
        DoneMeansMet(fs, fs[p].deps, agents);
        DispatchKeepsInv(fs, p, now);
      } else {
        SweepOneKeepsInv(fs, p, Demoting(agents));
        DispatchPassKeepsInv(SweepOne(fs, p, Demoting(agents)), agent, names[1..], agents, now);
      }
    }
  }

  /** With nothing ready, the pass blocks every armed ticket of the agent. */
  lemma NoneReadyAllBlocked(fs: Files, agent: string, agents: seq<string>, now: int)
    requires Inv(fs) && forall p :: p in Waiting(fs, agent) ==> !Ready(fs, p, agents)
    ensures Moved(fs, DispatchPass(fs, agent, Listing(fs, agent, Armed), agents, now), Waiting(fs, agent), Armed,
        Blocked)
  {
    var names := Listing(fs, agent, Armed);
    ListingSorted(fs, agent, Armed);
    NotReadyMeans(fs, agent, names, agents);
    var k := NotReady(fs, agent, names, agents);
    assert forall x :: x in names ==> Path(agent, Armed, x) in Waiting(fs, agent);
    assert names[..|names|] == names;
    DispatchPassSplits(fs, agent, names, agents, now);
    SweepAllMoves(fs, agent, names, Demoting(agents));
    PrefixIsBefore(fs, agent, names, k, agents);
  }

  /** Otherwise the first ready ticket in name order is running, those before it are blocked and the rest wait on. */
  lemma FirstReadyIsDispatched(fs: Files, agent: string, agents: seq<string>, now: int, p: Path)
    requires Inv(fs) && p in Waiting(fs, agent) && Ready(fs, p, agents)
    requires forall q :: q in Before(fs, agent, p.name) ==> !Ready(fs, q, agents)
    ensures exists mid :: Moved(fs, mid, Before(fs, agent, p.name), Armed, Blocked) && p in mid && mid[p] == fs[p] &&
                          DispatchPass(fs, agent, Listing(fs, agent, Armed), agents, now) == Dispatched(mid, p, now)
  {
    var names := Listing(fs, agent, Armed);
    ListingSorted(fs, agent, Armed);
    FirstReadyAt(fs, agent, names, agents, p);
    var k := NotReady(fs, agent, names, agents);
    var mid := SweepAll(fs, agent, names[..k], Demoting(agents));
    DispatchPassSplits(fs, agent, names, agents, now);
    SweepAllMoves(fs, agent, names[..k], Demoting(agents));
    PrefixIsBefore(fs, agent, names, k, agents);
    LessTrichotomy(p.name, p.name);
    assert Moved(fs, mid, Before(fs, agent, p.name), Armed, Blocked);
  }

  lemma FirstReadyAt(fs: Files, agent: string, names: seq<string>, agents: seq<string>, p: Path)
    requires Ascending(names) && Distinct(names) && forall x :: x in names <==> Path(agent, Armed, x) in fs
    requires p in Waiting(fs, agent) && Ready(fs, p, agents)
    requires forall q :: q in Before(fs, agent, p.name) ==> !Ready(fs, q, agents)
    ensures var k := NotReady(fs, agent, names, agents); k < |names| && names[k] == p.name
  {
    NotReadyMeans(fs, agent, names, agents);
    var k := NotReady(fs, agent, names, agents);
    var i :| 0 <= i < |names| && names[i] == p.name;
    assert p == Path(agent, Armed, names[i]);
    forall j | 0 <= j < i ensures Path(agent, Armed, names[j]) in Before(fs, agent, p.name) {
      LessTrichotomy(names[j], names[i]);
    }
  }

  lemma ListingSorted(fs: Files, agent: string, dir: State)
    ensures Ascending(Listing(fs, agent, dir)) && Distinct(Listing(fs, agent, dir))
  {
    SortAscends(Elements(NamesIn(fs, agent, dir)));
    SortDistinct(Elements(NamesIn(fs, agent, dir)));
  }
  // ---- a whole tick ---------------------------------------------------------

  /** What the dispatcher sees of an agent: whether its pane is idle, and how old its inbox file is, if there is one. */
  datatype Pane = Pane(idle: bool, inboxAge: Option<int>)

  /** `now`, and the three delays of the configuration, in seconds. */
  datatype Clock = Clock(now: int, idleMin: int, limit: int)

  ghost predicate MayDispatch(fs: Files, agent: string, pane: Pane, clock: Clock)
  {
    NoRunning(fs, agent) && pane.idle &&
    ((pane.inboxAge.Some? ==> pane.inboxAge.value >= clock.idleMin) ||
     exists p :: p in Waiting(fs, agent) && clock.now - fs[p].queuedAt >= clock.idleMin)
  }

  ghost function ArmedPass(fs: Files, agent: string, pane: Pane, clock: Clock, agents: seq<string>): Files
  {
    if MayDispatch(fs, agent, pane, clock)
    then DispatchPass(fs, agent, Listing(fs, agent, Armed), agents, clock.now) else fs
  }

  function NotifyAll(fs: Files, agent: string, dir: State, names: seq<string>): Files
    decreases |names|
  {
    if names == [] then fs
    else
      var p := Path(agent, dir, names[0]);
      NotifyAll(if p in fs && !fs[p].notified then fs[p := fs[p].(notified := true)] else fs, agent, dir, names[1..])
  }

  ghost function Notified(fs: Files, agent: string): Files
  {
    var fs := NotifyAll(fs, agent, Done, Listing(fs, agent, Done));
    NotifyAll(fs, agent, Failed, Listing(fs, agent, Failed))
  }

  /** `t` once its end is announced. */
  function Announced(t: Ticket): Ticket { t.(notified := true) }

  lemma {:induction false} NotifyAllMarks(fs: Files, agent: string, dir: State, names: seq<string>)
    ensures var fs' := NotifyAll(fs, agent, dir, names);
            && fs'.Keys == fs.Keys
            && forall p :: p in fs ==>
                 fs'[p] == if p.agent == agent && p.dir == dir && p.name in names then Announced(fs[p]) else fs[p]
    decreases |names|
  {
    if names != [] {
      var p := Path(agent, dir, names[0]);
      NotifyAllMarks(if p in fs && !fs[p].notified then fs[p := Announced(fs[p])] else fs, agent, dir, names[1..]);
      assert forall x :: x in names <==> x == names[0] || x in names[1..];
    }
  }

  /** Every done or failed ticket of the agent ends up marked as announced, and nothing else changes. */
  lemma NotifiedMarksExactly(fs: Files, agent: string)
    ensures Notified(fs, agent).Keys == fs.Keys
    ensures forall p :: p in fs ==>
              Notified(fs, agent)[p] == if p.agent == agent && (p.dir == Done || p.dir == Failed) then Announced(fs[p])
                                        else fs[p]
  {
    var fs1 := NotifyAll(fs, agent, Done, Listing(fs, agent, Done));
    NotifyAllMarks(fs, agent, Done, Listing(fs, agent, Done));
    NotifyAllMarks(fs1, agent, Failed, Listing(fs1, agent, Failed));
    forall p | p in fs && p.agent == agent
      ensures p.dir == Done ==> p.name in Listing(fs, agent, Done)
      ensures p.dir == Failed ==> p.name in Listing(fs1, agent, Failed)
    {
      assert p == Path(agent, p.dir, p.name);
    }
  }

  ghost function AgentsPass(fs: Files, todo: seq<string>, panes: string -> Pane, clock: Clock,
      agents: seq<string>): Files
    decreases |todo|
  {
    if todo == [] then fs
    else
      var promoted := SweepAll(fs, todo[0], Listing(fs, todo[0], Blocked), Promoting(agents));
      var passed := ArmedPass(promoted, todo[0], panes(todo[0]), clock, agents);
      AgentsPass(Notified(passed, todo[0]), todo[1..], panes, clock, agents)
  }

  ghost function ExpireAll(fs: Files, todo: seq<string>, clock: Clock): Files
    decreases |todo|
  {
    if todo == [] then fs
    else ExpireAll(SweepAll(fs, todo[0], Listing(fs, todo[0], Running), Expiring(clock.now, clock.limit)), todo[1..],
        clock)
  }

  ghost function Ticked(fs: Files, agents: seq<string>, panes: string -> Pane, clock: Clock): Files
  {
    ExpireAll(AgentsPass(fs, agents, panes, clock, agents), agents, clock)
  }

  lemma {:induction false} NotifyAllKeepsInv(fs: Files, agent: string, dir: State, names: seq<string>)
    requires Inv(fs)
    ensures Inv(NotifyAll(fs, agent, dir, names)) && KeepsFinal(fs, NotifyAll(fs, agent, dir, names))
    decreases |names|
  {
    if names != [] {
      var p := Path(agent, dir, names[0]);
      var fs' := if p in fs && !fs[p].notified then fs[p := fs[p].(notified := true)] else fs;
      if p in fs { NotifyKeepsInv(fs, p); }
      NotifyAllKeepsInv(fs', agent, dir, names[1..]);
    }
  }

  lemma ArmedPassKeepsInv(fs: Files, agent: string, pane: Pane, clock: Clock, agents: seq<string>)
    requires Inv(fs)
    ensures Inv(ArmedPass(fs, agent, pane, clock, agents)) && KeepsFinal(fs, ArmedPass(fs, agent, pane, clock, agents))
  {
    if MayDispatch(fs, agent, pane, clock) {
      DispatchPassKeepsInv(fs, agent, Listing(fs, agent, Armed), agents, clock.now);
    }
  }

  lemma {:induction false} AgentsPassKeepsInv(fs: Files, todo: seq<string>, panes: string -> Pane, clock: Clock,
      agents: seq<string>)
    requires Inv(fs)
    ensures Inv(AgentsPass(fs, todo, panes, clock, agents))
        && KeepsFinal(fs, AgentsPass(fs, todo, panes, clock, agents))
    decreases |todo|
  {
    if todo != [] {
      var a := todo[0];
      SweepAllKeepsInv(fs, a, Listing(fs, a, Blocked), Promoting(agents));
      var promoted := SweepAll(fs, a, Listing(fs, a, Blocked), Promoting(agents));
      ArmedPassKeepsInv(promoted, a, panes(a), clock, agents);
      var passed := ArmedPass(promoted, a, panes(a), clock, agents);
      NotifyAllKeepsInv(passed, a, Done, Listing(passed, a, Done));
      var half := NotifyAll(passed, a, Done, Listing(passed, a, Done));
      NotifyAllKeepsInv(half, a, Failed, Listing(half, a, Failed));
      AgentsPassKeepsInv(Notified(passed, a), todo[1..], panes, clock, agents);
    }
  }

  ghost predicate NoneOverdue(fs: Files, agents: seq<string>, clock: Clock)
  {
    forall p :: p in fs && p.agent in agents && p.dir == Running ==> !Overdue(fs[p], clock.now, clock.limit)
  }

  lemma MovedLeavesNone(fs: Files, r: Files, picked: set<Path>, agent: string, clock: Clock)
    requires Moved(fs, r, picked, Running, Failed)
    requires forall p :: p in fs && p.agent == agent && p.dir == Running && p !in picked ==>
                         !Overdue(fs[p], clock.now, clock.limit)
    ensures NoneOverdue(r, [agent], clock)
    ensures forall a :: NoneOverdue(fs, a, clock) ==> NoneOverdue(r, a, clock)
  {
  }

  lemma ExpireOne(fs: Files, agent: string, clock: Clock)
    requires Inv(fs)
    ensures var r := SweepAll(fs, agent, Listing(fs, agent, Running), Expiring(clock.now, clock.limit));
            && Inv(r) && KeepsFinal(fs, r) && NoneOverdue(r, [agent], clock)
            && forall a :: NoneOverdue(fs, a, clock) ==> NoneOverdue(r, a, clock)
  {
    var s, names := Expiring(clock.now, clock.limit), Listing(fs, agent, Running);
    ListingSorted(fs, agent, Running);
    SweepAllKeepsInv(fs, agent, names, s);
    SweepAllMoves(fs, agent, names, s);
    forall p | p in fs && p.agent == agent && p.dir == Running && p !in Picked(fs, agent, names, s)
      ensures !Overdue(fs[p], clock.now, clock.limit)
    {
      assert p == Path(agent, Running, p.name);
    }
    MovedLeavesNone(fs, SweepAll(fs, agent, names, s), Picked(fs, agent, names, s), agent, clock);
  }

  lemma {:induction false} ExpireAllLeavesNone(fs: Files, todo: seq<string>, before: seq<string>, clock: Clock)
    requires Inv(fs) && NoneOverdue(fs, before, clock)
    ensures var r := ExpireAll(fs, todo, clock); Inv(r) && KeepsFinal(fs, r) && NoneOverdue(r, before + todo, clock)
    decreases |todo|
  {
    if todo == [] {
      assert before + todo == before;
    } else {
      var r := SweepAll(fs, todo[0], Listing(fs, todo[0], Running), Expiring(clock.now, clock.limit));
      ExpireOne(fs, todo[0], clock);
      assert NoneOverdue(r, before + [todo[0]], clock);
      ExpireAllLeavesNone(r, todo[1..], before + [todo[0]], clock);
      assert before + [todo[0]] + todo[1..] == before + todo;
    }
  }

  /** A tick keeps the store well filed and finished tickets in place, and leaves no driven agent an overdue one. */
  lemma TickKeepsInv(fs: Files, agents: seq<string>, panes: string -> Pane, clock: Clock)
    requires Inv(fs)
    ensures var r := Ticked(fs, agents, panes, clock); Inv(r) && KeepsFinal(fs, r) && NoneOverdue(r, agents, clock)
  {
    AgentsPassKeepsInv(fs, agents, panes, clock, agents);
    var mid := AgentsPass(fs, agents, panes, clock, agents);
    ExpireAllLeavesNone(mid, agents, [], clock);
    assert [] + agents == agents;
  }

  /** In whatever order a directory is read, sorting its names gives its listing. */
  lemma ListingSorts(fs: Files, agent: string, dir: State, found: seq<string>)
    requires Distinct(found) && forall x :: x in found <==> x in NamesIn(fs, agent, dir)
    ensures Sort(found) == Listing(fs, agent, dir)
  {
    var listed := Elements(NamesIn(fs, agent, dir));
    DistinctMultiset(found);
    DistinctMultiset(listed);
    assert forall x :: multiset(found)[x] == multiset(listed)[x];
    SortCanonical(found, listed);
  }

  lemma SweepFrom(fs: Files, agent: string, names: seq<string>, i: nat, s: Sweep)
    requires i < |names|
    ensures SweepAll(fs, agent, names[i..], s)
         == SweepAll(SweepOne(fs, Path(agent, s.From(), names[i]), s), agent, names[i + 1..], s)
  {
    assert names[i..][1..] == names[i + 1..];
  }

  lemma PassFrom(fs: Files, agent: string, names: seq<string>, i: nat, agents: seq<string>, now: int, ready: bool)
    requires i < |names| && Path(agent, Armed, names[i]) in fs
    requires ready <==> Ready(fs, Path(agent, Armed, names[i]), agents)
    ensures DispatchPass(fs, agent, names[i..], agents, now)
         == (if ready then Dispatched(fs, Path(agent, Armed, names[i]), now)
             else DispatchPass(Relocated(fs, Path(agent, Armed, names[i]), Blocked), agent, names[i + 1..], agents,
                 now))
  {
    assert names[i..][1..] == names[i + 1..];
  }

  lemma PassOver(fs: Files, agent: string, names: seq<string>, i: nat, agents: seq<string>, now: int)
    requires i < |names| && Path(agent, Armed, names[i]) !in fs
    ensures DispatchPass(fs, agent, names[i..], agents, now) == DispatchPass(fs, agent, names[i + 1..], agents, now)
  {
    assert names[i..][1..] == names[i + 1..];
  }

  class Store {
    var files: Files
    const config: Config

    constructor (files: Files, config: Config)
      ensures this.files == files && this.config == config
    {
      this.files := files;
      this.config := config;
    }

    method Glob(agent: string, dir: State) returns (names: seq<string>)
      ensures names == Listing(files, agent, dir)
    {
      var all := NamesIn(files, agent, dir);
      var pending, found: seq<string> := all, [];
      while pending != {}
        invariant Distinct(found) && pending <= all
        invariant forall x :: x in all ==> (x in pending <==> x !in found)
        invariant forall x :: x in found ==> x in all
        decreases |pending|
      {
        var x :| x in pending;
        found, pending := found + [x], pending - {x};
      }
      ListingSorts(files, agent, dir, found);
      names := Sort(found);
    }

    method AllDepsDone(deps: seq<string>, agents: seq<string>) returns (all: bool)
      ensures all == DepsDone(files, deps, agents)
    {
      for i := 0 to |deps|
        invariant forall k :: 0 <= k < i ==> DoneIn(files, deps[k], agents)
      {
        var found := false;
        for j := 0 to |agents|
          invariant !found
          invariant forall p :: p in files && p.agent in agents[..j] && p.dir == Done ==> !Contains(p.name, deps[i])
        {
          if exists p :: p in files && p.agent == agents[j] && p.dir == Done && Contains(p.name, deps[i]) {
            found := true;
            break;
          }
        }
        if !found {
          assert agents[..|agents|] == agents;
          assert !DoneIn(files, deps[i], agents);
          return false;
        }
      }
      return true;
    }

    method ProcessBlocked(agent: string)
      modifies this
      ensures files == SweepAll(old(files), agent, Listing(old(files), agent, Blocked), Promoting(config.driven))
    {
      var names := Glob(agent, Blocked);
      ghost var sweep := Promoting(config.driven);
      for i := 0 to |names|
        invariant SweepAll(files, agent, names[i..], sweep) == SweepAll(old(files), agent, names, sweep)
      {
        var p := Path(agent, Blocked, names[i]);
        SweepFrom(files, agent, names, i, sweep);
        if p !in files {
          continue;
        }
        var done := AllDepsDone(files[p].deps, config.driven);
        if files[p].deps == [] || done {
          files := Relocated(files, p, Armed);
        }
      }
    }

    method IsStale(agent: string, clock: Clock) returns (stale: bool)
      ensures stale <==> exists p :: p in Waiting(files, agent) && clock.now - files[p].queuedAt >= clock.idleMin
    {
      var names := Glob(agent, Armed);
      stale := false;
      for i := 0 to |names|
        invariant forall k :: 0 <= k < i ==> clock.now - files[Path(agent, Armed, names[k])].queuedAt < clock.idleMin
      {
        assert names[i] in names;
        if clock.now - files[Path(agent, Armed, names[i])].queuedAt >= clock.idleMin {
          assert Path(agent, Armed, names[i]) in Waiting(files, agent);
          return true;
        }
      }
      forall p | p in Waiting(files, agent) ensures clock.now - files[p].queuedAt < clock.idleMin {
        assert p.name in names;
        assert p == Path(agent, Armed, p.name);
      }
    }

    method ProcessArmed(agent: string, pane: Pane, clock: Clock)
      modifies this
      ensures files == ArmedPass(old(files), agent, pane, clock, config.driven)
    {
      var running := Glob(agent, Running);
      if running != [] {
        assert running[0] in running;
        return;
      }
      assert NoRunning(files, agent) by {
        assert forall p :: p in files && p.agent == agent && p.dir == Running ==> p.name in running;
      }
      if !pane.idle {
        return;
      }
      if pane.inboxAge.Some? && pane.inboxAge.value < clock.idleMin {
        var stale := IsStale(agent, clock);
        if !stale {
          return;
        }
      }
      DispatchArmed(agent, clock.now);
    }

    method DispatchArmed(agent: string, now: int)
      modifies this
      ensures files == DispatchPass(old(files), agent, Listing(old(files), agent, Armed), config.driven, now)
    {
      var names := Glob(agent, Armed);
      for i := 0 to |names|
        invariant DispatchPass(files, agent, names[i..], config.driven, now)
               == DispatchPass(old(files), agent, names, config.driven, now)
      {
        var p := Path(agent, Armed, names[i]);
        if p !in files {
          PassOver(files, agent, names, i, config.driven, now);
          continue;
        }
        var done := AllDepsDone(files[p].deps, config.driven);
        PassFrom(files, agent, names, i, config.driven, now, done);
        if files[p].deps != [] && !done {
          files := Relocated(files, p, Blocked);
          continue;
        }
        files := Dispatched(files, p, now);
        return;
      }
    }

    method ProcessDone(agent: string)
      modifies this
      ensures files == Notified(old(files), agent)
    {
      NotifyIn(agent, Done);
      NotifyIn(agent, Failed);
    }

    method NotifyIn(agent: string, dir: State)
      modifies this
      ensures files == NotifyAll(old(files), agent, dir, Listing(old(files), agent, dir))
    {
      var names := Glob(agent, dir);
      for i := 0 to |names|
        invariant NotifyAll(files, agent, dir, names[i..]) == NotifyAll(old(files), agent, dir, names)
      {
        var p := Path(agent, dir, names[i]);
        assert names[i..][1..] == names[i + 1..];
        if p !in files || files[p].notified {
          continue;
        }
        files := files[p := files[p].(notified := true)];
      }
    }

    method ExpireIn(agent: string, clock: Clock)
      modifies this
      ensures files == SweepAll(old(files), agent, Listing(old(files), agent, Running),
          Expiring(clock.now, clock.limit))
    {
      var names := Glob(agent, Running);
      ghost var sweep := Expiring(clock.now, clock.limit);
      for i := 0 to |names|
        invariant SweepAll(files, agent, names[i..], sweep) == SweepAll(old(files), agent, names, sweep)
      {
        var p := Path(agent, Running, names[i]);
        SweepFrom(files, agent, names, i, sweep);
        if p !in files || files[p].startedAt.None? {
          continue;
        }
        if clock.now - files[p].startedAt.value > clock.limit {
          files := Relocated(files, p, Failed);
        }
      }
    }

    method CheckTimeouts(clock: Clock)
      modifies this
      ensures files == ExpireAll(old(files), config.driven, clock)
    {
      var todo := config.driven;
      while todo != []
        invariant ExpireAll(files, todo, clock) == ExpireAll(old(files), config.driven, clock)
        decreases |todo|
      {
        ExpireIn(todo[0], clock);
        todo := todo[1..];
      }
    }

    method Tick(panes: string -> Pane, clock: Clock)
      modifies this
      ensures files == Ticked(old(files), config.driven, panes, clock)
    {
      var todo := config.driven;
      while todo != []
        invariant AgentsPass(files, todo, panes, clock, config.driven)
               == AgentsPass(old(files), config.driven, panes, clock, config.driven)
        decreases |todo|
      {
        ProcessBlocked(todo[0]);
        ProcessArmed(todo[0], panes(todo[0]), clock);
        ProcessDone(todo[0]);
        todo := todo[1..];
      }
      CheckTimeouts(clock);
    }

    method FindIn(id: string, agent: string, dir: State) returns (r: Option<Path>)
      ensures r.Some? ==> Found(files, r.value, [agent], id)
      ensures r.None? ==> forall p :: Found(files, p, [agent], id) ==> p.dir != dir
    {
      var names := Glob(agent, dir);
      for k := 0 to |names|
        invariant forall p :: Found(files, p, [agent], id) && p.dir == dir ==> p.name !in names[..k]
      {
        assert names[k] in names;
        if Contains(names[k], id) {
          return Some(Path(agent, dir, names[k]));
        }
      }
      assert names[..|names|] == names;
      assert forall p :: Found(files, p, [agent], id) && p.dir == dir ==> p == Path(agent, dir, p.name);
      return None;
    }

    method FindTicket(id: string, agents: seq<string>) returns (r: Option<Path>)
      ensures r.Some? ==> Found(files, r.value, agents, id)
      ensures r.None? ==> forall p :: !Found(files, p, agents, id)
    {
      for i := 0 to |agents|
        invariant forall p :: Found(files, p, agents, id) ==> p.agent !in agents[..i]
      {
        for j := 0 to |STATES|
          invariant forall p :: Found(files, p, [agents[i]], id) ==> p.dir !in STATES[..j]
        {
          r := FindIn(id, agents[i], STATES[j]);
          if r.Some? {
            return;
          }
        }
        assert STATES[..|STATES|] == STATES;
        AllStates();
        assert forall p :: Found(files, p, agents, id) && p.agent == agents[i] ==> Found(files, p, [agents[i]], id);
      }
      assert agents[..|agents|] == agents;
      return None;
    }

    method CreateTicket(to: string, id: string, mode: State, prompt: string, deps: seq<string>,
        now: int) returns (ok: bool)
      modifies this
      ensures ok <==> to in config.api
      ensures files == Apply(old(files), Create(to, id, mode, prompt, deps, now), config)
    {
      ok := to in config.api;
      if ok {
        var initial := mode;
        if mode == Armed && deps != [] {
          var done := AllDepsDone(deps, config.api);
          if !done {
            initial := Blocked;
          }
        }
        var name := Plain(id);
        if initial == Queued {
          var queue := Glob(to, Queued);
          name := NextPrefix(queue) + "-" + Plain(id);
        }
        files := files[Path(to, initial, name) := Ticket(id, to, initial, mode, prompt, deps, now, None, false)];
      }
    }

    method PatchTicket(agent: string, id: string, patch: Patch) returns (r: Reply)
      requires Inv(files)
      modifies this
      ensures r == Asked(old(files), agent, id)
      ensures r == Accepted ==>
          exists p :: HasTicket(old(files), p, agent, id) && files == Patched(old(files), p, patch, config.api)
      ensures r != Accepted ==> files == old(files)
      ensures Inv(files) && KeepsFinal(old(files), files)
    {
      if !ValidId(id) {
        return Malformed;
      }
      var found := FindTicket(id, [agent]);
      if found.None? {
        NotFoundMeansAbsent(files, agent, id);
        return Missing;
      }
      var p := found.value;
      FoundIsTheTicket(files, p, [agent], id);
      ReplyFor(files, p, agent, id);
      var t := files[p];
      if Started(t.status) {
        return Refused;
      }
      PatchKeepsInv(files, p, patch, config.api);
      r := Accepted;
      if patch.prompt.Some? {
        t := t.(prompt := patch.prompt.value);
      }
      if patch.mode.Some? {
        var s := t.status;
        if patch.mode.value == Draft {
          s := Draft;
        } else if patch.mode.value == Armed {
          var done := AllDepsDone(t.deps, config.api);
          s := if t.deps != [] && !done then Blocked else Armed;
        }
        files := Shift(files, p, p.(dir := s), t.(mode := patch.mode.value, status := s));
      } else if patch.position.Some? && t.status == Queued {
        var name := Prefix(patch.position.value) + "-" + Unprefixed(p.name);
        files := Shift(files, p, p.(dir := Queued, name := name), t);
      } else {
        files := files[p := t];
      }
    }

    method DeleteTicket(agent: string, id: string) returns (r: Reply)
      requires Inv(files)
      modifies this
      ensures r == if AskedToStop(old(files), agent, id) then Accepted else Asked(old(files), agent, id)
      ensures r == Accepted ==> exists p :: HasTicket(old(files), p, agent, id) && files == Deleted(old(files), p)
      ensures r != Accepted ==> files == old(files)
      ensures Inv(files) && KeepsFinal(old(files), files)
    {
      if !ValidId(id) {
        return Malformed;
      }
      var found := FindTicket(id, [agent]);
      if found.None? {
        NotFoundMeansAbsent(files, agent, id);
        return Missing;
      }
      var p := found.value;
      FoundIsTheTicket(files, p, [agent], id);
      ReplyFor(files, p, agent, id);
      DeleteKeepsInv(files, p);
      if files[p].status == Running {
        files := Shift(files, p, p.(dir := Cancelled), files[p].(status := Cancelled));
        return Accepted;
      }
      if Started(files[p].status) {
        return Refused;
      }
      files := files - {p};
      return Accepted;
    }

    method CloseIn(agent: string, id: string, failed: bool) returns (ok: bool)
      modifies this
      ensures ok <==> exists p :: Closes(old(files), p, [agent], id)
      ensures ok ==> exists p :: Closes(old(files), p, [agent], id) && files == Closed(old(files), p, failed)
                       && FiledUnder(old(files), files, p, if failed then Failed else Done)
      ensures !ok ==> files == old(files)
    {
      var names := Glob(agent, Running);
      for k := 0 to |names|
        invariant files == old(files) && forall p :: Closes(files, p, [agent], id) ==> p.name !in names[..k]
      {
        var p := Path(agent, Running, names[k]);
        assert names[k] in names;
        if files[p].id == id || names[k] == Plain(id) {
          assert Closes(files, p, [agent], id);
          ClosedIsFiled(files, p, failed);
          files := Closed(files, p, failed);
          return true;
        }
      }
      assert names[..|names|] == names;
      assert forall p :: Closes(files, p, [agent], id) ==> p == Path(agent, Running, p.name);
      return false;
    }

    method CompleteTicket(id: string, failed: bool) returns (ok: bool)
      modifies this
      ensures ok <==> exists p :: Closes(old(files), p, config.closers, id)
      ensures ok ==> exists p :: Closes(old(files), p, config.closers, id) && files == Closed(old(files), p, failed)
                       && FiledUnder(old(files), files, p, if failed then Failed else Done)
      ensures !ok ==> files == old(files)
    {
      var agents := Sort(config.closers);
      for i := 0 to |agents|
        invariant files == old(files) && forall p :: Closes(files, p, agents, id) ==> p.agent !in agents[..i]
      {
        assert agents[i] in agents;
        ok := CloseIn(agents[i], id, failed);
        if ok {
          assert forall p :: Closes(old(files), p, [agents[i]], id) ==> Closes(old(files), p, config.closers, id);
          return;
        }
        assert forall p :: Closes(files, p, agents, id) && p.agent == agents[i] ==> Closes(files, p, [agents[i]], id);
      }
      assert agents[..|agents|] == agents;
      return false;
    }
  }
}
