/** What counts as unread: the per-sender cursor, and how a session start moves it. */
module ReadCursor {
  import opened Order

  const MAX_INJECTED := 10

  /** A missing sender reads as the empty name. */
  datatype Msg = Msg(sender: string, ts: string, id: string, acked: bool)

  /** The newest read timestamp, and the ids read at it. An older format kept a single id instead. */
  datatype Cursor = Cursor(ts: string, id: Option<string>, idsAtTs: Option<seq<string>>)

  type Cursors = map<string, Cursor>

  function SeenIds(c: Cursor): seq<string>
  {
    if c.idsAtTs.Some? then c.idsAtTs.value else if c.id.Some? then [c.id.value] else []
  }

  predicate IsAfter(m: Msg, cs: Cursors)
  {
    m.sender !in cs ||
      var c := cs[m.sender];
      Less(c.ts, m.ts) || (!Less(m.ts, c.ts) && m.id !in SeenIds(c))
  }

  predicate IsUnread(m: Msg, cs: Cursors) { !m.acked && IsAfter(m, cs) }

  function Unread(inbox: seq<Msg>, cs: Cursors): (r: seq<Msg>)
    ensures forall m :: m in r <==> m in inbox && IsUnread(m, cs)
  {
    if inbox == [] then []
    else Unread(inbox[..|inbox| - 1], cs) + if IsUnread(inbox[|inbox| - 1], cs) then [inbox[|inbox| - 1]] else []
  }

  function Include(ids: seq<string>, id: string): seq<string> { if id in ids then ids else ids + [id] }

  function AdvanceOne(cs: Cursors, m: Msg): Cursors
  {
    if m.sender == "" then cs
    else if m.sender in cs && cs[m.sender].ts == m.ts then
      var ids := if cs[m.sender].idsAtTs.Some? then cs[m.sender].idsAtTs.value else [];
      cs[m.sender := cs[m.sender].(idsAtTs := Some(Include(ids, m.id)))]
    else if m.sender !in cs || Less(cs[m.sender].ts, m.ts) then cs[m.sender := Cursor(m.ts, Some(m.id), Some([m.id]))]
    else cs
  }

  function Advance(cs: Cursors, msgs: seq<Msg>): Cursors
  {
    if msgs == [] then cs else AdvanceOne(Advance(cs, msgs[..|msgs| - 1]), msgs[|msgs| - 1])
  }

  /** What a session start shows, and the cursors it leaves. */
  function SessionStart(inbox: seq<Msg>, cs: Cursors): (seq<Msg>, Cursors)
  {
    var unread := Unread(inbox, cs);
    (if |unread| > MAX_INJECTED then unread[..MAX_INJECTED] else unread, Advance(cs, unread))
  }

  // ---- nothing handed over comes back ---------------------------------------

  /** The cursor is past `m`, or at its timestamp with its id on record. */
  ghost predicate Covered(m: Msg, cs: Cursors)
  {
    m.sender in cs &&
      var c := cs[m.sender];
      Less(m.ts, c.ts) || (c.ts == m.ts && c.idsAtTs.Some? && m.id in c.idsAtTs.value)
  }

  lemma CoveredIsRead(m: Msg, cs: Cursors)
    requires Covered(m, cs)
    ensures !IsAfter(m, cs)
  {
    LessTrichotomy(m.ts, cs[m.sender].ts);
  }

  lemma AdvanceOneCovers(cs: Cursors, m: Msg, x: Msg)
    requires x.sender != "" && (x == m || Covered(x, cs))
    ensures Covered(x, AdvanceOne(cs, m))
  {
    if m.sender in cs {
      LessTrichotomy(cs[m.sender].ts, m.ts);
      if x.sender == m.sender && Less(x.ts, cs[m.sender].ts) && Less(cs[m.sender].ts, m.ts) {
        LessTransitive(x.ts, cs[m.sender].ts, m.ts);
      }
    }
  }

  lemma {:induction false} AdvanceCovers(cs: Cursors, msgs: seq<Msg>)
    ensures forall x :: x in msgs && x.sender != "" ==> Covered(x, Advance(cs, msgs))
  {
    if msgs != [] {
      var front, m := msgs[..|msgs| - 1], msgs[|msgs| - 1];
      AdvanceCovers(cs, front);
      forall x | x in msgs && x.sender != "" ensures Covered(x, Advance(cs, msgs)) {
        assert x == m || x in front;
        AdvanceOneCovers(Advance(cs, front), m, x);
      }
    }
  }

  lemma {:induction false} SenderlessUntouched(cs: Cursors, msgs: seq<Msg>)
    ensures "" in Advance(cs, msgs) <==> "" in cs
    ensures "" in cs ==> Advance(cs, msgs)[""] == cs[""]
  {
    if msgs != [] {
      SenderlessUntouched(cs, msgs[..|msgs| - 1]);
    }
  }

  /** After a session start, a message it found unread is unread again exactly when it names no sender. */
  lemma HandedOverOnce(inbox: seq<Msg>, cs: Cursors, m: Msg)
    requires m in Unread(inbox, cs)
    ensures IsUnread(m, SessionStart(inbox, cs).1) <==> m.sender == ""
  {
    AdvanceCovers(cs, Unread(inbox, cs));
    SenderlessUntouched(cs, Unread(inbox, cs));
    if m.sender != "" {
      CoveredIsRead(m, Advance(cs, Unread(inbox, cs)));
    }
  }

  /** Beyond the first MAX_INJECTED, messages are marked read without having been shown. */
  lemma OverflowIsReadUnseen(inbox: seq<Msg>, cs: Cursors, i: nat)
    requires MAX_INJECTED <= i < |Unread(inbox, cs)| && Distinct(inbox) && Unread(inbox, cs)[i].sender != ""
    ensures var (shown, cs') := SessionStart(inbox, cs);
            Unread(inbox, cs)[i] !in shown && !IsUnread(Unread(inbox, cs)[i], cs')
  {
    var unread := Unread(inbox, cs);
    assert unread[i] in unread;
    HandedOverOnce(inbox, cs, unread[i]);
    UnreadDistinct(inbox, cs);
  }

  lemma {:induction false} UnreadDistinct(inbox: seq<Msg>, cs: Cursors)
    requires Distinct(inbox)
    ensures Distinct(Unread(inbox, cs))
  {
    if inbox != [] {
      var front, last := inbox[..|inbox| - 1], inbox[|inbox| - 1];
      UnreadDistinct(front, cs);
      assert last !in front;
      assert last !in Unread(front, cs);
    }
  }

  // ---- what is shown --------------------------------------------------------

  /** How many of the messages are unread. */
  function CountUnread(inbox: seq<Msg>, cs: Cursors): nat
  {
    if inbox == [] then 0
    else CountUnread(inbox[..|inbox| - 1], cs) + if IsUnread(inbox[|inbox| - 1], cs) then 1 else 0
  }

  /** The unread of a longer inbox begin with those of a shorter one. */
  lemma {:induction false} UnreadGrow(inbox: seq<Msg>, cs: Cursors, i: nat)
    requires i <= |inbox|
    ensures Unread(inbox[..i], cs) <= Unread(inbox, cs)
  {
    if i == |inbox| {
      assert inbox[..i] == inbox;
    } else {
      UnreadGrow(inbox[..|inbox| - 1], cs, i);
      assert inbox[..|inbox| - 1][..i] == inbox[..i];
    }
  }

  lemma UnreadInOrder(inbox: seq<Msg>, cs: Cursors, i: nat)
    requires i < |inbox| && IsUnread(inbox[i], cs)
    ensures |Unread(inbox, cs)| == CountUnread(inbox, cs)
    ensures CountUnread(inbox[..i], cs) < |Unread(inbox, cs)|
    ensures Unread(inbox, cs)[CountUnread(inbox[..i], cs)] == inbox[i]
  {
    UnreadAreCounted(inbox, cs);
    UnreadAreCounted(inbox[..i], cs);
    UnreadGrow(inbox, cs, i + 1);
    assert inbox[..i + 1][..i] == inbox[..i];
    assert Unread(inbox[..i + 1], cs) == Unread(inbox[..i], cs) + [inbox[i]];
  }

  lemma {:induction false} UnreadAreCounted(inbox: seq<Msg>, cs: Cursors)
    ensures |Unread(inbox, cs)| == CountUnread(inbox, cs)
  {
    if inbox != [] { UnreadAreCounted(inbox[..|inbox| - 1], cs); }
  }

  /** A session start shows the first ten unread messages, or all there are, each in its place in inbox order. */
  lemma FirstTenAreShown(inbox: seq<Msg>, cs: Cursors, i: nat)
    requires i < |inbox| && IsUnread(inbox[i], cs)
    ensures var shown, rank := SessionStart(inbox, cs).0, CountUnread(inbox[..i], cs);
            && |shown| == (if CountUnread(inbox, cs) < 10 then CountUnread(inbox, cs) else 10)
            && (rank < 10 ==> rank < |shown| && shown[rank] == inbox[i])
  {
    UnreadInOrder(inbox, cs, i);
  }

  /** Nothing acked is shown, nor anything from before what its sender's cursor has read. */
  lemma OnlyUnreadAreShown(inbox: seq<Msg>, cs: Cursors, m: Msg)
    requires m in SessionStart(inbox, cs).0
    ensures m in inbox && !m.acked && (m.sender in cs ==> !Less(m.ts, cs[m.sender].ts) && m.id !in SeenAt(m, cs))
  {
    assert m in Unread(inbox, cs);
    if m.sender in cs { LessTrichotomy(m.ts, cs[m.sender].ts); }
  }

  /** The ids on record for a message's sender at its own timestamp. */
  function SeenAt(m: Msg, cs: Cursors): seq<string>
  {
    if m.sender in cs && cs[m.sender].ts == m.ts then SeenIds(cs[m.sender]) else []
  }

  // ---- where the cursors end up ---------------------------------------------

  predicate Recorded(c: Cursor, id: string) { c.idsAtTs.Some? && id in c.idsAtTs.value }

  ghost predicate From(m: Msg, msgs: seq<Msg>, s: string) { m in msgs && m.sender == s }

  /** The cursor of `s` is at the newest timestamp read, with exactly the ids read at it. */
  ghost predicate Newest(c: Cursor, was: Option<Cursor>, msgs: seq<Msg>, s: string)
  {
    && (was.Some? ==> !Less(c.ts, was.value.ts)) && (forall m :: From(m, msgs, s) ==> !Less(c.ts, m.ts))
    && ((was.Some? && c.ts == was.value.ts) || exists m :: From(m, msgs, s) && m.ts == c.ts)
    && forall id :: Recorded(c, id) <==>
         || (was.Some? && c.ts == was.value.ts && Recorded(was.value, id))
         || exists m :: From(m, msgs, s) && m.ts == c.ts && m.id == id
  }

  lemma FromSnoc(front: seq<Msg>, m: Msg, s: string)
    ensures forall x :: From(x, front + [m], s) <==> From(x, front, s) || (x == m && m.sender == s)
  {
  }

  lemma NewestStays(c: Cursor, was: Option<Cursor>, front: seq<Msg>, m: Msg, s: string)
    requires Newest(c, was, front, s) && (m.sender == s ==> Less(m.ts, c.ts))
    ensures Newest(c, was, front + [m], s)
  {
    FromSnoc(front, m, s);
    LessTrichotomy(m.ts, c.ts);
  }

  lemma NewestAtSame(c: Cursor, c': Cursor, was: Option<Cursor>, front: seq<Msg>, m: Msg, s: string)
    requires Newest(c, was, front, s) && m.sender == s && m.ts == c.ts == c'.ts
    requires forall id :: Recorded(c', id) <==> Recorded(c, id) || id == m.id
    ensures Newest(c', was, front + [m], s)
  {
    FromSnoc(front, m, s);
    LessTrichotomy(m.ts, c.ts);
  }

  lemma NewestMovesOn(c: Cursor, c': Cursor, was: Option<Cursor>, front: seq<Msg>, m: Msg, s: string)
    requires Newest(c, was, front, s) && m.sender == s && Less(c.ts, m.ts) && c'.ts == m.ts
    requires forall id :: Recorded(c', id) <==> id == m.id
    ensures Newest(c', was, front + [m], s)
  {
    FromSnoc(front, m, s);
    forall ts | !Less(c.ts, ts) ensures !Less(c'.ts, ts) && ts != c'.ts {
      LessTrichotomy(c.ts, ts);
      LessTrichotomy(c'.ts, ts);
      if Less(ts, c.ts) { LessTransitive(ts, c.ts, c'.ts); }
    }
    LessTrichotomy(c'.ts, c'.ts);
  }

  /** What the cursors `cs'` say of `s` once `msgs` are read on top of `cs`. */
  ghost predicate CursorFits(cs': Cursors, cs: Cursors, msgs: seq<Msg>, s: string)
  {
    && (s in cs' <==> s in cs || exists m :: From(m, msgs, s))
    && (s in cs' ==> Newest(cs'[s], if s in cs then Some(cs[s]) else None, msgs, s))
  }

  lemma OneMoreRead(before: Cursors, cs: Cursors, front: seq<Msg>, m: Msg, s: string)
    requires s != "" && CursorFits(before, cs, front, s)
    ensures CursorFits(AdvanceOne(before, m), cs, front + [m], s)
  {
    var was, after := if s in cs then Some(cs[s]) else None, AdvanceOne(before, m);
    FromSnoc(front, m, s);
    if s !in before {
      if m.sender == s { FirstFromSender(after[s], front, m, s); }
    } else {
      LessTrichotomy(before[s].ts, m.ts);
      if m.sender == s && before[s].ts == m.ts {
        NewestAtSame(before[s], after[s], was, front, m, s);
      } else if m.sender == s && Less(before[s].ts, m.ts) {
        NewestMovesOn(before[s], after[s], was, front, m, s);
      } else {
        NewestStays(before[s], was, front, m, s);
      }
    }
  }

  /** Every sender heard of has a cursor, at the newest timestamp read from it, with exactly the ids read at it. */
  lemma {:induction false} CursorsAreNewest(cs: Cursors, msgs: seq<Msg>, s: string)
    requires s != ""
    ensures CursorFits(Advance(cs, msgs), cs, msgs, s)
  {
    if msgs == [] {
      if s in cs { LessTrichotomy(cs[s].ts, cs[s].ts); }
    } else {
      var front, m := msgs[..|msgs| - 1], msgs[|msgs| - 1];
      CursorsAreNewest(cs, front, s);
      OneMoreRead(Advance(cs, front), cs, front, m, s);
      assert msgs == front + [m];
    }
  }

  lemma FirstFromSender(c: Cursor, front: seq<Msg>, m: Msg, s: string)
    requires m.sender == s && c.ts == m.ts && c.idsAtTs == Some([m.id]) && forall x :: !From(x, front, s)
    ensures Newest(c, None, front + [m], s)
  {
    FromSnoc(front, m, s);
    LessTrichotomy(m.ts, m.ts);
  }

  // ---- what was read stays read ---------------------------------------------

  ghost predicate Modern(cs: Cursors) { forall s :: s in cs ==> cs[s].idsAtTs.Some? }

  lemma AdvanceOneKeepsRead(cs: Cursors, m: Msg, x: Msg)
    requires Modern(cs) && !IsAfter(x, cs)
    ensures Modern(AdvanceOne(cs, m)) && !IsAfter(x, AdvanceOne(cs, m))
  {
    var c := cs[x.sender];
    LessTrichotomy(c.ts, x.ts);
    LessTrichotomy(c.ts, m.ts);
    if x.sender == m.sender && Less(c.ts, m.ts) {
      if Less(x.ts, c.ts) { LessTransitive(x.ts, c.ts, m.ts); }
      LessTrichotomy(x.ts, m.ts);
    }
  }

  /** With cursors that carry `ids_at_ts`, a session start never makes a read message unread. */
  lemma {:induction false} ReadStaysRead(cs: Cursors, msgs: seq<Msg>, x: Msg)
    requires Modern(cs) && !IsAfter(x, cs)
    ensures Modern(Advance(cs, msgs)) && !IsAfter(x, Advance(cs, msgs))
  {
    if msgs != [] {
      ReadStaysRead(cs, msgs[..|msgs| - 1], x);
      AdvanceOneKeepsRead(Advance(cs, msgs[..|msgs| - 1]), msgs[|msgs| - 1], x);
    }
  }

  ghost predicate HasAt(msgs: seq<Msg>, sender: string, ts: string)
  {
    exists i :: 0 <= i < |msgs| && msgs[i].sender == sender && msgs[i].ts == ts
  }

  ghost predicate HasLater(msgs: seq<Msg>, sender: string, ts: string)
  {
    exists i :: 0 <= i < |msgs| && msgs[i].sender == sender && Less(ts, msgs[i].ts)
  }

  /** The state of a cursor that started in the older format at `ts` with `id`. */
  ghost predicate FromLegacy(c: Cursor, ts: string, id: string, msgs: seq<Msg>, sender: string)
  {
    if HasLater(msgs, sender, ts) then Less(ts, c.ts)
    else
      && c.ts == ts && c.id == Some(id) && (c.idsAtTs.Some? <==> HasAt(msgs, sender, ts))
      && (c.idsAtTs.Some? ==> id !in c.idsAtTs.value)
  }

  lemma HasSnoc(msgs: seq<Msg>, m: Msg, sender: string, ts: string)
    ensures HasAt(msgs + [m], sender, ts) <==> HasAt(msgs, sender, ts) || (m.sender == sender && m.ts == ts)
    ensures HasLater(msgs + [m], sender, ts) <==> HasLater(msgs, sender, ts) || (m.sender == sender && Less(ts, m.ts))
  {
    var all := msgs + [m];
    assert all[|msgs|] == m && forall i :: 0 <= i < |msgs| ==> all[i] == msgs[i];
  }

  lemma {:induction false} LegacyCursor(cs: Cursors, msgs: seq<Msg>, sender: string, ts: string, id: string)
    requires sender != "" && sender in cs && cs[sender] == Cursor(ts, Some(id), None)
    requires forall m :: m in msgs && m.sender == sender && m.ts == ts ==> m.id != id
    ensures sender in Advance(cs, msgs) && FromLegacy(Advance(cs, msgs)[sender], ts, id, msgs, sender)
  {
    if msgs != [] {
      var front, m := msgs[..|msgs| - 1], msgs[|msgs| - 1];
      LegacyCursor(cs, front, sender, ts, id);
      assert msgs == front + [m];
      HasSnoc(front, m, sender, ts);
      var c := Advance(cs, front)[sender];
      LessTrichotomy(c.ts, m.ts);
      LessTrichotomy(ts, m.ts);
      if Less(ts, c.ts) && Less(c.ts, m.ts) { LessTransitive(ts, c.ts, m.ts); }
    }
  }

  /** A cursor in the older format forgets its own message exactly when the list ends at the same timestamp. */
  lemma LegacyForgetsExactlyWhen(cs: Cursors, msgs: seq<Msg>, x: Msg)
    requires x.sender != "" && x.sender in cs && cs[x.sender] == Cursor(x.ts, Some(x.id), None)
    requires forall m :: m in msgs ==> IsAfter(m, cs)
    ensures IsAfter(x, Advance(cs, msgs)) <==> HasAt(msgs, x.sender, x.ts) && !HasLater(msgs, x.sender, x.ts)
  {
    LessTrichotomy(x.ts, x.ts);
    LegacyCursor(cs, msgs, x.sender, x.ts, x.id);
    LessTrichotomy(x.ts, Advance(cs, msgs)[x.sender].ts);
  }

  // ---- what is new stays new ------------------------------------------------

  lemma {:induction false} SeenIdsComeFromReading(cs: Cursors, msgs: seq<Msg>, sender: string, id: string)
    requires sender in Advance(cs, msgs) && id in SeenIds(Advance(cs, msgs)[sender])
    ensures (sender in cs && id in SeenIds(cs[sender])) || exists m :: m in msgs && m.sender == sender && m.id == id
  {
    if msgs != [] {
      var front, m := msgs[..|msgs| - 1], msgs[|msgs| - 1];
      assert msgs == front + [m];
      if !(m.sender == sender && m.id == id) {
        SeenIdsComeFromReading(cs, front, sender, id);
      } else {
        assert m in msgs;
      }
    }
  }

  /** A later message with a new id, not before its sender's cursor, is unread. */
  lemma NewStaysUnread(cs: Cursors, msgs: seq<Msg>, x: Msg)
    requires !x.acked && (x.sender in Advance(cs, msgs) ==> !Less(x.ts, Advance(cs, msgs)[x.sender].ts))
    requires x.sender in cs ==> x.id !in SeenIds(cs[x.sender])
    requires forall m :: m in msgs && m.sender == x.sender ==> m.id != x.id
    ensures IsUnread(x, Advance(cs, msgs))
  {
    if x.sender in Advance(cs, msgs) && x.id in SeenIds(Advance(cs, msgs)[x.sender]) {
      SeenIdsComeFromReading(cs, msgs, x.sender, x.id);
      assert false;
    }
  }

  // ---- the hook as the code runs it -----------------------------------------

  class AgentState {
    var lastRead: Cursors

    constructor (lastRead: Cursors)
      ensures this.lastRead == lastRead
    {
      this.lastRead := lastRead;
    }

    method AdvanceCursor(msgs: seq<Msg>)
      modifies this
      ensures lastRead == Advance(old(lastRead), msgs)
    {
      for i := 0 to |msgs|
        invariant lastRead == Advance(old(lastRead), msgs[..i])
      {
        assert msgs[..i + 1][..i] == msgs[..i];
        var m := msgs[i];
        if m.sender == "" {
          continue;
        }
        if m.sender in lastRead && lastRead[m.sender].ts == m.ts {
          var ids := if lastRead[m.sender].idsAtTs.Some? then lastRead[m.sender].idsAtTs.value else [];
          if m.id !in ids {
            ids := ids + [m.id];
          }
          lastRead := lastRead[m.sender := lastRead[m.sender].(idsAtTs := Some(ids))];
        } else if m.sender !in lastRead || Less(lastRead[m.sender].ts, m.ts) {
          lastRead := lastRead[m.sender := Cursor(m.ts, Some(m.id), Some([m.id]))];
        }
      }
      assert msgs[..|msgs|] == msgs;
    }

    method OnSessionStart(inbox: seq<Msg>) returns (shown: seq<Msg>)
      modifies this
      ensures (shown, lastRead) == SessionStart(inbox, old(lastRead))
    {
      var unread := Unread(inbox, lastRead);
      shown := if |unread| > MAX_INJECTED then unread[..MAX_INJECTED] else unread;
      if unread != [] {
        AdvanceCursor(unread);
      }
    }
  }
}
