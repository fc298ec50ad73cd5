/** Direction Matrix to mesh: walking a room's history backwards to what was already relayed. */
module Backfill {
  import opened Order

  type EventId = string

  /** A pagination token: the position in the room's history it continues from. */
  type Token = nat

  /** One answer of `/messages?dir=b`: newest event first, and where the next page would start; or an error's text. */
  datatype Page = Failed(why: string) | Chunk(events: seq<EventId>, end: Option<Token>)

  datatype Gap = Closed | NoMarker | ServerStopped | TooWide | HistoryEnded

  // ---- the walk -------------------------------------------------------------

  /** Reads one page until the marker: what is new, and whether the marker was met. */
  function Collect(events: seq<EventId>, known: EventId, seen: set<EventId>): (seq<EventId>, bool)
  {
    if events == [] then ([], false)
    else if events[0] == known then ([], true)
    else
      var (rest, met) := Collect(events[1..], known, seen);
      (if events[0] in seen then rest else [events[0]] + rest, met)
  }

  /** What the paging loop has when it stops; `recovered` is newest first. */
  datatype Walked = Walked(recovered: seq<EventId>, closed: bool, failed: bool, pages: nat)

  function Walk(fetch: Token -> Page, known: EventId, seen: set<EventId>, token: Option<Token>, maxPages: nat,
      w: Walked): Walked
    requires w.pages <= maxPages
    ensures Walk(fetch, known, seen, token, maxPages, w).pages <= maxPages
    decreases maxPages - w.pages
  {
    if token.None? || w.pages >= maxPages then w
    else
      match fetch(token.value)
      case Failed(why) => w.(failed := why != "", pages := w.pages + 1)
      case Chunk(events, end) =>
        if events == [] then w.(pages := w.pages + 1)
        else
          var (news, met) := Collect(events, known, seen);
          var w' := w.(recovered := w.recovered + news, pages := w.pages + 1);
          if met then w'.(closed := true) else Walk(fetch, known, seen, end, maxPages, w')
  }

  function Reverse(s: seq<EventId>): seq<EventId>
  {
    if s == [] then [] else Reverse(s[1..]) + [s[0]]
  }

  function GapOf(w: Walked, maxPages: nat): Gap
  {
    if w.closed then Closed
    else if w.failed then ServerStopped
    else if w.pages >= maxPages then TooWide
    else HistoryEnded
  }

  function Set(s: seq<EventId>): set<EventId> { set e | e in s }

  /** The events to relay for a truncated sync, oldest first, and the gap to report. */
  function Recover(fetch: Token -> Page, known: Option<EventId>, prevBatch: Option<Token>, tail: seq<EventId>,
      maxPages: nat)
    : (seq<EventId>, Gap)
  {
    if known.None? || prevBatch.None? then (tail, NoMarker)
    else
      var w := Walk(fetch, known.value, Set(tail), prevBatch, maxPages, Walked([], false, false, 0));
      var gap := GapOf(w, maxPages);
      (if gap == HistoryEnded then tail else Reverse(w.recovered) + tail, gap)
  }

  // ---- a server whose pages are contiguous ----------------------------------

  /** The events of `h` from position `p` back to position `a`, newest first. */
  function Down(h: seq<EventId>, a: nat, p: nat): seq<EventId>
    requires p <= |h|
  {
    if p <= a then [] else [h[p - 1]] + Down(h, a, p - 1)
  }

  ghost predicate PageFrom(h: seq<EventId>, p: Token, page: Page, a: nat)
    requires p <= |h|
  {
    page.Chunk? ==> a <= p && page.events == Down(h, a, p) && (page.end == Some(a) || page.end == None)
  }

  /** Every page ends where it says the next one starts. */
  ghost predicate Contiguous(h: seq<EventId>, fetch: Token -> Page)
  {
    forall p: Token :: p <= |h| ==> exists a: nat :: PageFrom(h, p, fetch(p), a)
  }

  lemma {:induction false} ReverseDown(h: seq<EventId>, a: nat, p: nat)
    requires a <= p <= |h|
    ensures Reverse(Down(h, a, p)) == h[a..p]
  {
    if a < p {
      ReverseDown(h, a, p - 1);
      assert Down(h, a, p)[1..] == Down(h, a, p - 1);
    }
  }

  lemma {:induction false} DownSplit(h: seq<EventId>, a: nat, b: nat, p: nat)
    requires a <= b <= p <= |h|
    ensures Down(h, b, p) + Down(h, a, b) == Down(h, a, p)
  {
    if b < p {
      DownSplit(h, a, b, p - 1);
    }
  }

  function Min(a: nat, b: nat): nat { if a < b then a else b }

  /** One page read against the marker at `m` and a tail that starts at `k`. */
  lemma {:induction false} CollectPage(h: seq<EventId>, m: nat, k: nat, a: nat, p: nat)
    requires Distinct(h) && m < k <= |h| && m < p <= |h| && a <= p
    ensures Collect(Down(h, a, p), h[m], Set(h[k..]))
         == (if m >= a then (Down(h, m + 1, Min(p, k)), true) else (Down(h, a, Min(p, k)), false))
  {
    if a < p {
      var events := Down(h, a, p);
      assert events[0] == h[p - 1] && events[1..] == Down(h, a, p - 1);
      if p - 1 != m {
        CollectPage(h, m, k, a, p - 1);
        TailMembers(h, k, p - 1);
      }
    }
  }

  lemma TailMembers(h: seq<EventId>, k: nat, i: nat)
    requires Distinct(h) && k <= |h| && i < |h|
    ensures h[i] in Set(h[k..]) <==> i >= k
  {
    if i >= k { assert h[k..][i - k] == h[i]; }
  }

  lemma WalkTurn(fetch: Token -> Page, known: EventId, seen: set<EventId>, b: Token, maxPages: nat, w: Walked,
      news: seq<EventId>, met: bool)
    requires w.pages < maxPages && fetch(b).Chunk? && fetch(b).events != []
        && Collect(fetch(b).events, known, seen) == (news, met)
    ensures Walk(fetch, known, seen, Some(b), maxPages, w)
         == (if met then w.(recovered := w.recovered + news, pages := w.pages + 1, closed := true)
             else Walk(fetch, known, seen, fetch(b).end, maxPages,
                 w.(recovered := w.recovered + news, pages := w.pages + 1)))
  {
  }

  lemma WalkStops(fetch: Token -> Page, known: EventId, seen: set<EventId>, token: Option<Token>, maxPages: nat,
      w: Walked)
    requires w.pages <= maxPages
    requires token.Some? && w.pages < maxPages && fetch(token.value).Chunk? ==> fetch(token.value).events == []
    ensures var r := Walk(fetch, known, seen, token, maxPages, w); r.recovered == w.recovered && r.closed == w.closed
  {
  }

  lemma PageExtends(h: seq<EventId>, m: nat, k: nat, a: nat, b: nat, recovered: seq<EventId>)
    requires Distinct(h) && m < k <= |h| && m < b <= |h| && a <= b && recovered == Down(h, Min(b, k), k)
    ensures var (news, met) := Collect(Down(h, a, b), h[m], Set(h[k..]));
            met == (m >= a) && recovered + news == Down(h, if m >= a then m + 1 else Min(a, k), k)
  {
    CollectPage(h, m, k, a, b);
    if m >= a {
      DownSplit(h, m + 1, Min(b, k), k);
    } else if a <= Min(b, k) {
      DownSplit(h, a, Min(b, k), k);
    }
  }

  /** Wherever the walk stops, it holds the events just before the tail, back to some point after the marker. */
  lemma {:induction false} WalkIsSuffix(
    h: seq<EventId>, fetch: Token -> Page, m: nat, k: nat, token: Option<Token>, maxPages: nat, w: Walked, b: nat)
    returns (j: nat)
    requires Distinct(h) && m < k <= |h| && Contiguous(h, fetch) && w.pages <= maxPages
    requires b <= |h| && m < b && w.recovered == Down(h, Min(b, k), k) && !w.closed
    requires token == None || token == Some(b)
    ensures var r := Walk(fetch, h[m], Set(h[k..]), token, maxPages, w);
            && m < j <= k && r.recovered == Down(h, j, k)
            && (r.closed ==> j == m + 1)
    decreases maxPages - w.pages
  {
    j := Min(b, k);
    if token.Some? && w.pages < maxPages && fetch(b).Chunk? && fetch(b).events != [] {
      var a: nat :| PageFrom(h, b, fetch(b), a);
      PageExtends(h, m, k, a, b, w.recovered);
      var (news, met) := Collect(fetch(b).events, h[m], Set(h[k..]));
      WalkTurn(fetch, h[m], Set(h[k..]), b, maxPages, w, news, met);
      if m >= a {
        j := m + 1;
      } else {
        j := WalkIsSuffix(h, fetch, m, k, fetch(b).end, maxPages,
            w.(recovered := w.recovered + news, pages := w.pages + 1), a);
      }
    } else {
      WalkStops(fetch, h[m], Set(h[k..]), token, maxPages, w);
    }
  }

  /** With the marker in the history, the result is a contiguous suffix after it: all of it when the walk met it. */
  lemma RecoveredIsSuffix(h: seq<EventId>, fetch: Token -> Page, m: nat, k: nat, prevBatch: Token, maxPages: nat)
    requires Distinct(h) && m < k <= prevBatch <= |h| && Contiguous(h, fetch)
    ensures var (events, gap) := Recover(fetch, Some(h[m]), Some(prevBatch), h[k..], maxPages);
            && (exists j :: m < j <= k && events == h[j..])
            && (gap == Closed ==> events == h[m + 1..])
  {
    var j := WalkIsSuffix(h, fetch, m, k, Some(prevBatch), maxPages, Walked([], false, false, 0), prevBatch);
    ReverseDown(h, j, k);
    assert h[j..k] + h[k..] == h[j..];
    var (events, gap) := Recover(fetch, Some(h[m]), Some(prevBatch), h[k..], maxPages);
    assert events == h[j..] || events == h[k..];
  }

  // ---- over many polls ------------------------------------------------------

  /** The room as the bridge remembers it: the last event it relayed or was seeded with, and all it relayed. */
  datatype Room = Room(marker: Option<EventId>, relayed: seq<EventId>)

  /** One `/sync` answer: the history it was computed on, where its timeline starts, and whether it was cut. */
  datatype Sync = Sync(history: seq<EventId>, start: nat, limited: bool, prevBatch: Token)

  function Timeline(s: Sync): seq<EventId>
  {
    if s.start <= |s.history| then s.history[s.start..] else []
  }

  function Relay(room: Room, events: seq<EventId>): Room
  {
    if events == [] then room else Room(Some(events[|events| - 1]), room.relayed + events)
  }

  function Poll(room: Room, s: Sync, fetch: Token -> Page, maxPages: nat): (Room, Gap)
  {
    var (events, gap) :=
      if s.limited then Recover(fetch, room.marker, Some(s.prevBatch), Timeline(s), maxPages)
          else (Timeline(s), Closed);
    (Relay(room, events), gap)
  }

  /** The sync covers the room from position `since` on; only a limited one may start later. */
  ghost predicate Covers(s: Sync, since: nat)
  {
    && Distinct(s.history) && since <= s.start <= s.prevBatch <= |s.history|
    && (!s.limited ==> s.start == since)
  }

  /** `r` lists events of `h[lo..hi]` in their order, each at most once. */
  ghost predicate InOrder(r: seq<EventId>, h: seq<EventId>, lo: nat, hi: nat)
  {
    r != [] ==> exists p :: lo <= p < hi <= |h| && r[|r| - 1] == h[p] && InOrder(r[..|r| - 1], h, lo, p)
  }

  lemma {:induction false} InOrderWider(r: seq<EventId>, h: seq<EventId>, h': seq<EventId>, lo: nat, hi: nat, hi': nat)
    requires InOrder(r, h, lo, hi) && h <= h' && hi <= hi' <= |h'|
    ensures InOrder(r, h', lo, hi')
  {
    if r != [] {
      var p :| lo <= p < hi <= |h| && r[|r| - 1] == h[p] && InOrder(r[..|r| - 1], h, lo, p);
      InOrderWider(r[..|r| - 1], h, h', lo, p, p);
    }
  }

  lemma {:induction false} InOrderExtends(r: seq<EventId>, h: seq<EventId>, lo: nat, mid: nat, j: nat, hi: nat)
    requires InOrder(r, h, lo, mid) && lo <= mid <= j <= hi <= |h|
    ensures InOrder(r + h[j..hi], h, lo, hi)
    decreases hi - j
  {
    if j == hi {
      assert r + h[j..hi] == r;
      InOrderWider(r, h, h, lo, mid, hi);
    } else {
      InOrderExtends(r, h, lo, mid, j, hi - 1);
      var all := r + h[j..hi];
      assert all[..|all| - 1] == r + h[j..hi - 1] && all[|all| - 1] == h[hi - 1];
    }
  }

  lemma {:induction false} InOrderDistinct(r: seq<EventId>, h: seq<EventId>, lo: nat, hi: nat)
    requires Distinct(h) && InOrder(r, h, lo, hi) && hi <= |h|
    ensures Distinct(r) && forall e :: e in r ==> e in h[..hi]
  {
    if r != [] {
      var n := |r| - 1;
      var p :| lo <= p < hi <= |h| && r[n] == h[p] && InOrder(r[..n], h, lo, p);
      InOrderDistinct(r[..n], h, lo, p);
      assert r == r[..n] + [r[n]];
      forall i | 0 <= i < n ensures r[i] == r[..n][i] && r[..n][i] in r[..n] {}
      forall e | e in r[..n] ensures e != h[p] && e in h[..hi] {
        var q :| 0 <= q < p && h[..p][q] == e;
        assert h[..hi][q] == e;
      }
      assert h[..hi][p] == h[p];
    }
  }

  /** The marker sits at position `m`, the relayed events are among those after the seed and up to it. */
  ghost predicate Tracks(room: Room, h: seq<EventId>, seed: nat, m: nat)
  {
    && Distinct(h) && seed <= m < |h| && room.marker == Some(h[m])
    && InOrder(room.relayed, h, seed + 1, m + 1)
  }

  /** One poll relays a suffix of the new history after the marker, and moves the marker to its end. */
  lemma PollRelaysSuffix(room: Room, h: seq<EventId>, seed: nat, m: nat, since: nat, s: Sync, fetch: Token -> Page,
      maxPages: nat)
    returns (j: nat)
    requires Tracks(room, h, seed, m) && m < since <= |h| && h <= s.history
    requires Covers(s, since) && Contiguous(s.history, fetch)
    ensures var (room', gap) := Poll(room, s, fetch, maxPages);
            && m < j <= |s.history| && room' == Relay(room, s.history[j..])
            && (s.limited && gap == Closed ==> j == m + 1)
            && (!s.limited ==> j == since)
  {
    if s.limited {
      RecoveredIsSuffix(s.history, fetch, m, s.start, s.prevBatch, maxPages);
      var (events, gap) := Recover(fetch, Some(s.history[m]), Some(s.prevBatch), s.history[s.start..], maxPages);
      if gap == Closed {
        j := m + 1;
      } else {
        j :| m < j <= s.start && events == s.history[j..];
      }
    } else {
      j := since;
    }
  }

  /** Relaying a suffix after the marker keeps what was relayed in order, each event once. */
  lemma RelayTracks(room: Room, h: seq<EventId>, h': seq<EventId>, seed: nat, m: nat, j: nat)
    requires Tracks(room, h, seed, m) && h <= h' && Distinct(h') && m < j <= |h'|
    ensures Tracks(Relay(room, h'[j..]), h', seed, if j == |h'| then m else |h'| - 1)
  {
    InOrderWider(room.relayed, h, h', seed + 1, m + 1, m + 1);
    if j == |h'| {
      assert Relay(room, h'[j..]) == room;
    } else {
      InOrderExtends(room.relayed, h', seed + 1, m + 1, j, |h'|);
      assert h'[j..|h'|] == h'[j..];
      assert Relay(room, h'[j..]) == Room(Some(h'[|h'| - 1]), room.relayed + h'[j..|h'|]);
    }
  }

  datatype PollInput = PollInput(sync: Sync, fetch: Token -> Page)

  function Polls(room: Room, inputs: seq<PollInput>, maxPages: nat): Room
  {
    if inputs == [] then room
    else Poll(Polls(room, inputs[..|inputs| - 1], maxPages), inputs[|inputs| - 1].sync, inputs[|inputs| - 1].fetch,
        maxPages).0
  }

  /** The history as of the last poll, `h0` being the one of the first sync. */
  function LastHistory(h0: seq<EventId>, inputs: seq<PollInput>): seq<EventId>
  {
    if inputs == [] then h0 else inputs[|inputs| - 1].sync.history
  }

  /** Each sync continues from the previous one on a history that only grew, and pages are contiguous. */
  ghost predicate WellBehaved(h0: seq<EventId>, inputs: seq<PollInput>)
  {
    inputs == [] ||
      var front, last := inputs[..|inputs| - 1], inputs[|inputs| - 1];
      && WellBehaved(h0, front)
      && LastHistory(h0, front) <= last.sync.history
      && Covers(last.sync, |LastHistory(h0, front)|)
      && Contiguous(last.sync.history, last.fetch)
  }

  ghost predicate AllClosed(room: Room, inputs: seq<PollInput>, maxPages: nat)
  {
    inputs == [] ||
      var front, last := inputs[..|inputs| - 1], inputs[|inputs| - 1];
      && AllClosed(room, front, maxPages)
      && Poll(Polls(room, front, maxPages), last.sync, last.fetch, maxPages).1 == Closed
  }

  /** The room after the first sync: seeded with the last event it showed, nothing relayed. */
  function Seeded(h0: seq<EventId>): Room
    requires h0 != []
  {
    Room(Some(h0[|h0| - 1]), [])
  }

  lemma RelayStep(room: Room, h: seq<EventId>, h': seq<EventId>, seed: nat, m: nat, j: nat) returns (m': nat)
    requires Tracks(room, h, seed, m) && h <= h' && Distinct(h') && m < j <= |h'|
    ensures Tracks(Relay(room, h'[j..]), h', seed, m')
    ensures m == |h| - 1 && room.relayed == h[seed + 1..] && j == |h| ==>
              m' == |h'| - 1 && Relay(room, h'[j..]).relayed == h'[seed + 1..]
  {
    RelayTracks(room, h, h', seed, m, j);
    m' := if j == |h'| then m else |h'| - 1;
    if room.relayed == h[seed + 1..] && j == |h| {
      RelayCompletes(room, h, h', seed);
    }
  }

  /** One more poll: the marker still tracks, and if this gap closed too, nothing is missing. */
  lemma PollStep(room: Room, h: seq<EventId>, seed: nat, m: nat, s: Sync, fetch: Token -> Page,
      maxPages: nat) returns (m': nat)
    requires Tracks(room, h, seed, m) && h <= s.history && Covers(s, |h|) && Contiguous(s.history, fetch)
    ensures Tracks(Poll(room, s, fetch, maxPages).0, s.history, seed, m')
    ensures m == |h| - 1 && room.relayed == h[seed + 1..] && Poll(room, s, fetch, maxPages).1 == Closed ==>
              m' == |s.history| - 1 && Poll(room, s, fetch, maxPages).0.relayed == s.history[seed + 1..]
  {
    var j := PollRelaysSuffix(room, h, seed, m, |h|, s, fetch, maxPages);
    m' := RelayStep(room, h, s.history, seed, m, j);
  }

  lemma RelayCompletes(room: Room, h: seq<EventId>, h': seq<EventId>, seed: nat)
    requires seed < |h| && h <= h' && room.relayed == h[seed + 1..]
    ensures Relay(room, h'[|h|..]).relayed == h'[seed + 1..]
  {
    assert h[seed + 1..] + h'[|h|..] == h'[seed + 1..];
  }

  lemma {:induction false} HistoryGrows(h0: seq<EventId>, inputs: seq<PollInput>)
    requires WellBehaved(h0, inputs)
    ensures h0 <= LastHistory(h0, inputs)
  {
    if inputs != [] {
      HistoryGrows(h0, inputs[..|inputs| - 1]);
    }
  }

  lemma {:induction false} PollsTrack(h0: seq<EventId>, inputs: seq<PollInput>, maxPages: nat) returns (m: nat)
    requires h0 != [] && Distinct(h0) && WellBehaved(h0, inputs)
    ensures h0 <= LastHistory(h0, inputs)
    ensures Tracks(Polls(Seeded(h0), inputs, maxPages), LastHistory(h0, inputs), |h0| - 1, m)
    ensures AllClosed(Seeded(h0), inputs, maxPages) ==>
              && m == |LastHistory(h0, inputs)| - 1
              && Polls(Seeded(h0), inputs, maxPages).relayed == LastHistory(h0, inputs)[|h0|..]
  {
    HistoryGrows(h0, inputs);
    if inputs == [] {
      m := |h0| - 1;
    } else {
      var front, last := inputs[..|inputs| - 1], inputs[|inputs| - 1];
      m := PollsTrack(h0, front, maxPages);
      m := PollStep(Polls(Seeded(h0), front, maxPages), LastHistory(h0, front), |h0| - 1, m, last.sync, last.fetch,
          maxPages);
    }
  }

  /** When every gap closes, each event after the seed is relayed exactly once, in order. */
  lemma EverythingRelayedOnce(h0: seq<EventId>, inputs: seq<PollInput>, maxPages: nat)
    requires h0 != [] && Distinct(h0) && WellBehaved(h0, inputs) && AllClosed(Seeded(h0), inputs, maxPages)
    ensures h0 + Polls(Seeded(h0), inputs, maxPages).relayed == LastHistory(h0, inputs)
  {
    var m := PollsTrack(h0, inputs, maxPages);
    PrefixAndRest(h0, LastHistory(h0, inputs));
  }

  lemma PrefixAndRest(a: seq<EventId>, b: seq<EventId>)
    requires a <= b
    ensures a + b[|a|..] == b
  {
  }

  /** And whatever happens, none is relayed twice or out of order. */
  lemma NothingRelayedTwice(h0: seq<EventId>, inputs: seq<PollInput>, maxPages: nat)
    requires h0 != [] && Distinct(h0) && WellBehaved(h0, inputs)
    ensures Distinct(Polls(Seeded(h0), inputs, maxPages).relayed)
    ensures InOrder(Polls(Seeded(h0), inputs, maxPages).relayed, LastHistory(h0, inputs), |h0|,
        |LastHistory(h0, inputs)|)
  {
    var m := PollsTrack(h0, inputs, maxPages);
    var h := LastHistory(h0, inputs);
    InOrderWider(Polls(Seeded(h0), inputs, maxPages).relayed, h, h, |h0|, m + 1, |h|);
    InOrderDistinct(Polls(Seeded(h0), inputs, maxPages).relayed, h, |h0|, |h|);
  }

  // ---- what a server needs, whatever the bridge asks for ---------------------

  /** How many requests exhaust the history from a token on, the last one included. */
  function Requests(fetch: Token -> Page, p: Token): nat
  {
    match fetch(p)
    case Failed(_) => 1
    case Chunk(events, end) =>
      if events == [] || end.None? || end.value >= p then 1 else 1 + Requests(fetch, end.value)
  }

  /** How far back `n` requests reach. */
  function Reach(fetch: Token -> Page, p: Token, n: nat): (a: nat)
    ensures a <= p
  {
    if n == 0 then p
    else
      match fetch(p)
      case Failed(_) => p
      case Chunk(events, end) =>
        if |events| > p then 0
        else if events == [] || end.None? || end.value >= p then p - |events|
        else Reach(fetch, end.value, n - 1)
  }

  /** How many requests it takes to read the event at position `m`. */
  function PagesTo(fetch: Token -> Page, p: Token, m: nat): nat
  {
    match fetch(p)
    case Failed(_) => 1
    case Chunk(events, end) =>
      if m + |events| >= p || end.None? || end.value >= p then 1 else 1 + PagesTo(fetch, end.value, m)
  }

  /** A contiguous server that answers every request. */
  ghost predicate Serves(h: seq<EventId>, fetch: Token -> Page)
  {
    Contiguous(h, fetch) && forall p: Token :: p <= |h| ==> fetch(p).Chunk?
  }

  ghost predicate HonestPage(h: seq<EventId>, p: Token, page: Page, a: nat)
    requires p <= |h|
  {
    PageFrom(h, p, page, a) && page.Chunk? && (p > 0 ==> a < p) && (a > 0 ==> page.end == Some(a))
  }

  /** And stops only at the start of the history. */
  ghost predicate Honest(h: seq<EventId>, fetch: Token -> Page)
  {
    forall p: Token :: p <= |h| ==> exists a: nat :: HonestPage(h, p, fetch(p), a)
  }

  lemma {:induction false} DownLength(h: seq<EventId>, a: nat, p: nat)
    requires a <= p <= |h|
    ensures |Down(h, a, p)| == p - a
  {
    if a < p { DownLength(h, a, p - 1); }
  }

  // ---- a marker that is gone ------------------------------------------------

  /** The events of `s` not shown yet. */
  function Unseen(s: seq<EventId>, seen: set<EventId>): seq<EventId>
  {
    if s == [] then []
    else Unseen(s[..|s| - 1], seen) + if s[|s| - 1] in seen then [] else [s[|s| - 1]]
  }

  lemma {:induction false} UnseenConcat(a: seq<EventId>, b: seq<EventId>, seen: set<EventId>)
    ensures Unseen(a + b, seen) == Unseen(a, seen) + Unseen(b, seen)
    decreases |b|
  {
    if b == [] {
      assert a + b == a;
    } else {
      UnseenConcat(a, b[..|b| - 1], seen);
      assert (a + b)[..|a + b| - 1] == a + b[..|b| - 1];
    }
  }

  /** A page without the marker gives what it has that was not shown. */
  lemma {:induction false} CollectGone(h: seq<EventId>, a: nat, p: nat, known: EventId, seen: set<EventId>)
    requires a <= p <= |h| && known !in h
    ensures Collect(Down(h, a, p), known, seen) == (Collect(Down(h, a, p), known, seen).0, false)
    ensures Reverse(Collect(Down(h, a, p), known, seen).0) == Unseen(h[a..p], seen)
  {
    if a < p {
      CollectGone(h, a, p - 1, known, seen);
      var rest := Collect(Down(h, a, p - 1), known, seen).0;
      assert Down(h, a, p)[1..] == Down(h, a, p - 1);
      assert h[a..p][..p - a - 1] == h[a..p - 1];
      assert ([h[p - 1]] + rest)[1..] == rest;
    }
  }

  lemma {:induction false} ReverseConcat(a: seq<EventId>, b: seq<EventId>)
    ensures Reverse(a + b) == Reverse(b) + Reverse(a)
  {
    if a == [] {
      assert a + b == b;
    } else {
      ReverseConcat(a[1..], b);
      assert (a + b)[1..] == a[1..] + b;
    }
  }

  /** One more page joins what was recovered down to `p`. */
  lemma GonePageJoins(h: seq<EventId>, a: nat, p: nat, q: nat, known: EventId, seen: set<EventId>,
      recovered: seq<EventId>)
    requires a <= p <= q <= |h| && known !in h && Reverse(recovered) == Unseen(h[p..q], seen)
    ensures Reverse(recovered + Collect(Down(h, a, p), known, seen).0) == Unseen(h[a..q], seen)
  {
    CollectGone(h, a, p, known, seen);
    ReverseConcat(recovered, Collect(Down(h, a, p), known, seen).0);
    UnseenConcat(h[a..p], h[p..q], seen);
    assert h[a..p] + h[p..q] == h[a..q];
  }

  /** What the walk ends with when the server needs `need` more requests and the budget reaches down to `a`. */
  ghost predicate WalkedTo(h: seq<EventId>, seen: set<EventId>, a: nat, q: nat, r: Walked, pages: nat)
  {
    !r.closed && !r.failed && r.pages == pages && a <= q <= |h| && Reverse(r.recovered) == Unseen(h[a..q], seen)
  }

  lemma WalkEnds(fetch: Token -> Page, known: EventId, seen: set<EventId>, p: Token, w: Walked)
    ensures Walk(fetch, known, seen, Some(p), w.pages, w) == w && Reach(fetch, p, 0) == p
  {
  }

  /** Without the marker the walk reads on until the history or the budget is exhausted. */
  lemma {:induction false} WalkWithoutMarker(h: seq<EventId>, fetch: Token -> Page, known: EventId, seen: set<EventId>,
      p: Token, q: nat, maxPages: nat, w: Walked)
    requires Serves(h, fetch) && known !in h && p <= q && w.pages <= maxPages && WalkedTo(h, seen, p, q, w, w.pages)
    ensures WalkedTo(h, seen, Reach(fetch, p, maxPages - w.pages), q, Walk(fetch, known, seen, Some(p), maxPages, w),
                     Min(w.pages + Requests(fetch, p), maxPages))
    ensures Reach(fetch, p, maxPages - w.pages) <= p
    decreases maxPages - w.pages
  {
    if w.pages == maxPages {
      WalkEnds(fetch, known, seen, p, w);
    } else {
      var a: nat :| PageFrom(h, p, fetch(p), a);
      var last, w' := TurnWithoutMarker(h, fetch, known, seen, p, q, maxPages, w, a);
      if !last {
        WalkWithoutMarker(h, fetch, known, seen, a, q, maxPages, w');
      }
    }
  }

  lemma TurnWithoutMarker(h: seq<EventId>, fetch: Token -> Page, known: EventId, seen: set<EventId>, p: Token, q: nat,
      maxPages: nat, w: Walked, a: nat) returns (last: bool, w': Walked)
    requires p <= q <= |h| && PageFrom(h, p, fetch(p), a) && fetch(p).Chunk? && known !in h
    requires w.pages < maxPages && WalkedTo(h, seen, p, q, w, w.pages)
    ensures a <= p && WalkedTo(h, seen, a, q, w', w.pages + 1)
    ensures Requests(fetch, p) == if last then 1 else 1 + Requests(fetch, a)
    ensures Reach(fetch, p, maxPages - w.pages) == if last then a else Reach(fetch, a, maxPages - w.pages - 1)
    ensures Walk(fetch, known, seen, Some(p), maxPages, w)
         == if last then w' else Walk(fetch, known, seen, Some(a), maxPages, w')
  {
    DownLength(h, a, p);
    var events := fetch(p).events;
    last := events == [] || fetch(p).end.None?;
    CollectGone(h, a, p, known, seen);
    GonePageJoins(h, a, p, q, known, seen, w.recovered);
    var news := Collect(events, known, seen).0;
    w' := w.(recovered := w.recovered + news, pages := w.pages + 1);
    if events != [] {
      WalkTurn(fetch, known, seen, p, maxPages, w, news, false);
    } else {
      assert w.recovered + news == w.recovered;
    }
  }

  /**
   * With the marker gone from the history, the undated events are kept back exactly when the budget is more than the
   * server needs to exhaust its history; otherwise all the budget reaches is relayed, as a gap that was too wide.
   */
  lemma UndatedRelayedExactlyAtTheCap(h: seq<EventId>, fetch: Token -> Page, known: EventId, prevBatch: Token,
      tail: seq<EventId>, maxPages: nat)
    requires Serves(h, fetch) && known !in h && prevBatch <= |h|
    ensures Recover(fetch, Some(known), Some(prevBatch), tail, maxPages)
         == if Requests(fetch, prevBatch) < maxPages then (tail, HistoryEnded)
            else (Unseen(h[Reach(fetch, prevBatch, maxPages)..prevBatch], Set(tail)) + tail, TooWide)
  {
    WalkWithoutMarker(h, fetch, known, Set(tail), prevBatch, prevBatch, maxPages, Walked([], false, false, 0));
    RecoverIs(fetch, known, prevBatch, tail, maxPages);
  }

  lemma RecoverIs(fetch: Token -> Page, known: EventId, prevBatch: Token, tail: seq<EventId>, maxPages: nat)
    ensures var w := Walk(fetch, known, Set(tail), Some(prevBatch), maxPages, Walked([], false, false, 0));
            var gap := GapOf(w, maxPages);
            && Recover(fetch, Some(known), Some(prevBatch), tail, maxPages).1 == gap
            && Recover(fetch, Some(known), Some(prevBatch), tail, maxPages).0
            == if gap == HistoryEnded then tail else Reverse(w.recovered) + tail
  {
  }

  // ---- a gap that fits the budget -------------------------------------------

  /** The pages to the marker decide whether the walk meets it; if not, it stops at the budget. */
  lemma {:induction false} WalkMeetsMarker(h: seq<EventId>, fetch: Token -> Page, m: nat, k: nat, b: Token,
      maxPages: nat, w: Walked)
    requires Distinct(h) && m < k <= |h| && Honest(h, fetch) && w.pages <= maxPages
    requires m < b <= |h| && w.recovered == Down(h, Min(b, k), k) && !w.closed && !w.failed
    ensures var r := Walk(fetch, h[m], Set(h[k..]), Some(b), maxPages, w);
            && (r.closed <==> w.pages + PagesTo(fetch, b, m) <= maxPages)
            && (r.closed ==> r.recovered == Down(h, m + 1, k))
            && (!r.closed ==>
                  var a := Reach(fetch, b, maxPages - w.pages);
                  m < a <= b && !r.failed && r.pages == maxPages && r.recovered == Down(h, Min(a, k), k))
    decreases maxPages - w.pages
  {
    if w.pages < maxPages {
      var a: nat :| HonestPage(h, b, fetch(b), a);
      var w' := TurnTowardsMarker(h, fetch, m, k, b, maxPages, w, a);
      if m < a {
        WalkMeetsMarker(h, fetch, m, k, a, maxPages, w');
      }
    }
  }

  lemma TurnTowardsMarker(h: seq<EventId>, fetch: Token -> Page, m: nat, k: nat, b: Token, maxPages: nat, w: Walked,
      a: nat) returns (w': Walked)
    requires Distinct(h) && m < k <= |h| && m < b <= |h| && HonestPage(h, b, fetch(b), a) && w.pages < maxPages
    requires w.recovered == Down(h, Min(b, k), k) && !w.closed && !w.failed
    ensures w' == Walked(Down(h, if m >= a then m + 1 else Min(a, k), k), m >= a, false, w.pages + 1) && a < b
    ensures PagesTo(fetch, b, m) == if m >= a then 1 else 1 + PagesTo(fetch, a, m)
    ensures m < a ==> Reach(fetch, b, maxPages - w.pages) == Reach(fetch, a, maxPages - w.pages - 1)
    ensures Walk(fetch, h[m], Set(h[k..]), Some(b), maxPages, w)
         == if m >= a then w' else Walk(fetch, h[m], Set(h[k..]), Some(a), maxPages, w')
  {
    DownLength(h, a, b);
    PageExtends(h, m, k, a, b, w.recovered);
    var (news, met) := Collect(fetch(b).events, h[m], Set(h[k..]));
    w' := Walked(w.recovered + news, met, false, w.pages + 1);
    WalkTurn(fetch, h[m], Set(h[k..]), b, maxPages, w, news, met);
  }

  /**
   * With the marker in the history of an honest server, the gap closes exactly when the pages to the marker fit the
   * budget, and then everything after it is relayed; otherwise it is what the budget reaches.
   */
  lemma ClosesExactlyWhenItFits(h: seq<EventId>, fetch: Token -> Page, m: nat, k: nat, prevBatch: Token, maxPages: nat)
    requires Distinct(h) && m < k <= prevBatch <= |h| && Honest(h, fetch)
    ensures Recover(fetch, Some(h[m]), Some(prevBatch), h[k..], maxPages)
         == if PagesTo(fetch, prevBatch, m) <= maxPages then (h[m + 1..], Closed)
            else (h[Min(Reach(fetch, prevBatch, maxPages), k)..], TooWide)
  {
    WalkMeetsMarker(h, fetch, m, k, prevBatch, maxPages, Walked([], false, false, 0));
    var j := if PagesTo(fetch, prevBatch, m) <= maxPages then m + 1 else Min(Reach(fetch, prevBatch, maxPages), k);
    RecoverDownTo(h, fetch, m, k, prevBatch, maxPages, j);
  }

  lemma RecoverDownTo(h: seq<EventId>, fetch: Token -> Page, m: nat, k: nat, prevBatch: Token, maxPages: nat, j: nat)
    requires m < j <= k <= |h|
    requires var w := Walk(fetch, h[m], Set(h[k..]), Some(prevBatch), maxPages, Walked([], false, false, 0));
             w.recovered == Down(h, j, k) && (w.closed || (!w.failed && w.pages == maxPages))
    ensures Recover(fetch, Some(h[m]), Some(prevBatch), h[k..], maxPages).0 == h[j..]
    ensures Recover(fetch, Some(h[m]), Some(prevBatch), h[k..], maxPages).1 ==
            if Walk(fetch, h[m], Set(h[k..]), Some(prevBatch), maxPages, Walked([], false, false, 0)).closed then Closed
            else TooWide
  {
    ReverseDown(h, j, k);
    assert h[j..k] + h[k..] == h[j..];
    RecoverIs(fetch, h[m], prevBatch, h[k..], maxPages);
  }

  /** Every limited sync leaves a gap whose pages fit the budget. */
  ghost predicate GapsFit(h0: seq<EventId>, inputs: seq<PollInput>, maxPages: nat)
  {
    inputs == [] ||
      var front, last := inputs[..|inputs| - 1], inputs[|inputs| - 1];
      && GapsFit(h0, front, maxPages)
      && (last.sync.limited && LastHistory(h0, front) != [] ==>
            PagesTo(last.fetch, last.sync.prevBatch, |LastHistory(h0, front)| - 1) <= maxPages)
  }

  ghost predicate AllHonest(inputs: seq<PollInput>)
  {
    inputs == [] ||
      var last := inputs[|inputs| - 1];
      AllHonest(inputs[..|inputs| - 1]) && Honest(last.sync.history, last.fetch)
  }

  lemma LimitedPoll(room: Room, s: Sync, fetch: Token -> Page, maxPages: nat)
    requires s.start <= |s.history|
    ensures Poll(room, s, fetch, maxPages).1
         == if s.limited then Recover(fetch, room.marker, Some(s.prevBatch), s.history[s.start..], maxPages).1
            else Closed
  {
  }

  lemma PollClosesExactlyWhenItFits(room: Room, m: nat, s: Sync, fetch: Token -> Page, maxPages: nat)
    requires Distinct(s.history) && m < s.start <= s.prevBatch <= |s.history| && Honest(s.history, fetch)
    requires room.marker == Some(s.history[m])
    ensures Poll(room, s, fetch, maxPages).1 == Closed <==>
            (s.limited ==> PagesTo(fetch, s.prevBatch, m) <= maxPages)
  {
    LimitedPoll(room, s, fetch, maxPages);
    if s.limited {
      ClosesExactlyWhenItFits(s.history, fetch, m, s.start, s.prevBatch, maxPages);
    }
  }

  /** Over any polls of honest servers, every gap closes exactly when each fits the budget. */
  lemma {:induction false} AllCloseExactlyWhenTheyFit(h0: seq<EventId>, inputs: seq<PollInput>, maxPages: nat)
    requires h0 != [] && Distinct(h0) && WellBehaved(h0, inputs) && AllHonest(inputs)
    ensures AllClosed(Seeded(h0), inputs, maxPages) <==> GapsFit(h0, inputs, maxPages)
  {
    if inputs != [] {
      var front, last := inputs[..|inputs| - 1], inputs[|inputs| - 1];
      AllCloseExactlyWhenTheyFit(h0, front, maxPages);
      if AllClosed(Seeded(h0), front, maxPages) {
        MarkerIsLast(h0, front, maxPages);
        NextGap(Polls(Seeded(h0), front, maxPages), LastHistory(h0, front), last, maxPages);
      }
    }
  }

  /** Honest servers and gaps within the budget: each event after the seed is relayed exactly once, in order. */
  lemma GapsThatFitLoseNothing(h0: seq<EventId>, inputs: seq<PollInput>, maxPages: nat)
    requires h0 != [] && Distinct(h0) && WellBehaved(h0, inputs) && AllHonest(inputs) && GapsFit(h0, inputs, maxPages)
    ensures h0 + Polls(Seeded(h0), inputs, maxPages).relayed == LastHistory(h0, inputs)
  {
    AllCloseExactlyWhenTheyFit(h0, inputs, maxPages);
    EverythingRelayedOnce(h0, inputs, maxPages);
  }

  lemma MarkerIsLast(h0: seq<EventId>, inputs: seq<PollInput>, maxPages: nat)
    requires h0 != [] && Distinct(h0) && WellBehaved(h0, inputs) && AllClosed(Seeded(h0), inputs, maxPages)
    ensures var h := LastHistory(h0, inputs);
            h != [] && Polls(Seeded(h0), inputs, maxPages).marker == Some(h[|h| - 1])
  {
    var m := PollsTrack(h0, inputs, maxPages);
  }

  lemma NextGap(room: Room, h: seq<EventId>, input: PollInput, maxPages: nat)
    requires h != [] && room.marker == Some(h[|h| - 1]) && h <= input.sync.history && Covers(input.sync, |h|)
    requires Honest(input.sync.history, input.fetch)
    ensures Poll(room, input.sync, input.fetch, maxPages).1 == Closed <==>
            (input.sync.limited ==> PagesTo(input.fetch, input.sync.prevBatch, |h| - 1) <= maxPages)
  {
    assert input.sync.history[|h| - 1] == h[|h| - 1];
    PollClosesExactlyWhenItFits(room, |h| - 1, input.sync, input.fetch, maxPages);
  }

  /** On the last permitted page, the walk is taken for a wide gap and the archive is relayed. */
  lemma UndatedRelayedAtTheCap()
    ensures var fetch := (p: Token) => if p == 0 then Chunk([], None) else Chunk(["old"], Some(0));
            && Recover(fetch, Some("gone"), Some(1), ["new"], 3) == (["new"], HistoryEnded)
            && Recover(fetch, Some("gone"), Some(1), ["new"], 2) == (["old", "new"], TooWide)
  {
    var fetch := (p: Token) => if p == 0 then Chunk([], None) else Chunk(["old"], Some(0));
    var seen := Set(["new"]);
    assert "old" !in seen;
    assert ["old"][1..] == [] && Collect([], "gone", seen) == ([], false);
    assert ["old"] + [] == ["old"] == [] + ["old"];
    assert Collect(["old"], "gone", seen) == (["old"] + [], false);
    assert Reverse(["old"]) == [] + ["old"];
    assert ["old"] + ["new"] == ["old", "new"];
    forall max: nat | 2 <= max <= 3
      ensures Walk(fetch, "gone", seen, Some(1), max, Walked([], false, false, 0)) == Walked(["old"], false, false, 2)
    {
      assert Walk(fetch, "gone", seen, Some(0), max, Walked(["old"], false, false, 1))
          == Walked(["old"], false, false, 2);
    }
  }

  // ---- the paging loop as the code runs it ----------------------------------

  class GapReports {
    var reported: set<(string, Option<EventId>)>

    constructor ()
      ensures reported == {}
    {
      reported := {};
    }

    /** Escalates a gap once per room and marker. */
    method Report(room: string, marker: Option<EventId>) returns (escalated: bool)
      modifies this
      ensures escalated <==> (room, marker) !in old(reported)
      ensures reported == old(reported) + {(room, marker)}
    {
      var key := (room, marker);
      if key in reported {
        return false;
      }
      reported := reported + {key};
      escalated := true;
    }
  }

  method ReadPage(events: seq<EventId>, known: EventId, seen: set<EventId>) returns (news: seq<EventId>, met: bool)
    ensures news == Collect(events, known, seen).0 && met == Collect(events, known, seen).1
  {
    news, met := [], false;
    var i := 0;
    while i < |events|
      invariant 0 <= i <= |events|
      invariant Collect(events, known, seen).0 == news + Collect(events[i..], known, seen).0
      invariant Collect(events, known, seen).1 == Collect(events[i..], known, seen).1 && !met
    {
      assert events[i..][1..] == events[i + 1..];
      if events[i] == known {
        met := true;
        return;
      }
      if events[i] !in seen {
        news := news + [events[i]];
      }
      i := i + 1;
    }
  }

  method Recovery(fetch: Token -> Page, known: Option<EventId>, prevBatch: Option<Token>, tail: seq<EventId>,
      maxPages: nat)
    returns (events: seq<EventId>, gap: Gap)
    ensures (events, gap) == Recover(fetch, known, prevBatch, tail, maxPages)
  {
    if known.None? || prevBatch.None? {
      return tail, NoMarker;
    }
    var recovered, token, pages, closed, failed := [], prevBatch, 0, false, false;
    ghost var all := Walk(fetch, known.value, Set(tail), prevBatch, maxPages, Walked([], false, false, 0));
    var more := true;
    while more && token.Some? && pages < maxPages
      invariant pages <= maxPages
      invariant more ==> !closed && !failed
      invariant more ==>
                  all == Walk(fetch, known.value, Set(tail), token, maxPages, Walked(recovered, false, false, pages))
      invariant !more ==> all == Walked(recovered, closed, failed, pages)
      decreases maxPages - pages, more
    {
      pages := pages + 1;
      match fetch(token.value) {
        case Failed(why) =>
          failed, more := why != "", false;
        case Chunk(page, end) =>
          if page == [] {
            more := false;
          } else {
            var news, met := ReadPage(page, known.value, Set(tail));
            recovered := recovered + news;
            if met {
              closed, more := true, false;
            } else {
              token := end;
            }
          }
      }
    }
    gap := if closed then Closed else if failed then ServerStopped else if pages >= maxPages then TooWide
        else HistoryEnded;
    events := if gap == HistoryEnded then tail else Reverse(recovered) + tail;
  }
}
