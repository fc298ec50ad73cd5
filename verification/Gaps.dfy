/** How a walk back through a room ends, whatever the server answers, and what is then relayed. */
module Gaps {
  import opened Order
  import opened Backfill

  /** A page that neither fails, nor is empty, nor shows the marker. */
  predicate Passes(page: Page, known: EventId) { page.Chunk? && page.events != [] && known !in page.events }

  /** Where request `n` continues from, if the walk makes one. */
  function Request(fetch: Token -> Page, known: EventId, from: Token, n: nat): Option<Token>
  {
    if n == 0 then Some(from)
    else
      match Request(fetch, known, from, n - 1)
      case None => None
      case Some(t) => if Passes(fetch(t), known) then fetch(t).end else None
  }

  function Fresh(events: seq<EventId>, seen: set<EventId>): seq<EventId>
  {
    if events == [] then [] else (if events[0] in seen then [] else [events[0]]) + Fresh(events[1..], seen)
  }

  /** What the first `n` requests bring, newest first, without what the timeline shows already. */
  function Read(fetch: Token -> Page, known: EventId, seen: set<EventId>, from: Token, n: nat): seq<EventId>
  {
    if n == 0 then []
    else
      Read(fetch, known, seen, from, n - 1)
      + match Request(fetch, known, from, n - 1)
        case None => []
        case Some(t) => if Passes(fetch(t), known) then Fresh(fetch(t).events, seen) else []
  }

  /** The events of a page that are newer than the marker. */
  function UpTo(events: seq<EventId>, known: EventId): seq<EventId>
  {
    if events == [] || events[0] == known then [] else [events[0]] + UpTo(events[1..], known)
  }

  lemma {:induction false} CollectIs(events: seq<EventId>, known: EventId, seen: set<EventId>)
    ensures Collect(events, known, seen) == (Fresh(UpTo(events, known), seen), known in events)
    ensures known !in events ==> UpTo(events, known) == events
  {
    if events != [] {
      var rest := events[1..];
      assert events == [events[0]] + rest;
      CollectIs(rest, known, seen);
      if events[0] != known {
        FreshCons(events[0], UpTo(rest, known), seen);
        assert UpTo(events, known) == [events[0]] + UpTo(rest, known);
      }
    }
  }

  lemma FreshCons(e: EventId, rest: seq<EventId>, seen: set<EventId>)
    ensures Fresh([e] + rest, seen) == (if e in seen then Fresh(rest, seen) else [e] + Fresh(rest, seen))
  {
    assert ([e] + rest)[1..] == rest;
  }

  /** The first `n` requests done. */
  function Begun(fetch: Token -> Page, known: EventId, seen: set<EventId>, from: Token, n: nat): Walked
  {
    Walked(Read(fetch, known, seen, from, n), false, false, n)
  }

  lemma {:induction false} WalkBegins(fetch: Token -> Page, known: EventId, seen: set<EventId>, from: Token,
      maxPages: nat, n: nat)
    requires n <= maxPages && (n == 0 || Request(fetch, known, from, n - 1).Some?)
    requires n == 0 || Passes(fetch(Request(fetch, known, from, n - 1).value), known)
    ensures Walk(fetch, known, seen, Some(from), maxPages, Begun(fetch, known, seen, from, 0))
         == Walk(fetch, known, seen, Request(fetch, known, from, n), maxPages, Begun(fetch, known, seen, from, n))
  {
    if n > 0 {
      var t := Request(fetch, known, from, n - 1).value;
      WalkBegins(fetch, known, seen, from, maxPages, n - 1);
      CollectIs(fetch(t).events, known, seen);
      WalkTurn(fetch, known, seen, t, maxPages, Begun(fetch, known, seen, from, n - 1), Fresh(fetch(t).events, seen),
               false);
    }
  }

  /** The walk makes `n` requests that each bring a page without the marker, and no further one passes. */
  ghost predicate EndsAfter(fetch: Token -> Page, known: EventId, from: Token, maxPages: nat, n: nat)
  {
    && n <= maxPages
    && (n > 0 ==>
          var before := Request(fetch, known, from, n - 1);
          before.Some? && Passes(fetch(before.value), known))
    && var next := Request(fetch, known, from, n);
       n == maxPages || next == None || !Passes(fetch(next.value), known)
  }

  lemma {:induction false} SomewhereItEnds(fetch: Token -> Page, known: EventId, from: Token, maxPages: nat, k: nat)
    returns (n: nat)
    requires k <= maxPages
    requires k > 0 ==> Request(fetch, known, from, k - 1).Some?
    requires k > 0 ==> Passes(fetch(Request(fetch, known, from, k - 1).value), known)
    ensures EndsAfter(fetch, known, from, maxPages, n)
    decreases maxPages - k
  {
    var next := Request(fetch, known, from, k);
    if k == maxPages || next == None || !Passes(fetch(next.value), known) {
      n := k;
    } else {
      n := SomewhereItEnds(fetch, known, from, maxPages, k + 1);
    }
  }

  /**
   * Where the walk ends decides the gap. Within the budget: a page with the marker closes it; an error that has a text
   * is the server stopping; the history has ended on an error without one, on an empty page, and where there is no
   * further page, unless that was the last permitted request. In that one case only what was read is not relayed.
   */
  lemma GapTells(fetch: Token -> Page, known: EventId, from: Token, tail: seq<EventId>, maxPages: nat, n: nat)
    requires EndsAfter(fetch, known, from, maxPages, n)
    ensures var (events, gap) := Recover(fetch, Some(known), Some(from), tail, maxPages);
            var next, read := Request(fetch, known, from, n), Read(fetch, known, Set(tail), from, n);
            if n == maxPages then gap == TooWide && events == Reverse(read) + tail
            else if next == None then gap == HistoryEnded && events == tail
            else
              var page := fetch(next.value);
              if page.Chunk? && known in page.events then
                gap == Closed && events == Reverse(read + Fresh(UpTo(page.events, known), Set(tail))) + tail
              else if page.Failed? && page.why != "" then gap == ServerStopped && events == Reverse(read) + tail
              else if n + 1 == maxPages then gap == TooWide && events == Reverse(read) + tail
              else gap == HistoryEnded && events == tail
  {
    var seen, next := Set(tail), Request(fetch, known, from, n);
    WalkBegins(fetch, known, seen, from, maxPages, n);
    RecoverIs(fetch, known, from, tail, maxPages);
    if next.Some? && fetch(next.value).Chunk? {
      CollectIs(fetch(next.value).events, known, seen);
    }
  }

  /** Without a recorded event, or a token to walk from, no request is made: the timeline alone is relayed. */
  lemma NoMarkerNoWalk(fetch: Token -> Page, known: Option<EventId>, from: Option<Token>, tail: seq<EventId>,
      maxPages: nat)
    ensures var (events, gap) := Recover(fetch, known, from, tail, maxPages);
            && (gap == NoMarker <==> known == None || from == None)
            && (gap == NoMarker ==> events == tail)
  {
  }
}
