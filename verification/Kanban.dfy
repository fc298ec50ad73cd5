/**
 * The Kanban board: a markdown file edited line by line. One reader shows its cards under ids computed
 * from their text; the editing operations find a card again by replaying the numbering.
 */
module Kanban {
  import opened Order

  /** A line, as the source's patterns classify it: `%%…`, `## title`, `- [ ] raw`, or anything else. */
  datatype Line = Settings(text: string) | Heading(title: string) | Card(done: bool, raw: string) | Text(text: string)

  type Hash = string -> string

  /** The hash of the card's text, and how many cards with that hash came before it. */
  datatype Id = Id(base: string, n: nat)

  datatype View = View(id: Id, raw: string, done: bool)
  datatype Column = Column(title: string, cards: seq<View>)

  // ---- what a scan has seen -------------------------------------------------

  /** Inside a `%%` block. */
  predicate Inside(lines: seq<Line>)
  {
    lines != [] && if lines[|lines| - 1].Settings? then !Inside(lines[..|lines| - 1]) else Inside(lines[..|lines| - 1])
  }

  /** How many columns have been opened. */
  function Heads(lines: seq<Line>): nat
  {
    if lines == [] then 0
    else
      var front := lines[..|lines| - 1];
      Heads(front) + if lines[|lines| - 1].Heading? && !Inside(front) then 1 else 0
  }

  predicate Visible(lines: seq<Line>, i: nat) { i < |lines| && !lines[i].Settings? && !Inside(lines[..i]) }

  /** The reader shows a card only below a heading. */
  predicate Shown(lines: seq<Line>, i: nat) { Visible(lines, i) && lines[i].Card? && Heads(lines[..i]) > 0 }

  /** Finding a card again does not look for a heading. */
  predicate Counted(lines: seq<Line>, i: nat) { Visible(lines, i) && lines[i].Card? }

  /** How many cards with hash `b` the reader (`headed`), or the search, has numbered. */
  function Count(lines: seq<Line>, h: Hash, b: string, headed: bool): nat
  {
    if lines == [] then 0
    else
      var k := |lines| - 1;
      Count(lines[..k], h, b, headed)
      + if (if headed then Shown(lines, k) else Counted(lines, k)) && h(lines[k].raw) == b then 1 else 0
  }

  function IdAt(lines: seq<Line>, i: nat, h: Hash, headed: bool): Id
    requires i < |lines| && lines[i].Card?
  {
    Id(h(lines[i].raw), Count(lines[..i], h, h(lines[i].raw), headed))
  }

  function ViewAt(lines: seq<Line>, i: nat, h: Hash): View
    requires i < |lines| && lines[i].Card?
  {
    View(IdAt(lines, i, h, true), lines[i].raw, lines[i].done)
  }

  function Board(lines: seq<Line>, h: Hash): (cs: seq<Column>)
    ensures |cs| == Heads(lines)
  {
    if lines == [] then []
    else
      var k := |lines| - 1;
      var cs := Board(lines[..k], h);
      if !Visible(lines, k) then cs
      else if lines[k].Heading? then cs + [Column(lines[k].title, [])]
      else if lines[k].Card? && cs != [] then
        cs[|cs| - 1 := cs[|cs| - 1].(cards := cs[|cs| - 1].cards + [ViewAt(lines, k, h)])]
      else cs
  }

  /** The search: the first line whose replayed number is the id. */
  function Locate(lines: seq<Line>, h: Hash, id: Id): Option<nat>
  {
    if lines == [] then None
    else
      var k := |lines| - 1;
      var before := Locate(lines[..k], h, id);
      if before.Some? then before
      else if Counted(lines, k) && IdAt(lines, k, h, false) == id then Some(k)
      else None
  }

  // ---- reader and search ----------------------------------------------------

  lemma {:induction false} HeadsGrow(lines: seq<Line>, i: nat)
    requires i <= |lines|
    ensures Heads(lines[..i]) <= Heads(lines)
  {
    if i == |lines| {
      assert lines[..i] == lines;
    } else {
      HeadsGrow(lines[..|lines| - 1], i);
      assert lines[..|lines| - 1][..i] == lines[..i];
    }
  }

  lemma {:induction false} CountGrows(lines: seq<Line>, h: Hash, b: string, headed: bool, i: nat)
    requires i <= |lines|
    ensures Count(lines[..i], h, b, headed) <= Count(lines, h, b, headed)
  {
    if i == |lines| {
      assert lines[..i] == lines;
    } else {
      CountGrows(lines[..|lines| - 1], h, b, headed, i);
      assert lines[..|lines| - 1][..i] == lines[..i];
    }
  }

  lemma PrefixView(lines: seq<Line>, k: nat, i: nat)
    requires i < k <= |lines|
    ensures lines[..k][i] == lines[i] && lines[..k][..i] == lines[..i]
    ensures Visible(lines[..k], i) == Visible(lines, i) && Shown(lines[..k], i) == Shown(lines, i)
  {
    assert lines[..k][..i] == lines[..i];
  }

  lemma CountPast(lines: seq<Line>, h: Hash, headed: bool, i: nat, j: nat)
    requires i < j <= |lines| && (if headed then Shown(lines, i) else Counted(lines, i))
    ensures Count(lines[..j], h, h(lines[i].raw), headed) > Count(lines[..i], h, h(lines[i].raw), headed)
  {
    PrefixView(lines, i + 1, i);
    CountGrows(lines[..j], h, h(lines[i].raw), headed, i + 1);
    assert lines[..j][..i + 1] == lines[..i + 1];
  }

  /** No two cards share an id, whatever the hash does. */
  lemma IdsDistinct(lines: seq<Line>, h: Hash, headed: bool, i: nat, j: nat)
    requires i < |lines| && j < |lines| && i != j
    requires if headed then Shown(lines, i) && Shown(lines, j) else Counted(lines, i) && Counted(lines, j)
    ensures IdAt(lines, i, h, headed) != IdAt(lines, j, h, headed)
  {
    if i < j { CountPast(lines, h, headed, i, j); } else { CountPast(lines, h, headed, j, i); }
  }

  lemma {:induction false} LocateFinds(lines: seq<Line>, h: Hash, id: Id, i: nat)
    ensures Locate(lines, h, id) == Some(i) <==> Counted(lines, i) && IdAt(lines, i, h, false) == id
  {
    if lines != [] {
      var k := |lines| - 1;
      LocateFinds(lines[..k], h, id, i);
      if i < k { PrefixView(lines, k, i); }
      LocateInRange(lines[..k], h, id);
      if Locate(lines[..k], h, id).Some? {
        var before := Locate(lines[..k], h, id).value;
        LocateFinds(lines[..k], h, id, before);
        PrefixView(lines, k, before);
        if Counted(lines, k) { IdsDistinct(lines, h, false, before, k); }
      }
    }
  }

  lemma {:induction false} LocateInRange(lines: seq<Line>, h: Hash, id: Id)
    ensures Locate(lines, h, id).Some? ==> Locate(lines, h, id).value < |lines|
  {
    if lines != [] { LocateInRange(lines[..|lines| - 1], h, id); }
  }

  /** A card above the first heading, which only the search numbers. */
  predicate Orphan(lines: seq<Line>, i: nat) { Counted(lines, i) && !Shown(lines, i) }

  ghost predicate NoOrphan(lines: seq<Line>, h: Hash, b: string)
  {
    forall j: nat :: Orphan(lines, j) ==> h(lines[j].raw) != b
  }

  lemma NoOrphanSnoc(lines: seq<Line>, h: Hash, b: string)
    requires lines != []
    ensures var k := |lines| - 1;
            NoOrphan(lines, h, b) <==> NoOrphan(lines[..k], h, b) && (Orphan(lines, k) ==> h(lines[k].raw) != b)
  {
    var k := |lines| - 1;
    forall j: nat | j < k ensures Orphan(lines[..k], j) <==> Orphan(lines, j) {
      PrefixView(lines, k, j);
    }
    forall j: nat | Orphan(lines[..k], j) ensures lines[..k][j] == lines[j] && Orphan(lines, j) {}
  }

  lemma {:induction false} CountsAgree(lines: seq<Line>, h: Hash, b: string)
    ensures Count(lines, h, b, true) <= Count(lines, h, b, false)
    ensures Count(lines, h, b, true) == Count(lines, h, b, false) <==> NoOrphan(lines, h, b)
  {
    if lines != [] {
      CountsAgree(lines[..|lines| - 1], h, b);
      NoOrphanSnoc(lines, h, b);
    }
  }

  lemma HeadsBetween(lines: seq<Line>, i: nat, j: nat)
    requires i <= j <= |lines|
    ensures Heads(lines[..i]) <= Heads(lines[..j])
  {
    HeadsGrow(lines[..j], i);
    assert lines[..j][..i] == lines[..i];
  }

  lemma OrphansComeFirst(lines: seq<Line>, i: nat, j: nat)
    requires Shown(lines, i) && Orphan(lines, j)
    ensures j < i
  {
    if j >= i { HeadsBetween(lines, i, j); }
  }

  /** The search finds exactly the line the reader meant unless a card of the same hash sits above the first heading. */
  lemma SearchAgreesExactlyWhen(lines: seq<Line>, h: Hash, i: nat)
    requires Shown(lines, i)
    ensures Locate(lines, h, IdAt(lines, i, h, true)) == Some(i) <==> NoOrphan(lines, h, h(lines[i].raw))
  {
    var b := h(lines[i].raw);
    LocateFinds(lines, h, IdAt(lines, i, h, true), i);
    CountsAgree(lines[..i], h, b);
    forall j: nat | Orphan(lines, j) ensures Orphan(lines[..i], j) && lines[..i][j] == lines[j] {
      OrphansComeFirst(lines, i, j);
      PrefixView(lines, i, j);
    }
    forall j: nat | Orphan(lines[..i], j) ensures Orphan(lines, j) && lines[..i][j] == lines[j] {
      PrefixView(lines, i, j);
    }
  }

  /** Line `i` is shown below the `k + 1`st heading as `v`. */
  ghost predicate ShownAs(lines: seq<Line>, h: Hash, k: nat, v: View, i: nat)
  {
    Shown(lines, i) && Heads(lines[..i]) == k + 1 && v == ViewAt(lines, i, h)
  }

  ghost predicate ShownIn(lines: seq<Line>, h: Hash, k: nat, v: View) { exists i: nat :: ShownAs(lines, h, k, v, i) }

  lemma ShownInSnoc(lines: seq<Line>, h: Hash, k: nat, v: View)
    requires lines != []
    ensures ShownIn(lines, h, k, v) <==> ShownIn(lines[..|lines| - 1], h, k, v) || ShownAs(lines, h, k, v, |lines| - 1)
  {
    var n := |lines| - 1;
    forall i: nat | i < n ensures ShownAs(lines[..n], h, k, v, i) <==> ShownAs(lines, h, k, v, i) {
      PrefixView(lines, n, i);
    }
    if i: nat :| ShownAs(lines[..n], h, k, v, i) { assert i < n; }
    if i: nat :| ShownAs(lines, h, k, v, i) { assert i < n || i == n; }
  }

  lemma ShownInRange(lines: seq<Line>, h: Hash, k: nat, v: View)
    ensures ShownIn(lines, h, k, v) ==> k < Heads(lines)
  {
    if i: nat :| ShownAs(lines, h, k, v, i) { HeadsGrow(lines, i); }
  }

  /** What the reader shows: column `k` holds exactly the cards below the `k + 1`st heading, each under its id. */
  lemma {:induction false} BoardShows(lines: seq<Line>, h: Hash, k: nat, v: View)
    requires k < Heads(lines)
    ensures v in Board(lines, h)[k].cards <==> ShownIn(lines, h, k, v)
  {
    var n := |lines| - 1;
    ShownInSnoc(lines, h, k, v);
    if k < Heads(lines[..n]) {
      BoardShows(lines[..n], h, k, v);
    } else {
      ShownInRange(lines[..n], h, k, v);
    }
  }

  lemma ViewsDiffer(lines: seq<Line>, h: Hash, k: nat, v: View, i: nat)
    requires lines != [] && ShownAs(lines, h, k, v, i) && ShownIn(lines[..|lines| - 1], h, k, v)
    ensures i < |lines| - 1 && ShownAs(lines[..|lines| - 1], h, k, v, i)
  {
    var n := |lines| - 1;
    var j: nat :| ShownAs(lines[..n], h, k, v, j);
    PrefixView(lines, n, j);
    if i != j { IdsDistinct(lines, h, true, i, j); }
  }

  /** Within a column cards keep the order of their lines, and none appears twice. */
  lemma {:induction false} ColumnsInOrder(lines: seq<Line>, h: Hash, k: nat, a: nat, b: nat, i: nat, j: nat)
    requires k < Heads(lines) && a < b < |Board(lines, h)[k].cards|
    requires ShownAs(lines, h, k, Board(lines, h)[k].cards[a], i)
    requires ShownAs(lines, h, k, Board(lines, h)[k].cards[b], j)
    ensures i < j
  {
    var n := |lines| - 1;
    var va, vb := Board(lines, h)[k].cards[a], Board(lines, h)[k].cards[b];
    if k < Heads(lines[..n]) {
      var before := Board(lines[..n], h)[k].cards;
      assert va == before[a] && va in before;
      BoardShows(lines[..n], h, k, va);
      ViewsDiffer(lines, h, k, va, i);
      if b < |before| {
        assert vb == before[b] && vb in before;
        BoardShows(lines[..n], h, k, vb);
        ViewsDiffer(lines, h, k, vb, j);
        ColumnsInOrder(lines[..n], h, k, a, b, i, j);
      } else {
        assert ShownAs(lines, h, k, vb, n);
        if j != n { IdsDistinct(lines, h, true, j, n); }
      }
    }
  }

  // ---- inserting and removing one card --------------------------------------

  function Inserted(lines: seq<Line>, e: nat, c: Line): seq<Line>
    requires e <= |lines|
  {
    lines[..e] + [c] + lines[e..]
  }

  /** `lines.pop(i)`. */
  function Without(lines: seq<Line>, i: nat): seq<Line>
    requires i < |lines|
  {
    lines[..i] + lines[i + 1..]
  }

  lemma InsertUndoesPop(lines: seq<Line>, i: nat)
    requires i < |lines|
    ensures Inserted(Without(lines, i), i, lines[i]) == lines
  {
  }

  lemma InsertedPrefix(lines: seq<Line>, e: nat, c: Line, k: nat)
    requires e <= k <= |lines|
    ensures Inserted(lines, e, c)[..k + 1] == Inserted(lines[..k], e, c)
  {
  }

  /** A card line changes neither what is a comment nor which column is open. */
  lemma {:induction false} InsertedShape(lines: seq<Line>, e: nat, c: Line)
    requires e <= |lines| && c.Card?
    ensures var r := Inserted(lines, e, c);
            && Inside(r) == Inside(lines) && Heads(r) == Heads(lines)
            && Shown(r, e) == (!Inside(lines[..e]) && Heads(lines[..e]) > 0)
  {
    var r, n := Inserted(lines, e, c), |lines| - 1;
    assert r[..e] == lines[..e];
    if e == |lines| {
      assert r[..|r| - 1] == lines && lines[..e] == lines;
    } else {
      InsertedShape(lines[..n], e, c);
      InsertedPrefix(lines, e, c, n);
    }
  }

  lemma InsertedLast(lines: seq<Line>, e: nat, c: Line)
    requires e < |lines| && c.Card?
    ensures var r, n := Inserted(lines, e, c), |lines| - 1;
            && |r| == n + 2 && r[..n + 1] == Inserted(lines[..n], e, c) && r[n + 1] == lines[n]
            && Shown(r, n + 1) == Shown(lines, n)
  {
    InsertedPrefix(lines, e, c, |lines| - 1);
    InsertedShape(lines[..|lines| - 1], e, c);
  }

  /** And it adds one to the count of its hash exactly if it is shown. */
  lemma {:induction false} InsertedCard(lines: seq<Line>, e: nat, c: Line, h: Hash, b: string)
    requires e <= |lines| && c.Card?
    ensures var r := Inserted(lines, e, c);
            Count(r, h, b, true) == Count(lines, h, b, true) + if Shown(r, e) && h(c.raw) == b then 1 else 0
  {
    var r, n := Inserted(lines, e, c), |lines| - 1;
    if e == |lines| {
      assert r[..|r| - 1] == lines;
    } else {
      InsertedCard(lines[..n], e, c, h, b);
      InsertedLast(lines, e, c);
      PrefixView(r, n + 1, e);
    }
  }

  // ---- ids after an edit ----------------------------------------------------

  ghost predicate HasId(lines: seq<Line>, h: Hash, id: Id, i: nat) { Shown(lines, i) && IdAt(lines, i, h, true) == id }

  ghost predicate IdShown(lines: seq<Line>, h: Hash, id: Id) { exists i: nat :: HasId(lines, h, id, i) }

  lemma IdShownSnoc(lines: seq<Line>, h: Hash, id: Id)
    requires lines != []
    ensures IdShown(lines, h, id) <==> IdShown(lines[..|lines| - 1], h, id) || HasId(lines, h, id, |lines| - 1)
  {
    var n := |lines| - 1;
    forall i: nat | i < n ensures HasId(lines[..n], h, id, i) <==> HasId(lines, h, id, i) {
      PrefixView(lines, n, i);
    }
    if i: nat :| HasId(lines[..n], h, id, i) { assert i < n; }
    if i: nat :| HasId(lines, h, id, i) { assert i < n || i == n; }
  }

  /** The ids on the board: for each hash, `0` up to the number of cards that have it. */
  lemma {:induction false} IdsFollowCounts(lines: seq<Line>, h: Hash, id: Id)
    ensures IdShown(lines, h, id) <==> id.n < Count(lines, h, id.base, true)
  {
    if lines != [] {
      IdsFollowCounts(lines[..|lines| - 1], h, id);
      IdShownSnoc(lines, h, id);
    }
  }

  ghost predicate SameIds(a: seq<Line>, b: seq<Line>, h: Hash) { forall id :: IdShown(a, h, id) <==> IdShown(b, h, id) }

  ghost predicate SameCounts(a: seq<Line>, b: seq<Line>, h: Hash)
  {
    forall base :: Count(a, h, base, true) == Count(b, h, base, true)
  }

  lemma SameIdsMeansSameCounts(a: seq<Line>, b: seq<Line>, h: Hash)
    ensures SameIds(a, b, h) <==> SameCounts(a, b, h)
  {
    forall id
      ensures IdShown(a, h, id) <==> id.n < Count(a, h, id.base, true)
      ensures IdShown(b, h, id) <==> id.n < Count(b, h, id.base, true)
    {
      IdsFollowCounts(a, h, id);
      IdsFollowCounts(b, h, id);
    }
    if SameIds(a, b, h) {
      forall base ensures Count(a, h, base, true) == Count(b, h, base, true) {
        var x, y := Count(a, h, base, true), Count(b, h, base, true);
        var id := Id(base, if x < y then x else y);
        assert IdShown(a, h, id) <==> IdShown(b, h, id);
      }
    }
    if SameCounts(a, b, h) {
      forall id ensures IdShown(a, h, id) <==> IdShown(b, h, id) {
        assert Count(a, h, id.base, true) == Count(b, h, id.base, true);
      }
    }
  }

  function Carried(lines: seq<Line>, i: nat, e: nat): seq<Line>
    requires i < |lines| && e < |lines|
  {
    Inserted(Without(lines, i), e, lines[i])
  }

  /** Moving a card keeps the board's ids exactly when it is shown after the move just as it was before. */
  lemma MoveKeepsIdsExactlyWhen(lines: seq<Line>, h: Hash, i: nat, e: nat)
    requires i < |lines| && e < |lines| && lines[i].Card?
    ensures SameIds(lines, Carried(lines, i, e), h) <==> (Shown(lines, i) <==> Shown(Carried(lines, i, e), e))
  {
    var r, c := Without(lines, i), lines[i];
    InsertUndoesPop(lines, i);
    SameIdsMeansSameCounts(lines, Carried(lines, i, e), h);
    forall b
      ensures Count(lines, h, b, true) == Count(r, h, b, true) + if Shown(lines, i) && h(c.raw) == b then 1 else 0
      ensures Count(Carried(lines, i, e), h, b, true)
           == Count(r, h, b, true) + if Shown(Carried(lines, i, e), e) && h(c.raw) == b then 1 else 0
    {
      InsertedCard(r, i, c, h, b);
      InsertedCard(r, e, c, h, b);
    }
    var b := h(c.raw);
    assert Count(lines, h, b, true) == Count(Carried(lines, i, e), h, b, true)
      <==> (Shown(lines, i) <==> Shown(Carried(lines, i, e), e));
    if Shown(lines, i) <==> Shown(Carried(lines, i, e), e) {
      forall base ensures Count(lines, h, base, true) == Count(Carried(lines, i, e), h, base, true) {
        assert Count(lines, h, base, true) >= Count(r, h, base, true);
      }
      assert SameCounts(lines, Carried(lines, i, e), h);
    }
  }

  /** No line is lost, added or rewritten. */
  lemma MovePermutes(lines: seq<Line>, i: nat, e: nat)
    requires i < |lines| && e < |lines|
    ensures multiset(Carried(lines, i, e)) == multiset(lines)
  {
    InsertUndoesPop(lines, i);
    InsertedMultiset(Without(lines, i), i, lines[i]);
    InsertedMultiset(Without(lines, i), e, lines[i]);
  }

  /** The lines other than the card keep their order. */
  lemma MoveKeepsTheOthersInOrder(lines: seq<Line>, i: nat, e: nat)
    requires i < |lines| && e < |lines|
    ensures Carried(lines, i, e)[e] == lines[i] && Without(Carried(lines, i, e), e) == Without(lines, i)
  {
    var r := Without(lines, i);
    assert r == r[..e] + r[e..];
  }

  lemma InsertedMultiset(lines: seq<Line>, e: nat, c: Line)
    requires e <= |lines|
    ensures multiset(Inserted(lines, e, c)) == multiset(lines) + multiset{c}
  {
    assert lines == lines[..e] + lines[e..];
  }

  /** Deleting one of several cards with the same text retires the last of their ids, not its own. */
  lemma DeleteRetiresTheLastId(lines: seq<Line>, h: Hash, i: nat, id: Id)
    requires Shown(lines, i)
    ensures var b := h(lines[i].raw);
            IdShown(Without(lines, i), h, id) <==>
              IdShown(lines, h, id) && !(id.base == b && id.n + 1 == Count(lines, h, b, true))
  {
    InsertUndoesPop(lines, i);
    InsertedCard(Without(lines, i), i, lines[i], h, id.base);
    InsertedCard(Without(lines, i), i, lines[i], h, h(lines[i].raw));
    IdsFollowCounts(lines, h, id);
    IdsFollowCounts(Without(lines, i), h, id);
  }

  lemma {:induction false} TickChangesNoNumber(lines: seq<Line>, i: nat, done: bool, h: Hash, b: string, headed: bool)
    requires i < |lines| && lines[i].Card?
    ensures var r := lines[i := lines[i].(done := done)];
            Inside(r) == Inside(lines) && Heads(r) == Heads(lines)
                && Count(r, h, b, headed) == Count(lines, h, b, headed)
  {
    var r, n := lines[i := lines[i].(done := done)], |lines| - 1;
    if i < n {
      assert r[..n] == lines[..n][i := lines[i].(done := done)];
      TickChangesNoNumber(lines[..n], i, done, h, b, headed);
    } else {
      assert r[..n] == lines[..n];
    }
  }

  /** Ticking a card changes no card's id, column or place. */
  lemma TickKeepsIds(lines: seq<Line>, i: nat, done: bool, h: Hash, j: nat)
    requires i < |lines| && j < |lines| && lines[i].Card?
    ensures var r := lines[i := lines[i].(done := done)];
            && Shown(r, j) == Shown(lines, j) && Counted(r, j) == Counted(lines, j)
                && Heads(r[..j]) == Heads(lines[..j])
            && (lines[j].Card?
                ==> r[j].raw == lines[j].raw && forall headed :: IdAt(r, j, h, headed) == IdAt(lines, j, h, headed))
  {
    var r := lines[i := lines[i].(done := done)];
    if i < j {
      assert r[..j] == lines[..j][i := lines[i].(done := done)];
      forall b, headed ensures Count(r[..j], h, b, headed) == Count(lines[..j], h, b, headed) {
        TickChangesNoNumber(lines[..j], i, done, h, b, headed);
      }
      TickChangesNoNumber(lines[..j], i, done, h, "", true);
    } else {
      assert r[..j] == lines[..j];
    }
  }

  // ---- where a card lands ---------------------------------------------------

  function FirstHeading(lines: seq<Line>, title: string): (r: Option<nat>)
    ensures r.Some? ==> r.value < |lines| && lines[r.value] == Heading(title)
  {
    if lines == [] then None
    else
      var before := FirstHeading(lines[..|lines| - 1], title);
      if before.Some? then before
      else if lines[|lines| - 1] == Heading(title) then Some(|lines| - 1)
      else None
  }

  predicate Break(l: Line) { l.Heading? || l.Settings? }

  function LastCard(lines: seq<Line>, k: nat, last: nat): nat
    requires k <= |lines|
    decreases |lines| - k
  {
    if k == |lines| || Break(lines[k]) then last else LastCard(lines, k + 1, if lines[k].Card? then k else last)
  }

  /** Where `_column_bounds` ends a column, before `insert` clamps it to the file. */
  function ColumnEnd(lines: seq<Line>, start: nat): nat
    requires start < |lines|
  {
    var last := LastCard(lines, start + 1, start);
    if last > start then last + 1 else start + 2
  }

  function Clamp(e: nat, n: nat): nat { if e < n then e else n }

  ghost predicate Quiet(lines: seq<Line>, from: nat, to: nat)
    requires to <= |lines|
  {
    forall k :: from <= k < to ==> !Break(lines[k])
  }

  /** A card directly below the heading, with no other heading and no `%%` line in between. */
  ghost predicate HasCard(lines: seq<Line>, start: nat)
  {
    exists j :: start < j < |lines| && lines[j].Card? && Quiet(lines, start + 1, j)
  }

  lemma {:induction false} LastCardMeans(lines: seq<Line>, start: nat, k: nat, last: nat)
    requires start <= last < k <= |lines| && Quiet(lines, start + 1, k) && (last > start ==> lines[last].Card?)
    requires forall j :: last < j < k ==> !lines[j].Card?
    ensures var r := LastCard(lines, k, last);
            && start <= r < |lines| && Quiet(lines, start + 1, r) && (r > start ==> lines[r].Card?)
            && (r > start <==> HasCard(lines, start))
            && (forall j :: r < j < |lines| && Quiet(lines, start + 1, j) ==> !lines[j].Card?)
    decreases |lines| - k
  {
    if k < |lines| && !Break(lines[k]) {
      LastCardMeans(lines, start, k + 1, if lines[k].Card? then k else last);
    } else if last > start {
      assert HasCard(lines, start);
    }
  }

  lemma {:induction false} QuietChangesNothing(lines: seq<Line>, from: nat, to: nat)
    requires from <= to <= |lines| && Quiet(lines, from, to)
    ensures Inside(lines[..to]) == Inside(lines[..from]) && Heads(lines[..to]) == Heads(lines[..from])
  {
    if from < to {
      QuietChangesNothing(lines, from, to - 1);
      assert lines[..to][..to - 1] == lines[..to - 1];
    }
  }

  function PlacedAt(lines: seq<Line>, start: nat): nat
    requires start < |lines|
  {
    Clamp(ColumnEnd(lines, start), |lines|)
  }

  /** The card at line `e` is shown in the column that the heading at `start` opens. */
  predicate Lands(lines: seq<Line>, e: nat, start: nat)
    requires start < e
  {
    Shown(lines, e) && Visible(lines, start) && lines[start].Heading? && Heads(lines[..e]) == Heads(lines[..start]) + 1
  }

  lemma BoundsOf(lines: seq<Line>, start: nat)
    requires start < |lines| && lines[start].Heading?
    ensures var e := PlacedAt(lines, start);
            && start < e <= |lines|
            && (HasCard(lines, start) ==> Quiet(lines, start + 1, e))
            && (!HasCard(lines, start) ==> e == if start + 1 == |lines| then start + 1 else start + 2)
            && (!HasCard(lines, start) && start + 1 < |lines| ==> !lines[start + 1].Card?)
  {
    LastCardMeans(lines, start, start + 1, start);
    if start + 1 < |lines| && lines[start + 1].Card? { assert HasCard(lines, start); }
  }

  /** In a column that has a card, the place is the line after the last card before the next heading or `%%` line. */
  lemma PlaceFollowsTheLastCard(lines: seq<Line>, start: nat)
    requires start < |lines| && lines[start].Heading? && HasCard(lines, start)
    ensures var e := PlacedAt(lines, start);
            && start + 1 < e <= |lines| && lines[e - 1].Card? && Quiet(lines, start + 1, e)
            && forall j :: e <= j < |lines| && Quiet(lines, start + 1, j) ==> !lines[j].Card?
  {
    LastCardMeans(lines, start, start + 1, start);
  }

  /** The heading found is the first line that is one; nothing is found exactly when no line is. */
  lemma {:induction false} FirstHeadingIsFirst(lines: seq<Line>, title: string, k: nat)
    ensures FirstHeading(lines, title) == Some(k) <==>
              && k < |lines| && lines[k] == Heading(title)
              && forall j :: 0 <= j < k ==> lines[j] != Heading(title)
    ensures FirstHeading(lines, title) == None <==> forall j :: 0 <= j < |lines| ==> lines[j] != Heading(title)
  {
    if lines != [] {
      var n := |lines| - 1;
      FirstHeadingIsFirst(lines[..n], title, k);
      if FirstHeading(lines[..n], title).Some? {
        FirstHeadingIsFirst(lines[..n], title, FirstHeading(lines[..n], title).value);
      }
    }
  }

  lemma AfterHeading(lines: seq<Line>, start: nat, e: nat, c: Line)
    requires start < e <= |lines| && lines[start].Heading? && c.Card?
    ensures var r := Inserted(lines, e, c);
            && r[..e] == lines[..e] && r[..start] == lines[..start]
            && Visible(r, start) == Visible(lines, start) == !Inside(lines[..start + 1])
            && Heads(lines[..start + 1]) == Heads(lines[..start]) + if Visible(lines, start) then 1 else 0
  {
    var r := Inserted(lines, e, c);
    assert r[..e] == lines[..e] && r[..start] == lines[..start];
    assert lines[..start + 1][..start] == lines[..start];
  }

  /**
   * A card moved or added to a column lands in it exactly when the heading found is not inside a `%%` block and
   * the column has a card, or ends the file, or has a line that is neither a heading nor a `%%` line below its heading.
   */
  lemma CardLandsExactlyWhen(lines: seq<Line>, start: nat, c: Line)
    requires start < |lines| && lines[start].Heading? && c.Card?
    ensures start < PlacedAt(lines, start) <= |lines|
    ensures Lands(Inserted(lines, PlacedAt(lines, start), c), PlacedAt(lines, start), start) <==>
            Visible(lines, start) && (HasCard(lines, start) || start + 1 == |lines| || lines[start + 1].Text?)
  {
    var e := PlacedAt(lines, start);
    BoundsOf(lines, start);
    AfterHeading(lines, start, e, c);
    if HasCard(lines, start) || start + 1 == |lines| {
      QuietChangesNothing(lines, start + 1, e);
    } else {
      assert lines[..e][..start + 1] == lines[..start + 1];
    }
  }

  /** With another heading right below, the card opens the next column instead. */
  lemma NextHeadingTakesTheCard(lines: seq<Line>, start: nat, c: Line)
    requires start + 1 < |lines| && lines[start].Heading? && Visible(lines, start) && lines[start + 1].Heading?
        && c.Card?
    ensures var e := PlacedAt(lines, start); var r := Inserted(lines, e, c);
            e == start + 2 && Lands(r, e, start + 1) && !Lands(r, e, start)
  {
    var e := PlacedAt(lines, start);
    BoundsOf(lines, start);
    assert !HasCard(lines, start) by {
      if j :| start < j < |lines| && lines[j].Card? && Quiet(lines, start + 1, j) { assert Break(lines[start + 1]); }
    }
    AfterHeading(lines, start, e, c);
    AfterHeading(lines, start + 1, e, c);
  }

  /** With a `%%` line right below, the card disappears from the board. */
  lemma SettingsBelowHideTheCard(lines: seq<Line>, start: nat, c: Line)
    requires start + 1 < |lines| && lines[start].Heading? && Visible(lines, start) && lines[start + 1].Settings?
        && c.Card?
    ensures var e := PlacedAt(lines, start); e == start + 2 && !Shown(Inserted(lines, e, c), e)
  {
    var e := PlacedAt(lines, start);
    BoundsOf(lines, start);
    assert !HasCard(lines, start) by {
      if j :| start < j < |lines| && lines[j].Card? && Quiet(lines, start + 1, j) { assert Break(lines[start + 1]); }
    }
    AfterHeading(lines, start, e, c);
    assert lines[..e][..start + 1] == lines[..start + 1];
  }

  // ---- moving a card, end to end --------------------------------------------

  /** The file after a move, or nothing when the card or the column is unknown. */
  function Moved(lines: seq<Line>, h: Hash, id: Id, title: string): Option<seq<Line>>
  {
    LocateInRange(lines, h, id);
    var at := Locate(lines, h, id);
    if at.None? then None
    else
      var r := Without(lines, at.value);
      var start := FirstHeading(r, title);
      if start.None? then None else Some(Inserted(r, PlacedAt(r, start.value), lines[at.value]))
  }

  lemma {:induction false} BoardTitles(lines: seq<Line>, h: Hash, s: nat)
    requires Visible(lines, s) && lines[s].Heading?
    ensures Heads(lines[..s]) < Heads(lines) && Board(lines, h)[Heads(lines[..s])].title == lines[s].title
  {
    var n := |lines| - 1;
    if s < n {
      PrefixView(lines, n, s);
      BoardTitles(lines[..n], h, s);
    }
  }

  ghost predicate CanLand(lines: seq<Line>, start: nat)
  {
    Visible(lines, start) && lines[start].Heading? &&
    (HasCard(lines, start) || start + 1 == |lines| || lines[start + 1].Text?)
  }

  /**
   * A card the board shows, moved to a column it can land in: the file's other lines keep their order, the board's
   * ids stay the same, and the board shows the card in a column of that name.
   */
  lemma MoveDelivers(lines: seq<Line>, h: Hash, i: nat, title: string)
    requires Shown(lines, i) && NoOrphan(lines, h, h(lines[i].raw))
    requires var s := FirstHeading(Without(lines, i), title); s.Some? && CanLand(Without(lines, i), s.value)
    ensures var s := FirstHeading(Without(lines, i), title).value;
            var e := PlacedAt(Without(lines, i), s);
            var after := Moved(lines, h, IdAt(lines, i, h, true), title);
            && after.Some? && e < |lines| && after.value == Carried(lines, i, e)
            && SameIds(lines, after.value, h)
            && Heads(after.value[..s]) < Heads(after.value)
            && Board(after.value, h)[Heads(after.value[..s])].title == title
            && after.value[e] == lines[i] && ViewAt(after.value, e, h)
                in Board(after.value, h)[Heads(after.value[..s])].cards
  {
    var r := Without(lines, i);
    var s := FirstHeading(r, title).value;
    SearchAgreesExactlyWhen(lines, h, i);
    CardLandsExactlyWhen(r, s, lines[i]);
    var e := PlacedAt(r, s);
    var after := Inserted(r, e, lines[i]);
    AfterHeading(r, s, e, lines[i]);
    MoveKeepsIdsExactlyWhen(lines, h, i, e);
    assert after[s] == Heading(title);
    BoardTitles(after, h, s);
    BoardShows(after, h, Heads(after[..s]), ViewAt(after, e, h));
    assert ShownAs(after, h, Heads(after[..s]), ViewAt(after, e, h), e);
  }

  /** No card with that hash is shown on the lines from `from` up to `to`. */
  ghost predicate Clear(lines: seq<Line>, h: Hash, b: string, from: nat, to: nat)
  {
    forall k: nat :: from <= k < to && Shown(lines, k) ==> h(lines[k].raw) != b
  }

  lemma ClearSplit(lines: seq<Line>, h: Hash, b: string, from: nat, to: nat)
    requires from < to
    ensures Clear(lines, h, b, from, to) <==> Clear(lines, h, b, from, to - 1) && Clear(lines, h, b, to - 1, to)
  {
  }

  lemma CountStep(lines: seq<Line>, h: Hash, b: string, to: nat)
    requires 0 < to <= |lines|
    ensures Count(lines[..to], h, b, true)
         == Count(lines[..to - 1], h, b, true) + if Clear(lines, h, b, to - 1, to) then 0 else 1
  {
    assert lines[..to][..to - 1] == lines[..to - 1];
    PrefixView(lines, to, to - 1);
    if Shown(lines, to - 1) && h(lines[to - 1].raw) == b { assert !Clear(lines, h, b, to - 1, to); }
  }

  lemma {:induction false} CountFlatExactlyWhen(lines: seq<Line>, h: Hash, b: string, from: nat, to: nat)
    requires from <= to <= |lines|
    ensures Count(lines[..from], h, b, true) <= Count(lines[..to], h, b, true)
    ensures Count(lines[..from], h, b, true) == Count(lines[..to], h, b, true) <==> Clear(lines, h, b, from, to)
  {
    if from < to {
      CountFlatExactlyWhen(lines, h, b, from, to - 1);
      CountStep(lines, h, b, to);
      ClearSplit(lines, h, b, from, to);
    }
  }

  /** Taking a card out changes nothing about which other cards are shown. */
  lemma ShownWithout(lines: seq<Line>, i: nat, k: nat)
    requires i < |lines| && lines[i].Card? && k < |lines| - 1
    ensures var was := if k < i then k else k + 1;
            Without(lines, i)[k] == lines[was] && Shown(Without(lines, i), k) == Shown(lines, was)
  {
    var r := Without(lines, i);
    if k < i {
      assert r[..k] == lines[..k];
    } else {
      assert lines[..k + 1] == Inserted(r[..k], i, lines[i]);
      InsertedShape(r[..k], i, lines[i]);
    }
  }

  lemma ClearBelow(lines: seq<Line>, h: Hash, b: string, i: nat, e: nat)
    requires e <= i < |lines| && lines[i].Card?
    ensures Clear(Without(lines, i), h, b, e, i) <==> Clear(lines, h, b, e, i)
  {
    forall k: nat | k < i ensures Without(lines, i)[k] == lines[k] && Shown(Without(lines, i), k) == Shown(lines, k) {
      ShownWithout(lines, i, k);
    }
  }

  lemma ClearAbove(lines: seq<Line>, h: Hash, b: string, i: nat, e: nat)
    requires i < e < |lines| && lines[i].Card?
    ensures Clear(Without(lines, i), h, b, i, e) <==> Clear(lines, h, b, i + 1, e + 1)
  {
    var r := Without(lines, i);
    forall k: nat | i < k <= e ensures r[k - 1] == lines[k] && Shown(r, k - 1) == Shown(lines, k) {
      ShownWithout(lines, i, k - 1);
    }
    if k: nat :| i <= k < e && Shown(r, k) && h(r[k].raw) == b {
      assert Shown(lines, k + 1) by { ShownWithout(lines, i, k); }
    }
  }

  /** A moved card keeps its own id exactly when it does not pass a shown card with the same hash. */
  lemma MovedCardKeepsItsIdExactlyWhen(lines: seq<Line>, h: Hash, i: nat, e: nat)
    requires i < |lines| && e < |lines| && lines[i].Card?
    ensures Carried(lines, i, e)[e] == lines[i]
    ensures IdAt(Carried(lines, i, e), e, h, true) == IdAt(lines, i, h, true) <==>
            Clear(lines, h, h(lines[i].raw), e, i) && Clear(lines, h, h(lines[i].raw), i + 1, e + 1)
  {
    var r, b := Without(lines, i), h(lines[i].raw);
    assert Carried(lines, i, e)[..e] == r[..e] && r[..i] == lines[..i];
    if e <= i {
      CountFlatExactlyWhen(r, h, b, e, i);
      ClearBelow(lines, h, b, i, e);
    } else {
      CountFlatExactlyWhen(r, h, b, i, e);
      ClearAbove(lines, h, b, i, e);
    }
  }

  // ---- the operations as the code runs them ---------------------------------

  ghost predicate Tallies(seen: map<string, nat>, lines: seq<Line>, h: Hash, headed: bool)
  {
    forall b :: (if b in seen then seen[b] else 0) == Count(lines, h, b, headed)
  }

  class BoardFile {
    var lines: seq<Line>

    constructor (lines: seq<Line>)
      ensures this.lines == lines
    {
      this.lines := lines;
    }

    static method CardId(raw: string, h: Hash, seen: map<string, nat>) returns (id: Id, seen': map<string, nat>)
      ensures id == Id(h(raw), if h(raw) in seen then seen[h(raw)] else 0)
      ensures seen' == seen[h(raw) := id.n + 1]
    {
      var base := h(raw);
      var n := if base in seen then seen[base] else 0;
      id, seen' := Id(base, n), seen[base := n + 1];
    }

    method ReadBoard(h: Hash) returns (columns: seq<Column>)
      ensures columns == Board(lines, h)
    {
      columns := [];
      var seen: map<string, nat>, inSettings := map[], false;
      for i := 0 to |lines|
        invariant columns == Board(lines[..i], h) && inSettings == Inside(lines[..i])
        invariant Tallies(seen, lines[..i], h, true)
      {
        assert lines[..i + 1][..i] == lines[..i];
        PrefixView(lines, i + 1, i);
        var line := lines[i];
        if line.Settings? {
          inSettings := !inSettings;
          continue;
        }
        if inSettings {
          continue;
        }
        if line.Heading? {
          columns := columns + [Column(line.title, [])];
          continue;
        }
        if line.Card? && columns != [] {
          var id;
          id, seen := CardId(line.raw, h, seen);
          var last := columns[|columns| - 1];
          columns := columns[|columns| - 1 := last.(cards := last.cards + [View(id, line.raw, line.done)])];
        }
      }
      assert lines[..|lines|] == lines;
    }

    method Find(h: Hash, id: Id) returns (at: Option<nat>)
      ensures at == Locate(lines, h, id)
      ensures at.Some? ==> at.value < |lines| && lines[at.value].Card?
    {
      var seen: map<string, nat>, inSettings := map[], false;
      for i := 0 to |lines|
        invariant inSettings == Inside(lines[..i]) && Tallies(seen, lines[..i], h, false)
        invariant Locate(lines[..i], h, id) == None
      {
        assert lines[..i + 1][..i] == lines[..i];
        PrefixView(lines, i + 1, i);
        var line := lines[i];
        if line.Settings? {
          inSettings := !inSettings;
          continue;
        }
        if inSettings {
          continue;
        }
        if line.Card? {
          var found;
          found, seen := CardId(line.raw, h, seen);
          if found == id {
            LocateFinds(lines, h, id, i);
            return Some(i);
          }
        }
      }
      assert lines[..|lines|] == lines;
      return None;
    }

    /** `_column_bounds`, its end clamped as `insert` clamps it. */
    static method ColumnBounds(lines: seq<Line>, title: string) returns (found: bool, start: nat, end: nat)
      ensures found <==> FirstHeading(lines, title).Some?
      ensures found
          ==> FirstHeading(lines, title) == Some(start) && end == PlacedAt(lines, start) && start < end <= |lines|
    {
      found, start, end := false, 0, 0;
      while start < |lines| && lines[start] != Heading(title)
        invariant start <= |lines| && FirstHeading(lines[..start], title) == None
      {
        assert lines[..start + 1][..start] == lines[..start];
        start := start + 1;
      }
      if start == |lines| {
        assert lines[..start] == lines;
        return;
      }
      found := true;
      FirstHeadingAt(lines, title, start);
      var last, k := start, start + 1;
      while k < |lines| && !Break(lines[k])
        invariant start <= last < k <= |lines| && LastCard(lines, k, last) == LastCard(lines, start + 1, start)
      {
        if lines[k].Card? {
          last := k;
        }
        k := k + 1;
      }
      end := Clamp(if last > start then last + 1 else start + 2, |lines|);
    }

    method MoveCard(h: Hash, id: Id, title: string) returns (ok: bool)
      modifies this
      ensures ok <==> Moved(old(lines), h, id, title).Some?
      ensures lines == if ok then Moved(old(lines), h, id, title).value else old(lines)
    {
      var at := Find(h, id);
      if at.None? {
        return false;
      }
      var card := lines[at.value];
      var rest := lines[..at.value] + lines[at.value + 1..];
      var start, end;
      ok, start, end := ColumnBounds(rest, title);
      if ok {
        lines := rest[..end] + [card] + rest[end..];
      }
    }

    method AddCard(raw: string, title: string) returns (ok: bool)
      modifies this
      ensures ok <==> FirstHeading(old(lines), title).Some?
      ensures lines == if ok then Inserted(old(lines), PlacedAt(old(lines), FirstHeading(old(lines), title).value),
          Card(false, raw))
                       else old(lines)
    {
      var start, end;
      ok, start, end := ColumnBounds(lines, title);
      if ok {
        lines := lines[..end] + [Card(false, raw)] + lines[end..];
      }
    }

    method SetDone(h: Hash, id: Id, done: bool) returns (ok: bool)
      modifies this
      ensures ok <==> Locate(old(lines), h, id).Some?
      ensures ok ==> var i := Locate(old(lines), h, id).value;
                     i < |old(lines)| && old(lines)[i].Card? && lines == old(lines)[i := old(lines)[i].(done := done)]
      ensures !ok ==> lines == old(lines)
    {
      var at := Find(h, id);
      ok := at.Some?;
      if ok {
        lines := lines[at.value := Card(done, lines[at.value].raw)];
      }
    }

    method DeleteCard(h: Hash, id: Id) returns (ok: bool)
      modifies this
      ensures ok <==> Locate(old(lines), h, id).Some?
      ensures ok ==> var i := Locate(old(lines), h, id).value; i < |old(lines)| && lines == Without(old(lines), i)
      ensures !ok ==> lines == old(lines)
    {
      var at := Find(h, id);
      ok := at.Some?;
      if ok {
        lines := lines[..at.value] + lines[at.value + 1..];
      }
    }
  }

  lemma {:induction false} FirstHeadingAt(lines: seq<Line>, title: string, start: nat)
    requires start < |lines| && lines[start] == Heading(title) && FirstHeading(lines[..start], title) == None
    ensures FirstHeading(lines, title) == Some(start)
  {
    var n := |lines| - 1;
    if start < n {
      assert lines[..n][..start] == lines[..start];
      FirstHeadingAt(lines[..n], title, start);
    } else {
      assert lines[..n] == lines[..start];
    }
  }
}
