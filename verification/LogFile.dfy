/**
 * The board's log as bytes: one JSON line per event, UTF-8 encoded and appended under the lock, read back line by line
 * with unreadable lines skipped. A crash in the middle of a write leaves a line that is not ended, and possibly a
 * character that is not: then decoding fails, and with it every read of the board.
 */
module LogFile {
  import opened Order
  import opened Splitting
  import opened Utf8

  const NEWLINE: byte := 10
  const BRACE: byte := 123  // what every JSON object begins with

  datatype Codec<!E> = Codec(encode: E -> Bytes, parse: Bytes -> Option<E>)

  // ---- reading --------------------------------------------------------------

  /** The part after the last newline. */
  function Tail(text: Bytes): Bytes { Cut(text, {NEWLINE}).tail }

  function Parsed<E>(c: Codec<E>, line: Bytes): seq<E>
  {
    var r := c.parse(line);
    if line == [] || r.None? then [] else [r.value]
  }

  function ParsedLines<E>(c: Codec<E>, lines: seq<Bytes>): seq<E>
  {
    if lines == [] then [] else ParsedLines(c, lines[..|lines| - 1]) + Parsed(c, lines[|lines| - 1])
  }

  /** The events on the lines of `text` that end with a newline. */
  function Ended<E>(c: Codec<E>, text: Bytes): seq<E> { ParsedLines(c, Cut(text, {NEWLINE}).done) }

  /** The events of `text` once decoded; a last line without a newline is read like any other. */
  function Read<E>(c: Codec<E>, text: Bytes): seq<E> { Ended(c, text) + Parsed(c, Tail(text)) }

  /** One write: `n` bytes of the line reached the file before the crash, or all of it and its newline. */
  datatype Write<E> = Whole(e: E) | Torn(e: E, n: nat)

  /** The bytes that reach the file. */
  function Chunk<E>(c: Codec<E>, w: Write<E>): Bytes
  {
    match w
    case Whole(e) => c.encode(e) + [NEWLINE]
    case Torn(e, n) => if n < |c.encode(e)| then c.encode(e)[..n] else c.encode(e)
  }

  function Written<E>(c: Codec<E>, text: Bytes, w: Write<E>): Bytes { text + Chunk(c, w) }

  function Run<E>(c: Codec<E>, ws: seq<Write<E>>): Bytes
  {
    if ws == [] then [] else Written(c, Run(c, ws[..|ws| - 1]), ws[|ws| - 1])
  }

  // ---- what the encoder and the parser are known to do ----------------------

  ghost predicate Piece<E(!new)>(c: Codec<E>, s: Bytes)
  {
    s != [] && exists e :: s <= c.encode(e)
  }

  function Joined(ps: seq<Bytes>): Bytes { if ps == [] then [] else Joined(ps[..|ps| - 1]) + ps[|ps| - 1] }

  ghost predicate Pieces<E(!new)>(c: Codec<E>, ps: seq<Bytes>) { forall i :: 0 <= i < |ps| ==> Piece(c, ps[i]) }

  /**
   * Facts about writing and reading JSON objects: a line is whole characters, begins with a brace, has no newline and
   * reads back as its event; a piece of a line is unreadable unless it is all of it, and so is anything made of two
   * pieces or more.
   */
  ghost predicate Lawful<E(!new)>(c: Codec<E>)
  {
    && (forall e :: LineLike(c.encode(e)) && c.parse(c.encode(e)) == Some(e))
    && (forall e, n: nat :: n < |c.encode(e)| ==> c.parse(c.encode(e)[..n]) == None)
    && (forall ps :: |ps| >= 2 && Pieces(c, ps) ==> c.parse(Joined(ps)) == None)
  }

  predicate LineLike(line: Bytes) { line != [] && line[0] == BRACE && NEWLINE !in line && Decodes(line) }

  // ---- the same run on events -----------------------------------------------

  /** The events on ended lines, the pieces on the last line, and the event those pieces still spell, if any. */
  datatype Log<E> = Log(ended: seq<E>, pieces: seq<Bytes>, hanging: Option<E>)

  function Step<E>(c: Codec<E>, l: Log<E>, w: Write<E>): Log<E>
  {
    match w
    case Whole(e) => Log(if l.pieces == [] then l.ended + [e] else l.ended, [], None)
    case Torn(e, n) =>
      if n == 0 || c.encode(e) == [] then l
      else if n < |c.encode(e)| then Log(l.ended, l.pieces + [c.encode(e)[..n]], None)
      else Log(l.ended, l.pieces + [c.encode(e)], if l.pieces == [] then Some(e) else None)
  }

  function Steps<E>(c: Codec<E>, ws: seq<Write<E>>): Log<E>
  {
    if ws == [] then Log([], [], None) else Step(c, Steps(c, ws[..|ws| - 1]), ws[|ws| - 1])
  }

  function Readable<E>(l: Log<E>): seq<E> { l.ended + if l.hanging.Some? then [l.hanging.value] else [] }

  // ---- text and events agree ------------------------------------------------

  lemma TextGrows(text: Bytes, s: Bytes)
    requires NEWLINE !in s
    ensures Cut(text + s, {NEWLINE}) == Cutting(Cut(text, {NEWLINE}).done, Tail(text) + s)
  {
    assert forall i :: 0 <= i < |s| ==> s[i] in s;
    CutGrows(text, s, {NEWLINE});
  }

  /** The lines hold the log: those that ended read as `ended`, and the last is made of `pieces`. */
  ghost predicate Holds<E(!new)>(c: Codec<E>, lines: Cutting<byte>, l: Log<E>)
  {
    lines.tail == Joined(l.pieces) && Pieces(c, l.pieces) && ParsedLines(c, lines.done) == l.ended && Hangs(c, l)
  }

  /** A single piece is the whole line of the hanging event, or unreadable. */
  ghost predicate Hangs<E>(c: Codec<E>, l: Log<E>)
  {
    && (l.hanging.Some? ==> |l.pieces| == 1 && c.parse(l.pieces[0]) == l.hanging)
    && (l.hanging.None? && |l.pieces| == 1 ==> c.parse(l.pieces[0]) == None)
  }

  lemma JoinedSnoc(ps: seq<Bytes>, s: Bytes)
    ensures Joined(ps + [s]) == Joined(ps) + s && Joined([s]) == s
  {
    assert (ps + [s])[..|ps|] == ps && [s][..0] == [];
  }

  lemma {:induction false} JoinedPieces<E(!new)>(c: Codec<E>, ps: seq<Bytes>)
    requires Pieces(c, ps) && ps != []
    ensures Joined(ps) != []
  {
    assert Piece(c, ps[|ps| - 1]);
  }

  lemma HeldReads<E(!new)>(c: Codec<E>, lines: Cutting<byte>, l: Log<E>)
    requires Holds(c, lines, l) && (|l.pieces| >= 2 ==> c.parse(Joined(l.pieces)) == None)
    ensures ParsedLines(c, lines.done) + Parsed(c, lines.tail) == Readable(l)
  {
    if l.pieces != [] {
      JoinedPieces(c, l.pieces);
      JoinedSnoc([], l.pieces[0]);
      assert |l.pieces| == 1 ==> l.pieces == [l.pieces[0]];
    }
  }

  lemma PieceOf<E(!new)>(c: Codec<E>, e: E, s: Bytes)
    requires s != [] && s <= c.encode(e)
    ensures Piece(c, s)
  {
  }

  lemma PiecesSnoc<E(!new)>(c: Codec<E>, ps: seq<Bytes>, s: Bytes)
    requires Pieces(c, ps) && Piece(c, s)
    ensures Pieces(c, ps + [s])
  {
  }

  lemma PieceAdded<E(!new)>(c: Codec<E>, lines: Cutting<byte>, l: Log<E>, s: Bytes, l': Log<E>)
    requires Holds(c, lines, l) && Piece(c, s) && l'.ended == l.ended && l'.pieces == l.pieces + [s] && Hangs(c, l')
    ensures Holds(c, Cutting(lines.done, lines.tail + s), l')
  {
    PiecesSnoc(c, l.pieces, s);
    JoinedSnoc(l.pieces, s);
  }

  lemma TornStep<E(!new)>(c: Codec<E>, lines: Cutting<byte>, l: Log<E>, e: E, n: nat, s: Bytes)
    requires Holds(c, lines, l) && 0 < n && c.encode(e) != [] && c.parse(c.encode(e)) == Some(e)
    requires s == if n < |c.encode(e)| then c.encode(e)[..n] else c.encode(e)
    requires n < |c.encode(e)| ==> c.parse(s) == None
    ensures Holds(c, Cutting(lines.done, lines.tail + s), Step(c, l, Torn(e, n)))
  {
    PieceOf(c, e, s);
    PieceAdded(c, lines, l, s, Step(c, l, Torn(e, n)));
  }

  lemma JoinedWithLine<E>(c: Codec<E>, ps: seq<Bytes>, e: E)
    requires c.encode(e) != [] && c.parse(c.encode(e)) == Some(e)
    requires ps != [] ==> c.parse(Joined(ps + [c.encode(e)])) == None
    ensures Parsed(c, Joined(ps) + c.encode(e)) == if ps == [] then [e] else []
  {
    JoinedSnoc(ps, c.encode(e));
    if ps == [] {
      assert Joined(ps) + c.encode(e) == c.encode(e);
    }
  }

  lemma WholeStep<E(!new)>(c: Codec<E>, lines: Cutting<byte>, l: Log<E>, e: E)
    requires Holds(c, lines, l) && c.encode(e) != [] && c.parse(c.encode(e)) == Some(e)
    requires l.pieces != [] ==> c.parse(Joined(l.pieces + [c.encode(e)])) == None
    ensures Holds(c, Cutting(lines.done + [lines.tail + c.encode(e)], []), Step(c, l, Whole(e)))
  {
    JoinedWithLine(c, l.pieces, e);
    var ended := lines.done + [lines.tail + c.encode(e)];
    assert ended[..|lines.done|] == lines.done;
  }

  /** What a write does to the lines of the file. */
  function LinesAfter<E>(c: Codec<E>, lines: Cutting<byte>, w: Write<E>): Cutting<byte>
  {
    match w
    case Whole(e) => Cutting(lines.done + [lines.tail + c.encode(e)], [])
    case Torn(_, _) => Cutting(lines.done, lines.tail + Chunk(c, w))
  }

  lemma LinesWritten<E>(c: Codec<E>, text: Bytes, w: Write<E>)
    requires NEWLINE !in c.encode(w.e)
    ensures Cut(Written(c, text, w), {NEWLINE}) == LinesAfter(c, Cut(text, {NEWLINE}), w)
  {
    if w.Whole? {
      TextGrows(text, c.encode(w.e));
      CutEnds(text + c.encode(w.e), NEWLINE, {NEWLINE});
      assert text + c.encode(w.e) + [NEWLINE] == Written(c, text, w);
    } else {
      TextGrows(text, Chunk(c, w));
    }
  }

  lemma ManyPieces<E(!new)>(c: Codec<E>, ps: seq<Bytes>, e: E)
    requires Lawful(c) && Pieces(c, ps) && ps != []
    ensures c.parse(Joined(ps + [c.encode(e)])) == None
  {
    assert LineLike(c.encode(e));
    PieceOf(c, e, c.encode(e));
    PiecesSnoc(c, ps, c.encode(e));
  }

  /** What the next write needs of the codec. */
  ghost predicate ParsesRight<E>(c: Codec<E>, ps: seq<Bytes>, w: Write<E>)
  {
    var line := c.encode(w.e);
    && line != [] && NEWLINE !in line && c.parse(line) == Some(w.e)
    && (w.Torn? && w.n < |line| ==> c.parse(line[..w.n]) == None)
    && (ps != [] ==> c.parse(Joined(ps + [line])) == None)
  }

  lemma LawfulParsesRight<E(!new)>(c: Codec<E>, ps: seq<Bytes>, w: Write<E>)
    requires Lawful(c) && Pieces(c, ps)
    ensures ParsesRight(c, ps, w)
  {
    assert LineLike(c.encode(w.e));
    if ps != [] { ManyPieces(c, ps, w.e); }
  }

  lemma StepHolds<E(!new)>(c: Codec<E>, lines: Cutting<byte>, l: Log<E>, w: Write<E>)
    requires Holds(c, lines, l) && ParsesRight(c, l.pieces, w)
    ensures Holds(c, LinesAfter(c, lines, w), Step(c, l, w))
  {
    if w.Whole? {
      WholeStep(c, lines, l, w.e);
    } else if w.n > 0 {
      TornStep(c, lines, l, w.e, w.n, Chunk(c, w));
    } else {
      assert LinesAfter(c, lines, w) == lines;
    }
  }

  /** Reading the decoded file after any run of writes and crashes gives what the run on events says. */
  lemma {:induction false} RunReads<E(!new)>(c: Codec<E>, ws: seq<Write<E>>)
    requires Lawful(c)
    ensures Holds(c, Cut(Run(c, ws), {NEWLINE}), Steps(c, ws)) && Read(c, Run(c, ws)) == Readable(Steps(c, ws))
  {
    if ws == [] {
      assert Cut(Run(c, ws), {NEWLINE}) == Cutting([], []);
    } else {
      RunReads(c, ws[..|ws| - 1]);
      var before, w := Run(c, ws[..|ws| - 1]), ws[|ws| - 1];
      LawfulParsesRight(c, Steps(c, ws[..|ws| - 1]).pieces, w);
      LinesWritten(c, before, w);
      StepHolds(c, Cut(before, {NEWLINE}), Steps(c, ws[..|ws| - 1]), w);
    }
    HeldReads(c, Cut(Run(c, ws), {NEWLINE}), Steps(c, ws));
  }

  // ---- when the board can be read at all ------------------------------------

  /** What `events()` does: it returns the events, or the decoder raises before any is returned. */
  datatype Outcome<E> = Events(es: seq<E>) | Raises

  function ReadBoard<E>(c: Codec<E>, text: Bytes): Outcome<E>
  {
    if Decodes(text) then Events(Read(c, text)) else Raises
  }

  /** The crash came in the middle of a character. */
  predicate TornInside<E>(c: Codec<E>, w: Write<E>)
  {
    w.Torn? && w.n < |c.encode(w.e)| && !Decodes(c.encode(w.e)[..w.n])
  }

  predicate AnyTornInside<E>(c: Codec<E>, ws: seq<Write<E>>)
  {
    ws != [] && (AnyTornInside(c, ws[..|ws| - 1]) || TornInside(c, ws[|ws| - 1]))
  }

  lemma ChunkShape<E>(c: Codec<E>, w: Write<E>)
    requires LineLike(c.encode(w.e))
    ensures Chunk(c, w) == [] || Chunk(c, w)[0] == BRACE
    ensures Decodes(Chunk(c, w)) <==> !TornInside(c, w)
  {
    if w.Whole? {
      DecodeAppend(Boundary, c.encode(w.e), [NEWLINE]);
      assert [NEWLINE][..0] == [];
    }
  }

  /** The board can be read exactly when no write was torn inside a character; later appends never mend it. */
  lemma {:induction false} ReadableExactlyWhen<E(!new)>(c: Codec<E>, ws: seq<Write<E>>)
    requires Lawful(c)
    ensures ReadBoard(c, Run(c, ws)) == if AnyTornInside(c, ws) then Raises else Events(Readable(Steps(c, ws)))
  {
    RunReads(c, ws);
    if ws != [] {
      var front, w := ws[..|ws| - 1], ws[|ws| - 1];
      ReadableExactlyWhen(c, front);
      assert LineLike(c.encode(w.e));
      var s := Chunk(c, w);
      ChunkShape(c, w);
      DecodeAppend(Boundary, Run(c, front), s);
      DecodeShape(Run(c, front));
      if !Decodes(Run(c, front)) && s != [] {
        NeverMended(Decode(Boundary, Run(c, front)), s);
      }
    }
  }

  lemma {:induction false} TornSomewhere<E>(c: Codec<E>, before: seq<Write<E>>, w: Write<E>, later: seq<Write<E>>)
    requires TornInside(c, w)
    ensures AnyTornInside(c, before + [w] + later)
    decreases |later|
  {
    var ws := before + [w] + later;
    if later == [] {
      assert ws[|ws| - 1] == w;
    } else {
      TornSomewhere(c, before, w, later[..|later| - 1]);
      assert ws[..|ws| - 1] == before + [w] + later[..|later| - 1];
    }
  }

  /** An append is readable, with everything before it, exactly when the board was and ended with a whole line. */
  lemma AppendSurvivesExactlyWhen<E(!new)>(c: Codec<E>, ws: seq<Write<E>>, e: E)
    requires Lawful(c)
    ensures ReadBoard(c, Run(c, ws + [Whole(e)])) == Events(Read(c, Run(c, ws)) + [e]) <==>
            !AnyTornInside(c, ws) && Tail(Run(c, ws)) == []
  {
    var all := ws + [Whole(e)];
    assert all[..|all| - 1] == ws && all[|all| - 1] == Whole(e);
    RunReads(c, ws);
    ReadableExactlyWhen(c, all);
    TailOfPieces(c, Cut(Run(c, ws), {NEWLINE}), Steps(c, ws));
    WholeIsRead(c, Steps(c, ws), e);
    assert AnyTornInside(c, all) == AnyTornInside(c, ws);
  }

  lemma WholeIsRead<E>(c: Codec<E>, l: Log<E>, e: E)
    requires l.pieces == [] ==> l.hanging.None?
    ensures Readable(Step(c, l, Whole(e))) == Readable(l) + [e] <==> l.pieces == []
  {
    assert l.pieces != [] ==> |Readable(Step(c, l, Whole(e)))| < |Readable(l) + [e]|;
  }

  lemma TailOfPieces<E(!new)>(c: Codec<E>, lines: Cutting<byte>, l: Log<E>)
    requires Holds(c, lines, l)
    ensures lines.tail == [] <==> l.pieces == []
    ensures l.pieces == [] ==> l.hanging.None?
  {
    if l.pieces != [] { JoinedPieces(c, l.pieces); }
  }

  lemma HangThenSwallow<E>(c: Codec<E>, a: E, b: E, one: seq<Write<E>>, two: seq<Write<E>>)
    requires c.encode(a) != [] && one == [Torn(a, |c.encode(a)|)] && two == one + [Whole(b)]
    ensures Readable(Steps(c, one)) == [a] && Readable(Steps(c, two)) == []
    ensures !AnyTornInside(c, one) && !AnyTornInside(c, two)
  {
    var torn := Torn(a, |c.encode(a)|);
    assert one[..0] == [] && two[..1] == one;
    assert Steps(c, []) == Log([], [], None) && Steps(c, one) == Step(c, Steps(c, []), torn);
    assert !TornInside(c, torn) && !TornInside(c, Whole(b));
    assert !AnyTornInside(c, one);
  }

  /** A crash that lost only the newline costs two events: the one it wrote in full, and the next. */
  lemma LostNewlineCostsTwo<E(!new)>(c: Codec<E>, a: E, b: E, one: seq<Write<E>>, two: seq<Write<E>>)
    requires Lawful(c) && one == [Torn(a, |c.encode(a)|)] && two == one + [Whole(b)]
    ensures ReadBoard(c, Run(c, one)) == Events([a])
    ensures ReadBoard(c, Run(c, two)) == Events([])
  {
    LinesNotEmpty(c, a);
    HangThenSwallow(c, a, b, one, two);
    ReadsAs(c, one, [a]);
    ReadsAs(c, two, []);
  }

  lemma LinesNotEmpty<E(!new)>(c: Codec<E>, e: E)
    requires Lawful(c)
    ensures c.encode(e) != []
  {
    assert LineLike(c.encode(e));
  }

  lemma ReadsAs<E(!new)>(c: Codec<E>, ws: seq<Write<E>>, es: seq<E>)
    requires Lawful(c) && Readable(Steps(c, ws)) == es && !AnyTornInside(c, ws)
    ensures ReadBoard(c, Run(c, ws)) == Events(es)
  {
    ReadableExactlyWhen(c, ws);
  }

  function Wholes<E>(ws: seq<Write<E>>): nat
  {
    if ws == [] then 0 else Wholes(ws[..|ws| - 1]) + if ws[|ws| - 1].Whole? then 1 else 0
  }

  lemma {:induction false} CrashesCostAtMost<E(!new)>(c: Codec<E>, ws: seq<Write<E>>)
    ensures |Steps(c, ws).ended| + |ws| - Wholes(ws) >= Wholes(ws) + if Steps(c, ws).pieces == [] then 0 else 1
  {
    if ws != [] { CrashesCostAtMost(c, ws[..|ws| - 1]); }
  }

  /** While no crash comes inside a character, each costs at most one event besides the one it interrupted. */
  lemma LossIsBounded<E(!new)>(c: Codec<E>, ws: seq<Write<E>>)
    requires Lawful(c) && !AnyTornInside(c, ws)
    ensures ReadBoard(c, Run(c, ws)).Events?
    ensures |ReadBoard(c, Run(c, ws)).es| >= Wholes(ws) - (|ws| - Wholes(ws))
  {
    ReadableExactlyWhen(c, ws);
    CrashesCostAtMost(c, ws);
  }
}
