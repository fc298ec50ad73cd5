/**
 * The bus inbox as text. Readers of the file end a line at a newline; the rewrite of an ack reads it with
 * `str.splitlines`, which also ends one at three Unicode characters that JSON leaves as they are.
 */
module InboxText {
  import opened Order
  import opened Splitting

  /** A message; `body` stands for every field but its id and its flag. */
  datatype Rec = Rec(id: string, body: string, acked: bool)

  datatype Codec = Codec(encode: Rec -> string, parse: string -> Option<Rec>)

  // ---- two ways to split a file ---------------------------------------------

  const NL: set<char> := {'\n'}

  /** NEXT LINE, LINE SEPARATOR, PARAGRAPH SEPARATOR. The other breaks are control characters, which JSON escapes. */
  const SEPARATORS: set<char> := {'\U{85}', '\U{2028}', '\U{2029}'}
  const ALL: set<char> := NL + SEPARATORS

  function Lines(text: string, at: set<char>): seq<string>
  {
    Cut(text, at).done + if Cut(text, at).tail == "" then [] else [Cut(text, at).tail]
  }

  /** Lines that do not parse are skipped. */
  function Parsed(c: Codec, lines: seq<string>): seq<Rec>
  {
    if lines == [] then []
    else
      var r := c.parse(lines[|lines| - 1]);
      Parsed(c, lines[..|lines| - 1]) + if r.Some? then [r.value] else []
  }

  function Reads(c: Codec, file: string, at: set<char>): seq<Rec> { Parsed(c, Lines(file, at)) }

  /** What the rewrite makes of one line of the file. */
  function Pieces(line: string): seq<string> { Cut(line + "\n", ALL).done }

  // ---- what the encoder and the parser are known to do ----------------------

  predicate Breaks(s: string) { exists i :: 0 <= i < |s| && s[i] in SEPARATORS }

  predicate Clean(r: Rec) { !Breaks(r.id) && !Breaks(r.body) }

  /** Not a message: unreadable, or an object without an id. */
  predicate Hollow(c: Codec, line: string) { c.parse(line).Some? ==> c.parse(line).value.id == "" }

  /**
   * Facts about JSON lines: a line has no newline and reads back as its message; separators are written as they are;
   * and no piece of a line that was cut at one is a message.
   */
  ghost predicate Lawful(c: Codec)
  {
    RoundTrips(c) && (forall r :: Clean(r) <==> !Breaks(c.encode(r))) && CutsAreHollow(c)
  }

  ghost predicate RoundTrips(c: Codec) { forall r :: '\n' !in c.encode(r) && c.parse(c.encode(r)) == Some(r) }

  ghost predicate CutsAreHollow(c: Codec)
  {
    forall r, p :: !Clean(r) && p in Pieces(c.encode(r)) ==> Hollow(c, p)
  }

  /** A line no reader takes for a message, whole or in pieces. */
  ghost predicate Junk(c: Codec, line: string)
  {
    '\n' !in line && Hollow(c, line) && forall p :: p in Pieces(line) ==> Hollow(c, p)
  }

  ghost predicate LineOk(c: Codec, line: string) { (exists r :: line == c.encode(r)) || Junk(c, line) }

  /** Whole lines, each a written message or junk. */
  ghost predicate FileOk(c: Codec, file: string)
  {
    Cut(file, NL).tail == "" && AllOk(c, Cut(file, NL).done)
  }

  ghost predicate AllOk(c: Codec, lines: seq<string>)
  {
    lines == [] || (AllOk(c, lines[..|lines| - 1]) && LineOk(c, lines[|lines| - 1]))
  }

  // ---- splitting ------------------------------------------------------------

  lemma CutTextLine(s: string, at: set<char>)
    requires '\n' in at && forall i :: 0 <= i < |s| ==> s[i] !in at
    ensures Cut(s + "\n", at) == Cutting([s], "")
  {
    assert "\n" == ['\n'];
    CutLine(s, '\n', at);
  }

  lemma CutTextEnds(s: string)
    ensures Cut(s + "\n", ALL).tail == ""
  {
    assert "\n" == ['\n'];
    CutEnds(s, '\n', ALL);
  }

  function Text(lines: seq<string>): string
  {
    if lines == [] then "" else Text(lines[..|lines| - 1]) + lines[|lines| - 1] + "\n"
  }

  /** A file is the text of its lines. */
  lemma {:induction false} CutIsText(file: string)
    ensures file == Text(Cut(file, NL).done) + Cut(file, NL).tail
  {
    if file != "" {
      var front, last := file[..|file| - 1], file[|file| - 1];
      CutIsText(front);
      assert file == front + [last];
      var c := Cut(front, NL);
      if last in NL {
        assert (c.done + [c.tail])[..|c.done|] == c.done;
        assert Text(c.done + [c.tail]) == Text(c.done) + c.tail + "\n";
      }
    }
  }

  lemma NoNewline(s: string)
    requires '\n' !in s
    ensures forall i :: 0 <= i < |s| ==> s[i] !in NL
  {
    assert forall i :: 0 <= i < |s| ==> s[i] in s;
  }

  lemma TextSnoc(lines: seq<string>, last: string)
    ensures Text(lines + [last]) == Text(lines) + (last + "\n")
  {
    assert (lines + [last])[..|lines|] == lines;
  }

  lemma LineAppended(file: string, line: string)
    requires Cut(file, NL).tail == "" && '\n' !in line
    ensures Cut(file + (line + "\n"), NL) == Cutting(Cut(file, NL).done + [line], "")
  {
    NoNewline(line);
    CutTextLine(line, NL);
    CutConcat(file, line + "\n", NL);
  }

  lemma {:induction false} ParsedConcat(c: Codec, a: seq<string>, b: seq<string>)
    ensures Parsed(c, a + b) == Parsed(c, a) + Parsed(c, b)
    decreases |b|
  {
    if b == [] {
      assert a + b == a;
    } else {
      ParsedConcat(c, a, b[..|b| - 1]);
      assert (a + b)[..|a + b| - 1] == a + b[..|b| - 1];
    }
  }

  // ---- messages -------------------------------------------------------------

  /** The messages among the objects read: those with an id. */
  function Real(rs: seq<Rec>): seq<Rec>
  {
    if rs == [] then [] else Real(rs[..|rs| - 1]) + if rs[|rs| - 1].id != "" then [rs[|rs| - 1]] else []
  }

  function CleanOnly(rs: seq<Rec>): seq<Rec>
  {
    if rs == [] then [] else CleanOnly(rs[..|rs| - 1]) + if Clean(rs[|rs| - 1]) then [rs[|rs| - 1]] else []
  }

  function MarkOne(r: Rec, ids: set<string>): Rec { if r.id in ids then r.(acked := true) else r }

  function Mark(rs: seq<Rec>, ids: set<string>): (r: seq<Rec>)
    ensures |r| == |rs| && forall i :: 0 <= i < |rs| ==> r[i] == MarkOne(rs[i], ids)
  {
    seq(|rs|, i requires 0 <= i < |rs| => MarkOne(rs[i], ids))
  }

  lemma {:induction false} RealConcat(a: seq<Rec>, b: seq<Rec>)
    ensures Real(a + b) == Real(a) + Real(b)
    decreases |b|
  {
    if b == [] {
      assert a + b == a;
    } else {
      RealConcat(a, b[..|b| - 1]);
      assert (a + b)[..|a + b| - 1] == a + b[..|b| - 1];
    }
  }

  lemma RealSnoc(rs: seq<Rec>, r: Rec)
    ensures Real(rs + [r]) == Real(rs) + if r.id != "" then [r] else []
  {
    assert (rs + [r])[..|rs|] == rs;
  }

  lemma CleanSnoc(rs: seq<Rec>, r: Rec)
    ensures CleanOnly(rs + [r]) == CleanOnly(rs) + if Clean(r) then [r] else []
  {
    assert (rs + [r])[..|rs|] == rs;
  }

  lemma MarkSnoc(rs: seq<Rec>, r: Rec, ids: set<string>)
    ensures Mark(rs + [r], ids) == Mark(rs, ids) + [MarkOne(r, ids)]
  {
  }

  lemma {:induction false} RealOfMark(rs: seq<Rec>, ids: set<string>)
    ensures Real(Mark(rs, ids)) == Mark(Real(rs), ids)
  {
    if rs != [] {
      var front, last := rs[..|rs| - 1], rs[|rs| - 1];
      RealOfMark(front, ids);
      MarkSnoc(front, last, ids);
      assert front + [last] == rs;
      assert Mark(rs, ids)[..|front|] == Mark(front, ids);
      if last.id != "" { MarkSnoc(Real(front), last, ids); }
    }
  }

  // ---- the reader of the rewrite against the others -------------------------

  lemma {:induction false} HollowLines(c: Codec, lines: seq<string>)
    requires forall l :: l in lines ==> Hollow(c, l)
    ensures Real(Parsed(c, lines)) == []
  {
    if lines != [] {
      var front, last := lines[..|lines| - 1], lines[|lines| - 1];
      HollowLines(c, front);
      assert Hollow(c, last);
      if c.parse(last).Some? {
        RealSnoc(Parsed(c, front), c.parse(last).value);
      } else {
        assert Parsed(c, lines) == Parsed(c, front);
      }
    }
  }

  /** Read by both readers if it is a clean message, and only by those that end lines at newlines if not. */
  ghost predicate ReadTwice(c: Codec, line: string)
  {
    '\n' !in line && Real(Parsed(c, Pieces(line))) == CleanOnly(Real(Parsed(c, [line])))
  }

  lemma JunkReadTwice(c: Codec, line: string)
    requires Junk(c, line)
    ensures ReadTwice(c, line)
  {
    HollowLines(c, Pieces(line));
    HollowLines(c, [line]);
  }

  lemma OneMessage(c: Codec, r: Rec, line: string)
    requires c.parse(line) == Some(r)
    ensures Parsed(c, [line]) == [r] && CleanOnly(Real([r])) == if Clean(r) then Real([r]) else []
  {
    assert [line][..0] == [] && [r][..0] == [];
  }

  lemma WholePiece(line: string)
    requires '\n' !in line && !Breaks(line)
    ensures Pieces(line) == [line]
  {
    assert forall i :: 0 <= i < |line| ==> line[i] !in ALL;
    CutTextLine(line, ALL);
  }

  lemma MessageReadTwice(c: Codec, r: Rec, line: string)
    requires '\n' !in line && c.parse(line) == Some(r) && (Clean(r) <==> !Breaks(line))
    requires !Clean(r) ==> forall p :: p in Pieces(line) ==> Hollow(c, p)
    ensures ReadTwice(c, line)
  {
    OneMessage(c, r, line);
    if Clean(r) {
      WholePiece(line);
    } else {
      HollowLines(c, Pieces(line));
    }
  }

  /** How each reader takes in one more line. */
  lemma LineAdded(c: Codec, lines: seq<string>, front: seq<string>, last: string)
    requires lines == front + [last] && Cut(Text(front), ALL).tail == ""
    ensures Cut(Text(lines), ALL) == Cutting(Cut(Text(front), ALL).done + Pieces(last), "")
    ensures Real(Parsed(c, Cut(Text(lines), ALL).done))
         == Real(Parsed(c, Cut(Text(front), ALL).done)) + Real(Parsed(c, Pieces(last)))
    ensures Real(Parsed(c, lines)) == Real(Parsed(c, front)) + Real(Parsed(c, [last]))
  {
    CutTextEnds(last);
    CutConcat(Text(front), last + "\n", ALL);
    TextSnoc(front, last);
    ParsedConcat(c, front, [last]);
    ParsedConcat(c, Cut(Text(front), ALL).done, Pieces(last));
    RealConcat(Parsed(c, front), Parsed(c, [last]));
    RealConcat(Parsed(c, Cut(Text(front), ALL).done), Parsed(c, Pieces(last)));
  }

  ghost predicate BothRead(c: Codec, lines: seq<string>)
  {
    Cut(Text(lines), ALL).tail == "" &&
    Real(Parsed(c, Cut(Text(lines), ALL).done)) == CleanOnly(Real(Parsed(c, lines)))
  }

  lemma Combine(a: seq<Rec>, b: seq<Rec>, x: seq<Rec>, y: seq<Rec>)
    requires a == CleanOnly(x) && b == CleanOnly(y)
    ensures a + b == CleanOnly(x + y)
  {
    CleanConcat(x, y);
  }

  lemma BothReadMore(c: Codec, lines: seq<string>, front: seq<string>, last: string)
    requires lines == front + [last] && BothRead(c, front) && ReadTwice(c, last)
    ensures BothRead(c, lines)
  {
    LineAdded(c, lines, front, last);
    Combine(Real(Parsed(c, Cut(Text(front), ALL).done)), Real(Parsed(c, Pieces(last))),
            Real(Parsed(c, front)), Real(Parsed(c, [last])));
  }

  ghost predicate AllTwice(c: Codec, lines: seq<string>)
  {
    lines == [] || (AllTwice(c, lines[..|lines| - 1]) && ReadTwice(c, lines[|lines| - 1]))
  }

  lemma {:induction false} OkLinesReadTwice(c: Codec, lines: seq<string>)
    requires Lawful(c) && AllOk(c, lines)
    ensures AllTwice(c, lines)
  {
    if lines != [] {
      OkLinesReadTwice(c, lines[..|lines| - 1]);
      var last := lines[|lines| - 1];
      if Junk(c, last) {
        JunkReadTwice(c, last);
      } else {
        var r :| last == c.encode(r);
        MessageReadTwice(c, r, last);
      }
    }
  }

  lemma {:induction false} LinesReadTwice(c: Codec, lines: seq<string>)
    requires AllTwice(c, lines)
    ensures BothRead(c, lines)
  {
    if lines != [] {
      LinesReadTwice(c, lines[..|lines| - 1]);
      BothReadMore(c, lines, lines[..|lines| - 1], lines[|lines| - 1]);
    }
  }

  lemma {:induction false} CleanConcat(a: seq<Rec>, b: seq<Rec>)
    ensures CleanOnly(a + b) == CleanOnly(a) + CleanOnly(b)
    decreases |b|
  {
    if b == [] {
      assert a + b == a;
    } else {
      CleanConcat(a, b[..|b| - 1]);
      assert (a + b)[..|a + b| - 1] == a + b[..|b| - 1];
    }
  }

  /** `splitlines` sees exactly the messages without a separator, in their order. */
  lemma SplitlinesSeesTheClean(c: Codec, file: string)
    requires Lawful(c) && FileOk(c, file)
    ensures Real(Reads(c, file, ALL)) == CleanOnly(Real(Reads(c, file, NL)))
  {
    var lines := Cut(file, NL).done;
    CutIsText(file);
    assert Text(lines) + "" == Text(lines);
    OkLinesReadTwice(c, lines);
    LinesReadTwice(c, lines);
    assert Lines(file, NL) == lines && Lines(file, ALL) == Cut(file, ALL).done;
  }

  // ---- one send, one ack ----------------------------------------------------

  datatype AtomicOp = Send(rec: Rec) | Ack(ids: set<string>)

  function Encoded(c: Codec, rs: seq<Rec>): seq<string>
  {
    if rs == [] then [] else Encoded(c, rs[..|rs| - 1]) + [c.encode(rs[|rs| - 1])]
  }

  /** What either operation does to the text of the file. */
  function ApplyText(c: Codec, file: string, op: AtomicOp): string
  {
    match op
    case Send(r) => file + (c.encode(r) + "\n")
    case Ack(ids) => Text(Encoded(c, Mark(Reads(c, file, ALL), ids)))
  }

  /** And to the inbox: an ack also drops every message with a separator in it. */
  function Apply(inbox: seq<Rec>, op: AtomicOp): seq<Rec>
  {
    match op
    case Send(r) => inbox + [r]
    case Ack(ids) => Mark(CleanOnly(inbox), ids)
  }

  /** The inbox as readers see it. */
  function Inbox(c: Codec, file: string): seq<Rec> { Real(Reads(c, file, NL)) }

  predicate Named(op: AtomicOp) { op.Send? ==> op.rec.id != "" }

  ghost predicate Spell(c: Codec, lines: seq<string>, rs: seq<Rec>)
  {
    Parsed(c, lines) == rs && AllOk(c, lines) && Cut(Text(lines), NL) == Cutting(lines, "")
  }

  lemma SpellMore(c: Codec, lines: seq<string>, rs: seq<Rec>, r: Rec)
    requires RoundTrips(c) && Spell(c, lines, rs)
    ensures Spell(c, lines + [c.encode(r)], rs + [r])
  {
    LineAppended(Text(lines), c.encode(r));
    TextSnoc(lines, c.encode(r));
    ParsedSnoc(c, lines, r);
    AllOkSnoc(c, lines, r);
  }

  lemma {:induction false} EncodedReads(c: Codec, rs: seq<Rec>)
    requires RoundTrips(c)
    ensures Spell(c, Encoded(c, rs), rs)
  {
    if rs != [] {
      var front, last := rs[..|rs| - 1], rs[|rs| - 1];
      EncodedReads(c, front);
      SpellMore(c, Encoded(c, front), front, last);
      assert front + [last] == rs;
    }
  }

  lemma AllOkSnoc(c: Codec, lines: seq<string>, r: Rec)
    requires AllOk(c, lines)
    ensures AllOk(c, lines + [c.encode(r)])
  {
    assert (lines + [c.encode(r)])[..|lines|] == lines;
    assert LineOk(c, c.encode(r));
  }

  lemma RewrittenReads(c: Codec, rs: seq<Rec>)
    requires RoundTrips(c)
    ensures FileOk(c, Text(Encoded(c, rs))) && Reads(c, Text(Encoded(c, rs)), NL) == rs
  {
    EncodedReads(c, rs);
    ReadsDone(c, Text(Encoded(c, rs)));
  }

  lemma ParsedSnoc(c: Codec, lines: seq<string>, r: Rec)
    requires c.parse(c.encode(r)) == Some(r)
    ensures Parsed(c, lines + [c.encode(r)]) == Parsed(c, lines) + [r]
  {
    assert (lines + [c.encode(r)])[..|lines|] == lines;
  }

  lemma ReadsDone(c: Codec, file: string)
    requires Cut(file, NL).tail == ""
    ensures Reads(c, file, NL) == Parsed(c, Cut(file, NL).done)
  {
    assert Cut(file, NL).done + [] == Cut(file, NL).done;
  }

  lemma SentReads(c: Codec, file: string, r: Rec)
    requires RoundTrips(c) && FileOk(c, file)
    ensures FileOk(c, ApplyText(c, file, Send(r)))
    ensures Reads(c, ApplyText(c, file, Send(r)), NL) == Reads(c, file, NL) + [r]
  {
    LineAppended(file, c.encode(r));
    ParsedSnoc(c, Cut(file, NL).done, r);
    ReadsDone(c, file);
    ReadsDone(c, ApplyText(c, file, Send(r)));
    AllOkSnoc(c, Cut(file, NL).done, r);
  }

  lemma MarkedMeans(c: Codec, file: string, ids: set<string>)
    requires Lawful(c) && FileOk(c, file)
    ensures Real(Mark(Reads(c, file, ALL), ids)) == Apply(Inbox(c, file), Ack(ids))
  {
    RealOfMark(Reads(c, file, ALL), ids);
    SplitlinesSeesTheClean(c, file);
  }

  /** The text of the file follows the inbox, one operation at a time. */
  lemma TextRefinesInbox(c: Codec, file: string, op: AtomicOp)
    requires Lawful(c) && FileOk(c, file) && Named(op)
    ensures FileOk(c, ApplyText(c, file, op))
    ensures Inbox(c, ApplyText(c, file, op)) == Apply(Inbox(c, file), op)
  {
    match op
    case Send(r) =>
      SentReads(c, file, r);
      RealConcat(Reads(c, file, NL), [r]);
      assert [r][..0] == [];
    case Ack(ids) =>
      RewrittenReads(c, Mark(Reads(c, file, ALL), ids));
      MarkedMeans(c, file, ids);
  }
}
