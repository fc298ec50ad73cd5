/** What an ack does to the line numbers that the bridge counts the inbox by. */
module InboxLines {
  import opened Order
  import opened Splitting
  import opened InboxText

  /** Every line is a message and stays where it is, acked or not. */
  ghost predicate LinesStay(c: Codec, before: seq<string>, after: seq<string>, ids: set<string>)
  {
    |after| == |before| && forall i :: 0 <= i < |before| ==>
      c.parse(before[i]).Some? && c.parse(after[i]) == Some(MarkOne(c.parse(before[i]).value, ids))
  }

  /** Each line a reader can parse is a message with an id. */
  ghost predicate AllMessages(c: Codec, lines: seq<string>)
  {
    forall i :: 0 <= i < |lines| && c.parse(lines[i]).Some? ==> c.parse(lines[i]).value.id != ""
  }

  lemma {:induction false} ParsedAll(c: Codec, lines: seq<string>)
    ensures |Parsed(c, lines)| <= |lines|
    ensures |Parsed(c, lines)| == |lines| <==> forall i :: 0 <= i < |lines| ==> c.parse(lines[i]).Some?
    ensures |Parsed(c, lines)| == |lines| ==>
              forall i :: 0 <= i < |lines| ==> Parsed(c, lines)[i] == c.parse(lines[i]).value
  {
    if lines != [] {
      var front := lines[..|lines| - 1];
      ParsedAll(c, front);
      assert forall i :: 0 <= i < |front| ==> front[i] == lines[i];
      if |Parsed(c, lines)| == |lines| {
        assert |Parsed(c, front)| == |front|;
      }
    }
  }

  lemma {:induction false} CleanAll(rs: seq<Rec>)
    ensures |CleanOnly(rs)| <= |rs|
    ensures |CleanOnly(rs)| == |rs| ==> CleanOnly(rs) == rs && forall i :: 0 <= i < |rs| ==> Clean(rs[i])
    ensures (forall i :: 0 <= i < |rs| ==> Clean(rs[i])) ==> CleanOnly(rs) == rs
  {
    if rs != [] {
      CleanAll(rs[..|rs| - 1]);
      assert rs == rs[..|rs| - 1] + [rs[|rs| - 1]];
    }
  }

  lemma {:induction false} RealAll(rs: seq<Rec>)
    requires forall i :: 0 <= i < |rs| ==> rs[i].id != ""
    ensures Real(rs) == rs
  {
    if rs != [] {
      var front, last := rs[..|rs| - 1], rs[|rs| - 1];
      RealAll(front);
      assert rs == front + [last];
    }
  }

  predicate CleanLine(line: string) { '\n' !in line && !Breaks(line) }

  lemma CleanLineCut(line: string)
    requires CleanLine(line)
    ensures Cut(line + "\n", ALL) == Cutting([line], "")
  {
    assert forall i :: 0 <= i < |line| ==> line[i] !in ALL;
    CutTextLine(line, ALL);
  }

  ghost predicate CleanLines(lines: seq<string>)
  {
    lines == [] || (CleanLines(lines[..|lines| - 1]) && CleanLine(lines[|lines| - 1]))
  }

  lemma {:induction false} CleanLinesAre(lines: seq<string>)
    requires forall i :: 0 <= i < |lines| ==> CleanLine(lines[i])
    ensures CleanLines(lines)
  {
    if lines != [] {
      CleanLinesAre(lines[..|lines| - 1]);
    }
  }

  lemma {:induction false} CleanTextCut(lines: seq<string>)
    requires CleanLines(lines)
    ensures Cut(Text(lines), ALL) == Cutting(lines, "")
  {
    if lines != [] {
      var front, last := lines[..|lines| - 1], lines[|lines| - 1];
      CleanTextCut(front);
      CleanLineCut(last);
      CutConcat(Text(front), last + "\n", ALL);
      assert front + [last] == lines;
      TextSnoc(front, last);
    }
  }

  lemma {:induction false} AllOkAt(c: Codec, lines: seq<string>, i: nat)
    requires AllOk(c, lines) && i < |lines|
    ensures LineOk(c, lines[i])
  {
    if i < |lines| - 1 { AllOkAt(c, lines[..|lines| - 1], i); }
  }

  /** A line that reads as a message is that message's line. */
  lemma MessageLine(c: Codec, line: string)
    requires Lawful(c) && LineOk(c, line) && c.parse(line).Some? && c.parse(line).value.id != ""
    ensures line == c.encode(c.parse(line).value) && (Breaks(line) <==> !Clean(c.parse(line).value))
    ensures '\n' !in line
  {
    assert !Junk(c, line);
    var r :| line == c.encode(r);
    assert c.parse(line) == Some(r);
  }

  lemma LinesAfterAck(c: Codec, file: string, ids: set<string>)
    requires RoundTrips(c)
    ensures var kept := Mark(Reads(c, file, ALL), ids); var after := Cut(ApplyText(c, file, Ack(ids)), NL).done;
            |after| == |kept| && forall i :: 0 <= i < |kept| ==> c.parse(after[i]) == Some(kept[i])
  {
    var kept := Mark(Reads(c, file, ALL), ids);
    EncodedReads(c, kept);
    EncodedLength(c, kept);
    ParsedAll(c, Encoded(c, kept));
  }

  lemma {:induction false} EncodedLength(c: Codec, rs: seq<Rec>)
    ensures |Encoded(c, rs)| == |rs|
  {
    if rs != [] { EncodedLength(c, rs[..|rs| - 1]); }
  }

  lemma StayingMeansClean(c: Codec, file: string, ids: set<string>)
    requires Lawful(c) && FileOk(c, file) && AllMessages(c, Cut(file, NL).done)
    requires LinesStay(c, Cut(file, NL).done, Cut(ApplyText(c, file, Ack(ids)), NL).done, ids)
    ensures forall r :: r in Reads(c, file, NL) ==> Clean(r)
    ensures |Reads(c, file, NL)| == |Cut(file, NL).done|
  {
    var lines, seen, read := Cut(file, NL).done, Reads(c, file, NL), Reads(c, file, ALL);
    var kept := Mark(read, ids);
    LinesAfterAck(c, file, ids);
    ReadsDone(c, file);
    ParsedAll(c, lines);
    forall i | 0 <= i < |read| ensures read[i].id != "" && seen[i].id != "" {
      assert kept[i] == MarkOne(seen[i], ids) && kept[i] == MarkOne(read[i], ids);
    }
    RealAll(read);
    RealAll(seen);
    SplitlinesSeesTheClean(c, file);
    CleanAll(seen);
  }

  lemma CleanFileReads(file: string)
    requires Cut(file, NL).tail == "" && CleanLines(Cut(file, NL).done)
    ensures Lines(file, ALL) == Cut(file, NL).done
  {
    var lines := Cut(file, NL).done;
    CutIsText(file);
    CleanTextCut(lines);
    assert Text(lines) + "" == Text(lines);
    assert lines + [] == lines;
  }

  lemma CleanMeansStaying(c: Codec, file: string, ids: set<string>)
    requires RoundTrips(c) && Lines(file, ALL) == Cut(file, NL).done
    requires forall i :: 0 <= i < |Cut(file, NL).done| ==> c.parse(Cut(file, NL).done[i]).Some?
    ensures LinesStay(c, Cut(file, NL).done, Cut(ApplyText(c, file, Ack(ids)), NL).done, ids)
  {
    LinesAfterAck(c, file, ids);
    ParsedAll(c, Cut(file, NL).done);
  }

  /** An ack keeps every line at its number exactly when every line is readable and holds no separator. */
  lemma AckKeepsLineNumbers(c: Codec, file: string, ids: set<string>)
    requires Lawful(c) && FileOk(c, file) && AllMessages(c, Cut(file, NL).done)
    ensures LinesStay(c, Cut(file, NL).done, Cut(ApplyText(c, file, Ack(ids)), NL).done, ids) <==>
            forall i :: 0 <= i < |Cut(file, NL).done| ==>
              c.parse(Cut(file, NL).done[i]).Some? && !Breaks(Cut(file, NL).done[i])
  {
    var lines := Cut(file, NL).done;
    forall i | 0 <= i < |lines| && c.parse(lines[i]).Some?
      ensures '\n' !in lines[i] && (Breaks(lines[i]) <==> !Clean(c.parse(lines[i]).value))
    {
      AllOkAt(c, lines, i);
      MessageLine(c, lines[i]);
    }
    if LinesStay(c, lines, Cut(ApplyText(c, file, Ack(ids)), NL).done, ids) {
      StayingMeansClean(c, file, ids);
      ReadsDone(c, file);
      ParsedAll(c, lines);
    } else if forall i :: 0 <= i < |lines| ==> c.parse(lines[i]).Some? && !Breaks(lines[i]) {
      CleanLinesAre(lines);
      CleanFileReads(file);
      CleanMeansStaying(c, file, ids);
    }
  }
}
