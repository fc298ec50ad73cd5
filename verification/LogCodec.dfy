/** The facts assumed of log lines can hold together; and what one torn character does to such a log. */
module LogCodec {
  import opened Order
  import opened Utf8
  import opened LogFile

  /** `{0}`, and `{` with a two-byte character in it: the bytes of one-bit events. */
  const FALSE_LINE: Bytes := [BRACE, 48, 125]
  const TRUE_LINE: Bytes := [BRACE, 0xC3, 0xA9, 125]

  function BitLine(b: bool): Bytes { if b then TRUE_LINE else FALSE_LINE }

  function BitOf(s: Bytes): Option<bool>
  {
    if s == TRUE_LINE then Some(true) else if s == FALSE_LINE then Some(false) else None
  }

  lemma {:induction false} LaterPieceOpens(c: Codec<bool>, ps: seq<Bytes>)
    requires c == Codec(BitLine, BitOf) && Pieces(c, ps) && ps != []
    ensures Joined(ps) != [] && (|ps| >= 2 ==> exists k :: 0 < k < |Joined(ps)| && Joined(ps)[k] == BRACE)
  {
    var front, last := ps[..|ps| - 1], ps[|ps| - 1];
    assert Piece(c, last);
    var e :| last <= c.encode(e);
    assert last[0] == BitLine(e)[0] == BRACE;
    if |ps| >= 2 {
      LaterPieceOpens(c, front);
      assert Joined(ps)[|Joined(front)|] == BRACE;
    }
  }

  lemma TornLineDecodes()
    ensures Decodes(FALSE_LINE) && Decodes(TRUE_LINE) && !Decodes(TRUE_LINE[..2])
  {
    var t, f := TRUE_LINE, FALSE_LINE;
    assert t[..3][..2] == t[..2] && t[..2][..1] == t[..1] && t[..1][..0] == [] && t[..4] == t;
    assert f[..2][..1] == f[..1] && f[..1][..0] == [] && f[..3] == f;
    assert Decode(Boundary, t[..1]) == Boundary && Decode(Boundary, f[..1]) == Boundary;
    assert Decode(Boundary, t[..2]) == Expects(1, 0x80, 0xBF) && Decode(Boundary, f[..2]) == Boundary;
    assert Decode(Boundary, t[..3]) == Boundary;
  }

  /** The three facts can hold together: a codec for one-bit events has them. */
  lemma LawsAreConsistent()
    ensures Lawful(Codec(BitLine, BitOf))
  {
    var c := Codec(BitLine, BitOf);
    TornLineDecodes();
    forall ps | |ps| >= 2 && Pieces(c, ps) ensures c.parse(Joined(ps)) == None {
      LaterPieceOpens(c, ps);
    }
  }

  /** One write torn inside a character, and the board is unreadable whatever comes before and after. */
  lemma TornCharacterLosesEverything(before: seq<Write<bool>>, later: seq<Write<bool>>)
    ensures ReadBoard(Codec(BitLine, BitOf), Run(Codec(BitLine, BitOf), before + [Torn(true, 2)] + later)) == Raises
  {
    var c := Codec(BitLine, BitOf);
    LawsAreConsistent();
    TornLineDecodes();
    TornSomewhere(c, before, Torn(true, 2), later);
    ReadableExactlyWhen(c, before + [Torn(true, 2)] + later);
  }
}
