/** The facts assumed of inbox lines can hold together: a line format that has them all. */
module InboxCodec {
  import opened Order
  import opened Splitting
  import opened InboxText

  function EscapeChar(ch: char): string
  {
    if ch == '\\' then "\\\\"
    else if ch == '\n' then "\\n"
    else if ch == ',' then "\\c"
    else if ch == '{' then "\\o"
    else if ch == '}' then "\\e"
    else [ch]
  }

  function Escape(s: string): string { if s == "" then "" else EscapeChar(s[0]) + Escape(s[1..]) }

  function UnescapeChar(ch: char): char
  {
    if ch == 'n' then '\n' else if ch == 'c' then ',' else if ch == 'o' then '{' else if ch == 'e' then '}' else ch
  }

  function Unescape(s: string): string
  {
    if s == "" then ""
    else if s[0] == '\\' && |s| >= 2 then [UnescapeChar(s[1])] + Unescape(s[2..])
    else [s[0]] + Unescape(s[1..])
  }

  function Inner(r: Rec): string { Escape(r.id) + "," + Escape(r.body) }

  function Encode(r: Rec): string { "{" + (if r.acked then "1" else "0") + Inner(r) + "}" }

  function CommaAt(s: string): nat { if s == "" || s[0] == ',' then 0 else 1 + CommaAt(s[1..]) }

  function Parse(s: string): Option<Rec>
  {
    if |s| < 3 || s[0] != '{' || s[|s| - 1] != '}' then None
    else
      var inner := s[2..|s| - 1];
      var k := CommaAt(inner);
      if k >= |inner| then None else Some(Rec(Unescape(inner[..k]), Unescape(inner[k + 1..]), s[1] == '1'))
  }

  lemma {:induction false} UnescapeEscape(s: string)
    ensures Unescape(Escape(s)) == s
  {
    if s != "" {
      UnescapeEscape(s[1..]);
      var e, rest := EscapeChar(s[0]), Escape(s[1..]);
      assert (e + rest)[|e|..] == rest;
      assert s == [s[0]] + s[1..];
    }
  }

  predicate Meets(s: string, chars: set<char>) { exists i :: 0 <= i < |s| && s[i] in chars }

  const NEWLINE_OR_BRACE: set<char> := {'\n', '{', '}'}

  lemma MeetsConcat(a: string, b: string, chars: set<char>)
    ensures Meets(a + b, chars) <==> Meets(a, chars) || Meets(b, chars)
  {
    if i :| 0 <= i < |a| && a[i] in chars { assert (a + b)[i] in chars; }
    if i :| 0 <= i < |b| && b[i] in chars { assert (a + b)[|a| + i] in chars; }
    if i :| 0 <= i < |a + b| && (a + b)[i] in chars {
      if i < |a| { assert a[i] in chars; } else { assert b[i - |a|] in chars; }
    }
  }

  lemma MeetsChar(ch: char, chars: set<char>)
    ensures Meets([ch], chars) <==> ch in chars
  {
    assert [ch][0] == ch;
  }

  lemma EscapeCharShape(ch: char, chars: set<char>)
    requires chars == SEPARATORS || chars == NEWLINE_OR_BRACE || chars == {','}
    ensures Meets(EscapeChar(ch), chars) <==> chars == SEPARATORS && ch in chars
  {
    var e := EscapeChar(ch);
    if |e| == 1 {
      MeetsChar(ch, chars);
    } else {
      assert e[0] !in chars && e[1] !in chars && ch !in SEPARATORS;
    }
  }

  lemma {:induction false} EscapeShape(s: string, chars: set<char>)
    requires chars == SEPARATORS || chars == NEWLINE_OR_BRACE || chars == {','}
    ensures Meets(Escape(s), chars) <==> chars == SEPARATORS && Meets(s, chars)
  {
    if s != "" {
      EscapeShape(s[1..], chars);
      EscapeCharShape(s[0], chars);
      MeetsConcat(EscapeChar(s[0]), Escape(s[1..]), chars);
      MeetsConcat([s[0]], s[1..], chars);
      MeetsChar(s[0], chars);
      assert s == [s[0]] + s[1..];
    }
  }

  lemma {:induction false} CommaAfter(a: string, b: string)
    requires !Meets(a, {','})
    ensures CommaAt(a + "," + b) == |a|
  {
    if a == "" {
      assert a + "," + b == "," + b;
    } else {
      MeetsConcat([a[0]], a[1..], {','});
      MeetsChar(a[0], {','});
      assert a == [a[0]] + a[1..];
      CommaAfter(a[1..], b);
      assert (a + "," + b)[1..] == a[1..] + "," + b;
    }
  }

  lemma EncodeParses(r: Rec)
    ensures Parse(Encode(r)) == Some(r)
  {
    var s, a, b := Encode(r), Escape(r.id), Escape(r.body);
    EscapeShape(r.id, {','});
    CommaAfter(a, b);
    assert s[2..|s| - 1] == a + "," + b;
    assert (a + "," + b)[..|a|] == a && (a + "," + b)[|a| + 1..] == b;
    UnescapeEscape(r.id);
    UnescapeEscape(r.body);
  }

  /** No newline, separators exactly where the message has them, and braces only at the ends. */
  lemma EncodeShape(r: Rec)
    ensures Meets(Encode(r), SEPARATORS) <==> !Clean(r)
    ensures !Meets(Encode(r), {'\n'}) && !Meets(Encode(r)[1..|Encode(r)| - 1], {'{', '}'})
  {
    InnerShape(r, SEPARATORS);
    InnerShape(r, NEWLINE_OR_BRACE);
    EndsShape(Inner(r), if r.acked then '1' else '0');
    assert Clean(r) <==> !Meets(r.id, SEPARATORS) && !Meets(r.body, SEPARATORS);
  }

  lemma InnerShape(r: Rec, chars: set<char>)
    requires chars == SEPARATORS || chars == NEWLINE_OR_BRACE
    ensures Meets(Inner(r), chars) <==> chars == SEPARATORS && (Meets(r.id, chars) || Meets(r.body, chars))
  {
    EscapeShape(r.id, chars);
    EscapeShape(r.body, chars);
    MeetsConcat(Escape(r.id), ",", chars);
    MeetsConcat(Escape(r.id) + ",", Escape(r.body), chars);
    MeetsChar(',', chars);
  }

  lemma EndsShape(inner: string, flag: char)
    requires !Meets(inner, NEWLINE_OR_BRACE) && (flag == '0' || flag == '1')
    ensures var e := "{" + [flag] + inner + "}";
            && (Meets(e, SEPARATORS) <==> Meets(inner, SEPARATORS))
            && !Meets(e, {'\n'}) && !Meets(e[1..|e| - 1], {'{', '}'})
  {
    var e := "{" + [flag] + inner + "}";
    assert e[1..|e| - 1] == [flag] + inner;
    assert forall i :: 0 <= i < |inner| ==> inner[i] !in NEWLINE_OR_BRACE;
    assert forall i :: 0 <= i < |inner| ==> inner[i] == e[i + 2];
  }

  /** A stretch of the text, free of the characters it was cut at, that ends at one of them. */
  ghost predicate Stretch(s: string, at: set<char>, p: string)
  {
    exists i, j :: 0 <= i <= j < |s| && p == s[i..j] && !Meets(p, at)
  }

  lemma {:induction false} TailIsTheEnd(s: string, at: set<char>)
    ensures var t := Cut(s, at).tail; |t| <= |s| && t == s[|s| - |t|..] && !Meets(t, at)
  {
    if s != "" {
      TailIsTheEnd(s[..|s| - 1], at);
    }
  }

  lemma StretchOfMore(front: string, more: string, at: set<char>, p: string)
    requires Stretch(front, at, p)
    ensures Stretch(front + more, at, p)
  {
    var i, j :| 0 <= i <= j < |front| && p == front[i..j] && !Meets(p, at);
    assert p == (front + more)[i..j];
  }

  lemma {:induction false} PiecesAreStretches(s: string, at: set<char>, p: string)
    requires p in Cut(s, at).done
    ensures Stretch(s, at, p)
  {
    var front, last := s[..|s| - 1], s[|s| - 1];
    assert s == front + [last];
    if p in Cut(front, at).done {
      PiecesAreStretches(front, at, p);
      StretchOfMore(front, [last], at, p);
    } else {
      TailIsTheEnd(front, at);
      assert p == s[|front| - |p|..|front|];
    }
  }

  lemma CutPiecesDoNotParse(r: Rec, p: string)
    requires !Clean(r) && p in Pieces(Encode(r))
    ensures Parse(p) == None
  {
    var e := Encode(r);
    EncodeShape(r);
    PiecesAreStretches(e + "\n", ALL, p);
    var i, j :| 0 <= i <= j < |e + "\n"| && p == (e + "\n")[i..j] && !Meets(p, ALL);
    assert Meets(e, ALL) by { SeparatorsMeetAll(e); }
    assert i == 0 && j == |e| ==> p == e;
    OnlyWholeHasBraces(e, p, i, j);
  }

  lemma SeparatorsMeetAll(s: string)
    requires Meets(s, SEPARATORS)
    ensures Meets(s, ALL)
  {
    var i :| 0 <= i < |s| && s[i] in SEPARATORS;
    assert s[i] in ALL;
  }

  lemma OnlyWholeHasBraces(e: string, p: string, i: nat, j: nat)
    requires |e| >= 2 && !Meets(e[1..|e| - 1], {'{', '}'}) && i <= j <= |e| && p == e[i..j]
    requires i != 0 || j != |e|
    ensures Parse(p) == None
  {
    if |p| >= 3 {
      var middle := e[1..|e| - 1];
      if i > 0 {
        assert p[0] == middle[i - 1] && middle[i - 1] !in {'{', '}'};
      } else {
        assert p[|p| - 1] == middle[j - 2] && middle[j - 2] !in {'{', '}'};
      }
    }
  }

  lemma LawsAreConsistent()
    ensures Lawful(Codec(Encode, Parse))
  {
    forall r ensures '\n' !in Encode(r) && Parse(Encode(r)) == Some(r) && (Clean(r) <==> !Breaks(Encode(r))) {
      EncodeParses(r);
      EncodeShape(r);
    }
    forall r, p | !Clean(r) && p in Pieces(Encode(r)) ensures Hollow(Codec(Encode, Parse), p) {
      CutPiecesDoNotParse(r, p);
    }
  }
}
