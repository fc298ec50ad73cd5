/** Cutting a text into lines: for characters and for bytes, at whatever ends a line. */
module Splitting {

  /** The lines ended so far, and the one begun. */
  datatype Cutting<T> = Cutting(done: seq<seq<T>>, tail: seq<T>)

  function Cut<T(==)>(text: seq<T>, at: set<T>): Cutting<T>
  {
    if text == [] then Cutting([], [])
    else
      var c, last := Cut(text[..|text| - 1], at), text[|text| - 1];
      if last in at then Cutting(c.done + [c.tail], []) else Cutting(c.done, c.tail + [last])
  }

  lemma {:induction false} CutConcat<T>(a: seq<T>, b: seq<T>, at: set<T>)
    requires Cut(a, at).tail == []
    ensures Cut(a + b, at) == Cutting(Cut(a, at).done + Cut(b, at).done, Cut(b, at).tail)
    decreases |b|
  {
    if b == [] {
      assert a + b == a;
    } else {
      CutConcat(a, b[..|b| - 1], at);
      assert (a + b)[..|a + b| - 1] == a + b[..|b| - 1];
    }
  }

  /** Text that ends no line lengthens the one begun. */
  lemma {:induction false} CutGrows<T>(text: seq<T>, s: seq<T>, at: set<T>)
    requires forall i :: 0 <= i < |s| ==> s[i] !in at
    ensures Cut(text + s, at) == Cutting(Cut(text, at).done, Cut(text, at).tail + s)
    decreases |s|
  {
    if s == [] {
      assert text + s == text && Cut(text, at).tail + s == Cut(text, at).tail;
    } else {
      var front, last := s[..|s| - 1], s[|s| - 1];
      CutGrows(text, front, at);
      assert (text + s)[..|text + s| - 1] == text + front;
      assert Cut(text, at).tail + front + [last] == Cut(text, at).tail + s;
    }
  }

  lemma CutEnds<T>(text: seq<T>, end: T, at: set<T>)
    requires end in at
    ensures Cut(text + [end], at) == Cutting(Cut(text, at).done + [Cut(text, at).tail], [])
  {
    assert (text + [end])[..|text|] == text;
  }

  lemma CutLine<T>(line: seq<T>, end: T, at: set<T>)
    requires end in at && forall i :: 0 <= i < |line| ==> line[i] !in at
    ensures Cut(line + [end], at) == Cutting([line], [])
  {
    CutGrows([], line, at);
    assert [] + line == line;
    CutEnds(line, end, at);
  }
}
