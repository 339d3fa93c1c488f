/** Positional matching of a segment inside a larger sequence: the document and
    binary codecs read from a cursor position and are specified by the segment an
    encoder wrote there. */
module SeqAt {

  /** `w` occurs in `s` starting at index `i`. */
  ghost predicate At<X>(s: seq<X>, i: nat, w: seq<X>) {
    i + |w| <= |s| && s[i..i + |w|] == w
  }

  /** A whole sequence occurs in itself at index 0. */
  lemma {:induction false} AtWhole<X>(s: seq<X>)
    ensures At(s, 0, s)
  {
    assert s[0..|s|] == s;
  }

  lemma {:induction false} AtCons<X>(s: seq<X>, i: nat, a: X, w: seq<X>)
    ensures At(s, i, [a] + w) <==> i < |s| && s[i] == a && At(s, i + 1, w)
  {
    if At(s, i, [a] + w) {
      assert s[i] == s[i..i + |w| + 1][0];
      assert s[i + 1..i + 1 + |w|] == s[i..i + |w| + 1][1..];
    }
    if i < |s| && s[i] == a && At(s, i + 1, w) {
      assert s[i..i + |w| + 1] == [s[i]] + s[i + 1..i + 1 + |w|];
    }
  }

  lemma {:induction false} AtAppend<X>(s: seq<X>, i: nat, u: seq<X>, v: seq<X>)
    ensures At(s, i, u + v) <==> At(s, i, u) && At(s, i + |u|, v)
  {
    if At(s, i, u + v) {
      assert s[i..i + |u|] == s[i..i + |u| + |v|][..|u|];
      assert s[i + |u|..i + |u| + |v|] == s[i..i + |u| + |v|][|u|..];
    }
    if At(s, i, u) && At(s, i + |u|, v) {
      assert s[i..i + |u| + |v|] == s[i..i + |u|] + s[i + |u|..i + |u| + |v|];
    }
  }

  /** A one-element segment is just an index lookup. */
  lemma {:induction false} AtSingle<X>(s: seq<X>, i: nat, a: X)
    ensures At(s, i, [a]) <==> i < |s| && s[i] == a
  {
    AtCons(s, i, a, []);
  }

  /** A segment framed by an opening and a closing element. */
  lemma {:induction false} AtFramed<X>(s: seq<X>, i: nat, open: X, inner: seq<X>, close: X)
    requires At(s, i, [open] + inner + [close])
    ensures i + |inner| + 1 < |s| && s[i] == open && At(s, i + 1, inner) && s[i + 1 + |inner|] == close
  {
    AtAppend(s, i, [open] + inner, [close]);
    AtAppend(s, i, [open], inner);
    AtSingle(s, i, open);
    AtSingle(s, i + 1 + |inner|, close);
  }

  /** Regrouping a framed run of three segments. */
  lemma {:induction false} FramedRegroup3<X>(open: X, a: seq<X>, b: seq<X>, c: seq<X>, close: X)
    ensures [open] + a + b + c + [close] == [open] + (a + (b + c)) + [close]
  {
    assert a + b + c == a + (b + c);
  }

  /** Regrouping a framed run of four segments. */
  lemma {:induction false} FramedRegroup<X>(open: X, a: seq<X>, b: seq<X>, c: seq<X>, d: seq<X>, close: X)
    ensures [open] + a + b + c + d + [close] == [open] + (a + (b + (c + d))) + [close]
  {
    assert a + b + c + d == a + (b + (c + d));
  }
}
