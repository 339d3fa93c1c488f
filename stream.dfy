/** The binary transport form: an object is written as an ordered sequence of
    primitive values and read back in the same order. Optional values carry a
    presence flag before them, lists a count before their elements, enums their
    ordinal. A reader is handed the index of its first primitive and returns the
    value together with the index just past what it read. */
module Stream {
  import opened Results
  import opened SeqAt

  /** One primitive written to a stream. `PInt` is a variable-length int: a
      list count or an enum ordinal. */
  datatype Prim = PStr(s: string) | PBool(b: bool) | PLong(l: Long) | PInt(v: int)

  type Reader<T> = (seq<Prim>, nat) -> Result<(T, nat)>

  const EndOfStream := StreamCorruption("unexpected end of stream")
  const WrongPrimitive := StreamCorruption("unexpected primitive type")
  const NegativeCount := StreamCorruption("negative list size")
  const UnknownOrdinal := StreamCorruption("unknown enum ordinal")

  /** `read` reads back exactly what `write` wrote for `x`, wherever it stands,
      and stops just after it. */
  ghost predicate ReadsWrite<T>(read: Reader<T>, write: T -> seq<Prim>, x: T) {
    forall s: seq<Prim>, i: nat :: At(s, i, write(x)) ==> read(s, i) == Ok((x, i + |write(x)|))
  }

  // ---------------------------------------------------------------------------
  // Primitives

  function ReadString(s: seq<Prim>, i: nat): (r: Result<(string, nat)>)
    ensures r.Ok? <==> i < |s| && s[i].PStr?
    ensures r.Ok? ==> r.value == (s[i].s, i + 1)
    ensures i >= |s| ==> r == Err(EndOfStream)
  {
    if i >= |s| then Err(EndOfStream) else if s[i].PStr? then Ok((s[i].s, i + 1)) else Err(WrongPrimitive)
  }

  function ReadBoolean(s: seq<Prim>, i: nat): (r: Result<(bool, nat)>)
    ensures r.Ok? <==> i < |s| && s[i].PBool?
    ensures r.Ok? ==> r.value == (s[i].b, i + 1)
    ensures i >= |s| ==> r == Err(EndOfStream)
  {
    if i >= |s| then Err(EndOfStream) else if s[i].PBool? then Ok((s[i].b, i + 1)) else Err(WrongPrimitive)
  }

  function ReadLong(s: seq<Prim>, i: nat): (r: Result<(Long, nat)>)
    ensures r.Ok? <==> i < |s| && s[i].PLong?
    ensures r.Ok? ==> r.value == (s[i].l, i + 1)
    ensures i >= |s| ==> r == Err(EndOfStream)
  {
    if i >= |s| then Err(EndOfStream) else if s[i].PLong? then Ok((s[i].l, i + 1)) else Err(WrongPrimitive)
  }

  function ReadInt(s: seq<Prim>, i: nat): (r: Result<(int, nat)>)
    ensures r.Ok? <==> i < |s| && s[i].PInt?
    ensures r.Ok? ==> r.value == (s[i].v, i + 1)
    ensures i >= |s| ==> r == Err(EndOfStream)
  {
    if i >= |s| then Err(EndOfStream) else if s[i].PInt? then Ok((s[i].v, i + 1)) else Err(WrongPrimitive)
  }

  /** `readEnum` of a type with `count` constants: an ordinal outside
      0..count-1 is corruption. */
  function ReadEnum(s: seq<Prim>, i: nat, count: nat): (r: Result<(nat, nat)>)
    ensures r.Ok? <==> i < |s| && s[i].PInt? && 0 <= s[i].v < count
    ensures r.Ok? ==> r.value == (s[i].v, i + 1)
    ensures i < |s| && s[i].PInt? && !(0 <= s[i].v < count) ==> r == Err(UnknownOrdinal)
  {
    var n :- ReadInt(s, i);
    if 0 <= n.0 < count then Ok((n.0, n.1)) else Err(UnknownOrdinal)
  }

  function WriteString(x: string): seq<Prim> {
    [PStr(x)]
  }

  lemma {:induction false} ReadStringWrite(x: string)
    ensures ReadsWrite(ReadString, WriteString, x)
  {
    forall s: seq<Prim>, i: nat | At(s, i, WriteString(x))
      ensures ReadString(s, i) == Ok((x, i + 1))
    {
      AtSingle(s, i, PStr(x));
    }
  }

  // ---------------------------------------------------------------------------
  // Optional values: a presence flag, then the value if present

  function WriteOptional<T>(write: T -> seq<Prim>, o: Option<T>): (r: seq<Prim>)
    ensures |r| > 0 && r[0] == PBool(o.Some?)
    ensures o.Some? ==> r[1..] == write(o.value)
    ensures o.None? ==> |r| == 1
  {
    match o
    case None => [PBool(false)]
    case Some(x) => [PBool(true)] + write(x)
  }

  function ReadOptional<T>(read: Reader<T>, s: seq<Prim>, i: nat): (r: Result<(Option<T>, nat)>)
    ensures i < |s| && s[i] == PBool(false) ==> r == Ok((None, i + 1))
    ensures i < |s| && s[i] == PBool(true) ==> r == WithSome(read(s, i + 1))
    ensures !(i < |s| && s[i].PBool?) ==> r.Err?
  {
    var flag :- ReadBoolean(s, i);
    if flag.0 then WithSome(read(s, flag.1)) else Ok((None, flag.1))
  }

  function WithSome<T>(r: Result<(T, nat)>): (p: Result<(Option<T>, nat)>)
    ensures p.Ok? <==> r.Ok?
    ensures p.Ok? ==> p.value == (Some(r.value.0), r.value.1)
    ensures p.Err? ==> p.error == r.error
  {
    match r
    case Ok(x) => Ok((Some(x.0), x.1))
    case Err(e) => Err(e)
  }

  /** An optional value reads back as written, present or absent. */
  lemma {:induction false} ReadOptionalWrite<T>(read: Reader<T>, write: T -> seq<Prim>, o: Option<T>, s: seq<Prim>, i: nat)
    requires o.Some? ==> ReadsWrite(read, write, o.value)
    requires At(s, i, WriteOptional(write, o))
    ensures ReadOptional(read, s, i) == Ok((o, i + |WriteOptional(write, o)|))
  {
    var w := WriteOptional(write, o);
    AtCons(s, i, w[0], w[1..]);
    assert [w[0]] + w[1..] == w;
  }

  // ---------------------------------------------------------------------------
  // Lists: a count, then that many elements

  function WriteAll<T>(write: T -> seq<Prim>, xs: seq<T>): seq<Prim>
    decreases xs
  {
    if xs == [] then [] else write(xs[0]) + WriteAll(write, xs[1..])
  }

  function WriteList<T>(write: T -> seq<Prim>, xs: seq<T>): (r: seq<Prim>)
    ensures |r| > 0 && r[0] == PInt(|xs|)
    ensures r[1..] == WriteAll(write, xs)
  {
    [PInt(|xs|)] + WriteAll(write, xs)
  }

  /** Reads `n` more elements after the `acc` already read. */
  function ReadItems<T>(read: Reader<T>, s: seq<Prim>, i: nat, n: nat, acc: seq<T>): (r: Result<(seq<T>, nat)>)
    decreases n
    ensures r.Ok? ==> |r.value.0| == |acc| + n && r.value.0[..|acc|] == acc
  {
    if n == 0 then Ok((acc, i))
    else
      var x :- read(s, i);
      var r := ReadItems(read, s, x.1, n - 1, acc + [x.0]);
      assert r.Ok? ==> r.value.0[..|acc|] == (r.value.0[..|acc| + 1])[..|acc|];
      r
  }

  /** `readList(reader)`: a negative count is corruption, and a failing element
      fails the whole list. */
  function ReadList<T>(read: Reader<T>, s: seq<Prim>, i: nat): (r: Result<(seq<T>, nat)>)
    ensures r.Ok? ==> i < |s| && s[i].PInt? && |r.value.0| == s[i].v
    ensures i < |s| && s[i].PInt? && s[i].v < 0 ==> r == Err(NegativeCount)
    ensures !(i < |s| && s[i].PInt?) ==> r.Err?
  {
    var n :- ReadInt(s, i);
    if n.0 < 0 then Err(NegativeCount) else ReadItems(read, s, n.1, n.0, [])
  }

  lemma {:induction false} ReadItemsWrite<T>(read: Reader<T>, write: T -> seq<Prim>, xs: seq<T>, s: seq<Prim>, i: nat, acc: seq<T>)
    requires forall x :: x in xs ==> ReadsWrite(read, write, x)
    requires At(s, i, WriteAll(write, xs))
    decreases xs
    ensures ReadItems(read, s, i, |xs|, acc) == Ok((acc + xs, i + |WriteAll(write, xs)|))
  {
    if xs == [] {
      assert acc + xs == acc;
    } else {
      assert ReadsWrite(read, write, xs[0]);
      AtAppend(s, i, write(xs[0]), WriteAll(write, xs[1..]));
      ReadItemsWrite(read, write, xs[1..], s, i + |write(xs[0])|, acc + [xs[0]]);
      assert acc + [xs[0]] + xs[1..] == acc + xs;
    }
  }

  /** A list whose elements each read back as written reads back whole. */
  lemma {:induction false} ReadListWrite<T>(read: Reader<T>, write: T -> seq<Prim>, xs: seq<T>, s: seq<Prim>, i: nat)
    requires forall x :: x in xs ==> ReadsWrite(read, write, x)
    requires At(s, i, WriteList(write, xs))
    ensures ReadList(read, s, i) == Ok((xs, i + |WriteList(write, xs)|))
  {
    AtCons(s, i, PInt(|xs|), WriteAll(write, xs));
    ReadItemsWrite(read, write, xs, s, i + 1, []);
    assert [] + xs == xs;
  }
}
