/** The parser and builder helpers of XContentHelpers.kt: a content parser is a
    cursor over a token stream that `nextToken` advances, a builder is an output
    token sequence that the field writers append to. `stringList` and
    `objectList` are loops over the cursor; each is proved against a recursive
    specification function, and the lemmas below say what those functions
    compute. */
module XContentHelpers {
  import opened Results
  import opened SeqAt
  import opened XContent

  const ExpectedStartArray := ParseError("expected START_ARRAY")

  // ---------------------------------------------------------------------------
  // stringList, as a function of the token stream

  /** The loop of `stringList`: the cursor is on token `i` and the strings read
      so far are `acc`; returns the list and the index of the closing token. */
  function StringsFrom(toks: seq<Token>, i: nat, acc: seq<string>): (r: Result<(seq<string>, nat)>)
    requires i < |toks|
    decreases |toks| - i
    ensures r.Ok? ==> i < r.value.1 < |toks| && toks[r.value.1] == EndArray
  {
    var k := i + 1;
    if k >= |toks| then Err(EndOfInput)
    else if toks[k] == EndArray then Ok((acc, k))
    else
      var s :- TokenText(toks[k]);
      StringsFrom(toks, k, acc + [s])
  }

  /** `stringList` on a parser whose current token has index `start`
      (-1: before the first token). */
  function StringListOf(toks: seq<Token>, start: int): (r: Result<(seq<string>, nat)>)
    ensures r.Ok? ==> 0 <= start < r.value.1 < |toks| && toks[start] == StartArray && toks[r.value.1] == EndArray
    ensures !(0 <= start < |toks| && toks[start] == StartArray) ==> r == Err(ExpectedStartArray)
  {
    if 0 <= start < |toks| && toks[start] == StartArray then StringsFrom(toks, start, [])
    else Err(ExpectedStartArray)
  }

  /** The exact outcome of the `stringList` loop from token `i`. */
  lemma {:induction false} StringsFromExactly(toks: seq<Token>, i: nat, acc: seq<string>, xs: seq<string>, j: nat)
    requires i < |toks|
    decreases |toks| - i
    ensures StringsFrom(toks, i, acc) == Ok((xs, j)) <==>
      i < j < |toks| && toks[j] == EndArray && |xs| == |acc| + (j - i - 1) && xs[..|acc|] == acc &&
      forall k :: i < k < j ==> toks[k] != EndArray && TokenText(toks[k]) == Ok(xs[|acc| + k - i - 1])
  {
    var k := i + 1;
    if k < |toks| && toks[k] != EndArray && TokenText(toks[k]).Ok? {
      var s := TokenText(toks[k]).value;
      StringsFromExactly(toks, k, acc + [s], xs, j);
      if i < j < |toks| && toks[j] == EndArray && |xs| == |acc| + (j - i - 1) && xs[..|acc|] == acc &&
         (forall k' :: i < k' < j ==> toks[k'] != EndArray && TokenText(toks[k']) == Ok(xs[|acc| + k' - i - 1])) {
        assert k < j;
        assert xs[|acc|] == s;
        assert xs[..|acc| + 1] == xs[..|acc|] + [xs[|acc|]];
      }
      if StringsFrom(toks, i, acc) == Ok((xs, j)) {
        assert xs[..|acc| + 1] == acc + [s];
        assert xs[..|acc|] == (xs[..|acc| + 1])[..|acc|];
        forall k' | i < k' < j
          ensures toks[k'] != EndArray && TokenText(toks[k']) == Ok(xs[|acc| + k' - i - 1])
        {
          if k' == k {
            assert xs[|acc|] == (xs[..|acc| + 1])[|acc|];
          }
        }
      }
    } else if k < |toks| && toks[k] != EndArray {
      assert StringsFrom(toks, i, acc).Err?;
      assert j < |toks| && toks[j] == EndArray ==> j != k;
    } else if k < |toks| {
      if |xs| == |acc| {
        assert xs[..|acc|] == xs;
      }
    }
  }

  /** `stringList` succeeds with `xs` exactly when the current token opens an
      array, the array closes at index `j`, and `xs` is the text of every token
      in between, in order (so an empty array yields the empty list). */
  lemma {:induction false} StringListExactly(toks: seq<Token>, start: int, xs: seq<string>, j: nat)
    ensures StringListOf(toks, start) == Ok((xs, j)) <==>
      0 <= start < j < |toks| && toks[start] == StartArray && toks[j] == EndArray &&
      |xs| == j - start - 1 &&
      forall k :: start < k < j ==> toks[k] != EndArray && TokenText(toks[k]) == Ok(xs[k - start - 1])
  {
    if 0 <= start < |toks| && toks[start] == StartArray {
      StringsFromExactly(toks, start, [], xs, j);
      assert xs[..0] == [];
    }
  }

  /** The document form of a list of strings. */
  function StrTokens(xs: seq<string>): (r: seq<Token>)
    ensures |r| == |xs|
  {
    seq(|xs|, k requires 0 <= k < |xs| => Str(xs[k]))
  }

  lemma {:induction false} StringsFromReadsStrings(toks: seq<Token>, i: nat, acc: seq<string>, xs: seq<string>)
    requires At(toks, i + 1, StrTokens(xs)) && i + 1 + |xs| < |toks| && toks[i + 1 + |xs|] == EndArray
    decreases xs
    ensures StringsFrom(toks, i, acc) == Ok((acc + xs, i + |xs| + 1))
  {
    if xs == [] {
      assert acc + xs == acc;
    } else {
      assert StrTokens(xs) == [Str(xs[0])] + StrTokens(xs[1..]);
      AtCons(toks, i + 1, Str(xs[0]), StrTokens(xs[1..]));
      StringsFromReadsStrings(toks, i + 1, acc + [xs[0]], xs[1..]);
      assert acc + [xs[0]] + xs[1..] == acc + xs;
    }
  }

  /** Reading back an array of strings yields those strings. */
  lemma {:induction false} StringListReadsStrings(toks: seq<Token>, start: nat, xs: seq<string>)
    requires At(toks, start, [StartArray] + StrTokens(xs) + [EndArray])
    ensures StringListOf(toks, start) == Ok((xs, start + |xs| + 1))
  {
    AtFramed(toks, start, StartArray, StrTokens(xs), EndArray);
    StringsFromReadsStrings(toks, start, [], xs);
    assert [] + xs == xs;
  }

  // ---------------------------------------------------------------------------
  // objectList, as a function of the token stream

  /** The loop of `objectList`: the cursor is on token `i`, the items parsed so
      far are `acc`; each element is handed to `block`, which leaves the cursor on
      the element's last token. */
  function ObjectsFrom<T>(block: TokenParser<T>, toks: seq<Token>, i: nat, acc: seq<T>): (r: Result<(seq<T>, nat)>)
    requires i < |toks|
    decreases |toks| - i
    ensures r.Ok? ==> i < r.value.1 < |toks| && toks[r.value.1] == EndArray
  {
    var k := i + 1;
    if k >= |toks| then Err(EndOfInput)
    else if toks[k] == EndArray then Ok((acc, k))
    else
      var item :- block(toks, k);
      ObjectsFrom(block, toks, item.1, acc + [item.0])
  }

  /** `objectList(block)` on a parser whose current token has index `start`. */
  function ObjectListOf<T>(block: TokenParser<T>, toks: seq<Token>, start: int): (r: Result<(seq<T>, nat)>)
    ensures r.Ok? ==> 0 <= start < r.value.1 < |toks| && toks[start] == StartArray && toks[r.value.1] == EndArray
    ensures !(0 <= start < |toks| && toks[start] == StartArray) ==> r == Err(ExpectedStartArray)
  {
    if 0 <= start < |toks| && toks[start] == StartArray then ObjectsFrom(block, toks, start, [])
    else Err(ExpectedStartArray)
  }

  /** Where element `k` of an array starts, given the index `start` of the
      opening token and the indices `ends` of the last tokens of the elements
      before it. */
  function ElementStart(start: nat, ends: seq<nat>, k: nat): nat
    requires k <= |ends|
  {
    (if k == 0 then start else ends[k - 1]) + 1
  }

  /** Element `k` is an element (not the closing token) and `block` parses it
      to `x`, ending on `ends[k]`. */
  ghost predicate ParsesElement<T>(block: TokenParser<T>, toks: seq<Token>, start: nat, ends: seq<nat>, x: T, k: nat)
    requires k < |ends|
  {
    var s := ElementStart(start, ends, k);
    s < |toks| && toks[s] != EndArray && block(toks, s) == Ok((x, ends[k]))
  }

  lemma {:induction false} ObjectsFromCollects<T>(block: TokenParser<T>, toks: seq<Token>, start: nat,
                                                    items: seq<T>, ends: seq<nat>, n: nat, acc: seq<T>)
    requires |ends| == |items| && n <= |items| && acc == items[..n]
    requires forall k :: n <= k < |items| ==> ParsesElement(block, toks, start, ends, items[k], k)
    requires ElementStart(start, ends, n) - 1 < |toks|
    requires ElementStart(start, ends, |items|) < |toks| && toks[ElementStart(start, ends, |items|)] == EndArray
    decreases |items| - n
    ensures ObjectsFrom(block, toks, ElementStart(start, ends, n) - 1, acc) == Ok((items, ElementStart(start, ends, |items|)))
  {
    if n < |items| {
      assert ParsesElement(block, toks, start, ends, items[n], n);
      assert acc + [items[n]] == items[..n + 1];
      ObjectsFromCollects(block, toks, start, items, ends, n + 1, acc + [items[n]]);
    } else {
      assert acc == items;
    }
  }

  /** `objectList` calls `block` once per element, in order, and returns
      exactly the items those calls produced, in that order. */
  lemma {:induction false} ObjectListCollects<T>(block: TokenParser<T>, toks: seq<Token>, start: nat, items: seq<T>, ends: seq<nat>)
    requires |ends| == |items|
    requires start < |toks| && toks[start] == StartArray
    requires forall k :: 0 <= k < |items| ==> ParsesElement(block, toks, start, ends, items[k], k)
    requires ElementStart(start, ends, |items|) < |toks| && toks[ElementStart(start, ends, |items|)] == EndArray
    ensures ObjectListOf(block, toks, start) == Ok((items, ElementStart(start, ends, |items|)))
  {
    ObjectsFromCollects(block, toks, start, items, ends, 0, []);
  }

  lemma {:induction false} ObjectsFromFails<T>(block: TokenParser<T>, toks: seq<Token>, start: nat,
                                                 items: seq<T>, ends: seq<nat>, n: nat, acc: seq<T>, e: Error)
    requires |ends| == |items| && n <= |items| && |acc| == n
    requires forall k :: n <= k < |items| ==> ParsesElement(block, toks, start, ends, items[k], k)
    requires ElementStart(start, ends, n) - 1 < |toks|
    requires ElementStart(start, ends, |items|) < |toks| && toks[ElementStart(start, ends, |items|)] != EndArray
    requires block(toks, ElementStart(start, ends, |items|)) == Err(e)
    decreases |items| - n
    ensures ObjectsFrom(block, toks, ElementStart(start, ends, n) - 1, acc) == Err(e)
  {
    if n < |items| {
      assert ParsesElement(block, toks, start, ends, items[n], n);
      ObjectsFromFails(block, toks, start, items, ends, n + 1, acc + [items[n]], e);
    }
  }

  /** When `block` fails on an element, `objectList` fails with that error:
      the items parsed before it are not returned. */
  lemma {:induction false} ObjectListFails<T>(block: TokenParser<T>, toks: seq<Token>, start: nat, items: seq<T>, ends: seq<nat>, e: Error)
    requires |ends| == |items|
    requires start < |toks| && toks[start] == StartArray
    requires forall k :: 0 <= k < |items| ==> ParsesElement(block, toks, start, ends, items[k], k)
    requires ElementStart(start, ends, |items|) < |toks| && toks[ElementStart(start, ends, |items|)] != EndArray
    requires block(toks, ElementStart(start, ends, |items|)) == Err(e)
    ensures ObjectListOf(block, toks, start) == Err(e)
  {
    ObjectsFromFails(block, toks, start, items, ends, 0, [], e);
  }

  /** The document form of a list of items, each written by `encode`. */
  function EncodeAll<T>(encode: T -> seq<Token>, xs: seq<T>): seq<Token>
  {
    if xs == [] then [] else encode(xs[0]) + EncodeAll(encode, xs[1..])
  }

  /** The `objectList` loop over the encodings of the items from `xs[n]` on. */
  lemma {:induction false} ObjectsFromReadsEncoding<T>(block: TokenParser<T>, encode: T -> seq<Token>,
                                                         xs: seq<T>, n: nat, toks: seq<Token>, i: nat, acc: seq<T>)
    requires n <= |xs| && i < |toks|
    requires ParsesEncodings(block, encode, xs)
    requires At(toks, i + 1, EncodeAll(encode, xs[n..]) + [EndArray])
    decreases |xs| - n
    ensures ObjectsFrom(block, toks, i, acc) == Ok((acc + xs[n..], i + |EncodeAll(encode, xs[n..])| + 1))
  {
    if n == |xs| {
      ObjectsFromAtEnd(block, encode, xs, n, toks, i, acc);
    } else {
      ObjectsFromNext(block, encode, xs, n, toks, i, acc);
      ObjectsFromReadsEncoding(block, encode, xs, n + 1, toks, i + |encode(xs[n])|, acc + [xs[n]]);
      assert acc + [xs[n]] + xs[n + 1..] == acc + xs[n..];
    }
  }

  /** The last turn of that loop, on the array's end. */
  lemma {:induction false} ObjectsFromAtEnd<T>(block: TokenParser<T>, encode: T -> seq<Token>,
                                                 xs: seq<T>, n: nat, toks: seq<Token>, i: nat, acc: seq<T>)
    requires n == |xs| && i < |toks|
    requires At(toks, i + 1, EncodeAll(encode, xs[n..]) + [EndArray])
    ensures ObjectsFrom(block, toks, i, acc) == Ok((acc + xs[n..], i + |EncodeAll(encode, xs[n..])| + 1))
  {
    assert EncodeAll(encode, xs[n..]) + [EndArray] == [EndArray];
    AtSingle(toks, i + 1, EndArray);
    assert acc + xs[n..] == acc;
  }

  /** One turn of that loop, over item `n`. */
  lemma {:induction false} ObjectsFromNext<T>(block: TokenParser<T>, encode: T -> seq<Token>,
                                                xs: seq<T>, n: nat, toks: seq<Token>, i: nat, acc: seq<T>)
    requires n < |xs| && i < |toks|
    requires ParsesEncodings(block, encode, xs)
    requires At(toks, i + 1, EncodeAll(encode, xs[n..]) + [EndArray])
    ensures i + |encode(xs[n])| < |toks|
    ensures At(toks, i + |encode(xs[n])| + 1, EncodeAll(encode, xs[n + 1..]) + [EndArray])
    ensures |EncodeAll(encode, xs[n..])| == |encode(xs[n])| + |EncodeAll(encode, xs[n + 1..])|
    ensures ObjectsFrom(block, toks, i, acc) == ObjectsFrom(block, toks, i + |encode(xs[n])|, acc + [xs[n]])
  {
    var head := encode(xs[n]);
    assert ParsesEncoding(block, xs[n], head) && head[0] != EndArray;
    EncodeAllLayout(encode, xs, n, toks, i + 1);
    ObjectsFromStep(block, toks, i, acc, xs[n], head);
  }

  /** Where the encoding of item `n` and those of the items after it lie. */
  lemma {:induction false} EncodeAllLayout<T>(encode: T -> seq<Token>, xs: seq<T>, n: nat, toks: seq<Token>, k: nat)
    requires n < |xs|
    requires At(toks, k, EncodeAll(encode, xs[n..]) + [EndArray])
    ensures At(toks, k, encode(xs[n]))
    ensures At(toks, k + |encode(xs[n])|, EncodeAll(encode, xs[n + 1..]) + [EndArray])
    ensures |EncodeAll(encode, xs[n..])| == |encode(xs[n])| + |EncodeAll(encode, xs[n + 1..])|
  {
    var head := encode(xs[n]);
    assert xs[n..][0] == xs[n] && xs[n..][1..] == xs[n + 1..];
    assert EncodeAll(encode, xs[n..]) + [EndArray] == head + (EncodeAll(encode, xs[n + 1..]) + [EndArray]);
    AtAppend(toks, k, head, EncodeAll(encode, xs[n + 1..]) + [EndArray]);
  }

  /** One turn of the `objectList` loop over an element that `block` reads
      back from its encoding `w`. */
  lemma {:induction false} ObjectsFromStep<T>(block: TokenParser<T>, toks: seq<Token>, i: nat, acc: seq<T>, x: T, w: seq<Token>)
    requires i < |toks| && ParsesEncoding(block, x, w) && w[0] != EndArray && At(toks, i + 1, w)
    ensures i + |w| < |toks|
    ensures ObjectsFrom(block, toks, i, acc) == ObjectsFrom(block, toks, i + |w|, acc + [x])
  {
    AtCons(toks, i + 1, w[0], w[1..]);
    assert [w[0]] + w[1..] == w;
  }

  /** Reading back an array whose elements `encode` wrote, with a `block` that
      reads each of them back, yields the original items. */
  lemma {:induction false} ObjectListReadsEncoding<T>(block: TokenParser<T>, encode: T -> seq<Token>, xs: seq<T>, toks: seq<Token>, start: nat)
    requires ParsesEncodings(block, encode, xs)
    requires At(toks, start, [StartArray] + EncodeAll(encode, xs) + [EndArray])
    ensures ObjectListOf(block, toks, start) == Ok((xs, start + |EncodeAll(encode, xs)| + 1))
  {
    assert [StartArray] + EncodeAll(encode, xs) + [EndArray] == [StartArray] + (EncodeAll(encode, xs) + [EndArray]);
    AtAppend(toks, start, [StartArray], EncodeAll(encode, xs) + [EndArray]);
    AtSingle(toks, start, StartArray);
    assert xs[0..] == xs;
    ObjectsFromReadsEncoding(block, encode, xs, 0, toks, start, []);
    assert [] + xs == xs;
  }

  // ---------------------------------------------------------------------------
  // fieldIfNotNull and objectIfNotNull, as the tokens they contribute

  /** A value handed to the builder's `field(name, value)`. */
  datatype FieldValue =
    | TextValue(s: string)
    | BoolValue(b: bool)
    | LongValue(n: Long)
    | ObjectValue(content: seq<Token>)   // an object that writes its own content

  function RenderValue(v: FieldValue): seq<Token>
  {
    match v
    case TextValue(s) => [Str(s)]
    case BoolValue(b) => [Bool(b)]
    case LongValue(n) => [Num(n as int)]
    case ObjectValue(content) => content
  }

  /** What `field(name, value)` writes. */
  function NamedField(name: string, value: FieldValue): (r: seq<Token>)
    ensures |r| > 0 && r[0] == FieldName(name) && r[1..] == RenderValue(value)
  {
    [FieldName(name)] + RenderValue(value)
  }

  /** What `fieldIfNotNull` writes: nothing for null, otherwise one named field. */
  function OptionalField(name: string, value: Option<FieldValue>): (r: seq<Token>)
    ensures value.None? <==> r == []
    ensures value.Some? ==> |r| > 0 && r[0] == FieldName(name) && r[1..] == RenderValue(value.value)
  {
    match value
    case None => []
    case Some(v) => NamedField(name, v)
  }

  /** What `objectIfNotNull` writes: nothing for null, otherwise the field name
      immediately followed by the object's own content. */
  function OptionalObject(name: string, content: Option<seq<Token>>): (r: seq<Token>)
    ensures content.None? ==> r == []
    ensures content.Some? ==> |r| > 0 && r[0] == FieldName(name) && r[1..] == content.value
  {
    match content
    case None => []
    case Some(c) => [FieldName(name)] + c
  }

  // ---------------------------------------------------------------------------
  // The parser: a cursor over a token stream

  class Parser {
    const tokens: seq<Token>
    /** Index of the current token: -1 before the first, |tokens| at the end. */
    var pos: int

    ghost predicate Valid()
      reads this
    {
      -1 <= pos <= |tokens|
    }

    constructor (tokens: seq<Token>)
      ensures Valid() && this.tokens == tokens && pos == -1
    {
      this.tokens := tokens;
      pos := -1;
    }

    /** `currentToken()`: null before the first token and at the end. */
    function CurrentToken(): (t: Option<Token>)
      reads this
      requires Valid()
      ensures t.Some? <==> 0 <= pos < |tokens|
      ensures t.Some? ==> t.value == tokens[pos]
    {
      if 0 <= pos < |tokens| then Some(tokens[pos]) else None
    }

    /** `nextToken()`: advance one token (staying at the end once there) and
        return the new current token. */
    method NextToken() returns (t: Option<Token>)
      requires Valid()
      modifies this
      ensures Valid()
      ensures pos == if old(pos) < |tokens| then old(pos) + 1 else old(pos)
      ensures t == CurrentToken()
    {
      if pos < |tokens| {
        pos := pos + 1;
      }
      t := CurrentToken();
    }

    /** `stringList()`: the strings of the array the parser is on; afterwards the
        parser is on the array's closing token. */
    method StringList() returns (r: Result<seq<string>>)
      requires Valid()
      modifies this
      ensures Valid()
      ensures var spec := StringListOf(tokens, old(pos));
        (spec.Ok? ==> r == Ok(spec.value.0) && pos == spec.value.1) &&
        (spec.Err? ==> r == Err(spec.error))
    {
      var current := CurrentToken();
      if current != Some(StartArray) {
        return Err(ExpectedStartArray);
      }
      ghost var start: nat := pos;
      var acc: seq<string> := [];
      var t := NextToken();
      while t != Some(EndArray)
        invariant Valid() && start < pos <= |tokens|
        invariant t == CurrentToken()
        invariant StringsFrom(tokens, pos - 1, acc) == StringsFrom(tokens, start, [])
        decreases |tokens| - pos
      {
        if t.None? {
          return Err(EndOfInput);
        }
        var text := TokenText(t.value);
        if text.Err? {
          return Err(text.error);
        }
        acc := acc + [text.value];
        t := NextToken();
      }
      return Ok(acc);
    }

    /** `objectList(block)`: the items `block` parses from the elements of the
        array the parser is on, in order; a failing element fails the whole
        list. Afterwards the parser is on the array's closing token. */
    method ObjectList<T>(block: TokenParser<T>) returns (r: Result<seq<T>>)
      requires Valid()
      modifies this
      ensures Valid()
      ensures var spec := ObjectListOf(block, tokens, old(pos));
        (spec.Ok? ==> r == Ok(spec.value.0) && pos == spec.value.1) &&
        (spec.Err? ==> r == Err(spec.error))
    {
      var current := CurrentToken();
      if current != Some(StartArray) {
        return Err(ExpectedStartArray);
      }
      ghost var start: nat := pos;
      var acc: seq<T> := [];
      var t := NextToken();
      while t != Some(EndArray)
        invariant Valid() && start < pos <= |tokens|
        invariant t == CurrentToken()
        invariant ObjectsFrom(block, tokens, pos - 1, acc) == ObjectsFrom(block, tokens, start, [])
        decreases |tokens| - pos
      {
        if t.None? {
          return Err(EndOfInput);
        }
        var item := block(tokens, pos);
        if item.Err? {
          return Err(item.error);
        }
        pos := item.value.1;
        acc := acc + [item.value.0];
        t := NextToken();
      }
      return Ok(acc);
    }
  }

  /** `contentParserNextToken()`: a parser over the request body, advanced once
      so that its current token is the body's first. */
  method ContentParserNextToken(body: seq<Token>) returns (p: Parser)
    ensures fresh(p) && p.Valid() && p.tokens == body && p.pos == 0
    ensures p.CurrentToken() == if |body| > 0 then Some(body[0]) else None
  {
    p := new Parser(body);
    var _ := p.NextToken();
  }

  // ---------------------------------------------------------------------------
  // The builder: an output token sequence

  class Builder {
    var out: seq<Token>

    constructor ()
      ensures out == []
    {
      out := [];
    }

    /** `field(name)`: a field name whose value the caller writes next. */
    method Name(name: string)
      modifies this
      ensures out == old(out) + [FieldName(name)]
    {
      out := out + [FieldName(name)];
    }

    /** `field(name, value)`. */
    method Field(name: string, value: FieldValue)
      modifies this
      ensures out == old(out) + NamedField(name, value)
    {
      out := out + NamedField(name, value);
    }

    /** An object's `toXContent(builder)`, writing its own content. */
    method Content(content: seq<Token>)
      modifies this
      ensures out == old(out) + content
    {
      out := out + content;
    }

    /** `fieldIfNotNull(name, value)`: returns this same builder. */
    method FieldIfNotNull(name: string, value: Option<FieldValue>) returns (b: Builder)
      modifies this
      ensures b == this
      ensures out == old(out) + OptionalField(name, value)
    {
      if value.Some? {
        Field(name, value.value);
      }
      return this;
    }

    /** `objectIfNotNull(name, object)`: returns this same builder. */
    method ObjectIfNotNull(name: string, content: Option<seq<Token>>) returns (b: Builder)
      modifies this
      ensures b == this
      ensures out == old(out) + OptionalObject(name, content)
    {
      if content.Some? {
        Name(name);
        Content(content.value);
      }
      return this;
    }
  }
}
