/** The structured-document boundary: the tokens a content parser yields, the
    scalar accessors the codecs use on the current token, `skipChildren`, and the
    shape of a well-formed document value (what an unknown field may carry). */
module XContent {
  import opened Results
  import opened SeqAt

  /** One token of a lexed document. Numbers carry their integral value. */
  datatype Token =
    | StartObject
    | EndObject
    | StartArray
    | EndArray
    | FieldName(name: string)
    | Str(s: string)
    | Num(n: int)
    | Bool(b: bool)
    | Null

  /** Reaching the end of the token stream inside an open array or object. */
  const EndOfInput := ParseError("unexpected end of input")

  predicate IsStart(t: Token) {
    t == StartObject || t == StartArray
  }

  predicate IsEnd(t: Token) {
    t == EndObject || t == EndArray
  }

  /** A pure item parser in the cursor convention of the codecs: it is handed the
      index of the current token (the item's first token) and, on success, returns
      the item and the index of the last token it consumed. */
  type ItemParser<T> = (seq<Token>, nat) -> Result<(T, nat)>

  /** An item parser that never moves backwards and never leaves the token
      stream: what the list readers need to make progress. */
  ghost predicate Consumes<T>(parse: ItemParser<T>) {
    forall toks: seq<Token>, i: nat ::
      i < |toks| && parse(toks, i).Ok? ==> i <= parse(toks, i).value.1 < |toks|
  }

  /** The item parsers the list readers accept. */
  type TokenParser<T> = parse: ItemParser<T> | Consumes(parse)
    witness (toks: seq<Token>, i: nat) => Err(EndOfInput)

  /** `parse` reads `x` back from its encoding `w`, wherever `w` stands, and
      stops on the encoding's last token. */
  ghost predicate ParsesEncoding<T>(parse: ItemParser<T>, x: T, w: seq<Token>) {
    |w| > 0 &&
    forall toks: seq<Token>, i: nat {:trigger At(toks, i, w)} ::
      At(toks, i, w) ==> parse(toks, i) == Ok((x, i + |w| - 1))
  }

  // ---------------------------------------------------------------------------
  // Scalar accessors on the current token

  function DigitChar(d: nat): char
    requires d < 10
  {
    "0123456789"[d]
  }

  function NatText(n: nat): (r: string)
    ensures |r| > 0
  {
    if n < 10 then [DigitChar(n)] else NatText(n / 10) + [DigitChar(n % 10)]
  }

  /** The textual form of a number token. */
  function DecimalText(n: int): (r: string)
    ensures |r| > 0
  {
    if n < 0 then "-" + NatText(-n) else NatText(n)
  }

  const NotAValue := ParseError("can't get text on a non-value token")
  const NotABoolean := ParseError("expected a boolean value")
  const NotALong := ParseError("expected a long value")

  /** `text()`: the text of a value token; asking for the text of a structural
      token, a field name or a null fails. */
  function TokenText(t: Token): (r: Result<string>)
    ensures r.Ok? <==> t.Str? || t.Num? || t.Bool?
    ensures t.Str? ==> r == Ok(t.s)
  {
    match t
    case Str(s) => Ok(s)
    case Num(n) => Ok(DecimalText(n))
    case Bool(b) => Ok(if b then "true" else "false")
    case _ => Err(NotAValue)
  }

  /** `textOrNull()`: null for a null token, otherwise `text()`. */
  function TokenTextOrNull(t: Token): (r: Result<Option<string>>)
    ensures t == Null ==> r == Ok(None)
    ensures t != Null ==> r.Ok? == TokenText(t).Ok?
    ensures t != Null && r.Ok? ==> r.value == Some(TokenText(t).value)
  {
    if t == Null then Ok(None)
    else
      var s :- TokenText(t);
      Ok(Some(s))
  }

  /** `booleanValue()` on a boolean token. */
  function TokenBoolean(t: Token): (r: Result<bool>)
    ensures r.Ok? <==> t.Bool?
    ensures r.Ok? ==> r.value == t.b
  {
    if t.Bool? then Ok(t.b) else Err(NotABoolean)
  }

  /** `longValue()` on a number token that fits in 64 bits. */
  function TokenLong(t: Token): (r: Result<Long>)
    ensures r.Ok? <==> t.Num? && -0x8000_0000_0000_0000 <= t.n < 0x8000_0000_0000_0000
    ensures r.Ok? ==> r.value as int == t.n
  {
    if t.Num? && -0x8000_0000_0000_0000 <= t.n < 0x8000_0000_0000_0000 then Ok(t.n as Long)
    else Err(NotALong)
  }

  // ---------------------------------------------------------------------------
  // skipChildren

  /** Scans forward from index `i` at nesting depth `depth` (at least one open
      container) to the token that closes the outermost of them. */
  function SkipTo(toks: seq<Token>, i: nat, depth: nat): (r: Result<nat>)
    requires depth > 0
    decreases |toks| - i
    ensures r.Ok? ==> i <= r.value < |toks| && IsEnd(toks[r.value])
  {
    if i >= |toks| then Err(EndOfInput)
    else if IsStart(toks[i]) then SkipTo(toks, i + 1, depth + 1)
    else if IsEnd(toks[i]) then (if depth == 1 then Ok(i) else SkipTo(toks, i + 1, depth - 1))
    else SkipTo(toks, i + 1, depth)
  }

  /** `skipChildren()`: on a start token, move to its matching end token;
      on any other token, stay. The result is the index of the current token
      afterwards. */
  function SkipChildren(toks: seq<Token>, i: nat): (r: Result<nat>)
    requires i < |toks|
    ensures r.Ok? ==> i <= r.value < |toks|
    ensures !IsStart(toks[i]) ==> r == Ok(i)
  {
    if IsStart(toks[i]) then SkipTo(toks, i + 1, 1) else Ok(i)
  }

  // ---------------------------------------------------------------------------
  // Well-formed document values

  /** Any document value: what a field the codecs do not know may hold. */
  datatype Json =
    | JStr(s: string)
    | JNum(n: int)
    | JBool(b: bool)
    | JNull
    | JArray(elems: seq<Json>)
    | JObject(members: seq<Member>)

  datatype Member = Member(name: string, value: Json)

  function Render(v: Json): (r: seq<Token>)
    decreases v
    ensures |r| > 0 && !IsEnd(r[0]) && !r[0].FieldName?
  {
    match v
    case JStr(s) => [Str(s)]
    case JNum(n) => [Num(n)]
    case JBool(b) => [Bool(b)]
    case JNull => [Null]
    case JArray(elems) => [StartArray] + RenderElems(elems) + [EndArray]
    case JObject(members) => [StartObject] + RenderMembers(members) + [EndObject]
  }

  function RenderElems(vs: seq<Json>): seq<Token>
    decreases vs
  {
    if vs == [] then [] else Render(vs[0]) + RenderElems(vs[1..])
  }

  function RenderMembers(ms: seq<Member>): seq<Token>
    decreases ms
  {
    if ms == [] then [] else [FieldName(ms[0].name)] + Render(ms[0].value) + RenderMembers(ms[1..])
  }

  lemma {:induction false} RenderMembersCons(m: Member, ms: seq<Member>)
    ensures RenderMembers([m] + ms) == [FieldName(m.name)] + Render(m.value) + RenderMembers(ms)
  {
    assert ([m] + ms)[0] == m && ([m] + ms)[1..] == ms;
  }

  /** Rendering two runs of members is rendering each in turn. */
  lemma {:induction false} RenderMembersAppend(a: seq<Member>, b: seq<Member>)
    decreases a
    ensures RenderMembers(a + b) == RenderMembers(a) + RenderMembers(b)
  {
    if a == [] {
      assert a + b == b;
    } else {
      assert a + b == [a[0]] + (a[1..] + b);
      RenderMembersCons(a[0], a[1..] + b);
      RenderMembersAppend(a[1..], b);
    }
  }

  /** A parser that reads `x` back from `w` at every position where `w` stands
      parses that encoding. */
  lemma {:induction false} ParsesEverywhere<T>(parse: ItemParser<T>, x: T, w: seq<Token>)
    requires |w| > 0
    requires forall toks: seq<Token>, i: nat :: At(toks, i, w) ==> parse(toks, i) == Ok((x, i + |w| - 1))
    ensures ParsesEncoding(parse, x, w)
  {
  }

  /** Every item of `xs` is read back by `parse` from what `encode` writes for
      it, and no encoding starts with an array's end token. */
  ghost predicate ParsesEncodings<T>(parse: ItemParser<T>, encode: T -> seq<Token>, xs: seq<T>) {
    forall x :: x in xs ==> ParsesEncoding(parse, x, encode(x)) && encode(x)[0] != EndArray
  }

  // ---------------------------------------------------------------------------
  // The scalar accessors on the document tree

  /** The text of a scalar value, as `text()` reads it from the value's token. */
  function JsonText(v: Json): (r: Result<string>)
    ensures r.Ok? <==> v.JStr? || v.JNum? || v.JBool?
  {
    match v
    case JStr(s) => Ok(s)
    case JNum(n) => Ok(DecimalText(n))
    case JBool(b) => Ok(if b then "true" else "false")
    case _ => Err(NotAValue)
  }

  function JsonTextOrNull(v: Json): (r: Result<Option<string>>)
    ensures v == JNull ==> r == Ok(None)
    ensures v != JNull ==> r.Ok? == JsonText(v).Ok?
  {
    if v == JNull then Ok(None)
    else
      var s :- JsonText(v);
      Ok(Some(s))
  }

  function JsonBoolean(v: Json): (r: Result<bool>)
    ensures r.Ok? <==> v.JBool?
  {
    if v.JBool? then Ok(v.b) else Err(NotABoolean)
  }

  function JsonLong(v: Json): (r: Result<Long>)
    ensures r.Ok? <==> v.JNum? && -0x8000_0000_0000_0000 <= v.n < 0x8000_0000_0000_0000
  {
    if v.JNum? && -0x8000_0000_0000_0000 <= v.n < 0x8000_0000_0000_0000 then Ok(v.n as Long)
    else Err(NotALong)
  }

  /** The token accessors on a value's first token agree with the tree
      accessors, and every accessor that succeeds was looking at a one-token
      value. */
  lemma {:induction false} ScalarsOfRendered(v: Json)
    ensures TokenText(Render(v)[0]) == JsonText(v)
    ensures TokenTextOrNull(Render(v)[0]) == JsonTextOrNull(v)
    ensures TokenBoolean(Render(v)[0]) == JsonBoolean(v)
    ensures TokenLong(Render(v)[0]) == JsonLong(v)
    ensures JsonText(v).Ok? || JsonTextOrNull(v).Ok? || JsonBoolean(v).Ok? || JsonLong(v).Ok? ==> |Render(v)| == 1
  {
  }

  /** Scanning over a complete value returns to the same nesting depth. */
  lemma {:induction false} SkipToOverValue(v: Json, toks: seq<Token>, i: nat, depth: nat)
    requires depth > 0 && At(toks, i, Render(v))
    decreases v, 3
    ensures SkipTo(toks, i, depth) == SkipTo(toks, i + |Render(v)|, depth)
  {
    match v
    case JArray(elems) => SkipToOverArrayAt(elems, toks, i, depth);
    case JObject(members) => SkipToOverObjectAt(members, toks, i, depth);
    case _ => SkipToOverScalar(v, toks, i, depth);
  }

  lemma {:induction false} SkipToOverArrayAt(elems: seq<Json>, toks: seq<Token>, i: nat, depth: nat)
    requires depth > 0 && At(toks, i, Render(JArray(elems)))
    decreases JArray(elems), 2
    ensures SkipTo(toks, i, depth) == SkipTo(toks, i + |Render(JArray(elems))|, depth)
  {
    AtFramed(toks, i, StartArray, RenderElems(elems), EndArray);
    SkipToOverArray(elems, toks, i, depth);
  }

  lemma {:induction false} SkipToOverObjectAt(members: seq<Member>, toks: seq<Token>, i: nat, depth: nat)
    requires depth > 0 && At(toks, i, Render(JObject(members)))
    decreases JObject(members), 2
    ensures SkipTo(toks, i, depth) == SkipTo(toks, i + |Render(JObject(members))|, depth)
  {
    AtFramed(toks, i, StartObject, RenderMembers(members), EndObject);
    SkipToOverObject(members, toks, i, depth);
  }

  lemma {:induction false} SkipToOverScalar(v: Json, toks: seq<Token>, i: nat, depth: nat)
    requires depth > 0 && !v.JArray? && !v.JObject? && At(toks, i, Render(v))
    ensures SkipTo(toks, i, depth) == SkipTo(toks, i + |Render(v)|, depth)
  {
    AtSingle(toks, i, Render(v)[0]);
    SkipToOther(toks, i, depth);
  }

  lemma {:induction false} SkipToOverArray(elems: seq<Json>, toks: seq<Token>, i: nat, depth: nat)
    requires depth > 0 && i + |RenderElems(elems)| + 1 < |toks|
    requires toks[i] == StartArray && At(toks, i + 1, RenderElems(elems)) && toks[i + 1 + |RenderElems(elems)|] == EndArray
    decreases JArray(elems), 1
    ensures SkipTo(toks, i, depth) == SkipTo(toks, i + |RenderElems(elems)| + 2, depth)
  {
    SkipToStart(toks, i, depth);
    SkipToOverElems(elems, toks, i + 1, depth + 1);
    SkipToEnd(toks, i + 1 + |RenderElems(elems)|, depth + 1);
  }

  lemma {:induction false} SkipToOverObject(members: seq<Member>, toks: seq<Token>, i: nat, depth: nat)
    requires depth > 0 && i + |RenderMembers(members)| + 1 < |toks|
    requires toks[i] == StartObject && At(toks, i + 1, RenderMembers(members)) && toks[i + 1 + |RenderMembers(members)|] == EndObject
    decreases JObject(members), 1
    ensures SkipTo(toks, i, depth) == SkipTo(toks, i + |RenderMembers(members)| + 2, depth)
  {
    SkipToStart(toks, i, depth);
    SkipToOverMembers(members, toks, i + 1, depth + 1);
    SkipToEnd(toks, i + 1 + |RenderMembers(members)|, depth + 1);
  }

  lemma {:induction false} SkipToOverElems(vs: seq<Json>, toks: seq<Token>, i: nat, depth: nat)
    requires depth > 0 && At(toks, i, RenderElems(vs))
    decreases vs, 1
    ensures SkipTo(toks, i, depth) == SkipTo(toks, i + |RenderElems(vs)|, depth)
  {
    if vs != [] {
      var n := SkipToOverFirstElem(vs, toks, i, depth);
      SkipToOverElems(vs[1..], toks, i + n, depth);
    }
  }

  /** Scanning over the first of the values `vs`, which takes `n` tokens. */
  lemma {:induction false} SkipToOverFirstElem(vs: seq<Json>, toks: seq<Token>, i: nat, depth: nat) returns (n: nat)
    requires depth > 0 && vs != [] && At(toks, i, RenderElems(vs))
    decreases vs, 0
    ensures n == |Render(vs[0])|
    ensures SkipTo(toks, i, depth) == SkipTo(toks, i + n, depth)
    ensures At(toks, i + n, RenderElems(vs[1..]))
    ensures |RenderElems(vs)| == n + |RenderElems(vs[1..])|
  {
    AtAppend(toks, i, Render(vs[0]), RenderElems(vs[1..]));
    n := |Render(vs[0])|;
    SkipToOverValue(vs[0], toks, i, depth);
  }

  lemma {:induction false} SkipToOverMembers(ms: seq<Member>, toks: seq<Token>, i: nat, depth: nat)
    requires depth > 0 && At(toks, i, RenderMembers(ms))
    decreases ms, 1
    ensures SkipTo(toks, i, depth) == SkipTo(toks, i + |RenderMembers(ms)|, depth)
  {
    if ms != [] {
      var n := SkipToOverFirstMember(ms, toks, i, depth);
      SkipToOverMembers(ms[1..], toks, i + n, depth);
    }
  }

  /** Scanning over the first of the members `ms`, which takes `n` tokens. */
  lemma {:induction false} SkipToOverFirstMember(ms: seq<Member>, toks: seq<Token>, i: nat, depth: nat) returns (n: nat)
    requires depth > 0 && ms != [] && At(toks, i, RenderMembers(ms))
    decreases ms, 0
    ensures n == 1 + |Render(ms[0].value)|
    ensures SkipTo(toks, i, depth) == SkipTo(toks, i + n, depth)
    ensures At(toks, i + n, RenderMembers(ms[1..]))
    ensures |RenderMembers(ms)| == n + |RenderMembers(ms[1..])|
  {
    MembersLayout(ms, toks, i);
    n := 1 + |Render(ms[0].value)|;
    SkipToOther(toks, i, depth);
    SkipToOverValue(ms[0].value, toks, i + 1, depth);
  }

  /** Where the parts of the first of the rendered members `ms` lie. */
  lemma {:induction false} MembersLayout(ms: seq<Member>, toks: seq<Token>, i: nat)
    requires ms != [] && At(toks, i, RenderMembers(ms))
    ensures i < |toks| && toks[i] == FieldName(ms[0].name)
    ensures At(toks, i + 1, Render(ms[0].value))
    ensures At(toks, i + 1 + |Render(ms[0].value)|, RenderMembers(ms[1..]))
    ensures |RenderMembers(ms)| == 1 + |Render(ms[0].value)| + |RenderMembers(ms[1..])|
  {
    var head := [FieldName(ms[0].name)] + Render(ms[0].value);
    var rest := RenderMembers(ms[1..]);
    assert RenderMembers(ms) == head + rest;
    AtAppend(toks, i, head, rest);
    AtCons(toks, i, FieldName(ms[0].name), Render(ms[0].value));
  }

  /** One step of the scan: a start token goes one level deeper, an end token
      not at the last level one level up, any other token leaves the depth. */
  lemma {:induction false} SkipToStart(toks: seq<Token>, i: nat, depth: nat)
    requires depth > 0 && i < |toks| && IsStart(toks[i])
    ensures SkipTo(toks, i, depth) == SkipTo(toks, i + 1, depth + 1)
  {
  }

  lemma {:induction false} SkipToEnd(toks: seq<Token>, i: nat, depth: nat)
    requires depth > 1 && i < |toks| && IsEnd(toks[i])
    ensures SkipTo(toks, i, depth) == SkipTo(toks, i + 1, depth - 1)
  {
  }

  lemma {:induction false} SkipToOther(toks: seq<Token>, i: nat, depth: nat)
    requires depth > 0 && i < |toks| && !IsStart(toks[i]) && !IsEnd(toks[i])
    ensures SkipTo(toks, i, depth) == SkipTo(toks, i + 1, depth)
  {
  }

  /** `skipChildren` on the first token of any well-formed value leaves the
      cursor on that value's last token: an unknown field is skipped whole,
      however deeply its arrays and objects nest. */
  lemma {:induction false} SkipChildrenSkipsValue(v: Json, toks: seq<Token>, i: nat)
    requires At(toks, i, Render(v))
    ensures i < |toks|
    ensures SkipChildren(toks, i) == Ok(i + |Render(v)| - 1)
  {
    match v
    case JArray(elems) =>
      AtFramed(toks, i, StartArray, RenderElems(elems), EndArray);
      SkipChildrenOverArray(elems, toks, i);
    case JObject(members) =>
      AtFramed(toks, i, StartObject, RenderMembers(members), EndObject);
      SkipChildrenOverObject(members, toks, i);
    case _ =>
      AtSingle(toks, i, Render(v)[0]);
  }

  lemma {:induction false} SkipChildrenOverArray(elems: seq<Json>, toks: seq<Token>, i: nat)
    requires i + |RenderElems(elems)| + 1 < |toks|
    requires toks[i] == StartArray && At(toks, i + 1, RenderElems(elems)) && toks[i + 1 + |RenderElems(elems)|] == EndArray
    ensures SkipChildren(toks, i) == Ok(i + |RenderElems(elems)| + 1)
  {
    SkipToOverElems(elems, toks, i + 1, 1);
    SkipToAtEnd(toks, i + 1 + |RenderElems(elems)|);
  }

  lemma {:induction false} SkipChildrenOverObject(members: seq<Member>, toks: seq<Token>, i: nat)
    requires i + |RenderMembers(members)| + 1 < |toks|
    requires toks[i] == StartObject && At(toks, i + 1, RenderMembers(members)) && toks[i + 1 + |RenderMembers(members)|] == EndObject
    ensures SkipChildren(toks, i) == Ok(i + |RenderMembers(members)| + 1)
  {
    SkipToOverMembers(members, toks, i + 1, 1);
    SkipToAtEnd(toks, i + 1 + |RenderMembers(members)|);
  }

  /** What the accessors see on token `i` when value `v` stands there, and
      where `skipChildren` leaves the cursor. */
  ghost predicate ReadsAsValue(toks: seq<Token>, i: nat, v: Json) {
    && i < |toks|
    && TokenText(toks[i]) == JsonText(v)
    && TokenTextOrNull(toks[i]) == JsonTextOrNull(v)
    && TokenBoolean(toks[i]) == JsonBoolean(v)
    && TokenLong(toks[i]) == JsonLong(v)
    && (JsonText(v).Ok? || JsonTextOrNull(v).Ok? || JsonBoolean(v).Ok? || JsonLong(v).Ok? ==> |Render(v)| == 1)
    && SkipChildren(toks, i) == Ok(i + |Render(v)| - 1)
  }

  /** Any well-formed value standing at index `i` reads there as itself. */
  lemma {:induction false} ValueAt(v: Json, toks: seq<Token>, i: nat)
    requires At(toks, i, Render(v))
    ensures ReadsAsValue(toks, i, v)
  {
    AtCons(toks, i, Render(v)[0], Render(v)[1..]);
    assert [Render(v)[0]] + Render(v)[1..] == Render(v);
    ScalarsOfRendered(v);
    SkipChildrenSkipsValue(v, toks, i);
  }

  lemma {:induction false} SkipToAtEnd(toks: seq<Token>, i: nat)
    requires i < |toks| && IsEnd(toks[i])
    ensures SkipTo(toks, i, 1) == Ok(i)
  {
  }
}
