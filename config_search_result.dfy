/** The paginated result of a notification-configuration search: a window of
    items with its start index, the total number of hits, whether that total is
    exact or a lower bound, and the tag under which the document form lists the
    items. It has one function per construction path. The item type is a
    parameter, handed over as its capabilities: a document parser and a stream
    reader (with, for the round trips, their writers). */
module ConfigSearchResult {
  import opened Results
  import opened SeqAt
  import opened XContent
  import opened XContentHelpers
  import opened ObjectFields
  import opened Stream

  /** The tag of the configuration list. */
  const ConfigListTag := "config_list"
  const StartIndexTag := "start_index"
  const TotalHitsTag := "total_hits"
  const TotalHitRelationTag := "total_hit_relation"

  /** Whether `totalHits` is the exact count or a lower bound; the constants in
      their declaration order. */
  datatype Relation = EqualTo | GreaterThanOrEqualTo

  datatype SearchResult<T> = SearchResult(startIndex: Long, totalHits: Long, relation: Relation,
                                          listTag: string, items: seq<T>)

  // ---------------------------------------------------------------------------
  // Construction from values

  /** The single-item constructor: a one-item window that is the whole
      collection. */
  function FromItem<T>(item: T): (r: SearchResult<T>)
    ensures r.startIndex == 0 && r.totalHits as int == |r.items| && r.relation == EqualTo
    ensures r.listTag == ConfigListTag && r.items == [item]
  {
    SearchResult(0, 1, EqualTo, ConfigListTag, [item])
  }

  /** The all-param constructor: everything passes through, under the
      configuration list tag. */
  function AllParams<T>(startIndex: Long, totalHits: Long, relation: Relation, items: seq<T>): (r: SearchResult<T>)
    ensures r.startIndex == startIndex && r.totalHits == totalHits && r.relation == relation
    ensures r.listTag == ConfigListTag && r.items == items
  {
    SearchResult(startIndex, totalHits, relation, ConfigListTag, items)
  }

  /** The list constructor: the whole collection, from index 0, with an exact
      total equal to the list's size. (A JVM list holds at most
      `MaxListSize` items.) */
  function FromList<T>(items: seq<T>): (r: SearchResult<T>)
    requires |items| <= MaxListSize
    ensures r.startIndex == 0 && r.totalHits as int == |items| && r.relation == EqualTo
    ensures r.listTag == ConfigListTag && r.items == items
  {
    AllParams(0, |items| as Long, EqualTo, items)
  }

  /** The list constructor is the all-param one with the whole-collection
      values. */
  lemma {:induction false} FromListIsWholeCollection<T>(items: seq<T>)
    requires |items| <= MaxListSize
    ensures FromList(items) == AllParams(0, |items| as Long, EqualTo, items)
    ensures FromList(items).totalHits as int == |FromList(items).items|
  {
  }

  // ---------------------------------------------------------------------------
  // Construction from a search response

  /** The part of a search response a result is built from: its hit count and
      relation, and its hits as records the caller's hit parser turns into items. */
  datatype SearchResponse<R> = SearchResponse(totalHits: Long, relation: Relation, hits: seq<R>)

  /** The hits parsed in order; the first failure fails them all. */
  function ParseHits<R, T>(parse: R -> Result<T>, hits: seq<R>): (r: Result<seq<T>>)
    decreases hits
    ensures r.Ok? <==> forall k :: 0 <= k < |hits| ==> parse(hits[k]).Ok?
    ensures r.Ok? ==> |r.value| == |hits| && forall k :: 0 <= k < |hits| ==> r.value[k] == parse(hits[k]).value
  {
    if hits == [] then Ok([])
    else
      var x :- parse(hits[0]);
      var rest :- ParseHits(parse, hits[1..]);
      assert forall k :: 1 <= k < |hits| ==> hits[k] == hits[1..][k - 1];
      Ok([x] + rest)
  }

  /** When hit `k` is the first that fails to parse, its error is the result. */
  lemma {:induction false} ParseHitsFirstFailure<R, T>(parse: R -> Result<T>, hits: seq<R>, k: nat)
    requires k < |hits| && parse(hits[k]).Err?
    requires forall j :: 0 <= j < k ==> parse(hits[j]).Ok?
    decreases k
    ensures ParseHits(parse, hits) == Err(parse(hits[k]).error)
  {
    if k > 0 {
      assert parse(hits[0]).Ok?;
      assert forall j :: 0 <= j < k - 1 ==> hits[1..][j] == hits[j + 1];
      ParseHitsFirstFailure(parse, hits[1..], k - 1);
    }
  }

  /** The search-response constructor: the caller's offset and the response's
      total and relation carried through, the hits parsed in order; a hit that
      fails to parse fails the whole result. */
  function FromSearchResponse<R, T>(from: Long, response: SearchResponse<R>, parse: R -> Result<T>): (r: Result<SearchResult<T>>)
    ensures r.Ok? <==> forall k :: 0 <= k < |response.hits| ==> parse(response.hits[k]).Ok?
    ensures r.Ok? ==> r.value.startIndex == from && r.value.totalHits == response.totalHits
    ensures r.Ok? ==> r.value.relation == response.relation && r.value.listTag == ConfigListTag
    ensures r.Ok? ==> |r.value.items| == |response.hits|
    ensures r.Ok? ==> forall k :: 0 <= k < |response.hits| ==> r.value.items[k] == parse(response.hits[k]).value
  {
    var items :- ParseHits(parse, response.hits);
    Ok(SearchResult(from, response.totalHits, response.relation, ConfigListTag, items))
  }

  /** No partial result: the first hit that fails to parse is the error. */
  lemma {:induction false} FromSearchResponseFails<R, T>(from: Long, response: SearchResponse<R>, parse: R -> Result<T>, k: nat)
    requires k < |response.hits| && parse(response.hits[k]).Err?
    requires forall j :: 0 <= j < k ==> parse(response.hits[j]).Ok?
    ensures FromSearchResponse(from, response, parse) == Err(parse(response.hits[k]).error)
  {
    ParseHitsFirstFailure(parse, response.hits, k);
  }

  // ---------------------------------------------------------------------------
  // Binary form

  function RelationOrdinal(rel: Relation): (n: nat)
    ensures n < 2
  {
    match rel
    case EqualTo => 0
    case GreaterThanOrEqualTo => 1
  }

  function RelationOfOrdinal(n: nat): (rel: Relation)
    requires n < 2
    ensures RelationOrdinal(rel) == n
  {
    if n == 0 then EqualTo else GreaterThanOrEqualTo
  }

  function WriteResult<T>(write: T -> seq<Prim>, r: SearchResult<T>): seq<Prim> {
    [PLong(r.startIndex), PLong(r.totalHits), PInt(RelationOrdinal(r.relation)), PStr(r.listTag)] + WriteList(write, r.items)
  }

  /** The stream constructor: start index, total, relation ordinal, list tag,
      then the items, each read by the item type's reader. */
  function ReadResult<T>(read: Reader<T>, s: seq<Prim>, i: nat): (r: Result<(SearchResult<T>, nat)>)
    ensures i >= |s| ==> r == Err(EndOfStream)
    ensures r.Ok? ==> i + 4 < |s| && s[i].PLong? && s[i + 1].PLong? && s[i + 2].PInt? && s[i + 3].PStr? && s[i + 4].PInt?
    ensures r.Ok? ==> 0 <= s[i + 2].v < 2 && RelationOrdinal(r.value.0.relation) == s[i + 2].v
    ensures r.Ok? ==> r.value.0.startIndex == s[i].l && r.value.0.totalHits == s[i + 1].l
    ensures r.Ok? ==> r.value.0.listTag == s[i + 3].s && |r.value.0.items| == s[i + 4].v
  {
    var start :- ReadLong(s, i);
    var total :- ReadLong(s, start.1);
    var rel :- ReadEnum(s, total.1, 2);
    var tag :- ReadString(s, rel.1);
    var items :- ReadList(read, s, tag.1);
    Ok((SearchResult(start.0, total.0, RelationOfOrdinal(rel.0), tag.0, items.0), items.1))
  }

  /** The binary round trip: a result whose items each read back as written
      reads back whole, wherever it stands in the stream. */
  lemma {:induction false} ReadResultWrite<T>(read: Reader<T>, write: T -> seq<Prim>, r: SearchResult<T>, s: seq<Prim>, i: nat)
    requires forall x :: x in r.items ==> ReadsWrite(read, write, x)
    requires At(s, i, WriteResult(write, r))
    ensures ReadResult(read, s, i) == Ok((r, i + |WriteResult(write, r)|))
  {
    ResultWriteLayout(write, r, s, i);
    ReadListWrite(read, write, r.items, s, i + 4);
    ResultReadSteps(read, s, i, r, i + 4 + |WriteList(write, r.items)|);
  }

  /** Where the parts of a written result lie. */
  lemma {:induction false} ResultWriteLayout<T>(write: T -> seq<Prim>, r: SearchResult<T>, s: seq<Prim>, i: nat)
    requires At(s, i, WriteResult(write, r))
    ensures i + 4 <= |s|
    ensures s[i] == PLong(r.startIndex) && s[i + 1] == PLong(r.totalHits)
    ensures s[i + 2] == PInt(RelationOrdinal(r.relation)) && s[i + 3] == PStr(r.listTag)
    ensures At(s, i + 4, WriteList(write, r.items))
    ensures |WriteResult(write, r)| == 4 + |WriteList(write, r.items)|
  {
    var head := [PLong(r.startIndex), PLong(r.totalHits), PInt(RelationOrdinal(r.relation)), PStr(r.listTag)];
    AtAppend(s, i, head, WriteList(write, r.items));
    assert s[i..i + 4] == head;
    assert s[i] == s[i..i + 4][0] && s[i + 1] == s[i..i + 4][1];
    assert s[i + 2] == s[i..i + 4][2] && s[i + 3] == s[i..i + 4][3];
  }

  /** `ReadResult` on a stream holding the header of `r` and then its items. */
  lemma {:induction false} ResultReadSteps<T>(read: Reader<T>, s: seq<Prim>, i: nat, r: SearchResult<T>, end: nat)
    requires i + 4 <= |s|
    requires s[i] == PLong(r.startIndex) && s[i + 1] == PLong(r.totalHits)
    requires s[i + 2] == PInt(RelationOrdinal(r.relation)) && s[i + 3] == PStr(r.listTag)
    requires ReadList(read, s, i + 4) == Ok((r.items, end))
    ensures ReadResult(read, s, i) == Ok((r, end))
  {
  }

  // ---------------------------------------------------------------------------
  // Document form: writing

  /** How the relation is written in a document. */
  function RelationText(rel: Relation): string {
    match rel
    case EqualTo => "eq"
    case GreaterThanOrEqualTo => "gte"
  }

  const UnknownRelation := ParseError("unknown total hit relation")

  /** The relation a document names; any other text is a parse error. */
  function RelationOf(text: string): (r: Result<Relation>)
    ensures r.Ok? <==> text == "eq" || text == "gte"
    ensures r.Err? ==> r.error == UnknownRelation
  {
    if text == "eq" then Ok(EqualTo)
    else if text == "gte" then Ok(GreaterThanOrEqualTo)
    else Err(UnknownRelation)
  }

  lemma {:induction false} RelationTextRoundTrip(rel: Relation)
    ensures RelationOf(RelationText(rel)) == Ok(rel)
  {
  }

  /** The document form: the three pagination fields, then the items as an
      array under the list tag. */
  function EncodeResult<T>(encode: T -> seq<Token>, r: SearchResult<T>): seq<Token> {
    ResultHeader(r) + ([StartArray] + EncodeAll(encode, r.items) + [EndArray]) + [EndObject]
  }

  /** Everything up to the array: the object's start, the pagination fields and
      the list's field name. */
  function ResultHeader<T>(r: SearchResult<T>): (h: seq<Token>)
    ensures |h| == 8
  {
    [StartObject, FieldName(StartIndexTag), Num(r.startIndex as int), FieldName(TotalHitsTag), Num(r.totalHits as int),
     FieldName(TotalHitRelationTag), Str(RelationText(r.relation)), FieldName(r.listTag)]
  }

  // ---------------------------------------------------------------------------
  // Document form: reading

  /** The fields seen so far: the start index defaults to 0 from the outset,
      the others are settled after the loop; the list is required. */
  datatype ResultFields<T> = ResultFields(startIndex: Long, totalHits: Option<Long>, relation: Option<Relation>, items: Option<seq<T>>)

  function NoResultFields<T>(): ResultFields<T> {
    ResultFields(0, None, None, None)
  }

  /** The result field a document member name denotes. */
  datatype ResultKey = StartIndexKey | TotalHitsKey | TotalHitRelationKey | ListKey | OtherResultKey

  function ResultKeyOf(name: string): (k: ResultKey)
    ensures k == StartIndexKey <==> name == StartIndexTag
    ensures k == TotalHitsKey <==> name == TotalHitsTag
    ensures k == TotalHitRelationKey <==> name == TotalHitRelationTag
    ensures k == ListKey <==> name == ConfigListTag
  {
    if name == StartIndexTag then StartIndexKey
    else if name == TotalHitsTag then TotalHitsKey
    else if name == TotalHitRelationTag then TotalHitRelationKey
    else if name == ConfigListTag then ListKey
    else OtherResultKey
  }

  /** One member of a result document: the list is read with `objectList` and
      the item parser, any unknown member is skipped whole. */
  function ResultField<T(!new)>(parseItem: TokenParser<T>, name: string, toks: seq<Token>, v: nat, acc: ResultFields<T>)
    : (r: Result<(ResultFields<T>, nat)>)
    ensures r.Ok? ==> v <= r.value.1 < |toks|
  {
    if v >= |toks| then Err(EndOfInput)
    else match ResultKeyOf(name)
      case StartIndexKey =>
        var n :- TokenLong(toks[v]);
        Ok((acc.(startIndex := n), v))
      case TotalHitsKey =>
        var n :- TokenLong(toks[v]);
        Ok((acc.(totalHits := Some(n)), v))
      case TotalHitRelationKey =>
        var t :- TokenText(toks[v]);
        var rel :- RelationOf(t);
        Ok((acc.(relation := Some(rel)), v))
      case ListKey =>
        var xs :- ObjectListOf(parseItem, toks, v);
        Ok((acc.(items := Some(xs.0)), xs.1))
      case OtherResultKey =>
        var j :- SkipChildren(toks, v);
        Ok((acc, j))
  }

  function ResultStep<T(!new)>(parseItem: TokenParser<T>): FieldReader<ResultFields<T>> {
    (name: string, toks: seq<Token>, v: nat, acc: ResultFields<T>) => ResultField(parseItem, name, toks, v, acc)
  }

  const TooManyItems := ParseError("list larger than a JVM list can hold")

  /** After the loop: an absent list is an illegal argument naming the list
      tag, an absent total is the number of items read, an absent relation is
      exact. */
  function BuildResult<T>(f: ResultFields<T>): (r: Result<SearchResult<T>>)
    ensures f.items.None? ==> r == Err(IllegalArgument(ConfigListTag))
    ensures r.Ok? <==> f.items.Some? && |f.items.value| <= MaxListSize
    ensures r.Ok? ==> r.value.startIndex == f.startIndex && r.value.listTag == ConfigListTag && r.value.items == f.items.value
    ensures r.Ok? ==> r.value.totalHits as int == if f.totalHits.Some? then f.totalHits.value as int else |f.items.value|
    ensures r.Ok? ==> r.value.relation == if f.relation.Some? then f.relation.value else EqualTo
  {
    var items :- Present(ConfigListTag, f.items);
    if |items| > MaxListSize then Err(TooManyItems)
    else
      var total := if f.totalHits.Some? then f.totalHits.value else |items| as Long;
      var rel := if f.relation.Some? then f.relation.value else EqualTo;
      Ok(SearchResult(f.startIndex, total, rel, ConfigListTag, items))
  }

  /** The parser constructor with the cursor on token `i`; `parseItem` is the
      item type's document parser. */
  function ParseResult<T(!new)>(parseItem: TokenParser<T>, toks: seq<Token>, i: nat): (r: Result<(SearchResult<T>, nat)>)
    ensures r.Ok? ==> r.value.0.listTag == ConfigListTag && i < r.value.1 < |toks| && toks[r.value.1] == EndObject
    ensures !(i < |toks| && toks[i] == StartObject) ==> r == Err(ExpectedStartObject)
  {
    var f :- ParseObject(ResultStep(parseItem), NoResultFields(), toks, i);
    var r :- BuildResult(f.0);
    Ok((r, f.1))
  }

  function ResultFromDocument<T(!new)>(parseItem: TokenParser<T>, doc: seq<Token>): Result<SearchResult<T>> {
    var r :- ParseResult(parseItem, doc, 0);
    Ok(r.0)
  }

  // ---------------------------------------------------------------------------
  // Document form: the tree decode

  /** The elements of an array, each decoded by `decodeItem` and appended to
      `acc`; the first failure is the result. */
  function DecodeItems<T>(decodeItem: Json -> Result<T>, vs: seq<Json>, acc: seq<T>): Result<seq<T>>
    decreases vs
  {
    if vs == [] then Ok(acc)
    else
      var x :- decodeItem(vs[0]);
      DecodeItems(decodeItem, vs[1..], acc + [x])
  }

  /** `objectList` on the tree: the value must be an array. */
  function DecodeList<T>(decodeItem: Json -> Result<T>, v: Json): Result<seq<T>> {
    if v.JArray? then DecodeItems(decodeItem, v.elems, []) else Err(ExpectedStartArray)
  }

  /** What one member of a result document does, on the tree; `decodeItem` is
      the item type's tree decode. */
  function ResultMember<T>(decodeItem: Json -> Result<T>, m: Member, acc: ResultFields<T>): Result<ResultFields<T>> {
    match ResultKeyOf(m.name)
    case StartIndexKey =>
      var n :- JsonLong(m.value);
      Ok(acc.(startIndex := n))
    case TotalHitsKey =>
      var n :- JsonLong(m.value);
      Ok(acc.(totalHits := Some(n)))
    case TotalHitRelationKey =>
      var t :- JsonText(m.value);
      var rel :- RelationOf(t);
      Ok(acc.(relation := Some(rel)))
    case ListKey =>
      var xs :- DecodeList(decodeItem, m.value);
      Ok(acc.(items := Some(xs)))
    case OtherResultKey => Ok(acc)
  }

  function ResultMemberStep<T>(decodeItem: Json -> Result<T>): MemberStep<ResultFields<T>> {
    (m: Member, acc: ResultFields<T>) => ResultMember(decodeItem, m, acc)
  }

  function DecodeResult<T>(decodeItem: Json -> Result<T>, v: Json): Result<SearchResult<T>> {
    var f :- DecodeObject(ResultMemberStep(decodeItem), NoResultFields(), v);
    BuildResult(f)
  }

  // ---------------------------------------------------------------------------
  // The token parse is the tree decode

  /** Where the first of the rendered values `vs` lies, and that it is not the
      end of the array. */
  lemma {:induction false} FirstElemAt(vs: seq<Json>, toks: seq<Token>, k: nat) returns (n: nat)
    requires vs != [] && At(toks, k, RenderElems(vs))
    ensures n == |Render(vs[0])| && At(toks, k, Render(vs[0])) && At(toks, k + n, RenderElems(vs[1..]))
    ensures |RenderElems(vs)| == n + |RenderElems(vs[1..])|
    ensures k < |toks| && toks[k] != EndArray
  {
    AtAppend(toks, k, Render(vs[0]), RenderElems(vs[1..]));
    n := |Render(vs[0])|;
    AtCons(toks, k, Render(vs[0])[0], Render(vs[0])[1..]);
    assert [Render(vs[0])[0]] + Render(vs[0])[1..] == Render(vs[0]);
  }

  /** The loop of `objectList` over rendered elements, when the item parser
      reads every rendered value as the item decode does. */
  lemma {:induction false} ObjectsFromRendered<T>(parseItem: TokenParser<T>, decodeItem: Json -> Result<T>,
                                                  vs: seq<Json>, toks: seq<Token>, i: nat, acc: seq<T>)
    requires ParsesTrees(parseItem, decodeItem)
    requires At(toks, i + 1, RenderElems(vs))
    requires i + 1 + |RenderElems(vs)| < |toks| && toks[i + 1 + |RenderElems(vs)|] == EndArray
    decreases vs
    ensures ObjectsFrom(parseItem, toks, i, acc) == WithEnd(DecodeItems(decodeItem, vs, acc), i + 1 + |RenderElems(vs)|)
  {
    if vs != [] {
      var n := FirstElemAt(vs, toks, i + 1);
      assert RenderedAt(toks, i + 1, vs[0]);
      assert parseItem(toks, i + 1) == WithEnd(decodeItem(vs[0]), i + n);
      match decodeItem(vs[0])
      case Err(e) =>
      case Ok(x) =>
        ObjectsFromRendered(parseItem, decodeItem, vs[1..], toks, i + n, acc + [x]);
    }
  }

  /** `objectList` over any rendered value: what `DecodeList` gives, ending on
      the value's last token. */
  lemma {:induction false} ObjectListRendered<T>(parseItem: TokenParser<T>, decodeItem: Json -> Result<T>,
                                                 w: Json, toks: seq<Token>, v: nat)
    requires ParsesTrees(parseItem, decodeItem)
    requires At(toks, v, Render(w))
    ensures v < |toks| && ObjectListOf(parseItem, toks, v) == WithEnd(DecodeList(decodeItem, w), v + |Render(w)| - 1)
  {
    if w.JArray? {
      AtFramed(toks, v, StartArray, RenderElems(w.elems), EndArray);
      ObjectsFromRendered(parseItem, decodeItem, w.elems, toks, v, []);
    } else {
      AtCons(toks, v, Render(w)[0], Render(w)[1..]);
      assert [Render(w)[0]] + Render(w)[1..] == Render(w);
    }
  }

  lemma {:induction false} ListMemberStep<T(!new)>(parseItem: TokenParser<T>, decodeItem: Json -> Result<T>, m: Member,
                                                   toks: seq<Token>, v: nat, acc: ResultFields<T>, e: nat)
    requires ResultKeyOf(m.name) == ListKey && v < |toks|
    requires ObjectListOf(parseItem, toks, v) == WithEnd(DecodeList(decodeItem, m.value), e)
    ensures ResultField(parseItem, m.name, toks, v, acc) == WithEnd(ResultMember(decodeItem, m, acc), e)
  {
    match DecodeList(decodeItem, m.value)
    case Err(err) =>
      assert ResultMember(decodeItem, m, acc) == Err(err);
    case Ok(xs) =>
      assert ResultMember(decodeItem, m, acc) == Ok(acc.(items := Some(xs)));
  }

  lemma {:induction false} ResultFieldOn<T(!new)>(parseItem: TokenParser<T>, decodeItem: Json -> Result<T>, m: Member,
                                                  toks: seq<Token>, v: nat, acc: ResultFields<T>)
    requires ResultKeyOf(m.name) != ListKey && ReadsAsValue(toks, v, m.value)
    ensures ResultField(parseItem, m.name, toks, v, acc) == WithEnd(ResultMember(decodeItem, m, acc), v + |Render(m.value)| - 1)
  {
  }

  /** What the field reader of member `m` relies on when `m`'s value stands at
      index `v`: for the list, that `objectList` gives what `DecodeList`
      gives; for any other member, what the accessors see there. */
  ghost predicate ValueSeen<T>(parseItem: TokenParser<T>, decodeItem: Json -> Result<T>, m: Member, toks: seq<Token>, v: nat) {
    if ResultKeyOf(m.name) == ListKey then
      v < |toks| && ObjectListOf(parseItem, toks, v) == WithEnd(DecodeList(decodeItem, m.value), v + |Render(m.value)| - 1)
    else ReadsAsValue(toks, v, m.value)
  }

  /** `ValueSeen` as the predicate the generic agreement lemma is given. */
  ghost function SeenAt<T>(parseItem: TokenParser<T>, decodeItem: Json -> Result<T>, toks: seq<Token>): (Member, nat) -> bool {
    (m: Member, v: nat) => ValueSeen(parseItem, decodeItem, m, toks, v)
  }

  /** A member that is not the list is seen as its tree whatever the item
      parser; the list member is when the item parser reads as the item
      decode. */
  lemma {:induction false} MemberSeen<T>(parseItem: TokenParser<T>, decodeItem: Json -> Result<T>, m: Member, toks: seq<Token>, v: nat)
    requires m.name != ConfigListTag || ParsesTrees(parseItem, decodeItem)
    requires At(toks, v, Render(m.value))
    ensures ValueSeen(parseItem, decodeItem, m, toks, v)
  {
    if ResultKeyOf(m.name) == ListKey {
      ListSeen(parseItem, decodeItem, m, toks, v);
    } else {
      ScalarSeen(parseItem, decodeItem, m, toks, v);
    }
  }

  lemma {:induction false} ListSeen<T>(parseItem: TokenParser<T>, decodeItem: Json -> Result<T>, m: Member, toks: seq<Token>, v: nat)
    requires ResultKeyOf(m.name) == ListKey && ParsesTrees(parseItem, decodeItem)
    requires At(toks, v, Render(m.value))
    ensures ValueSeen(parseItem, decodeItem, m, toks, v)
  {
    ObjectListRendered(parseItem, decodeItem, m.value, toks, v);
  }

  lemma {:induction false} ScalarSeen<T>(parseItem: TokenParser<T>, decodeItem: Json -> Result<T>, m: Member, toks: seq<Token>, v: nat)
    requires ResultKeyOf(m.name) != ListKey
    requires At(toks, v, Render(m.value))
    ensures ValueSeen(parseItem, decodeItem, m, toks, v)
  {
    ValueAt(m.value, toks, v);
  }

  /** Each result field reads as its tree decode. */
  lemma {:induction false} ResultFieldAt<T(!new)>(parseItem: TokenParser<T>, decodeItem: Json -> Result<T>, m: Member,
                                                  toks: seq<Token>, v: nat, acc: ResultFields<T>)
    requires ValueSeen(parseItem, decodeItem, m, toks, v)
    ensures ResultField(parseItem, m.name, toks, v, acc) == WithEnd(ResultMember(decodeItem, m, acc), v + |Render(m.value)| - 1)
  {
    if ResultKeyOf(m.name) == ListKey {
      ListMemberStep(parseItem, decodeItem, m, toks, v, acc, v + |Render(m.value)| - 1);
    } else {
      ResultFieldOn(parseItem, decodeItem, m, toks, v, acc);
    }
  }

  /** `ResultFieldAt` through the step functions the field loop is given. */
  lemma {:induction false} ResultStepsSeen<T(!new)>(parseItem: TokenParser<T>, decodeItem: Json -> Result<T>, toks: seq<Token>)
    ensures forall m, v: nat, acc: ResultFields<T> :: SeenAt(parseItem, decodeItem, toks)(m, v) ==>
      ResultStep(parseItem)(m.name, toks, v, acc) == WithEnd(ResultMemberStep(decodeItem)(m, acc), v + |Render(m.value)| - 1)
  {
    forall m, v: nat, acc: ResultFields<T> | SeenAt(parseItem, decodeItem, toks)(m, v)
      ensures ResultStep(parseItem)(m.name, toks, v, acc) == WithEnd(ResultMemberStep(decodeItem)(m, acc), v + |Render(m.value)| - 1)
    {
      ResultFieldAt(parseItem, decodeItem, m, toks, v, acc);
    }
  }

  /** Every member of `ms` is seen where its value stands, when none of them
      is the list or the item parser reads as the item decode. */
  lemma {:induction false} MembersSeen<T>(parseItem: TokenParser<T>, decodeItem: Json -> Result<T>, ms: seq<Member>, toks: seq<Token>)
    requires (forall m :: m in ms ==> m.name != ConfigListTag) || ParsesTrees(parseItem, decodeItem)
    ensures forall m, v :: m in ms && ValueStands(toks, v, m) ==> SeenAt(parseItem, decodeItem, toks)(m, v)
  {
    forall m, v | m in ms && ValueStands(toks, v, m)
      ensures SeenAt(parseItem, decodeItem, toks)(m, v)
    {
      MemberSeen(parseItem, decodeItem, m, toks, v);
    }
  }

  /** Parsing the tokens of any well-formed document value as a result gives
      what decoding its tree gives, and stops on its last token, when the item
      parser reads every rendered value as the item decode does. */
  lemma {:induction false} ParseResultRendered<T(!new)>(parseItem: TokenParser<T>, decodeItem: Json -> Result<T>,
                                                        v: Json, toks: seq<Token>, i: nat)
    requires ParsesTrees(parseItem, decodeItem)
    requires At(toks, i, Render(v))
    ensures ParseResult(parseItem, toks, i) == WithEnd(DecodeResult(decodeItem, v), i + |Render(v)| - 1)
  {
    if v.JObject? {
      ResultObjectAgrees(parseItem, decodeItem, v, toks, i);
    } else {
      NotObjectAt(v, toks, i);
    }
    BuildAfterFields(parseItem, decodeItem, v, toks, i, i + |Render(v)| - 1);
  }

  /** The field loop over a rendered result object is its tree fold, when no
      member is the list or the item parser reads as the item decode. */
  lemma {:induction false} ResultObjectAgrees<T(!new)>(parseItem: TokenParser<T>, decodeItem: Json -> Result<T>,
                                                       v: Json, toks: seq<Token>, i: nat)
    requires v.JObject? && At(toks, i, Render(v))
    requires (forall m :: m in v.members ==> m.name != ConfigListTag) || ParsesTrees(parseItem, decodeItem)
    ensures ParseObject(ResultStep(parseItem), NoResultFields(), toks, i) ==
      WithEnd(DecodeObject(ResultMemberStep(decodeItem), NoResultFields(), v), i + |Render(v)| - 1)
  {
    MembersSeen(parseItem, decodeItem, v.members, toks);
    ResultStepsSeen(parseItem, decodeItem, toks);
    ParseObjectSeen(ResultStep(parseItem), ResultMemberStep(decodeItem), SeenAt(parseItem, decodeItem, toks), NoResultFields(), v, toks, i);
  }

  /** `BuildResult` after agreeing field loops. */
  lemma {:induction false} BuildAfterFields<T(!new)>(parseItem: TokenParser<T>, decodeItem: Json -> Result<T>,
                                                     v: Json, toks: seq<Token>, i: nat, e: nat)
    requires ParseObject(ResultStep(parseItem), NoResultFields(), toks, i) ==
      WithEnd(DecodeObject(ResultMemberStep(decodeItem), NoResultFields(), v), e)
    ensures ParseResult(parseItem, toks, i) == WithEnd(DecodeResult(decodeItem, v), e)
  {
  }

  /** A result document without a `config_list` member never parses, whatever
      the item parser; when its other members read cleanly the error names the
      list tag. */
  lemma {:induction false} AbsentListRejected<T(!new)>(parseItem: TokenParser<T>, decodeItem: Json -> Result<T>, ms: seq<Member>)
    requires forall m :: m in ms ==> m.name != ConfigListTag
    ensures ResultFromDocument(parseItem, Render(JObject(ms))).Err?
    ensures DecodeObject(ResultMemberStep(decodeItem), NoResultFields(), JObject(ms)).Ok? ==>
      ResultFromDocument(parseItem, Render(JObject(ms))) == Err(IllegalArgument(ConfigListTag))
  {
    var doc := Render(JObject(ms));
    AtWhole(doc);
    ResultObjectAgrees(parseItem, decodeItem, JObject(ms), doc, 0);
    AbsentListFolds(decodeItem, ms);
    BuildAfterFields(parseItem, decodeItem, JObject(ms), doc, 0, |doc| - 1);
  }

  /** Folding members none of which is the list leaves the list absent. */
  lemma {:induction false} AbsentListFolds<T(!new)>(decodeItem: Json -> Result<T>, ms: seq<Member>)
    requires forall m :: m in ms ==> m.name != ConfigListTag
    ensures DecodeObject(ResultMemberStep(decodeItem), NoResultFields(), JObject(ms)).Ok? ==>
      DecodeObject(ResultMemberStep(decodeItem), NoResultFields(), JObject(ms)).value.items.None?
  {
    var decode := ResultMemberStep(decodeItem);
    forall m, a: ResultFields<T> | m in ms && decode(m, a).Ok?
      ensures decode(m, a).value.items == a.items
    {
    }
    FoldKeeps(decode, ms, NoResultFields(), (f: ResultFields<T>) => f.items);
  }

  // ---------------------------------------------------------------------------
  // The document round trip

  /** Where the parts of a written result lie. */
  lemma {:induction false} ResultEncodeLayout<T>(encode: T -> seq<Token>, r: SearchResult<T>, toks: seq<Token>, i: nat)
    requires At(toks, i, EncodeResult(encode, r))
    ensures At(toks, i, ResultHeader(r))
    ensures At(toks, i + 8, [StartArray] + EncodeAll(encode, r.items) + [EndArray])
    ensures i + 10 + |EncodeAll(encode, r.items)| < |toks| && toks[i + 10 + |EncodeAll(encode, r.items)|] == EndObject
    ensures |EncodeResult(encode, r)| == 11 + |EncodeAll(encode, r.items)|
  {
    var list := [StartArray] + EncodeAll(encode, r.items) + [EndArray];
    AtAppend(toks, i, ResultHeader(r) + list, [EndObject]);
    AtAppend(toks, i, ResultHeader(r), list);
    AtSingle(toks, i + 8 + |list|, EndObject);
  }

  /** The tokens of a header, one by one. */
  lemma {:induction false} ResultHeaderAt<T>(r: SearchResult<T>, toks: seq<Token>, i: nat)
    requires At(toks, i, ResultHeader(r))
    ensures i + 8 <= |toks|
    ensures toks[i] == StartObject && toks[i + 1] == FieldName(StartIndexTag) && toks[i + 2] == Num(r.startIndex as int)
    ensures toks[i + 3] == FieldName(TotalHitsTag) && toks[i + 4] == Num(r.totalHits as int)
    ensures toks[i + 5] == FieldName(TotalHitRelationTag) && toks[i + 6] == Str(RelationText(r.relation))
    ensures toks[i + 7] == FieldName(r.listTag)
  {
    var h := ResultHeader(r);
    assert toks[i..i + 8] == h;
    forall k | 0 <= k < 8
      ensures toks[i + k] == h[k]
    {
      assert toks[i + k] == toks[i..i + 8][k];
    }
  }

  /** One turn of the field loop over a member that `step` reads. */
  lemma {:induction false} FieldsFromTurn<S(!new)>(step: FieldReader<S>, toks: seq<Token>, i: nat, acc: S,
                                                   name: string, next: S, j: nat)
    requires i + 1 < |toks| && toks[i + 1] == FieldName(name)
    requires step(name, toks, i + 2, acc) == Ok((next, j))
    ensures j < |toks|
    ensures FieldsFrom(step, toks, i, acc) == FieldsFrom(step, toks, j, next)
  {
  }

  /** The field loop over the three pagination fields of a header. */
  lemma {:induction false} PaginationFieldsRead<T(!new)>(parseItem: TokenParser<T>, r: SearchResult<T>, toks: seq<Token>, i: nat)
    requires i + 8 <= |toks|
    requires toks[i + 1] == FieldName(StartIndexTag) && toks[i + 2] == Num(r.startIndex as int)
    requires toks[i + 3] == FieldName(TotalHitsTag) && toks[i + 4] == Num(r.totalHits as int)
    requires toks[i + 5] == FieldName(TotalHitRelationTag) && toks[i + 6] == Str(RelationText(r.relation))
    ensures FieldsFrom(ResultStep(parseItem), toks, i, NoResultFields()) ==
      FieldsFrom(ResultStep(parseItem), toks, i + 6, ResultFields(r.startIndex, Some(r.totalHits), Some(r.relation), None))
  {
    var step := ResultStep(parseItem);
    var f1 := NoResultFields<T>().(startIndex := r.startIndex);
    var f2 := f1.(totalHits := Some(r.totalHits));
    var f3 := f2.(relation := Some(r.relation));
    assert step(StartIndexTag, toks, i + 2, NoResultFields()) == Ok((f1, i + 2));
    FieldsFromTurn(step, toks, i, NoResultFields(), StartIndexTag, f1, i + 2);
    assert step(TotalHitsTag, toks, i + 4, f1) == Ok((f2, i + 4));
    FieldsFromTurn(step, toks, i + 2, f1, TotalHitsTag, f2, i + 4);
    RelationTextRoundTrip(r.relation);
    assert step(TotalHitRelationTag, toks, i + 6, f2) == Ok((f3, i + 6));
    FieldsFromTurn(step, toks, i + 4, f2, TotalHitRelationTag, f3, i + 6);
  }

  /** The field loop over the list member and the end of the object. */
  lemma {:induction false} ListFieldRead<T(!new)>(parseItem: TokenParser<T>, f: ResultFields<T>, items: seq<T>,
                                                  toks: seq<Token>, k: nat, j: nat)
    requires k + 2 < |toks| && toks[k + 1] == FieldName(ConfigListTag)
    requires ObjectListOf(parseItem, toks, k + 2) == Ok((items, j))
    requires j + 1 < |toks| && toks[j + 1] == EndObject
    ensures FieldsFrom(ResultStep(parseItem), toks, k, f) == Ok((f.(items := Some(items)), j + 1))
  {
    var step := ResultStep(parseItem);
    assert step(ConfigListTag, toks, k + 2, f) == Ok((f.(items := Some(items)), j));
    FieldsFromTurn(step, toks, k, f, ConfigListTag, f.(items := Some(items)), j);
  }

  /** The document round trip, wherever the encoding stands: a result under
      the configuration list tag, whose items the item parser reads back from
      what the item writer wrote, parses back to itself. */
  lemma {:induction false} ParseResultEncoding<T(!new)>(parseItem: TokenParser<T>, encode: T -> seq<Token>,
                                                         r: SearchResult<T>, toks: seq<Token>, i: nat)
    requires r.listTag == ConfigListTag && |r.items| <= MaxListSize
    requires ParsesEncodings(parseItem, encode, r.items)
    requires At(toks, i, EncodeResult(encode, r))
    ensures ParseResult(parseItem, toks, i) == Ok((r, i + |EncodeResult(encode, r)| - 1))
  {
    ResultEncodeLayout(encode, r, toks, i);
    ResultHeaderAt(r, toks, i);
    ObjectListReadsEncoding(parseItem, encode, r.items, toks, i + 8);
    ParseResultParts(parseItem, r, toks, i, |EncodeAll(encode, r.items)|);
  }

  /** The parse over the parts of a written result, laid out one by one. */
  lemma {:induction false} ParseResultParts<T(!new)>(parseItem: TokenParser<T>, r: SearchResult<T>, toks: seq<Token>, i: nat, n: nat)
    requires r.listTag == ConfigListTag && |r.items| <= MaxListSize
    requires i + 8 <= |toks|
    requires toks[i] == StartObject && toks[i + 1] == FieldName(StartIndexTag) && toks[i + 2] == Num(r.startIndex as int)
    requires toks[i + 3] == FieldName(TotalHitsTag) && toks[i + 4] == Num(r.totalHits as int)
    requires toks[i + 5] == FieldName(TotalHitRelationTag) && toks[i + 6] == Str(RelationText(r.relation))
    requires toks[i + 7] == FieldName(r.listTag)
    requires ObjectListOf(parseItem, toks, i + 8) == Ok((r.items, i + 9 + n))
    requires i + 10 + n < |toks| && toks[i + 10 + n] == EndObject
    ensures ParseResult(parseItem, toks, i) == Ok((r, i + 10 + n))
  {
    PaginationFieldsRead(parseItem, r, toks, i);
    ListFieldRead(parseItem, ResultFields(r.startIndex, Some(r.totalHits), Some(r.relation), None), r.items, toks, i + 6, i + 9 + n);
    ResultFromFields(parseItem, r, toks, i, i + 10 + n);
  }

  /** The parse is the field loop followed by `BuildResult`. */
  lemma {:induction false} ResultFromFields<T(!new)>(parseItem: TokenParser<T>, r: SearchResult<T>, toks: seq<Token>, i: nat, end: nat)
    requires r.listTag == ConfigListTag && |r.items| <= MaxListSize
    requires i + 6 < |toks| && toks[i] == StartObject
    requires FieldsFrom(ResultStep(parseItem), toks, i, NoResultFields()) ==
      FieldsFrom(ResultStep(parseItem), toks, i + 6, ResultFields(r.startIndex, Some(r.totalHits), Some(r.relation), None))
    requires FieldsFrom(ResultStep(parseItem), toks, i + 6, ResultFields(r.startIndex, Some(r.totalHits), Some(r.relation), None))
      == Ok((ResultFields(r.startIndex, Some(r.totalHits), Some(r.relation), Some(r.items)), end))
    ensures ParseResult(parseItem, toks, i) == Ok((r, end))
  {
  }

  /** ... and as a document of its own. */
  lemma {:induction false} ResultDocumentRoundTrip<T(!new)>(parseItem: TokenParser<T>, encode: T -> seq<Token>, r: SearchResult<T>)
    requires r.listTag == ConfigListTag && |r.items| <= MaxListSize
    requires ParsesEncodings(parseItem, encode, r.items)
    ensures ResultFromDocument(parseItem, EncodeResult(encode, r)) == Ok(r)
  {
    AtWhole(EncodeResult(encode, r));
    ParseResultEncoding(parseItem, encode, r, EncodeResult(encode, r), 0);
  }

  /** A document holding only the list: the whole-collection values, as the
      list constructor gives them. */
  function ListOnlyDocument<T>(encode: T -> seq<Token>, items: seq<T>): seq<Token> {
    [StartObject, FieldName(ConfigListTag)] + ([StartArray] + EncodeAll(encode, items) + [EndArray]) + [EndObject]
  }

  lemma {:induction false} ListOnlyDocumentDefaults<T(!new)>(parseItem: TokenParser<T>, encode: T -> seq<Token>, items: seq<T>)
    requires |items| <= MaxListSize
    requires ParsesEncodings(parseItem, encode, items)
    ensures ResultFromDocument(parseItem, ListOnlyDocument(encode, items)) == Ok(FromList(items))
  {
    var doc := ListOnlyDocument(encode, items);
    var list := [StartArray] + EncodeAll(encode, items) + [EndArray];
    var n := |EncodeAll(encode, items)|;
    ListOnlyLayout(encode, items);
    ObjectListReadsEncoding(parseItem, encode, items, doc, 2);
    ListFieldRead(parseItem, NoResultFields(), items, doc, 0, 3 + n);
    ListOnlyFromFields(parseItem, items, doc, 4 + n);
  }

  lemma {:induction false} ListOnlyLayout<T>(encode: T -> seq<Token>, items: seq<T>)
    ensures |ListOnlyDocument(encode, items)| == 5 + |EncodeAll(encode, items)|
    ensures ListOnlyDocument(encode, items)[0] == StartObject && ListOnlyDocument(encode, items)[1] == FieldName(ConfigListTag)
    ensures At(ListOnlyDocument(encode, items), 2, [StartArray] + EncodeAll(encode, items) + [EndArray])
    ensures ListOnlyDocument(encode, items)[4 + |EncodeAll(encode, items)|] == EndObject
  {
    var doc := ListOnlyDocument(encode, items);
    var list := [StartArray] + EncodeAll(encode, items) + [EndArray];
    AtWhole(doc);
    AtAppend(doc, 0, [StartObject, FieldName(ConfigListTag)] + list, [EndObject]);
    AtAppend(doc, 0, [StartObject, FieldName(ConfigListTag)], list);
  }

  lemma {:induction false} ListOnlyFromFields<T(!new)>(parseItem: TokenParser<T>, items: seq<T>, doc: seq<Token>, end: nat)
    requires |items| <= MaxListSize
    requires |doc| > 0 && doc[0] == StartObject
    requires FieldsFrom(ResultStep(parseItem), doc, 0, NoResultFields()) == Ok((NoResultFields<T>().(items := Some(items)), end))
    ensures ResultFromDocument(parseItem, doc) == Ok(FromList(items))
  {
  }
}
