/** The request for the notification plugin's features. Its only state is the
    `compact` flag, false unless set. The binary form is that one boolean. The
    document form is an object with a `compact` member; its parse skips members
    it does not know and rejects anything that is not an object. */
module PluginFeatures {
  import opened Results
  import opened SeqAt
  import opened XContent
  import opened XContentHelpers
  import opened ObjectFields
  import opened Stream

  const CompactTag := "compact"

  datatype GetPluginFeaturesRequest = GetPluginFeaturesRequest(compact: bool)

  /** `GetPluginFeaturesRequest()`: the constructor's default. */
  const DefaultRequest := GetPluginFeaturesRequest(false)

  // ---------------------------------------------------------------------------
  // Binary form

  function WriteRequest(r: GetPluginFeaturesRequest): seq<Prim> {
    [PBool(r.compact)]
  }

  /** `GetPluginFeaturesRequest(input)`. */
  function ReadRequest(s: seq<Prim>, i: nat): (r: Result<(GetPluginFeaturesRequest, nat)>)
    ensures r.Ok? <==> i < |s| && s[i].PBool?
    ensures r.Ok? ==> r.value == (GetPluginFeaturesRequest(s[i].b), i + 1)
    ensures i >= |s| ==> r == Err(EndOfStream)
  {
    var b :- ReadBoolean(s, i);
    Ok((GetPluginFeaturesRequest(b.0), b.1))
  }

  /** The binary round trip: any request, the default one included, reads back
      as written, wherever it stands in the stream. */
  lemma {:induction false} ReadRequestWrite(r: GetPluginFeaturesRequest)
    ensures ReadsWrite(ReadRequest, WriteRequest, r)
  {
    forall s: seq<Prim>, i: nat | At(s, i, WriteRequest(r))
      ensures ReadRequest(s, i) == Ok((r, i + 1))
    {
      AtSingle(s, i, PBool(r.compact));
    }
  }

  // ---------------------------------------------------------------------------
  // Document form

  /** `toXContent`: an object with just the `compact` member. */
  function EncodeRequest(r: GetPluginFeaturesRequest): seq<Token> {
    [StartObject] + NamedField(CompactTag, BoolValue(r.compact)) + [EndObject]
  }

  function RequestJson(r: GetPluginFeaturesRequest): Json {
    JObject([Member(CompactTag, JBool(r.compact))])
  }

  /** One member of a request document: `compact` must hold a boolean, and any
      other member is skipped whole. The state is the `compact` value so far. */
  function RequestField(name: string, toks: seq<Token>, v: nat, acc: bool): (r: Result<(bool, nat)>)
    ensures r.Ok? ==> v <= r.value.1 < |toks|
  {
    if v >= |toks| then Err(EndOfInput)
    else if name == CompactTag then
      var b :- TokenBoolean(toks[v]);
      Ok((b, v))
    else
      var j :- SkipChildren(toks, v);
      Ok((acc, j))
  }

  /** `GetPluginFeaturesRequest.parse(parser)` with the cursor on token `i`. */
  function ParseRequest(toks: seq<Token>, i: nat): (r: Result<(GetPluginFeaturesRequest, nat)>)
    ensures r.Ok? ==> i < r.value.1 < |toks| && toks[i] == StartObject && toks[r.value.1] == EndObject
    ensures !(i < |toks| && toks[i] == StartObject) ==> r == Err(ExpectedStartObject)
  {
    var f :- ParseObject(RequestField, false, toks, i);
    Ok((GetPluginFeaturesRequest(f.0), f.1))
  }

  /** A whole document parsed as a request, its first token current. */
  function RequestFromDocument(doc: seq<Token>): Result<GetPluginFeaturesRequest> {
    var r :- ParseRequest(doc, 0);
    Ok(r.0)
  }

  /** What one member of a request document does, on the tree. */
  function RequestMember(m: Member, acc: bool): Result<bool> {
    if m.name == CompactTag then JsonBoolean(m.value) else Ok(acc)
  }

  function DecodeRequest(v: Json): Result<GetPluginFeaturesRequest> {
    var compact :- DecodeObject(RequestMember, false, v);
    Ok(GetPluginFeaturesRequest(compact))
  }

  // ---------------------------------------------------------------------------
  // The token parse is the tree decode

  lemma {:induction false} RequestFieldAt(m: Member, toks: seq<Token>, v: nat, acc: bool)
    requires At(toks, v, Render(m.value))
    ensures RequestField(m.name, toks, v, acc) == WithEnd(RequestMember(m, acc), v + |Render(m.value)| - 1)
  {
    ValueAt(m.value, toks, v);
    RequestFieldOn(m, toks, v, acc);
  }

  lemma {:induction false} RequestFieldOn(m: Member, toks: seq<Token>, v: nat, acc: bool)
    requires ReadsAsValue(toks, v, m.value)
    ensures RequestField(m.name, toks, v, acc) == WithEnd(RequestMember(m, acc), v + |Render(m.value)| - 1)
  {
  }

  lemma {:induction false} RequestFieldReadsMembers()
    ensures ReadsMembers(RequestField, RequestMember)
  {
    forall m: Member, toks: seq<Token>, v: nat, acc: bool | ValueStands(toks, v, m)
      ensures RequestField(m.name, toks, v, acc) == WithEnd(RequestMember(m, acc), v + |Render(m.value)| - 1)
    {
      RequestFieldAt(m, toks, v, acc);
    }
  }

  /** Parsing the tokens of any well-formed document value as a request gives
      what decoding its tree gives, and stops on its last token. */
  lemma {:induction false} ParseRequestRendered(v: Json, toks: seq<Token>, i: nat)
    requires At(toks, i, Render(v))
    ensures ParseRequest(toks, i) == WithEnd(DecodeRequest(v), i + |Render(v)| - 1)
  {
    RequestFieldReadsMembers();
    ParseObjectRendered(RequestField, RequestMember, false, v, toks, i);
  }

  lemma {:induction false} RequestDocumentIsRendered(v: Json)
    ensures RequestFromDocument(Render(v)) == DecodeRequest(v)
  {
    AtWhole(Render(v));
    ParseRequestRendered(v, Render(v), 0);
  }

  // ---------------------------------------------------------------------------
  // The document round trip

  /** What `toXContent` writes for a request is the rendering of its tree. */
  lemma {:induction false} EncodeRequestRendered(r: GetPluginFeaturesRequest)
    ensures EncodeRequest(r) == Render(RequestJson(r))
  {
    var m := Member(CompactTag, JBool(r.compact));
    assert [m] + [] == [m];
    RenderMembersCons(m, []);
    assert RenderMembers([m]) == NamedField(CompactTag, BoolValue(r.compact));
  }

  lemma {:induction false} DecodeRequestJson(r: GetPluginFeaturesRequest)
    ensures DecodeRequest(RequestJson(r)) == Ok(r)
  {
    FoldMembersSingle(RequestMember, Member(CompactTag, JBool(r.compact)), false);
  }

  /** The document round trip: any request, the default one included, parses
      back from what `toXContent` writes, wherever that stands in the token
      stream and as a document of its own. */
  lemma {:induction false} ParseRequestEncoding(r: GetPluginFeaturesRequest)
    ensures ParsesEncoding(ParseRequest, r, EncodeRequest(r))
    ensures RequestFromDocument(EncodeRequest(r)) == Ok(r)
  {
    EncodeRequestRendered(r);
    DecodeRequestJson(r);
    RequestParsesTrees();
    TreeParses(ParseRequest, DecodeRequest, r, RequestJson(r));
    RequestDocumentIsRendered(RequestJson(r));
  }

  /** The request parse reads every rendered tree as the tree decode does. */
  lemma {:induction false} RequestParsesTrees()
    ensures ParsesTrees(ParseRequest, DecodeRequest)
  {
    forall v: Json, toks: seq<Token>, i: nat | RenderedAt(toks, i, v)
      ensures ParseRequest(toks, i) == WithEnd(DecodeRequest(v), i + |Render(v)| - 1)
    {
      ParseRequestRendered(v, toks, i);
    }
  }

  // ---------------------------------------------------------------------------
  // Malformed input and unknown members

  /** Input whose first token is not the start of an object, such as a bare
      string, is rejected with a parse error and never yields a default
      request. */
  lemma {:induction false} NotAnObjectRejected(doc: seq<Token>)
    requires doc == [] || doc[0] != StartObject
    ensures RequestFromDocument(doc) == Err(ExpectedStartObject)
  {
  }

  /** An object whose members are all unknown to the request, whatever values
      they hold, parses to the default request. */
  lemma {:induction false} UnknownMembersGiveDefault(ms: seq<Member>)
    requires forall m :: m in ms ==> m.name != CompactTag
    ensures RequestFromDocument(Render(JObject(ms))) == Ok(DefaultRequest)
  {
    FoldIgnored(RequestMember, ms, false);
    RequestDocumentIsRendered(JObject(ms));
  }

  /** Unknown members can be added anywhere in a request document without
      changing the parse. */
  lemma {:induction false} UnknownMembersIgnored(pre: seq<Member>, extra: seq<Member>, post: seq<Member>)
    requires forall m :: m in extra ==> m.name != CompactTag
    ensures RequestFromDocument(Render(JObject(pre + extra + post))) == RequestFromDocument(Render(JObject(pre + post)))
  {
    IgnoredMembersDropOut(RequestMember, pre, extra, post, false);
    RequestDocumentIsRendered(JObject(pre + extra + post));
    RequestDocumentIsRendered(JObject(pre + post));
  }
}
