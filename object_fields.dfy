/** The document parse shared by the model objects: demand a start-of-object
    token, then read (field name, value) pairs up to the matching end-of-object,
    letting a per-object field reader handle each one. The same parse is also
    given on the document's tree (`DecodeObject`), and `ParseObjectRendered`
    proves that reading the tokens of a well-formed document gives exactly what
    the tree decode gives. */
module ObjectFields {
  import opened Results
  import opened SeqAt
  import opened XContent

  const ExpectedStartObject := ParseError("expected START_OBJECT")
  const ExpectedFieldName := ParseError("expected FIELD_NAME")

  // ---------------------------------------------------------------------------
  // On the token stream

  /** One step of the field loop: handed the field's name, the token stream and
      the index of the value's first token, it returns the updated state and the
      index of the value's last token. */
  type FieldStep<!S> = (string, seq<Token>, nat, S) -> Result<(S, nat)>

  /** A field step never moves backwards and never leaves the stream. */
  ghost predicate StaysInStream<S(!new)>(step: FieldStep<S>) {
    forall name: string, toks: seq<Token>, v: nat, acc: S ::
      step(name, toks, v, acc).Ok? ==> v <= step(name, toks, v, acc).value.1 < |toks|
  }

  type FieldReader<!S(!new)> = step: FieldStep<S> | StaysInStream(step)
    witness (name: string, toks: seq<Token>, v: nat, acc: S) => Err(EndOfInput)

  /** The field loop: the cursor is on token `i` (the object's start or the last
      token of the previous field's value) and the state so far is `acc`;
      returns the final state and the index of the end-of-object token. */
  function FieldsFrom<S(!new)>(step: FieldReader<S>, toks: seq<Token>, i: nat, acc: S): (r: Result<(S, nat)>)
    requires i < |toks|
    decreases |toks| - i
    ensures r.Ok? ==> i < r.value.1 < |toks| && toks[r.value.1] == EndObject
  {
    var k := i + 1;
    if k >= |toks| then Err(EndOfInput)
    else match toks[k]
      case EndObject => Ok((acc, k))
      case FieldName(name) =>
        var field :- step(name, toks, k + 1, acc);
        FieldsFrom(step, toks, field.1, field.0)
      case _ => Err(ExpectedFieldName)
  }

  /** `parse(parser)` of an object whose fields `step` reads, starting from the
      state `init`, with the cursor on token `i`. */
  function ParseObject<S(!new)>(step: FieldReader<S>, init: S, toks: seq<Token>, i: nat): (r: Result<(S, nat)>)
    ensures r.Ok? ==> i < r.value.1 < |toks| && toks[i] == StartObject && toks[r.value.1] == EndObject
    ensures !(i < |toks| && toks[i] == StartObject) ==> r == Err(ExpectedStartObject)
  {
    if i < |toks| && toks[i] == StartObject then FieldsFrom(step, toks, i, init)
    else Err(ExpectedStartObject)
  }

  // ---------------------------------------------------------------------------
  // On the document tree

  /** What one member does to the state. */
  type MemberStep<!S> = (Member, S) -> Result<S>

  /** Applies the members in order; the first failure is the result. */
  function FoldMembers<S>(decode: MemberStep<S>, ms: seq<Member>, acc: S): Result<S>
    decreases ms
  {
    if ms == [] then Ok(acc)
    else
      var next :- decode(ms[0], acc);
      FoldMembers(decode, ms[1..], next)
  }

  /** The tree form of `ParseObject`. */
  function DecodeObject<S>(decode: MemberStep<S>, init: S, v: Json): (r: Result<S>)
    ensures !v.JObject? ==> r == Err(ExpectedStartObject)
  {
    if v.JObject? then FoldMembers(decode, v.members, init) else Err(ExpectedStartObject)
  }

  /** A result paired with the index the parse stopped at. */
  function WithEnd<T>(r: Result<T>, j: nat): (p: Result<(T, nat)>)
    ensures p.Ok? <==> r.Ok?
    ensures p.Ok? ==> p.value == (r.value, j)
    ensures p.Err? ==> p.error == r.error
  {
    match r
    case Ok(x) => Ok((x, j))
    case Err(e) => Err(e)
  }

  /** `step` reads every member, wherever it stands, as `decode` does, and
      stops on the last token of its value. */
  ghost predicate ReadsMembers<S(!new)>(step: FieldReader<S>, decode: MemberStep<S>) {
    forall m: Member, toks: seq<Token>, v: nat, acc: S {:trigger ValueStands(toks, v, m), step(m.name, toks, v, acc)} ::
      ValueStands(toks, v, m) ==>
        step(m.name, toks, v, acc) == WithEnd(decode(m, acc), v + |Render(m.value)| - 1)
  }

  /** The value of member `m` stands in `toks` at index `v`. */
  ghost predicate ValueStands(toks: seq<Token>, v: nat, m: Member) {
    At(toks, v, Render(m.value))
  }

  /** The members `ms`, then the end of the object, stand in `toks` from index
      `k` on: each as its field name followed by its value's tokens. */
  ghost function MembersStandAt(toks: seq<Token>, k: nat, ms: seq<Member>): bool
    decreases ms
  {
    if ms == [] then k < |toks| && toks[k] == EndObject
    else
      && k < |toks| && toks[k] == FieldName(ms[0].name)
      && At(toks, k + 1, Render(ms[0].value))
      && MembersStandAt(toks, k + 1 + |Render(ms[0].value)|, ms[1..])
  }

  lemma {:induction false} RenderedMembersStand(ms: seq<Member>, toks: seq<Token>, k: nat)
    requires At(toks, k, RenderMembers(ms) + [EndObject])
    decreases ms
    ensures MembersStandAt(toks, k, ms)
  {
    if ms == [] {
      assert RenderMembers(ms) + [EndObject] == [EndObject];
      AtSingle(toks, k, EndObject);
    } else {
      MembersAt(ms, toks, k);
      RenderedMembersStand(ms[1..], toks, k + 1 + |Render(ms[0].value)|);
    }
  }

  /** From index `k` on, `toks` holds the members `ms` and then the end of the
      object, and `step`, from state `acc`, reads each member as `decode`
      does, up to the first one `decode` rejects. */
  ghost function StepsAgree<S(!new)>(step: FieldReader<S>, decode: MemberStep<S>,
                                     ms: seq<Member>, toks: seq<Token>, k: nat, acc: S): bool
    decreases ms
  {
    if ms == [] then k < |toks| && toks[k] == EndObject
    else
      && k < |toks| && toks[k] == FieldName(ms[0].name)
      && step(ms[0].name, toks, k + 1, acc) == WithEnd(decode(ms[0], acc), k + |Render(ms[0].value)|)
      && (decode(ms[0], acc).Ok? ==> StepsAgree(step, decode, ms[1..], toks, k + 1 + |Render(ms[0].value)|, decode(ms[0], acc).value))
  }

  lemma {:induction false} MembersStandAgree<S(!new)>(step: FieldReader<S>, decode: MemberStep<S>,
                                                      ms: seq<Member>, toks: seq<Token>, k: nat, acc: S)
    requires ReadsMembers(step, decode)
    requires MembersStandAt(toks, k, ms)
    decreases ms
    ensures StepsAgree(step, decode, ms, toks, k, acc)
  {
    if ms != [] {
      ReadsMemberAt(step, decode, ms[0], toks, k + 1, acc);
      if decode(ms[0], acc).Ok? {
        MembersStandAgree(step, decode, ms[1..], toks, k + 1 + |Render(ms[0].value)|, decode(ms[0], acc).value);
      }
    }
  }

  /** `MembersStandAgree` from the members' own readings: every member of
      `ms` whose value stands at index `v` is `seen` there, and `step` reads a
      member seen at `v` as `decode` does, whatever the state. */
  lemma {:induction false} MembersSeenAgree<S(!new)>(step: FieldReader<S>, decode: MemberStep<S>, seen: (Member, nat) -> bool,
                                                     ms: seq<Member>, toks: seq<Token>, k: nat, acc: S)
    requires MembersStandAt(toks, k, ms)
    requires forall m, v: nat :: m in ms && ValueStands(toks, v, m) ==> seen(m, v)
    requires forall m: Member, v: nat, a: S :: seen(m, v) ==> step(m.name, toks, v, a) == WithEnd(decode(m, a), v + |Render(m.value)| - 1)
    decreases ms
    ensures StepsAgree(step, decode, ms, toks, k, acc)
  {
    if ms != [] {
      assert ms[0] in ms && ValueStands(toks, k + 1, ms[0]);
      if decode(ms[0], acc).Ok? {
        forall m, v | m in ms[1..] && ValueStands(toks, v, m)
          ensures seen(m, v)
        {
          assert m in ms;
        }
        MembersSeenAgree(step, decode, seen, ms[1..], toks, k + 1 + |Render(ms[0].value)|, decode(ms[0], acc).value);
      }
    }
  }

  /** The field loop over the tokens of members `ms`. */
  lemma {:induction false} FieldsFromRendered<S(!new)>(step: FieldReader<S>, decode: MemberStep<S>,
                                                       ms: seq<Member>, toks: seq<Token>, i: nat, acc: S)
    requires StepsAgree(step, decode, ms, toks, i + 1, acc)
    decreases ms
    ensures i < |toks|
    ensures FieldsFrom(step, toks, i, acc) == WithEnd(FoldMembers(decode, ms, acc), i + |RenderMembers(ms)| + 1)
  {
    if ms != [] {
      FieldsFromStep(step, decode, ms[0], toks, i, acc);
      match decode(ms[0], acc)
      case Err(e) =>
      case Ok(next) =>
        FieldsFromRendered(step, decode, ms[1..], toks, i + 1 + |Render(ms[0].value)|, next);
    }
  }

  /** Where the parts of the first rendered member lie. */
  lemma {:induction false} MembersAt(ms: seq<Member>, toks: seq<Token>, k: nat)
    requires ms != [] && At(toks, k, RenderMembers(ms) + [EndObject])
    ensures k < |toks| && toks[k] == FieldName(ms[0].name)
    ensures At(toks, k + 1, Render(ms[0].value))
    ensures At(toks, k + 1 + |Render(ms[0].value)|, RenderMembers(ms[1..]) + [EndObject])
  {
    var value := Render(ms[0].value);
    var rest := RenderMembers(ms[1..]) + [EndObject];
    assert RenderMembers(ms) + [EndObject] == [FieldName(ms[0].name)] + (value + rest);
    AtCons(toks, k, FieldName(ms[0].name), value + rest);
    AtAppend(toks, k + 1, value, rest);
  }

  lemma {:induction false} ReadsMemberAt<S(!new)>(step: FieldReader<S>, decode: MemberStep<S>, m: Member, toks: seq<Token>, v: nat, acc: S)
    requires ReadsMembers(step, decode) && At(toks, v, Render(m.value))
    ensures step(m.name, toks, v, acc) == WithEnd(decode(m, acc), v + |Render(m.value)| - 1)
  {
    assert ValueStands(toks, v, m);
  }

  /** One turn of the field loop on a member that the step reads as `decode`
      does, its value ending on token `end`. */
  lemma {:induction false} FieldsFromStep<S(!new)>(step: FieldReader<S>, decode: MemberStep<S>, m: Member,
                                                   toks: seq<Token>, i: nat, acc: S)
    requires i + 1 < |toks| && toks[i + 1] == FieldName(m.name)
    requires step(m.name, toks, i + 2, acc) == WithEnd(decode(m, acc), i + 1 + |Render(m.value)|)
    ensures decode(m, acc).Ok? ==> i + 1 + |Render(m.value)| < |toks|
    ensures FieldsFrom(step, toks, i, acc) ==
      match decode(m, acc)
      case Ok(next) => FieldsFrom(step, toks, i + 1 + |Render(m.value)|, next)
      case Err(e) => Err(e)
  {
  }

  /** A rendered object: its start token, then its members standing one after
      another up to its end token. */
  lemma {:induction false} ObjectMembersStand(v: Json, toks: seq<Token>, i: nat)
    requires v.JObject? && At(toks, i, Render(v))
    ensures i < |toks| && toks[i] == StartObject
    ensures MembersStandAt(toks, i + 1, v.members)
    ensures |Render(v)| == |RenderMembers(v.members)| + 2
  {
    AtFramed(toks, i, StartObject, RenderMembers(v.members), EndObject);
    assert [StartObject] + RenderMembers(v.members) + [EndObject] == [StartObject] + (RenderMembers(v.members) + [EndObject]);
    AtCons(toks, i, StartObject, RenderMembers(v.members) + [EndObject]);
    RenderedMembersStand(v.members, toks, i + 1);
  }

  /** Reading the tokens of any well-formed document value gives what decoding
      its tree gives, and stops on the value's last token. Every member of an
      object must be read as `decode` reads it; members that `step` does not
      know are typically skipped whole (`SkipChildrenSkipsValue`). */
  lemma {:induction false} ParseObjectRendered<S(!new)>(step: FieldReader<S>, decode: MemberStep<S>, init: S, v: Json, toks: seq<Token>, i: nat)
    requires ReadsMembers(step, decode)
    requires At(toks, i, Render(v))
    ensures ParseObject(step, init, toks, i) == WithEnd(DecodeObject(decode, init, v), i + |Render(v)| - 1)
  {
    if v.JObject? {
      ObjectMembersStand(v, toks, i);
      MembersStandAgree(step, decode, v.members, toks, i + 1, init);
      ParseObjectAgrees(step, decode, init, v, toks, i);
    } else {
      NotObjectAt(v, toks, i);
    }
  }

  /** The parse of a rendered object whose members `step` reads as `decode`
      does. */
  lemma {:induction false} ParseObjectAgrees<S(!new)>(step: FieldReader<S>, decode: MemberStep<S>, init: S, v: Json, toks: seq<Token>, i: nat)
    requires v.JObject? && i < |toks| && toks[i] == StartObject
    requires |Render(v)| == |RenderMembers(v.members)| + 2
    requires StepsAgree(step, decode, v.members, toks, i + 1, init)
    ensures ParseObject(step, init, toks, i) == WithEnd(DecodeObject(decode, init, v), i + |Render(v)| - 1)
  {
    FieldsFromRendered(step, decode, v.members, toks, i, init);
    ObjectFromFields(step, decode, init, v, toks, i);
  }

  /** The parse of a rendered object whose members are each `seen` where
      they stand, when `step` reads a member seen at `w` as `decode` does. */
  lemma {:induction false} ParseObjectSeen<S(!new)>(step: FieldReader<S>, decode: MemberStep<S>, seen: (Member, nat) -> bool,
                                                    init: S, v: Json, toks: seq<Token>, i: nat)
    requires v.JObject? && At(toks, i, Render(v))
    requires forall m: Member, w: nat :: m in v.members && ValueStands(toks, w, m) ==> seen(m, w)
    requires forall m: Member, w: nat, a: S :: seen(m, w) ==> step(m.name, toks, w, a) == WithEnd(decode(m, a), w + |Render(m.value)| - 1)
    ensures ParseObject(step, init, toks, i) == WithEnd(DecodeObject(decode, init, v), i + |Render(v)| - 1)
  {
    ObjectMembersStand(v, toks, i);
    MembersSeenAgree(step, decode, seen, v.members, toks, i + 1, init);
    ParseObjectAgrees(step, decode, init, v, toks, i);
  }

  /** The parse of an object is its field loop. */
  lemma {:induction false} ObjectFromFields<S(!new)>(step: FieldReader<S>, decode: MemberStep<S>, init: S, v: Json, toks: seq<Token>, i: nat)
    requires v.JObject? && i < |toks| && toks[i] == StartObject
    requires |Render(v)| == |RenderMembers(v.members)| + 2
    requires FieldsFrom(step, toks, i, init) == WithEnd(FoldMembers(decode, v.members, init), i + |RenderMembers(v.members)| + 1)
    ensures ParseObject(step, init, toks, i) == WithEnd(DecodeObject(decode, init, v), i + |Render(v)| - 1)
  {
  }

  /** Any other rendered value starts with a token other than start-of-object. */
  lemma {:induction false} NotObjectAt(v: Json, toks: seq<Token>, i: nat)
    requires !v.JObject? && At(toks, i, Render(v))
    ensures i < |toks| && toks[i] != StartObject
  {
    AtCons(toks, i, Render(v)[0], Render(v)[1..]);
    assert [Render(v)[0]] + Render(v)[1..] == Render(v);
  }

  /** The value `v` stands in `toks` at index `i`. */
  ghost predicate RenderedAt(toks: seq<Token>, i: nat, v: Json) {
    At(toks, i, Render(v))
  }

  /** `parse` reads the tokens of every well-formed document value as `decode`
      decodes its tree, and stops on the value's last token. */
  ghost predicate ParsesTrees<T>(parse: ItemParser<T>, decode: Json -> Result<T>) {
    forall v: Json, toks: seq<Token>, i: nat {:trigger RenderedAt(toks, i, v)} ::
      RenderedAt(toks, i, v) ==> parse(toks, i) == WithEnd(decode(v), i + |Render(v)| - 1)
  }

  /** Such a parser reads back every tree that decodes, wherever its tokens
      stand. */
  lemma {:induction false} TreeParses<T>(parse: ItemParser<T>, decode: Json -> Result<T>, x: T, v: Json)
    requires ParsesTrees(parse, decode) && decode(v) == Ok(x)
    ensures ParsesEncoding(parse, x, Render(v))
  {
    forall toks: seq<Token>, i: nat | At(toks, i, Render(v))
      ensures parse(toks, i) == Ok((x, i + |Render(v)| - 1))
    {
      assert RenderedAt(toks, i, v);
    }
    ParsesEverywhere(parse, x, Render(v));
  }

  // ---------------------------------------------------------------------------
  // Facts about the tree decode

  /** Folding over two runs of members is folding over the first, then over the
      second from where the first left off. */
  lemma {:induction false} FoldMembersAppend<S>(decode: MemberStep<S>, a: seq<Member>, b: seq<Member>, acc: S)
    decreases a
    ensures FoldMembers(decode, a + b, acc) ==
      match FoldMembers(decode, a, acc)
      case Ok(mid) => FoldMembers(decode, b, mid)
      case Err(e) => Err(e)
  {
    if a == [] {
      assert a + b == b;
    } else {
      assert (a + b)[0] == a[0] && (a + b)[1..] == a[1..] + b;
      match decode(a[0], acc)
      case Err(e) =>
      case Ok(next) => FoldMembersAppend(decode, a[1..], b, next);
    }
  }

  lemma {:induction false} FoldMembersCons<S>(decode: MemberStep<S>, m: Member, ms: seq<Member>, acc: S)
    ensures FoldMembers(decode, [m] + ms, acc) ==
      match decode(m, acc)
      case Ok(next) => FoldMembers(decode, ms, next)
      case Err(e) => Err(e)
  {
    assert ([m] + ms)[0] == m && ([m] + ms)[1..] == ms;
  }

  lemma {:induction false} FoldMembersSingle<S>(decode: MemberStep<S>, m: Member, acc: S)
    ensures FoldMembers(decode, [m], acc) == decode(m, acc)
  {
    assert [m][0] == m && [m][1..] == [];
  }

  /** A view `f` of the state that no member of `ms` changes is the same after
      the fold as before it. */
  lemma {:induction false} FoldKeeps<S(!new), X>(decode: MemberStep<S>, ms: seq<Member>, acc: S, f: S -> X)
    requires forall m, a: S :: m in ms && decode(m, a).Ok? ==> f(decode(m, a).value) == f(a)
    decreases ms
    ensures FoldMembers(decode, ms, acc).Ok? ==> f(FoldMembers(decode, ms, acc).value) == f(acc)
  {
    if ms != [] {
      assert ms[0] in ms;
      match decode(ms[0], acc)
      case Err(_) =>
      case Ok(next) =>
        assert forall m :: m in ms[1..] ==> m in ms;
        FoldKeeps(decode, ms[1..], next, f);
    }
  }

  /** Every member of `ms` leaves the state as it is. */
  ghost predicate Ignored<S(!new)>(decode: MemberStep<S>, ms: seq<Member>) {
    forall m, acc: S :: m in ms ==> decode(m, acc) == Ok(acc)
  }

  lemma {:induction false} FoldIgnored<S(!new)>(decode: MemberStep<S>, ms: seq<Member>, acc: S)
    requires Ignored(decode, ms)
    decreases ms
    ensures FoldMembers(decode, ms, acc) == Ok(acc)
  {
    if ms != [] {
      assert ms[0] in ms;
      FoldIgnored(decode, ms[1..], acc);
    }
  }

  /** Members the decode ignores can be inserted anywhere among the others
      without changing the outcome, success or failure. */
  lemma {:induction false} IgnoredMembersDropOut<S(!new)>(decode: MemberStep<S>, pre: seq<Member>, extra: seq<Member>, post: seq<Member>, init: S)
    requires Ignored(decode, extra)
    ensures DecodeObject(decode, init, JObject(pre + extra + post)) == DecodeObject(decode, init, JObject(pre + post))
  {
    FoldMembersAppend(decode, pre + extra, post, init);
    FoldMembersAppend(decode, pre, extra, init);
    FoldMembersAppend(decode, pre, post, init);
    match FoldMembers(decode, pre, init)
    case Err(e) =>
    case Ok(mid) => FoldIgnored(decode, extra, mid);
  }
}
