/** A notification message and its optional file attachment: their validation,
    their binary form and their document form. The document parse is the shared
    field loop of `ObjectFields`; its tree form `DecodeMessage` is what the
    lemmas about documents are stated on, and `ParseMessageRendered` carries
    them over to token streams. */
module ChannelMessages {
  import opened Results
  import opened SeqAt
  import opened XContent
  import opened XContentHelpers
  import opened ObjectFields
  import opened Stream

  const TextDescriptionTag := "text_description"
  const HtmlDescriptionTag := "html_description"
  const AttachmentTag := "attachment"
  const FileNameTag := "file_name"
  const FileEncodingTag := "file_encoding"
  const FileDataTag := "file_data"
  const FileContentTypeTag := "file_content_type"

  datatype Attachment = Attachment(fileName: string, fileEncoding: string, fileData: string,
                                   fileContentType: Option<string>)

  datatype ChannelMessage = ChannelMessage(textDescription: string, htmlDescription: Option<string>,
                                           attachment: Option<Attachment>)

  /** The attachment's three required strings are non-empty. */
  predicate ValidAttachment(a: Attachment) {
    a.fileName != "" && a.fileEncoding != "" && a.fileData != ""
  }

  /** The text is non-empty and an attachment, if any, is valid. */
  predicate ValidMessage(m: ChannelMessage) {
    m.textDescription != "" && (m.attachment.Some? ==> ValidAttachment(m.attachment.value))
  }

  // ---------------------------------------------------------------------------
  // Construction and validation

  /** A required string must be non-empty. */
  function NonEmpty(field: string, value: string): (r: Result<string>)
    ensures r.Ok? <==> value != ""
    ensures r.Ok? ==> r.value == value
    ensures r.Err? ==> r.error == IllegalArgument(field)
  {
    if value != "" then Ok(value) else Err(IllegalArgument(field))
  }

  /** The `Attachment` constructor: each required string is checked in
      declaration order and the first empty one is named in the error. */
  function NewAttachment(fileName: string, fileEncoding: string, fileData: string,
                         fileContentType: Option<string>): (r: Result<Attachment>)
    ensures r.Ok? <==> fileName != "" && fileEncoding != "" && fileData != ""
    ensures r.Ok? ==> r.value == Attachment(fileName, fileEncoding, fileData, fileContentType) && ValidAttachment(r.value)
    ensures fileName == "" ==> r == Err(IllegalArgument(FileNameTag))
    ensures fileName != "" && fileEncoding == "" ==> r == Err(IllegalArgument(FileEncodingTag))
    ensures fileName != "" && fileEncoding != "" && fileData == "" ==> r == Err(IllegalArgument(FileDataTag))
  {
    var _ :- NonEmpty(FileNameTag, fileName);
    var _ :- NonEmpty(FileEncodingTag, fileEncoding);
    var _ :- NonEmpty(FileDataTag, fileData);
    Ok(Attachment(fileName, fileEncoding, fileData, fileContentType))
  }

  /** The `ChannelMessage` constructor: the text must be non-empty. */
  function NewChannelMessage(textDescription: string, htmlDescription: Option<string>,
                             attachment: Option<Attachment>): (r: Result<ChannelMessage>)
    ensures r.Ok? <==> textDescription != ""
    ensures r.Ok? ==> r.value == ChannelMessage(textDescription, htmlDescription, attachment)
    ensures r.Err? ==> r.error == IllegalArgument(TextDescriptionTag)
  {
    var _ :- NonEmpty(TextDescriptionTag, textDescription);
    Ok(ChannelMessage(textDescription, htmlDescription, attachment))
  }

  /** Every valid attachment is what its constructor builds from its fields. */
  lemma {:induction false} NewAttachmentBuildsValid(a: Attachment)
    ensures NewAttachment(a.fileName, a.fileEncoding, a.fileData, a.fileContentType) == Ok(a) <==> ValidAttachment(a)
  {
  }

  // ---------------------------------------------------------------------------
  // Binary form

  function WriteAttachment(a: Attachment): seq<Prim> {
    [PStr(a.fileName), PStr(a.fileEncoding), PStr(a.fileData)] + WriteOptional(WriteString, a.fileContentType)
  }

  /** `Attachment(input)`: three strings, then the optional content type; the
      constructor's checks apply. */
  function ReadAttachment(s: seq<Prim>, i: nat): (r: Result<(Attachment, nat)>)
    ensures r.Ok? ==> ValidAttachment(r.value.0) && i < r.value.1 <= |s|
  {
    var name :- ReadString(s, i);
    var encoding :- ReadString(s, name.1);
    var data :- ReadString(s, encoding.1);
    var contentType :- ReadOptional(ReadString, s, data.1);
    var a :- NewAttachment(name.0, encoding.0, data.0, contentType.0);
    Ok((a, contentType.1))
  }

  function WriteMessage(m: ChannelMessage): seq<Prim> {
    [PStr(m.textDescription)] + WriteOptional(WriteString, m.htmlDescription) + WriteOptional(WriteAttachment, m.attachment)
  }

  /** `ChannelMessage(input)`: the text, the optional html, the optional
      attachment; the constructor's check applies. */
  function ReadMessage(s: seq<Prim>, i: nat): (r: Result<(ChannelMessage, nat)>)
    ensures r.Ok? ==> ValidMessage(r.value.0)
  {
    var text :- ReadString(s, i);
    var html :- ReadOptional(ReadString, s, text.1);
    var attachment :- ReadOptional(ReadAttachment, s, html.1);
    var m :- NewChannelMessage(text.0, html.0, attachment.0);
    Ok((m, attachment.1))
  }

  lemma {:induction false} WriteStringReads(o: Option<string>)
    ensures o.Some? ==> ReadsWrite(ReadString, WriteString, o.value)
  {
    if o.Some? {
      ReadStringWrite(o.value);
    }
  }

  lemma {:induction false} ReadAttachmentWriteAt(a: Attachment, s: seq<Prim>, i: nat)
    requires ValidAttachment(a) && At(s, i, WriteAttachment(a))
    ensures ReadAttachment(s, i) == Ok((a, i + |WriteAttachment(a)|))
  {
    AttachmentWriteLayout(a, s, i);
    ReadOptionalTextWrite(a.fileContentType, s, i + 3);
    AttachmentReadSteps(s, i, a, i + 3 + |WriteOptional(WriteString, a.fileContentType)|);
  }

  /** Where the parts of a written attachment lie. */
  lemma {:induction false} AttachmentWriteLayout(a: Attachment, s: seq<Prim>, i: nat)
    requires At(s, i, WriteAttachment(a))
    ensures i + 2 < |s|
    ensures s[i] == PStr(a.fileName) && s[i + 1] == PStr(a.fileEncoding) && s[i + 2] == PStr(a.fileData)
    ensures At(s, i + 3, WriteOptional(WriteString, a.fileContentType))
    ensures |WriteAttachment(a)| == 3 + |WriteOptional(WriteString, a.fileContentType)|
  {
    var opt := WriteOptional(WriteString, a.fileContentType);
    assert WriteAttachment(a) == [PStr(a.fileName)] + ([PStr(a.fileEncoding)] + ([PStr(a.fileData)] + opt));
    AtCons(s, i, PStr(a.fileName), [PStr(a.fileEncoding)] + ([PStr(a.fileData)] + opt));
    AtCons(s, i + 1, PStr(a.fileEncoding), [PStr(a.fileData)] + opt);
    AtCons(s, i + 2, PStr(a.fileData), opt);
  }

  /** `ReadAttachment` is its four reads and the constructor's check. */
  lemma {:induction false} AttachmentReadSteps(s: seq<Prim>, i: nat, a: Attachment, end: nat)
    requires ValidAttachment(a) && i + 2 < |s|
    requires s[i] == PStr(a.fileName) && s[i + 1] == PStr(a.fileEncoding) && s[i + 2] == PStr(a.fileData)
    requires ReadOptional(ReadString, s, i + 3) == Ok((a.fileContentType, end))
    ensures ReadAttachment(s, i) == Ok((a, end))
  {
  }

  /** A valid attachment reads back from the stream as written. */
  lemma {:induction false} ReadAttachmentWrite(a: Attachment)
    requires ValidAttachment(a)
    ensures ReadsWrite(ReadAttachment, WriteAttachment, a)
  {
    forall s: seq<Prim>, i: nat | At(s, i, WriteAttachment(a))
      ensures ReadAttachment(s, i) == Ok((a, i + |WriteAttachment(a)|))
    {
      ReadAttachmentWriteAt(a, s, i);
    }
  }

  lemma {:induction false} ReadMessageWriteAt(m: ChannelMessage, s: seq<Prim>, i: nat)
    requires ValidMessage(m) && At(s, i, WriteMessage(m))
    ensures ReadMessage(s, i) == Ok((m, i + |WriteMessage(m)|))
  {
    var k, end := MessageWriteLayout(m, s, i);
    ReadMessageLaidOut(m, s, i, k, end);
  }

  lemma {:induction false} ReadMessageLaidOut(m: ChannelMessage, s: seq<Prim>, i: nat, k: nat, end: nat)
    requires ValidMessage(m) && i < |s| && s[i] == PStr(m.textDescription)
    requires At(s, i + 1, WriteOptional(WriteString, m.htmlDescription))
    requires k == i + 1 + |WriteOptional(WriteString, m.htmlDescription)|
    requires At(s, k, WriteOptional(WriteAttachment, m.attachment))
    requires end == k + |WriteOptional(WriteAttachment, m.attachment)|
    ensures ReadMessage(s, i) == Ok((m, end))
  {
    ReadOptionalTextWrite(m.htmlDescription, s, i + 1);
    ReadOptionalAttachmentWrite(m.attachment, s, k);
    ReadMessageParts(m, s, i, k, end);
  }

  /** Where the parts of a written message lie. */
  lemma {:induction false} MessageWriteLayout(m: ChannelMessage, s: seq<Prim>, i: nat) returns (k: nat, end: nat)
    requires At(s, i, WriteMessage(m))
    ensures i < |s| && s[i] == PStr(m.textDescription)
    ensures At(s, i + 1, WriteOptional(WriteString, m.htmlDescription))
    ensures k == i + 1 + |WriteOptional(WriteString, m.htmlDescription)|
    ensures At(s, k, WriteOptional(WriteAttachment, m.attachment))
    ensures end == k + |WriteOptional(WriteAttachment, m.attachment)|
    ensures end == i + |WriteMessage(m)|
  {
    k := i + 1 + |WriteOptional(WriteString, m.htmlDescription)|;
    end := k + |WriteOptional(WriteAttachment, m.attachment)|;
    var html := WriteOptional(WriteString, m.htmlDescription);
    var att := WriteOptional(WriteAttachment, m.attachment);
    assert WriteMessage(m) == [PStr(m.textDescription)] + (html + att);
    AtCons(s, i, PStr(m.textDescription), html + att);
    AtAppend(s, i + 1, html, att);
  }

  lemma {:induction false} ReadMessageParts(m: ChannelMessage, s: seq<Prim>, i: nat, k: nat, end: nat)
    requires ValidMessage(m) && i < |s| && s[i] == PStr(m.textDescription)
    requires ReadOptional(ReadString, s, i + 1) == Ok((m.htmlDescription, k))
    requires ReadOptional(ReadAttachment, s, k) == Ok((m.attachment, end))
    ensures ReadMessage(s, i) == Ok((m, end))
  {
    assert ReadString(s, i) == Ok((m.textDescription, i + 1));
    MessageReadSteps(s, i, m, i + 1, k, end);
  }

  lemma {:induction false} ReadOptionalTextWrite(o: Option<string>, s: seq<Prim>, i: nat)
    requires At(s, i, WriteOptional(WriteString, o))
    ensures ReadOptional(ReadString, s, i) == Ok((o, i + |WriteOptional(WriteString, o)|))
  {
    WriteStringReads(o);
    ReadOptionalWrite(ReadString, WriteString, o, s, i);
  }

  lemma {:induction false} ReadOptionalAttachmentWrite(o: Option<Attachment>, s: seq<Prim>, i: nat)
    requires o.Some? ==> ValidAttachment(o.value)
    requires At(s, i, WriteOptional(WriteAttachment, o))
    ensures ReadOptional(ReadAttachment, s, i) == Ok((o, i + |WriteOptional(WriteAttachment, o)|))
  {
    if o.Some? {
      ReadAttachmentWrite(o.value);
    }
    ReadOptionalWrite(ReadAttachment, WriteAttachment, o, s, i);
  }

  /** The binary round trip: a valid message, its html and its attachment
      present or absent, reads back from the stream as written. */
  lemma {:induction false} ReadMessageWrite(m: ChannelMessage)
    requires ValidMessage(m)
    ensures ReadsWrite(ReadMessage, WriteMessage, m)
  {
    forall s: seq<Prim>, i: nat | At(s, i, WriteMessage(m))
      ensures ReadMessage(s, i) == Ok((m, i + |WriteMessage(m)|))
    {
      ReadMessageWriteAt(m, s, i);
    }
  }

  /** `ReadMessage` is its three reads and the constructor's check. */
  lemma {:induction false} MessageReadSteps(s: seq<Prim>, i: nat, m: ChannelMessage, j: nat, k: nat, end: nat)
    requires ValidMessage(m)
    requires ReadString(s, i) == Ok((m.textDescription, j))
    requires ReadOptional(ReadString, s, j) == Ok((m.htmlDescription, k))
    requires ReadOptional(ReadAttachment, s, k) == Ok((m.attachment, end))
    ensures ReadMessage(s, i) == Ok((m, end))
  {
  }

  // ---------------------------------------------------------------------------
  // Document form: writing

  function OptionalText(s: Option<string>): Option<FieldValue> {
    match s
    case None => None
    case Some(t) => Some(TextValue(t))
  }

  /** `toXContent` of an attachment: the content type only when present. */
  function EncodeAttachment(a: Attachment): seq<Token> {
    [StartObject] + NamedField(FileNameTag, TextValue(a.fileName)) + NamedField(FileEncodingTag, TextValue(a.fileEncoding))
    + NamedField(FileDataTag, TextValue(a.fileData)) + OptionalField(FileContentTypeTag, OptionalText(a.fileContentType)) + [EndObject]
  }

  /** `toXContent` of a message: html and attachment only when present. */
  function EncodeMessage(m: ChannelMessage): seq<Token> {
    [StartObject] + NamedField(TextDescriptionTag, TextValue(m.textDescription))
    + OptionalField(HtmlDescriptionTag, OptionalText(m.htmlDescription))
    + OptionalObject(AttachmentTag, match m.attachment case None => None case Some(a) => Some(EncodeAttachment(a)))
    + [EndObject]
  }

  /** The tree of a written attachment. */
  function AttachmentJson(a: Attachment): Json {
    JObject([Member(FileNameTag, JStr(a.fileName)), Member(FileEncodingTag, JStr(a.fileEncoding)),
             Member(FileDataTag, JStr(a.fileData))] + OptionalTextMember(FileContentTypeTag, a.fileContentType))
  }

  function MessageJson(m: ChannelMessage): Json {
    JObject([Member(TextDescriptionTag, JStr(m.textDescription))]
            + OptionalTextMember(HtmlDescriptionTag, m.htmlDescription)
            + (match m.attachment case None => [] case Some(a) => [Member(AttachmentTag, AttachmentJson(a))]))
  }

  function OptionalTextMember(name: string, s: Option<string>): seq<Member> {
    match s
    case None => []
    case Some(t) => [Member(name, JStr(t))]
  }

  // ---------------------------------------------------------------------------
  // Document form: reading the tokens

  /** The fields of an attachment seen so far. */
  datatype AttachmentFields = AttachmentFields(fileName: Option<string>, fileEncoding: Option<string>,
                                               fileData: Option<string>, fileContentType: Option<string>)

  const NoAttachmentFields := AttachmentFields(None, None, None, None)

  /** The attachment field a document member name denotes. */
  datatype AttachmentKey = FileNameKey | FileEncodingKey | FileDataKey | FileContentTypeKey | OtherAttachmentKey

  function AttachmentKeyOf(name: string): (k: AttachmentKey)
    ensures k == FileNameKey <==> name == FileNameTag
    ensures k == FileEncodingKey <==> name == FileEncodingTag
    ensures k == FileDataKey <==> name == FileDataTag
    ensures k == FileContentTypeKey <==> name == FileContentTypeTag
  {
    if name == FileNameTag then FileNameKey
    else if name == FileEncodingTag then FileEncodingKey
    else if name == FileDataTag then FileDataKey
    else if name == FileContentTypeTag then FileContentTypeKey
    else OtherAttachmentKey
  }

  /** One field of an attachment document; unknown fields are skipped whole. */
  function AttachmentField(name: string, toks: seq<Token>, v: nat, acc: AttachmentFields): (r: Result<(AttachmentFields, nat)>)
    ensures r.Ok? ==> v <= r.value.1 < |toks|
  {
    if v >= |toks| then Err(EndOfInput)
    else match AttachmentKeyOf(name)
      case FileNameKey =>
        var t :- TokenText(toks[v]);
        Ok((acc.(fileName := Some(t)), v))
      case FileEncodingKey =>
        var t :- TokenText(toks[v]);
        Ok((acc.(fileEncoding := Some(t)), v))
      case FileDataKey =>
        var t :- TokenText(toks[v]);
        Ok((acc.(fileData := Some(t)), v))
      case FileContentTypeKey =>
        var t :- TokenTextOrNull(toks[v]);
        Ok((acc.(fileContentType := t), v))
      case OtherAttachmentKey =>
        var j :- SkipChildren(toks, v);
        Ok((acc, j))
  }

  /** After the loop: the three required fields must be present, and then the
      constructor's checks apply. */
  function BuildAttachment(f: AttachmentFields): (r: Result<Attachment>)
    ensures r.Ok? ==> ValidAttachment(r.value)
    ensures f.fileName.None? ==> r == Err(IllegalArgument(FileNameTag))
  {
    var name :- Present(FileNameTag, f.fileName);
    var encoding :- Present(FileEncodingTag, f.fileEncoding);
    var data :- Present(FileDataTag, f.fileData);
    NewAttachment(name, encoding, data, f.fileContentType)
  }

  /** `Attachment.parse(parser)` with the cursor on token `i`. */
  function ParseAttachment(toks: seq<Token>, i: nat): (r: Result<(Attachment, nat)>)
    ensures r.Ok? ==> ValidAttachment(r.value.0) && i < r.value.1 < |toks| && toks[r.value.1] == EndObject
    ensures !(i < |toks| && toks[i] == StartObject) ==> r == Err(ExpectedStartObject)
  {
    var f :- ParseObject(AttachmentField, NoAttachmentFields, toks, i);
    var a :- BuildAttachment(f.0);
    Ok((a, f.1))
  }

  datatype MessageFields = MessageFields(text: Option<string>, html: Option<string>, attachment: Option<Attachment>)

  /** The message fields seen so far; an attachment among them has passed its
      own parse, so it is valid. */
  type ParsedFields = f: MessageFields | f.attachment.Some? ==> ValidAttachment(f.attachment.value)
    witness MessageFields(None, None, None)

  const NoMessageFields: ParsedFields := MessageFields(None, None, None)

  /** The message field a document member name denotes. */
  datatype MessageKey = TextDescriptionKey | HtmlDescriptionKey | AttachmentKey | OtherMessageKey

  function MessageKeyOf(name: string): (k: MessageKey)
    ensures k == TextDescriptionKey <==> name == TextDescriptionTag
    ensures k == HtmlDescriptionKey <==> name == HtmlDescriptionTag
    ensures k == AttachmentKey <==> name == AttachmentTag
  {
    if name == TextDescriptionTag then TextDescriptionKey
    else if name == HtmlDescriptionTag then HtmlDescriptionKey
    else if name == AttachmentTag then AttachmentKey
    else OtherMessageKey
  }

  /** One field of a message document; unknown fields are skipped whole. */
  function MessageField(name: string, toks: seq<Token>, v: nat, acc: ParsedFields): (r: Result<(ParsedFields, nat)>)
    ensures r.Ok? ==> v <= r.value.1 < |toks|
  {
    if v >= |toks| then Err(EndOfInput)
    else match MessageKeyOf(name)
      case TextDescriptionKey =>
        var t :- TokenText(toks[v]);
        Ok((acc.(text := Some(t)), v))
      case HtmlDescriptionKey =>
        var t :- TokenTextOrNull(toks[v]);
        Ok((acc.(html := t), v))
      case AttachmentKey =>
        var a :- ParseAttachment(toks, v);
        Ok((acc.(attachment := Some(a.0)), a.1))
      case OtherMessageKey =>
        var j :- SkipChildren(toks, v);
        Ok((acc, j))
  }

  /** After the loop: the text must be present, and then the constructor's
      check applies. */
  function BuildMessage(f: ParsedFields): (r: Result<ChannelMessage>)
    ensures r.Ok? ==> ValidMessage(r.value)
    ensures f.text.None? ==> r == Err(IllegalArgument(TextDescriptionTag))
  {
    var text :- Present(TextDescriptionTag, f.text);
    NewChannelMessage(text, f.html, f.attachment)
  }

  /** `ChannelMessage.parse(parser)` with the cursor on token `i`. */
  function ParseMessage(toks: seq<Token>, i: nat): (r: Result<(ChannelMessage, nat)>)
    ensures r.Ok? ==> ValidMessage(r.value.0) && i < r.value.1 < |toks| && toks[r.value.1] == EndObject
    ensures !(i < |toks| && toks[i] == StartObject) ==> r == Err(ExpectedStartObject)
  {
    var f :- ParseObject(MessageField, NoMessageFields, toks, i);
    var m :- BuildMessage(f.0);
    Ok((m, f.1))
  }

  /** A whole document parsed as a message, its first token current. */
  function MessageFromDocument(doc: seq<Token>): Result<ChannelMessage> {
    var m :- ParseMessage(doc, 0);
    Ok(m.0)
  }

  // ---------------------------------------------------------------------------
  // Document form: the tree decode

  /** What one member of an attachment document does, on the tree. */
  function AttachmentMember(m: Member, acc: AttachmentFields): Result<AttachmentFields> {
    match AttachmentKeyOf(m.name)
    case FileNameKey =>
      var t :- JsonText(m.value);
      Ok(acc.(fileName := Some(t)))
    case FileEncodingKey =>
      var t :- JsonText(m.value);
      Ok(acc.(fileEncoding := Some(t)))
    case FileDataKey =>
      var t :- JsonText(m.value);
      Ok(acc.(fileData := Some(t)))
    case FileContentTypeKey =>
      var t :- JsonTextOrNull(m.value);
      Ok(acc.(fileContentType := t))
    case OtherAttachmentKey => Ok(acc)
  }

  function DecodeAttachment(v: Json): (r: Result<Attachment>)
    ensures r.Ok? ==> ValidAttachment(r.value)
  {
    var f :- DecodeObject(AttachmentMember, NoAttachmentFields, v);
    BuildAttachment(f)
  }

  /** What one member of a message document does, on the tree. */
  function MessageMember(m: Member, acc: ParsedFields): Result<ParsedFields> {
    match MessageKeyOf(m.name)
    case TextDescriptionKey =>
      var t :- JsonText(m.value);
      Ok(acc.(text := Some(t)))
    case HtmlDescriptionKey =>
      var t :- JsonTextOrNull(m.value);
      Ok(acc.(html := t))
    case AttachmentKey =>
      var a :- DecodeAttachment(m.value);
      Ok(acc.(attachment := Some(a)))
    case OtherMessageKey => Ok(acc)
  }

  function DecodeMessage(v: Json): (r: Result<ChannelMessage>)
    ensures r.Ok? ==> ValidMessage(r.value)
  {
    var f :- DecodeObject(MessageMember, NoMessageFields, v);
    BuildMessage(f)
  }

  // ---------------------------------------------------------------------------
  // The token parse is the tree decode

  lemma {:induction false} AttachmentFieldAt(m: Member, toks: seq<Token>, v: nat, acc: AttachmentFields)
    requires At(toks, v, Render(m.value))
    ensures AttachmentField(m.name, toks, v, acc) == WithEnd(AttachmentMember(m, acc), v + |Render(m.value)| - 1)
  {
    ValueAt(m.value, toks, v);
    AttachmentFieldOn(m, toks, v, acc);
  }

  lemma {:induction false} AttachmentFieldOn(m: Member, toks: seq<Token>, v: nat, acc: AttachmentFields)
    requires ReadsAsValue(toks, v, m.value)
    ensures AttachmentField(m.name, toks, v, acc) == WithEnd(AttachmentMember(m, acc), v + |Render(m.value)| - 1)
  {
  }

  lemma {:induction false} AttachmentFieldReadsMembers()
    ensures ReadsMembers(AttachmentField, AttachmentMember)
  {
    forall m: Member, toks: seq<Token>, v: nat, acc: AttachmentFields | ValueStands(toks, v, m)
      ensures AttachmentField(m.name, toks, v, acc) == WithEnd(AttachmentMember(m, acc), v + |Render(m.value)| - 1)
    {
      AttachmentFieldAt(m, toks, v, acc);
    }
  }

  /** Parsing the tokens of any well-formed document value as an attachment
      gives what decoding its tree gives, and stops on its last token. */
  lemma {:induction false} ParseAttachmentRendered(v: Json, toks: seq<Token>, i: nat)
    requires At(toks, i, Render(v))
    ensures ParseAttachment(toks, i) == WithEnd(DecodeAttachment(v), i + |Render(v)| - 1)
  {
    AttachmentFieldReadsMembers();
    ParseObjectRendered(AttachmentField, AttachmentMember, NoAttachmentFields, v, toks, i);
  }

  /** `ParseAttachmentRendered` with the end index named and the cursor shown
      inside the stream, the form the attachment member of a message needs;
      kept apart so that the member's proof does not unfold the parse. */
  lemma {:induction false} ParseAttachmentRenderedAt(v: Json, toks: seq<Token>, i: nat, e: nat)
    requires At(toks, i, Render(v)) && e == i + |Render(v)| - 1
    ensures i < |toks| && ParseAttachment(toks, i) == WithEnd(DecodeAttachment(v), e)
  {
    ParseAttachmentRendered(v, toks, i);
  }

  lemma {:induction false} MessageFieldAt(m: Member, toks: seq<Token>, v: nat, acc: ParsedFields)
    requires At(toks, v, Render(m.value))
    ensures MessageField(m.name, toks, v, acc) == WithEnd(MessageMember(m, acc), v + |Render(m.value)| - 1)
  {
    if MessageKeyOf(m.name) == AttachmentKey {
      var e := v + |Render(m.value)| - 1;
      ParseAttachmentRenderedAt(m.value, toks, v, e);
      MessageAttachmentStep(m, toks, v, acc, e);
    } else {
      ValueAt(m.value, toks, v);
      MessageFieldOn(m, toks, v, acc);
    }
  }

  lemma {:induction false} MessageFieldOn(m: Member, toks: seq<Token>, v: nat, acc: ParsedFields)
    requires MessageKeyOf(m.name) != AttachmentKey && ReadsAsValue(toks, v, m.value)
    ensures MessageField(m.name, toks, v, acc) == WithEnd(MessageMember(m, acc), v + |Render(m.value)| - 1)
  {
  }

  lemma {:induction false} MessageAttachmentStep(m: Member, toks: seq<Token>, v: nat, acc: ParsedFields, e: nat)
    requires MessageKeyOf(m.name) == AttachmentKey && v < |toks|
    requires ParseAttachment(toks, v) == WithEnd(DecodeAttachment(m.value), e)
    ensures MessageField(m.name, toks, v, acc) == WithEnd(MessageMember(m, acc), e)
  {
    match DecodeAttachment(m.value)
    case Err(err) =>
      assert MessageMember(m, acc) == Err(err);
    case Ok(a) =>
      assert MessageMember(m, acc) == Ok(acc.(attachment := Some(a)));
  }

  lemma {:induction false} MessageFieldReadsMembers()
    ensures ReadsMembers(MessageField, MessageMember)
  {
    forall m: Member, toks: seq<Token>, v: nat, acc: ParsedFields | ValueStands(toks, v, m)
      ensures MessageField(m.name, toks, v, acc) == WithEnd(MessageMember(m, acc), v + |Render(m.value)| - 1)
    {
      MessageFieldAt(m, toks, v, acc);
    }
  }

  /** Parsing the tokens of any well-formed document value as a message gives
      what decoding its tree gives, and stops on its last token. */
  lemma {:induction false} ParseMessageRendered(v: Json, toks: seq<Token>, i: nat)
    requires At(toks, i, Render(v))
    ensures ParseMessage(toks, i) == WithEnd(DecodeMessage(v), i + |Render(v)| - 1)
  {
    MessageFieldReadsMembers();
    ParseObjectRendered(MessageField, MessageMember, NoMessageFields, v, toks, i);
  }

  lemma {:induction false} DocumentIsRendered(v: Json)
    ensures MessageFromDocument(Render(v)) == DecodeMessage(v)
  {
    AtWhole(Render(v));
    ParseMessageRendered(v, Render(v), 0);
  }

  // ---------------------------------------------------------------------------
  // The document round trip

  lemma {:induction false} OptionalTextRendered(name: string, o: Option<string>)
    ensures OptionalField(name, OptionalText(o)) == RenderMembers(OptionalTextMember(name, o))
  {
    if o.Some? {
      RenderMembersCons(Member(name, JStr(o.value)), []);
    }
  }

  lemma {:induction false} TextMemberRendered(name: string, x: string, ms: seq<Member>)
    ensures RenderMembers([Member(name, JStr(x))] + ms) == NamedField(name, TextValue(x)) + RenderMembers(ms)
  {
    RenderMembersCons(Member(name, JStr(x)), ms);
  }

  /** What `toXContent` writes for an attachment is the rendering of its tree. */
  lemma {:induction false} EncodeAttachmentRendered(a: Attachment)
    ensures EncodeAttachment(a) == Render(AttachmentJson(a))
  {
    var opt := OptionalTextMember(FileContentTypeTag, a.fileContentType);
    var o := RenderMembers(opt);
    var d := [Member(FileDataTag, JStr(a.fileData))] + opt;
    var e := [Member(FileEncodingTag, JStr(a.fileEncoding))] + d;
    var n := [Member(FileNameTag, JStr(a.fileName))] + e;
    var fn := NamedField(FileNameTag, TextValue(a.fileName));
    var fe := NamedField(FileEncodingTag, TextValue(a.fileEncoding));
    var fd := NamedField(FileDataTag, TextValue(a.fileData));
    assert AttachmentJson(a).members == n;
    assert RenderMembers(n) == fn + (fe + (fd + o)) by {
      TextMemberRendered(FileDataTag, a.fileData, opt);
      TextMemberRendered(FileEncodingTag, a.fileEncoding, d);
      TextMemberRendered(FileNameTag, a.fileName, e);
    }
    assert OptionalField(FileContentTypeTag, OptionalText(a.fileContentType)) == o by {
      OptionalTextRendered(FileContentTypeTag, a.fileContentType);
    }
    FramedRegroup(StartObject, fn, fe, fd, o, EndObject);
  }

  function AttachmentMembers(o: Option<Attachment>): seq<Member> {
    match o
    case None => []
    case Some(a) => [Member(AttachmentTag, AttachmentJson(a))]
  }

  lemma {:induction false} AttachmentMembersRendered(o: Option<Attachment>)
    ensures OptionalObject(AttachmentTag, match o case None => None case Some(a) => Some(EncodeAttachment(a)))
      == RenderMembers(AttachmentMembers(o))
  {
    if o.Some? {
      EncodeAttachmentRendered(o.value);
      RenderMembersCons(Member(AttachmentTag, AttachmentJson(o.value)), []);
    }
  }

  /** What `toXContent` writes for a message is the rendering of its tree. */
  lemma {:induction false} EncodeMessageRendered(m: ChannelMessage)
    ensures EncodeMessage(m) == Render(MessageJson(m))
  {
    var html := OptionalTextMember(HtmlDescriptionTag, m.htmlDescription);
    var att := AttachmentMembers(m.attachment);
    var ft := NamedField(TextDescriptionTag, TextValue(m.textDescription));
    var h := RenderMembers(html);
    var r := RenderMembers(att);
    assert RenderMembers(MessageJson(m).members) == ft + (h + r) by {
      assert MessageJson(m).members == [Member(TextDescriptionTag, JStr(m.textDescription))] + (html + att);
      TextMemberRendered(TextDescriptionTag, m.textDescription, html + att);
      RenderMembersAppend(html, att);
    }
    assert OptionalField(HtmlDescriptionTag, OptionalText(m.htmlDescription)) == h by {
      OptionalTextRendered(HtmlDescriptionTag, m.htmlDescription);
    }
    assert OptionalObject(AttachmentTag, match m.attachment case None => None case Some(a) => Some(EncodeAttachment(a))) == r by {
      AttachmentMembersRendered(m.attachment);
    }
    FramedRegroup3(StartObject, ft, h, r, EndObject);
  }

  /** Decoding the tree of an attachment runs its constructor on its fields:
      a valid attachment comes back as it was, an invalid one fails as the
      constructor does. */
  lemma {:induction false} DecodeAttachmentJson(a: Attachment)
    ensures DecodeAttachment(AttachmentJson(a)) == NewAttachment(a.fileName, a.fileEncoding, a.fileData, a.fileContentType)
  {
    var opt := OptionalTextMember(FileContentTypeTag, a.fileContentType);
    var n := Member(FileNameTag, JStr(a.fileName));
    var e := Member(FileEncodingTag, JStr(a.fileEncoding));
    var d := Member(FileDataTag, JStr(a.fileData));
    var f1 := NoAttachmentFields.(fileName := Some(a.fileName));
    var f2 := f1.(fileEncoding := Some(a.fileEncoding));
    var f3 := f2.(fileData := Some(a.fileData));
    assert [n, e, d] + opt == [n] + ([e] + ([d] + opt));
    FoldMembersCons(AttachmentMember, n, [e] + ([d] + opt), NoAttachmentFields);
    FoldMembersCons(AttachmentMember, e, [d] + opt, f1);
    FoldMembersCons(AttachmentMember, d, opt, f2);
    if a.fileContentType.Some? {
      FoldMembersSingle(AttachmentMember, Member(FileContentTypeTag, JStr(a.fileContentType.value)), f3);
    }
    assert FoldMembers(AttachmentMember, opt, f3) == Ok(f3.(fileContentType := a.fileContentType));
  }

  /** Decoding the tree of a message whose attachment, if any, is valid runs
      the message constructor on its fields. */
  lemma {:induction false} DecodeMessageJson(m: ChannelMessage)
    requires m.attachment.Some? ==> ValidAttachment(m.attachment.value)
    ensures DecodeMessage(MessageJson(m)) == NewChannelMessage(m.textDescription, m.htmlDescription, m.attachment)
    ensures ValidMessage(m) ==> DecodeMessage(MessageJson(m)) == Ok(m)
  {
    var t := Member(TextDescriptionTag, JStr(m.textDescription));
    var html := OptionalTextMember(HtmlDescriptionTag, m.htmlDescription);
    var att := AttachmentMembers(m.attachment);
    var f1: ParsedFields := NoMessageFields.(text := Some(m.textDescription));
    var f2: ParsedFields := f1.(html := m.htmlDescription);
    assert MessageJson(m).members == [t] + (html + att);
    FoldMembersCons(MessageMember, t, html + att, NoMessageFields);
    FoldMembersAppend(MessageMember, html, att, f1);
    if m.htmlDescription.Some? {
      FoldMembersSingle(MessageMember, Member(HtmlDescriptionTag, JStr(m.htmlDescription.value)), f1);
    }
    assert FoldMembers(MessageMember, html, f1) == Ok(f2);
    if m.attachment.Some? {
      var a := m.attachment.value;
      DecodeAttachmentJson(a);
      FoldMembersSingle(MessageMember, Member(AttachmentTag, AttachmentJson(a)), f2);
    }
    assert FoldMembers(MessageMember, att, f2) == Ok(f2.(attachment := m.attachment));
  }

  /** The document round trip: a valid message, its html and its attachment
      present or absent, parses back from what `toXContent` writes, wherever
      that stands in the token stream. */
  lemma {:induction false} ParseMessageEncoding(m: ChannelMessage)
    requires ValidMessage(m)
    ensures ParsesEncoding(ParseMessage, m, EncodeMessage(m))
    ensures MessageFromDocument(EncodeMessage(m)) == Ok(m)
  {
    EncodeMessageRendered(m);
    DecodeMessageJson(m);
    MessageParsesTrees();
    TreeParses(ParseMessage, DecodeMessage, m, MessageJson(m));
    DocumentIsRendered(MessageJson(m));
  }

  /** The message parse reads every rendered tree as the tree decode does. */
  lemma {:induction false} MessageParsesTrees()
    ensures ParsesTrees(ParseMessage, DecodeMessage)
  {
    forall v: Json, toks: seq<Token>, i: nat | RenderedAt(toks, i, v)
      ensures ParseMessage(toks, i) == WithEnd(DecodeMessage(v), i + |Render(v)| - 1)
    {
      ParseMessageRendered(v, toks, i);
    }
  }

  /** The same for an attachment on its own. */
  lemma {:induction false} ParseAttachmentEncoding(a: Attachment)
    requires ValidAttachment(a)
    ensures ParsesEncoding(ParseAttachment, a, EncodeAttachment(a))
  {
    EncodeAttachmentRendered(a);
    DecodeAttachmentJson(a);
    AttachmentParsesTrees();
    TreeParses(ParseAttachment, DecodeAttachment, a, AttachmentJson(a));
  }

  /** The attachment parse reads every rendered tree as the tree decode does. */
  lemma {:induction false} AttachmentParsesTrees()
    ensures ParsesTrees(ParseAttachment, DecodeAttachment)
  {
    forall v: Json, toks: seq<Token>, i: nat | RenderedAt(toks, i, v)
      ensures ParseAttachment(toks, i) == WithEnd(DecodeAttachment(v), i + |Render(v)| - 1)
    {
      ParseAttachmentRendered(v, toks, i);
    }
  }

  // ---------------------------------------------------------------------------
  // Extra and missing fields

  predicate KnownMessageField(name: string) {
    name == TextDescriptionTag || name == HtmlDescriptionTag || name == AttachmentTag
  }

  /** Members with names the message does not know, with any values, can be
      added anywhere in a message document without changing the parse. */
  lemma {:induction false} ExtraFieldsIgnored(pre: seq<Member>, extra: seq<Member>, post: seq<Member>)
    requires forall m :: m in extra ==> !KnownMessageField(m.name)
    ensures MessageFromDocument(Render(JObject(pre + extra + post))) == MessageFromDocument(Render(JObject(pre + post)))
  {
    IgnoredMembersDropOut(MessageMember, pre, extra, post, NoMessageFields);
    DocumentIsRendered(JObject(pre + extra + post));
    DocumentIsRendered(JObject(pre + post));
  }

  /** The written document of a valid message, followed by any fields the
      message does not know, parses back to the message. */
  lemma {:induction false} ExtraFieldsRoundTrip(m: ChannelMessage, extra: seq<Member>)
    requires ValidMessage(m)
    requires forall x :: x in extra ==> !KnownMessageField(x.name)
    ensures MessageFromDocument(Render(JObject(MessageJson(m).members + extra))) == Ok(m)
  {
    var ms := MessageJson(m).members;
    assert ms + extra + [] == ms + extra && ms + [] == ms;
    ExtraFieldsIgnored(ms, extra, []);
    DecodeMessageJson(m);
    DocumentIsRendered(MessageJson(m));
  }

  /** A message document without an html member parses, if at all, to a
      message without html. */
  lemma {:induction false} MissingHtmlIsNone(ms: seq<Member>)
    requires forall m :: m in ms ==> m.name != HtmlDescriptionTag
    ensures MessageFromDocument(Render(JObject(ms))).Ok? ==> MessageFromDocument(Render(JObject(ms))).value.htmlDescription.None?
  {
    forall m, a: ParsedFields | m in ms && MessageMember(m, a).Ok?
      ensures MessageMember(m, a).value.html == a.html
    {
    }
    FoldKeeps(MessageMember, ms, NoMessageFields, (f: ParsedFields) => f.html);
    DocumentIsRendered(JObject(ms));
  }

  /** A message document without an attachment member parses, if at all, to a
      message without attachment. */
  lemma {:induction false} MissingAttachmentIsNone(ms: seq<Member>)
    requires forall m :: m in ms ==> m.name != AttachmentTag
    ensures MessageFromDocument(Render(JObject(ms))).Ok? ==> MessageFromDocument(Render(JObject(ms))).value.attachment.None?
  {
    forall m, a: ParsedFields | m in ms && MessageMember(m, a).Ok?
      ensures MessageMember(m, a).value.attachment == a.attachment
    {
    }
    FoldKeeps(MessageMember, ms, NoMessageFields, (f: ParsedFields) => f.attachment);
    DocumentIsRendered(JObject(ms));
  }

  /** A document with only a text member parses to a message with that text
      and nothing else, if the text is non-empty. */
  lemma {:induction false} TextOnlyDocument(t: string)
    ensures MessageFromDocument(Render(JObject([Member(TextDescriptionTag, JStr(t))]))) ==
      if t == "" then Err(IllegalArgument(TextDescriptionTag)) else Ok(ChannelMessage(t, None, None))
  {
    FoldMembersSingle(MessageMember, Member(TextDescriptionTag, JStr(t)), NoMessageFields);
    DocumentIsRendered(JObject([Member(TextDescriptionTag, JStr(t))]));
  }

  // ---------------------------------------------------------------------------
  // The text is required

  /** A message document without a text member never parses; when its other
      members read cleanly the error names the text field. */
  lemma {:induction false} AbsentTextRejected(ms: seq<Member>)
    requires forall m :: m in ms ==> m.name != TextDescriptionTag
    ensures MessageFromDocument(Render(JObject(ms))).Err?
    ensures DecodeObject(MessageMember, NoMessageFields, JObject(ms)).Ok? ==>
      MessageFromDocument(Render(JObject(ms))) == Err(IllegalArgument(TextDescriptionTag))
  {
    forall m, a: ParsedFields | m in ms && MessageMember(m, a).Ok?
      ensures MessageMember(m, a).value.text == a.text
    {
    }
    FoldKeeps(MessageMember, ms, NoMessageFields, (f: ParsedFields) => f.text);
    DocumentIsRendered(JObject(ms));
  }

  /** A message document whose last text member is empty, wherever that member
      stands, never parses; when its members read cleanly the error names the
      text field. */
  lemma {:induction false} EmptyTextRejected(pre: seq<Member>, post: seq<Member>)
    requires forall m :: m in post ==> m.name != TextDescriptionTag
    ensures MessageFromDocument(Render(JObject(pre + [Member(TextDescriptionTag, JStr(""))] + post))).Err?
    ensures DecodeObject(MessageMember, NoMessageFields, JObject(pre + [Member(TextDescriptionTag, JStr(""))] + post)).Ok? ==>
      MessageFromDocument(Render(JObject(pre + [Member(TextDescriptionTag, JStr(""))] + post))) == Err(IllegalArgument(TextDescriptionTag))
  {
    var t := Member(TextDescriptionTag, JStr(""));
    EmptyTextFolds(pre, t, post);
    DocumentIsRendered(JObject(pre + [t] + post));
  }

  /** The fold over such a document fails or ends with the empty text. */
  lemma {:induction false} EmptyTextFolds(pre: seq<Member>, t: Member, post: seq<Member>)
    requires t == Member(TextDescriptionTag, JStr(""))
    requires forall m :: m in post ==> m.name != TextDescriptionTag
    ensures FoldMembers(MessageMember, pre + [t] + post, NoMessageFields).Ok? ==>
      FoldMembers(MessageMember, pre + [t] + post, NoMessageFields).value.text == Some("")
  {
    FoldMembersAppend<ParsedFields>(MessageMember, pre + [t], post, NoMessageFields);
    FoldMembersAppend<ParsedFields>(MessageMember, pre, [t], NoMessageFields);
    match FoldMembers<ParsedFields>(MessageMember, pre, NoMessageFields)
    case Err(_) =>
    case Ok(mid) =>
      FoldMembersSingle<ParsedFields>(MessageMember, t, mid);
      assert MessageMember(t, mid) == Ok(mid.(text := Some("")));
      forall m, a: ParsedFields | m in post && MessageMember(m, a).Ok?
        ensures MessageMember(m, a).value.text == a.text
      {
      }
      FoldKeeps<ParsedFields, Option<string>>(MessageMember, post, mid.(text := Some("")), (f: ParsedFields) => f.text);
  }
}
