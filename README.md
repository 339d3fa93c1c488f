# Notification model codecs in Dafny

This project models the document-codec layer of the notification model objects
in OpenSearch common-utils, together with the paginated search-result container
built on it. The models follow the Kotlin sources and their tests.

- **XContent helpers** (`xcontent_helpers.dfy`). A content parser is a cursor
  (`Parser`) over a sequence of document tokens. `nextToken` moves it forward one
  token. `stringList` and `objectList` are `while` loops over that cursor. Each
  loop is proved against a recursive specification function (`StringListOf`,
  `ObjectListOf`), and lemmas then state what those functions compute. A
  builder (`Builder`) is an output token sequence; `fieldIfNotNull` and
  `objectIfNotNull` are methods that append to it.
- **Document tokens and trees** (`xcontent.dfy`, `object_fields.dfy`).
  - `xcontent.dfy` holds the tokens, the scalar accessors (`text()`,
    `textOrNull()`, and `booleanValue()` and `longValue()` without string
    coercion) and `skipChildren`.
  - A well-formed document value is a `Json` tree, and `Render` gives its
    tokens.
  - The field loop every model object uses lives in `object_fields.dfy`. It is
    `ParseObject` on tokens and `DecodeObject` on trees.
  - `ParseObjectRendered` proves that reading a tree's tokens gives what
    decoding the tree gives. Statements about documents are therefore proved on
    trees and carried over to tokens.
- **Binary form** (`stream.dfy`). A stream is a sequence of primitives: string,
  boolean, long, and a variable-length int for counts and enum ordinals. There
  are readers for optional values (a presence flag first) and count-prefixed
  lists, and each has a read-after-write lemma.
- **ChannelMessage and Attachment** (`channel_message.dfy`). This file holds:
  - their validation;
  - their binary and document codecs;
  - the round trips;
  - the behaviour the tests fix: unknown fields are skipped, missing optional
    fields are null, and an absent or empty text is rejected.
- **GetPluginFeaturesRequest** (`plugin_features.dfy`). Its only state is
  `compact`, false by default. The file has its binary and document codecs and
  their round trips. Input that is not an object is rejected, and an object
  holding only unknown members parses to the default request.
- **NotificationConfigSearchResult** (`config_search_result.dfy`). It has one
  function per constructor:
  - single item;
  - list;
  - all-param;
  - stream;
  - parser;
  - search response.

  The item type is a type parameter whose document parser and stream reader are
  passed in as functions. The file proves:
  - the whole-collection defaults of the list constructor, and that a document
    holding only the list gives the same defaults;
  - the binary and document round trips;
  - that a document without the list is rejected;
  - that parsing the tokens of any well-formed value gives what the tree
    decode `DecodeResult` gives;
  - that the search-response path fails as a whole when any hit fails.

Kotlin exceptions become `Err` values of three kinds:
- `ParseError`: a token of the wrong kind;
- `IllegalArgument`: a required field that is missing or empty;
- `StreamCorruption`: a binary stream that is short or has the wrong shape.

## Model

| member | source | states |
|---|---|---|
| `XContentHelpers.ContentParserNextToken` | src/main/kotlin/org/opensearch/commons/utils/XContentHelpers.kt:46-50 | the returned parser is over the request body and has been advanced exactly once, so its current token is the body's first token (none for an empty body) |
| `XContentHelpers.Parser.NextToken` | src/main/kotlin/org/opensearch/commons/utils/XContentHelpers.kt:55 | advances the cursor by exactly one token (it stays put once past the end) and returns the new current token |
| `XContentHelpers.Parser.CurrentToken` | src/main/kotlin/org/opensearch/commons/utils/XContentHelpers.kt:54 | there is a current token exactly when the cursor is inside the stream, and it is the token at the cursor |
| `XContentHelpers.Parser.StringList` | src/main/kotlin/org/opensearch/commons/utils/XContentHelpers.kt:52-59 | the loop returns what `StringListOf` specifies, success or error, and on success leaves the cursor on the closing token |
| `XContentHelpers.StringListOf` | src/main/kotlin/org/opensearch/commons/utils/XContentHelpers.kt:54 | fails with "expected START_ARRAY" unless the current token starts an array; on success the result ends on an end-of-array token |
| `XContentHelpers.StringListExactly` | src/main/kotlin/org/opensearch/commons/utils/XContentHelpers.kt:55-58 | succeeds with `xs` if and only if the array closes at `j` and `xs` is the text of every token in between, in order; an empty array gives the empty list |
| `XContentHelpers.StringListReadsStrings` | src/main/kotlin/org/opensearch/commons/utils/XContentHelpers.kt:52-59 | an array of string tokens reads back as exactly those strings |
| `XContentHelpers.Parser.ObjectList` | src/main/kotlin/org/opensearch/commons/utils/XContentHelpers.kt:76-83 | the loop returns what `ObjectListOf` specifies, success or error, and on success leaves the cursor on the closing token |
| `XContentHelpers.ObjectListOf` | src/main/kotlin/org/opensearch/commons/utils/XContentHelpers.kt:78 | fails with "expected START_ARRAY" unless the current token starts an array |
| `XContentHelpers.ObjectListCollects` | src/main/kotlin/org/opensearch/commons/utils/XContentHelpers.kt:79-82 | `block` is called once per element, each call starting just after the previous element, and the result is exactly those items in order |
| `XContentHelpers.ObjectListFails` | src/main/kotlin/org/opensearch/commons/utils/XContentHelpers.kt:76-83 | when `block` fails on an element, the whole list fails with that error and no partial list is returned |
| `XContentHelpers.ObjectListReadsEncoding` | src/main/kotlin/org/opensearch/commons/utils/XContentHelpers.kt:76-83 | an array of item encodings that `block` reads back gives back the original items, stopping on the closing token |
| `XContentHelpers.OptionalField` | src/main/kotlin/org/opensearch/commons/utils/XContentHelpers.kt:61-66 | nothing is written for null; otherwise exactly one named field with that value |
| `XContentHelpers.OptionalObject` | src/main/kotlin/org/opensearch/commons/utils/XContentHelpers.kt:68-74 | nothing is written for null; otherwise the field name immediately followed by the object's own content |
| `XContentHelpers.Builder.FieldIfNotNull` | src/main/kotlin/org/opensearch/commons/utils/XContentHelpers.kt:61-66 | appends `OptionalField` to the output (nothing for null) and returns the same builder |
| `XContentHelpers.Builder.ObjectIfNotNull` | src/main/kotlin/org/opensearch/commons/utils/XContentHelpers.kt:68-74 | appends `OptionalObject` to the output (nothing for null) and returns the same builder |
| `XContent.SkipChildrenSkipsValue` | src/test/kotlin/org/opensearch/commons/notifications/model/ChannelMessageTests.kt:96-98 | on the first token of any well-formed value (string, array, nested object), `skipChildren` leaves the cursor on that value's last token |
| `ObjectFields.ParseObjectRendered` | src/test/kotlin/org/opensearch/commons/notifications/model/ChannelMessageTests.kt:74-103 | the token-level field loop over any rendered value gives what the tree decode gives and stops on the value's last token; a non-object is rejected |
| `ObjectFields.IgnoredMembersDropOut` | src/test/kotlin/org/opensearch/commons/notifications/model/ChannelMessageTests.kt:74-103 | members the decode ignores can be inserted anywhere without changing the outcome, success or failure |
| `ChannelMessages.NewAttachment` | src/test/kotlin/org/opensearch/commons/notifications/model/ChannelMessageTests.kt:40-45 | construction succeeds exactly when file name, encoding and data are non-empty; otherwise it fails naming the first empty field |
| `ChannelMessages.NewChannelMessage` | src/test/kotlin/org/opensearch/commons/notifications/model/ChannelMessageTests.kt:167-183 | construction succeeds exactly when the text is non-empty; otherwise it fails with an illegal argument naming `text_description` |
| `ChannelMessages.ReadAttachmentWrite` | src/test/kotlin/org/opensearch/commons/notifications/model/ChannelMessageTests.kt:39-53 | a valid attachment, with or without content type, reads back as written from wherever it stands in a stream |
| `ChannelMessages.ReadMessageWrite` | src/test/kotlin/org/opensearch/commons/notifications/model/ChannelMessageTests.kt:39-53 | a valid message, with or without html and attachment, reads back as written |
| `ChannelMessages.ParseAttachmentEncoding` | src/test/kotlin/org/opensearch/commons/notifications/model/ChannelMessageTests.kt:57-62 | a valid attachment parses back from its document wherever that stands in a token stream |
| `ChannelMessages.ParseMessageEncoding` | src/test/kotlin/org/opensearch/commons/notifications/model/ChannelMessageTests.kt:56-71 | a valid message parses back from its document, both inside a token stream and as a document of its own |
| `ChannelMessages.ParseMessage` | src/test/kotlin/org/opensearch/commons/notifications/model/ChannelMessageTests.kt:69 | a parsed message is valid and ends on an end-of-object token; a non-object is rejected |
| `ChannelMessages.ParseMessageRendered` | src/test/kotlin/org/opensearch/commons/notifications/model/ChannelMessageTests.kt:86-101 | parsing the tokens of any well-formed value as a message gives what decoding its tree gives |
| `ChannelMessages.ExtraFieldsIgnored` | src/test/kotlin/org/opensearch/commons/notifications/model/ChannelMessageTests.kt:74-103 | members with unknown names and any values, put anywhere, leave the parse unchanged |
| `ChannelMessages.ExtraFieldsRoundTrip` | src/test/kotlin/org/opensearch/commons/notifications/model/ChannelMessageTests.kt:86-102 | a valid message's document followed by unknown members parses back to the message |
| `ChannelMessages.MissingHtmlIsNone` | src/test/kotlin/org/opensearch/commons/notifications/model/ChannelMessageTests.kt:106-131 | a document without `html_description` parses, when it parses, to a message whose html is null |
| `ChannelMessages.MissingAttachmentIsNone` | src/test/kotlin/org/opensearch/commons/notifications/model/ChannelMessageTests.kt:134-148 | a document without `attachment` parses, when it parses, to a message whose attachment is null |
| `ChannelMessages.TextOnlyDocument` | src/test/kotlin/org/opensearch/commons/notifications/model/ChannelMessageTests.kt:151-164 | a document with only a non-empty text parses to that text with html and attachment null; an empty text is an illegal argument |
| `ChannelMessages.BuildMessage` | src/test/kotlin/org/opensearch/commons/notifications/model/ChannelMessageTests.kt:186-201 | after the field loop a missing text is an illegal argument naming `text_description`, and a built message is valid |
| `ChannelMessages.EmptyTextRejected` | src/test/kotlin/org/opensearch/commons/notifications/model/ChannelMessageTests.kt:167-183 | a document whose last text member is empty never parses, whatever members come before it and wherever that member stands; when the members read cleanly the error is an illegal argument naming the text field |
| `ChannelMessages.AbsentTextRejected` | src/test/kotlin/org/opensearch/commons/notifications/model/ChannelMessageTests.kt:186-201 | a document without a text never parses; when its other members read cleanly the error is an illegal argument naming the text field |
| `PluginFeatures.ReadRequest` | src/test/kotlin/org/opensearch/commons/notifications/action/GetPluginFeaturesRequestTests.kt:49 | the stream constructor succeeds exactly on a boolean primitive, and then gives the request whose `compact` is that boolean and moves past it; an empty stream is corruption |
| `PluginFeatures.ReadRequestWrite` | src/test/kotlin/org/opensearch/commons/notifications/action/GetPluginFeaturesRequestTests.kt:47-51 | any request, the default among them, reads back from its binary form with `compact` preserved |
| `PluginFeatures.ParseRequestEncoding` | src/test/kotlin/org/opensearch/commons/notifications/action/GetPluginFeaturesRequestTests.kt:54-59 | any request, the default among them, parses back from its document, inside a token stream or on its own |
| `PluginFeatures.ParseRequest` | src/test/kotlin/org/opensearch/commons/notifications/action/GetPluginFeaturesRequestTests.kt:62-67 | anything whose current token is not a start-of-object is rejected with a parse error; a success ends on an end-of-object token |
| `PluginFeatures.NotAnObjectRejected` | src/test/kotlin/org/opensearch/commons/notifications/action/GetPluginFeaturesRequestTests.kt:62-67 | a document that is empty or does not start an object, such as a bare string, is a parse error and never a default request |
| `PluginFeatures.UnknownMembersGiveDefault` | src/test/kotlin/org/opensearch/commons/notifications/action/GetPluginFeaturesRequestTests.kt:70-81 | an object whose members are all unknown (arrays, nested objects or strings) parses to the default request |
| `PluginFeatures.UnknownMembersIgnored` | src/test/kotlin/org/opensearch/commons/notifications/action/GetPluginFeaturesRequestTests.kt:72-78 | unknown members can be added anywhere in a request document without changing the parse |
| `ConfigSearchResult.FromItem` | src/main/kotlin/org/opensearch/commons/notifications/model/NotificationConfigSearchResult.kt:44 | a single item becomes a one-item list under the `config_list` tag; the whole-collection values (start 0, total equal to the item count, EQUAL_TO) are the ones the model gives the base class's single-item constructor |
| `ConfigSearchResult.FromList` | src/main/kotlin/org/opensearch/commons/notifications/model/NotificationConfigSearchResult.kt:49-54 | start index 0, total hits equal to the list's size, relation EQUAL_TO, and the list unchanged under `config_list` |
| `ConfigSearchResult.FromListIsWholeCollection` | src/main/kotlin/org/opensearch/commons/notifications/model/NotificationConfigSearchResult.kt:49-54 | the list constructor is the all-param constructor given the whole-collection values, so its total equals its item count |
| `ConfigSearchResult.AllParams` | src/main/kotlin/org/opensearch/commons/notifications/model/NotificationConfigSearchResult.kt:59-64 | start index, total, relation and list pass through unchanged, with no derived defaults, under `config_list` |
| `ConfigSearchResult.ReadResult` | src/main/kotlin/org/opensearch/commons/notifications/model/NotificationConfigSearchResult.kt:70 | the stream constructor succeeds only on start and total as longs, a relation ordinal, a tag and an item count, in that order, and takes start, total, tag and the item count from them, and the relation whose ordinal (0 for EQUAL_TO, 1 for GREATER_THAN_OR_EQUAL_TO) is the third; an empty stream is end of stream; the full read-back is `ReadResultWrite` |
| `ConfigSearchResult.ReadResultWrite` | src/main/kotlin/org/opensearch/commons/notifications/model/NotificationConfigSearchResult.kt:70 | a result whose items the item reader reads back is read back whole by the stream constructor |
| `Stream.ReadListWrite` | src/main/kotlin/org/opensearch/commons/notifications/model/NotificationConfigSearchResult.kt:70 | a count-prefixed list whose elements each read back as written reads back whole |
| `ConfigSearchResult.ParseResult` | src/main/kotlin/org/opensearch/commons/notifications/model/NotificationConfigSearchResult.kt:75 | the parser constructor always uses the `config_list` tag, rejects a non-object and ends a success on an end-of-object token |
| `ConfigSearchResult.BuildResult` | src/main/kotlin/org/opensearch/commons/notifications/model/NotificationConfigSearchResult.kt:75 | after the field loop an absent `config_list` is an illegal argument naming `config_list`; otherwise an absent total is the number of items read and an absent relation is EQUAL_TO |
| `ConfigSearchResult.ParseResultRendered` | src/main/kotlin/org/opensearch/commons/notifications/model/NotificationConfigSearchResult.kt:75 | when the item parser reads every rendered value as the item decode does, the parser constructor reads the tokens of any well-formed value as the tree decode `DecodeResult` does, success or error, and stops on the value's last token |
| `ConfigSearchResult.AbsentListRejected` | src/main/kotlin/org/opensearch/commons/notifications/model/NotificationConfigSearchResult.kt:75 | a result document without a `config_list` member never parses, whatever the item parser; when its other members read cleanly the error is an illegal argument naming `config_list` |
| `ConfigSearchResult.ResultDocumentRoundTrip` | src/main/kotlin/org/opensearch/commons/notifications/model/NotificationConfigSearchResult.kt:75 | a `config_list` result whose items the item parser reads back parses back to itself from its document |
| `ConfigSearchResult.ListOnlyDocumentDefaults` | src/main/kotlin/org/opensearch/commons/notifications/model/NotificationConfigSearchResult.kt:75 | a document holding only the item array parses to what the list constructor builds from those items |
| `ConfigSearchResult.ParseResultEncoding` | src/main/kotlin/org/opensearch/commons/notifications/model/NotificationConfigSearchResult.kt:90-92 | the list elements are read with the item type's parser, and the whole result parses back wherever its document stands |
| `ConfigSearchResult.FromSearchResponse` | src/main/kotlin/org/opensearch/commons/notifications/model/NotificationConfigSearchResult.kt:80-85 | succeeds exactly when every hit parses; it then has the caller's offset, the response's total and relation, `config_list`, and item k is hit k parsed |
| `ConfigSearchResult.FromSearchResponseFails` | src/main/kotlin/org/opensearch/commons/notifications/model/NotificationConfigSearchResult.kt:80-85 | when hit k is the first that fails, the whole construction fails with that hit's error: no partial result |
| `ConfigSearchResult.ParseHits` | src/main/kotlin/org/opensearch/commons/notifications/model/NotificationConfigSearchResult.kt:83 | the hits map to items in order, and the map succeeds exactly when every hit parses |

## Left out

- The JSON lexer and the byte layout of `StreamInput`/`StreamOutput` are not modelled.
  - A document is a sequence of lexed tokens, and a binary stream is a sequence of primitives.
  - Input such as the bare text `sample message` is modelled as a stream whose first token is not a start-of-object. The lexer's `JsonParseException` becomes a `ParseError`.
- `createJsonParser` (XContentHelpers.kt:41-44) is a wrapper over the JSON factory and is not modelled.
- ContentParserNextToken takes the request body's tokens as a parameter. `RestRequest` is not part of this model.
- Parser.NextToken models Jackson's `nextToken`, which returns null at the end of input. The loops treat that null as a parse error, because no end-of-array token was seen.
- Numbers are integers. Floating-point tokens are not modelled, and `text()` on a number is its decimal digits.
- TokenBoolean: accepts only a boolean token. The coercion of the string tokens `"true"` and `"false"` that XContent's `booleanValue()` performs is not modelled. So `{"compact":"true"}` is a parse error in the model, although the program reads it as `compact = true`.
- TokenLong: accepts only a number token. The coercion of numeric strings that XContent's `longValue()` performs by default is not modelled. So a string such as `"3"` for `start_index` or `total_hits` is a parse error in the model, although the program accepts it.
- The `SearchResults` base class is not part of this model. The model gives it this behaviour:
  - the stream order is start index, total, relation ordinal, tag, items;
  - the document field names are `start_index`, `total_hits` and `total_hit_relation`, and the relation text is `eq`/`gte`;
  - an unknown relation text is a parse error;
  - the list field is required: a document without it is an illegal argument naming `config_list`;
  - the parse defaults are start 0, total equal to the item count, and EQUAL_TO;
  - a repeated list field replaces the earlier one.
- FromItem: line 44 passes only the tag and the item to the `SearchResults` single-item constructor, which is not part of this model. The start 0, total 1 and EQUAL_TO that `FromItem` ensures are assumed of that constructor, as the whole-collection case.
- The relation `items <= totalHits` belongs to the base class and is neither stated nor enforced.
- `SearchResponse`, Lucene `TotalHits` and `SearchHit` are reduced to a total, a relation, and a sequence of opaque hit records. The caller's hit parser turns each record into an item.
- `NotificationConfigInfo` is not part of this model. The item type is a parameter. Its document parser (`parseItem`, lines 90-92) and its stream reader are function parameters.
- BuildResult: a list of more than `Int.MAX_VALUE` items cannot exist as a JVM list, so the model reports it as a parse error.
- The `ChannelMessage`, `Attachment` and `GetPluginFeaturesRequest` implementations are not part of this model. Their tests fix the behaviour, and the model adds these details:
  - the binary field orders;
  - the presence flags;
  - the attachment's required non-empty file name, encoding and data;
  - the request's single boolean field `compact`.
- MissingHtmlIsNone, MissingAttachmentIsNone: these speak about any document without the member ("when it parses"). That the test's exact document parses to the exact message follows from `ParseMessageEncoding`, because that document is the message's own encoding.
- A repeated field name is handled last write wins by the field loop, and no lemma states this.
- The log line written when an unknown field is skipped is not modelled.
