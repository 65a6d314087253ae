# LaunchDarkly C++ SDK, modelled and verified

A Dafny model of the parts of the LaunchDarkly C++ SDKs that carry the most logic, with proofs over every input,
every run or every reachable state. `dafny verify dfyconfig.toml` checks the whole project.

| component | modules |
|---|---|
| attribute references and values | `AttributeReferences`, `Values`, `JsonValues`, `ValueJson` |
| contexts, their builders and their JSON | `Contexts`, `ContextJson`, `ContextRoundTrips`, `ContextReadings` |
| redaction of private attributes | `Redactions`, `RedactedDocuments`, `ContextFilters` |
| server-sent events and reconnection delays | `SseLines`, `SseReader`, `Backoffs` |
| flag store, change events and persisted flags | `FlagUpdaters`, `ContextIndexes`, `FlagPersistences`, `FlagManagers`, `Base64Url`, `Recency` |
| FDv2 protocol | `Fdv2Protocol` |
| flag evaluation and rollouts | `Evaluations`, `Bucketing` |
| event pipeline | `Summaries`, `RequestWorkers`, `EventPipelines`, `Deliveries`, `EventProcessors`, `LruCaches` |

Objects that the SDK updates in place are classes, its loops are methods with invariants, and each method is proved
against a function or relation about which the lemmas then speak. Maps and sets that the SDK visits in some order are
visited in an arbitrary one, so the contracts hold for every order. Names that only need equality have an arbitrary
type in the modules that never look inside them.

## Behaviour worth knowing

Where the code and its comments or documentation differ, the model follows the code. What stands out:

- A comment in the context filter says an item in an array cannot be private. Members of objects in arrays are still
  matched, by a path that starts again at the array element (`Redactions.ArrayElementsStartAgain`).
- `SetPrivate` is documented to take an attribute name, but reads it as a reference. `Contexts.PrivateByName` says for
  which names the two agree and `Contexts.SetPrivateSlashName` shows one for which they do not.
- The line splitter of the event reader drops an LF that comes anywhere after a CR, not only directly after it.
  `SseLines.SplitsAsStandard` gives the streams on which this does not show, and `SseLines.SplitsErased` what it does to the
  others.
- The delay can stay below the configured maximum for ever (`Backoffs.PlateauIsMaximum`).
- An `Init` of an empty store sends no change events (`FlagUpdaters.MirrorStep`).
- Text that passes through C strings is cut at the first NUL: nested member names, string values in filtered contexts,
  and components that need escaping. The round-trip lemmas say exactly when this loses something.

## Model

| member | source | states |
|---|---|---|
| `AttributeReferences.ParseRef` | libs/common/src/attribute_reference.cpp:111-149 | The single pass over a string and a closing NUL is valid exactly when the recursive reading `Components` of the string exists, and gives the same components |
| `AttributeReferences.EscapeLiteral` | libs/common/src/attribute_reference.cpp:157-170 | Appends the escape of every character in order, after a slash when asked for one |
| `AttributeReferences.PathToStringReference` | libs/common/src/attribute_reference.cpp:235-264 | Prints a path as `PathReference` defines it: components joined by slashes, and escaped through a C string only when one holds a slash or a tilde |
| `AttributeReferences.MakeReference` | libs/common/src/attribute_reference.cpp:172-202 | The constructor gives the literal or the parsed reference; empty strings and strings that do not parse give invalid references without components |
| `AttributeReferences.PrintThenParse` | libs/common/src/attribute_reference.cpp:37-149 | For every non-empty path of non-empty NUL-free components, parsing its printed form gives the path back |
| `AttributeReferences.ParseThenPrint` | libs/common/src/attribute_reference.cpp:111-264 | A slash reference that parses has non-empty NUL-free components, and prints back to itself if and only if it is NUL-free |
| `AttributeReferences.ValidSlashReference` | libs/common/src/attribute_reference.cpp:37-149 | A NUL-free slash reference is valid if and only if some path prints to it |
| `AttributeReferences.LiteralRedactionName` | libs/common/src/attribute_reference.cpp:172-194 | The redaction name of a non-empty literal parses back to that one component if and only if the literal is NUL-free |
| `AttributeReferences.PathIsReferredTo` | libs/common/src/attribute_reference.cpp:172-202 | The printed form of every path is a valid reference whose components are the path |
| `AttributeReferences.ValidReferences` | libs/common/src/attribute_reference.cpp:37-202 | Which NUL-free strings are valid references: not the empty one; every plain name, to itself; a slash string if and only if some path prints to it |
| `AttributeReferences.CutAtFirstNul` | libs/common/src/attribute_reference.cpp:257-259 | What passes through a C string loses the first NUL and what follows it, and nothing else |
| `ValueJson.WriteValue` | libs/common/src/serialization/json_value.cpp:77-107 | Every value is written as `Writes` relates it to JSON: arrays element by element, object members under their names cut at the first NUL |
| `ValueJson.ReadValue` | libs/common/src/serialization/json_value.cpp:14-75 | Every document is read as `Reads` relates it to a value; reading never fails |
| `ValueJson.RoundTrip` | libs/common/src/serialization/json_value.cpp:14-107 | Whatever order members are visited in, reading what was written gives the value back if and only if no member name at any depth is cut |
| `Contexts.AttributesBuilder.Set` | libs/common/src/attributes_builder.cpp:81-122 | The draft becomes `AfterSet` of the old one; custom attributes never take a reserved name and private references stay well made |
| `Contexts.AttributesBuilder.SetName` | libs/common/src/attributes_builder.cpp:11-14 | Only the name of the draft changes |
| `Contexts.AttributesBuilder.SetAnonymous` | libs/common/src/attributes_builder.cpp:18-21 | Only the anonymous flag of the draft changes |
| `Contexts.AttributesBuilder.AddPrivateAttribute` | libs/common/src/attributes_builder.cpp:126-130 | Adds the reference unless one with the same components is there; nothing else changes |
| `Contexts.SetThenGet` | libs/common/src/attributes_builder.cpp:79-107 | After setting a name, every valid reference that starts with it finds the part of the new value it leads to, when the name may be set to that value; every other reference finds what it did before |
| `Contexts.SetMarksPrivate` | libs/common/src/attributes_builder.cpp:103-105 | Setting as private adds exactly what the name refers to, when the name may be set to that value; nothing stops being private |
| `Contexts.PrivateByName` | libs/common/src/attributes_builder.cpp:103-105 | The name given to SetPrivate, which is read as a reference, marks the attribute of that name if and only if it is not empty, does not start with a slash and is NUL-free |
| `Contexts.SetPrivateSlashName` | libs/common/src/attributes_builder.cpp:117-122 | Setting `/a` as private leaves `/a` visible and hides `a` instead |
| `Contexts.FindValue` | libs/common/include/launchdarkly/attributes.hpp:80-99 | The loop finds what walking down the object members finds, and null when the walk leaves the objects |
| `Contexts.ContextBuilder.Kind` | libs/common/src/context_builder.cpp:41-54 | Returns the one builder of a kind, new or with its key replaced; all other drafts are as they were, and no two kinds share a builder |
| `Contexts.StartedKeepsTheRest` | libs/common/src/context_builder.cpp:41-54 | Asking for a kind again replaces its key only; a new kind has an empty name, is not anonymous and holds nothing |
| `Contexts.ContextBuilder.Build` | libs/common/src/context_builder.cpp:56-102 | Builds exactly the drafts when there is one, every kind is valid and no key is empty; otherwise the context is invalid. Every context built has no reserved name among its custom attributes |
| `Contexts.KindAlphabet` | libs/common/src/context_builder.cpp:21-26 | A character may stand in a kind if and only if it is one of the 52 letters, ten digits, dot, hyphen or underscore |
| `ContextJson.WriteAttributes` | libs/internal/src/serialization/json_attributes.cpp:8-40 | Writes the key, the name when not empty, anonymous when true, every attribute that is not null, and the redaction name of every private reference |
| `ContextJson.WriteCustom` | libs/internal/src/serialization/json_attributes.cpp:24-28 | Adds exactly the attributes that are not null, each as a writing of its value, and touches no reserved member |
| `ContextJson.WriteRefs` | libs/internal/src/serialization/json_attributes.cpp:36-38 | Lists the redaction name of every reference, once for each |
| `ContextJson.WriteContext` | libs/internal/src/serialization/json_context.cpp:13-33 | A context of one kind is its attributes and the kind, one of several kinds an object of them under `kind: multi`, and an invalid one is null |
| `ContextJson.WriteKinds` | libs/internal/src/serialization/json_context.cpp:24-31 | An object with `kind: multi` and exactly one member for each kind |
| `ContextJson.ParseSingle` | libs/internal/src/serialization/json_context.cpp:35-117 | Reports exactly the first problem in the fields in the order they are looked at; without one the kind's draft becomes `Parsed` of the members and the drafts of other kinds stay |
| `ContextJson.ReadMeta` | libs/internal/src/serialization/json_context.cpp:67-101 | Reports the first problem in the metadata, and without one inserts every listed reference in order |
| `ContextJson.ReadCustom` | libs/internal/src/serialization/json_context.cpp:103-114 | Every member that is neither reserved nor null becomes a custom attribute holding a reading of it; nothing else changes |
| `ContextJson.ParseContext` | libs/internal/src/serialization/json_context.cpp:119-164 | Every document gives the error of its first problem, or the context built from the parsed kinds; with several kinds at fault the error is that of one of them |
| `ContextJson.ParseMulti` | libs/internal/src/serialization/json_context.cpp:144-158 | Without a problem in any kind, the context built from all of them; else the problem of one of them |
| `ContextReadings.DocumentParses` | libs/internal/src/serialization/json_context.cpp:119-164 | A document parses if and only if it is an object with a text kind whose one kind, or each of whose kinds, has fields of the right types |
| `ContextReadings.FieldsParse` | libs/internal/src/serialization/json_context.cpp:35-101 | The fields of a kind parse if and only if the key is text and every other field is absent, null or of its type |
| `ContextReadings.ErrorsBlame` | libs/internal/src/serialization/json_context.cpp:35-101 | Each error names a field that is at fault |
| `ContextReadings.SingleDocumentAnswers` | libs/internal/src/serialization/json_context.cpp:35-117 | Any document of one kind that gives a valid context answers its own key, its name or an empty one, its anonymity or false, a reading of each other member that is not null and null for all else; its private paths are those its listed references parse to |
| `ContextReadings.MultiDocumentAnswers` | libs/internal/src/serialization/json_context.cpp:144-158 | The same for each kind of a document of several, which are exactly the kinds of the context |
| `ContextReadings.SingleDocumentIsValid` | libs/common/src/context_builder.cpp:56-102 | A parsed document of one kind gives a valid context if and only if the kind is valid and the key is not empty |
| `ContextReadings.MultiDocumentIsValid` | libs/common/src/context_builder.cpp:56-102 | One of several kinds if and only if there is a kind and each is valid with a key that is not empty |
| `ContextRoundTrips.RefsReadBack` | libs/internal/src/serialization/json_attributes.cpp:30-39 | The references read from written redaction names are the same set if and only if all their components are NUL-free |
| `ContextRoundTrips.ContextRoundTrip` | libs/internal/src/serialization/json_context.cpp:13-164 | For every builder-made context, writing and parsing succeeds with a valid context of the same kinds, and each kind keeps its key, name, anonymity, private references and every attribute that is not null if and only if no C string cuts the text in it short |
| `ContextRoundTrips.SameAnswers` | libs/common/include/launchdarkly/attributes.hpp:56-100 | Attributes that differ only by dropped nulls answer every reference alike |
| `ContextRoundTrips.RoundTripAnswers` | libs/common/src/context.cpp:42-49 | After the round trip of a context of NUL-free text, lookup answers the same for every kind, absent ones included, and every reference |
| `Redactions.Redact` | libs/internal/src/context_filter.cpp:44-70 | Redacts a path exactly when everything is private or some valid global or local reference has that path, and records the name: the printed path, else that of the global reference, else that of the local one |
| `Redactions.FindMatch` | libs/internal/src/context_filter.cpp:52-63 | The search over a set of references finds the name of the valid one with that path, when there is one |
| `Redactions.Emplace` | libs/internal/src/context_filter.cpp:35-42 | Adds one child to a container that has no such member yet, given that no pending stack entry points inside that container |
| `Redactions.AppendContainer` | libs/internal/src/context_filter.cpp:176-185 | Adds an empty container under the same condition and returns the address where it is found |
| `Redactions.PushItems` | libs/internal/src/context_filter.cpp:126-136 | Array elements are pushed last to first, with an empty path |
| `Redactions.Drain` | libs/internal/src/context_filter.cpp:102-140 | From any stack that fits the document, the loop ends with every item in place as the recursive redactor leaves it, and every redaction met is recorded |
| `Redactions.Turn` | libs/internal/src/context_filter.cpp:102-140 | One turn of the loop keeps the finished document, the redactions met plus those pending, and the nesting of the parents on the stack, and makes the pending work smaller |
| `Redactions.Traverse` | libs/internal/src/context_filter.cpp:97-140 | The stack loop ends with the document of the recursive redactor and records each redaction name exactly as often as the recursion meets it |
| `Redactions.AttributeSurvives` | libs/internal/src/context_filter.cpp:44-140 | A path leads somewhere in the redacted attributes if and only if it does in the attributes and none of its non-empty prefixes is private; what is there is the redaction of what was there |
| `Redactions.NothingPrivateSurvives` | libs/internal/src/context_filter.cpp:44-140 | No private path leads anywhere in the redacted attributes |
| `Redactions.ArrayElementsStartAgain` | libs/internal/src/context_filter.cpp:115-136 | Members of an object inside an array are redacted by their path from the array element, whatever leads to the array |
| `Redactions.RedactedIsVisited` | libs/internal/src/context_filter.cpp:106-110 | Every attribute that is redacted, at any address with nothing redacted above it, has its name recorded |
| `Redactions.VisitedIsRedacted` | libs/internal/src/context_filter.cpp:106-110 | Every recorded name is that of some redacted attribute, at an address with nothing redacted above it |
| `RedactedDocuments.LeftAt` | libs/internal/src/context_filter.cpp:102-185 | At every address, array elements included, the redacted document has something if and only if the attributes have and nothing on the way is private; leaves are the same, strings up to their first NUL, arrays as long, objects objects |
| `RedactedDocuments.UnredactedReadsBack` | libs/internal/src/context_filter.cpp:102-174 | A value with nothing private in it and no NUL in its strings reads back as it was |
| `RedactedDocuments.RecordedName` | libs/internal/src/context_filter.cpp:44-70 | The recorded name is the printed path when everything is private, else that of the global reference to the path, else that of the context's own |
| `ContextFilters.FilterSingleContext` | libs/internal/src/context_filter.cpp:72-153 | One kind becomes its built-in members, its name unless redacted, its redacted custom attributes, and the recorded names under `_meta` when there are any |
| `ContextFilters.FilterContext` | libs/internal/src/context_filter.cpp:14-33 | A context of one kind is filtered with its kind, any other as an object of its kinds, each by its own private references |
| `ContextFilters.FilterMultiContext` | libs/internal/src/context_filter.cpp:187-201 | The output has `kind: multi` and exactly one filtered member for each kind |
| `ContextFilters.CustomSurvives` | libs/internal/src/context_filter.cpp:72-153 | A custom attribute is in the output if and only if it is in the context and nothing along its path is private |
| `ContextFilters.PrivateIs` | libs/internal/src/context_filter.cpp:44-90 | A path is private if and only if everything is, by configuration or for an anonymous context that is to be redacted, or a valid global or own reference has it |
| `ContextFilters.CustomLeftAt` | libs/internal/src/context_filter.cpp:97-185 | At every address below a custom attribute the output has something if and only if the context has and nothing on the way is private, and it is the same leaf |
| `ContextFilters.BuiltInsShown` | libs/internal/src/context_filter.cpp:81-95 | The output holds the context's own key, its kind when included, anonymous exactly when true, and the name exactly when not empty and not private |
| `ContextFilters.MetaLists` | libs/internal/src/context_filter.cpp:142-151 | The metadata lists each redaction name exactly as often as it was met, and nothing else |
| `ContextFilters.PrivateShownOnlyIfBuiltIn` | libs/internal/src/context_filter.cpp:72-153 | A private path leads somewhere in the output if and only if it is the key, an included kind, a true anonymous flag, or the metadata itself |
| `ContextFilters.RecordedSome` | libs/internal/src/context_filter.cpp:142-151 | Names are listed, and so `_meta` is there, if and only if something was redacted |
| `SseReader.Reader.ParseStream` | libs/server-sent-events/src/parser.hpp:165-188 | The chunk-wise loop leaves the buffered line, the complete lines and the carriage-return flag as feeding the bytes one at a time does |
| `SseReader.Reader.CompleteLine` | libs/server-sent-events/src/parser.hpp:142-147 | Moves the buffered line, when there is one, to the complete lines |
| `SseReader.Reader.AppendUpTo` | libs/server-sent-events/src/parser.hpp:152-163 | Moves the text up to the first line break, and no further, into the buffered line |
| `SseReader.Reader.ParseEvents` | libs/server-sent-events/src/parser.hpp:212-269 | The complete lines are consumed and the open event, the last event id and the deliveries become those of processing the lines in order |
| `SseReader.Reader.PutChunk` | libs/server-sent-events/src/parser.hpp:127-130 | One put is feeding and then processing |
| `SseReader.ChunkingDoesNotMatter` | libs/server-sent-events/src/parser.hpp:127-269 | For every stream and every way to cut it, the deliveries, partial line, open event and last event id are those of one put of the whole stream |
| `SseReader.WriteThenRead` | libs/server-sent-events/src/parser.hpp:152-269 | Any writable events, each field with or without the space after its colon, with comments anywhere, any mix of LF and CRLF and any cuts, are delivered back unchanged and in order, each comment in its place |
| `SseReader.FieldOf` | libs/server-sent-events/src/parser.hpp:190-210 | One space after the colon is not part of the value; without it the value is all that follows, for every name and value |
| `SseReader.BareFieldOrComment` | libs/server-sent-events/src/parser.hpp:195-201 | A line without a colon is a field without a value, and one that starts with a colon is a comment holding the rest |
| `SseReader.CommentByName` | libs/server-sent-events/src/parser.hpp:229-233 | A field named comment is delivered as a comment |
| `SseReader.LinesDo` | libs/server-sent-events/src/parser.hpp:190-256 | However its fields are spelled, a stream does what its items do |
| `SseReader.BlockDelivers` | libs/server-sent-events/src/parser.hpp:220-264 | Any block of fields ended by a blank line delivers exactly one event: the last type or message, the data values joined by line feeds, the last id without a NUL or the one carried; fields of other names add nothing; a blank line without fields delivers nothing |
| `SseReader.CommentsInPlace` | libs/server-sent-events/src/parser.hpp:229-233 | Comments anywhere are delivered where they stand and change nothing else |
| `SseReader.StreamIsSpellable` | libs/server-sent-events/src/parser.hpp:190-210 | The items of writable events can always be put on the wire |
| `SseReader.NoComments` | libs/server-sent-events/src/parser.hpp:152-269 | Without comments, what is delivered back is exactly the events |
| `SseLines.FeedWritten` | libs/server-sent-events/src/parser.hpp:152-188 | Lines without line breaks, written with any mix of LF and CRLF, are read back one for one |
| `SseLines.SplitsAsStandard` | libs/server-sent-events/src/parser.hpp:165-188 | The line splitting of section 9.2.5 of the WHATWG HTML Living Standard is met if and only if the stream has no LF whose nearest earlier line break is a CR it does not directly follow |
| `SseLines.SplitsErased` | libs/server-sent-events/src/parser.hpp:165-188 | Every stream is split as the standard splits it once the LFs that come after a CR, but not directly, are taken out |
| `SseLines.DetachedLineFeedIsSwallowed` | libs/server-sent-events/src/parser.hpp:165-188 | A stream on which two lines of the standard are joined into one |
| `Base64Url.GetBits` | libs/internal/src/encoding/base_64.cpp:29-47 | The six bits from any bit position, zero beyond the input |
| `Base64Url.Base64UrlEncode` | libs/internal/src/encoding/base_64.cpp:49-79 | The bit-indexed loop gives the padded base64url encoding of section 5 of RFC 4648 for every byte string |
| `Base64Url.EncodesAsRfc4648` | libs/internal/src/encoding/base_64.cpp:29-79 | The characters read bit by bit, with padding, are the encoding by groups of three bytes |
| `Base64Url.DecodeEncode` | libs/internal/src/encoding/base_64.cpp:49-79 | A decoder recovers every input from its encoding |
| `Base64Url.EncodingLength` | libs/internal/src/encoding/base_64.cpp:49-79 | The encoding of n bytes has 4 * ceil(n / 3) characters |
| `Base64Url.EncodingAlphabet` | libs/internal/src/encoding/base_64.cpp:49-79 | Only characters of the alphabet and padding occur |
| `Base64Url.EncodingIsInjective` | libs/internal/src/encoding/base_64.cpp:49-79 | Different inputs have different encodings |
| `Backoffs.Backoff.ReportFailure` | libs/server-sent-events/src/backoff.cpp:14-34 | The attempts and the success time become those of applying a failure: reset only after a connection that lasted longer than the reset interval, then one more attempt |
| `Backoffs.Backoff.ReportSuccess` | libs/server-sent-events/src/backoff.cpp:36-38 | Records the time of the success and nothing else |
| `Backoffs.Backoff.Delay` | libs/server-sent-events/src/backoff_detail.cpp:7-34 | The delay is the jittered, capped power-of-two backoff of the current attempt |
| `Backoffs.CappedProduct` | libs/server-sent-events/src/backoff.cpp:40-58 | For 1 <= initial <= max, initial times two to the capped exponent stays below 2 * max and above max - initial |
| `Backoffs.BaseIsMonotone` | libs/server-sent-events/src/backoff_detail.cpp:7-14 | More attempts never shorten the delay before jitter, which never exceeds the maximum |
| `Backoffs.Plateau` | libs/server-sent-events/src/backoff_detail.cpp:7-14 | Beyond the capped exponent the delay before jitter is one value, above half the maximum |
| `Backoffs.PlateauIsMaximum` | libs/server-sent-events/src/backoff.cpp:40-58 | That value is the configured maximum if and only if the integer quotient of maximum and initial delay is not an inexact power of two |
| `Backoffs.PlateauBelowMaximum` | libs/server-sent-events/src/backoff.cpp:40-58 | With an initial delay of two and a maximum of three the delay never leaves two |
| `Backoffs.DelayAfterAnyRun` | libs/server-sent-events/src/backoff.cpp:9-58 | After any run of failures and successes the attempt is at least 1, the base lies between the initial delay and the maximum, and the delay between the floor of (1 - ratio) * base and base |
| `Backoffs.JitterIs` | libs/server-sent-events/src/backoff_detail.cpp:16-23 | The delay is (1 - jitter) * base truncated to a whole number |
| `Backoffs.BaseDoubles` | libs/server-sent-events/src/backoff_detail.cpp:7-14 | The delay before jitter starts at the initial delay and doubles with every attempt up to the capped exponent, within the maximum |
| `Backoffs.AttemptsCountFailures` | libs/server-sent-events/src/backoff.cpp:14-38 | After any run the attempt is one more than the failures since the last one that followed a success directly by more than the reset interval |
| `LruCaches.LruCache.Notice` | libs/internal/src/events/lru_cache.cpp:7-21 | Answers whether the value was there, moves or puts it in front and evicts the last beyond capacity; keys and list stay equal and duplicate-free |
| `LruCaches.LruCache.Clear` | libs/internal/src/events/lru_cache.cpp:23-26 | Forgets every value |
| `LruCaches.HoldsMostRecent` | libs/internal/src/events/lru_cache.cpp:7-21 | After every run the list is exactly the most recently noticed distinct values, latest first, as many as fit |
| `LruCaches.HitsExactlyMostRecent` | libs/internal/src/events/lru_cache.cpp:7-21 | A notice hits if and only if fewer than capacity other distinct values were noticed since the last notice of the value |
| `LruCaches.LargerCacheHitsMore` | libs/internal/src/events/lru_cache.cpp:7-21 | On the same run a larger cache hits whenever a smaller one does |
| `ContextIndexes.ContextIndex.Notice` | libs/client-sdk/src/flag_manager/context_index.cpp:14-24 | Updates the timestamp of a known id in place, else appends an entry |
| `ContextIndexes.ContextIndex.Prune` | libs/client-sdk/src/flag_manager/context_index.cpp:26-49 | Sorts and drops the oldest entries beyond the limit, returning their ids, and does nothing below the limit |
| `ContextIndexes.NoticedRepresents` | libs/client-sdk/src/flag_manager/context_index.cpp:14-24 | An index that stands for a recency order stands, after a notice with a later time, for the order with that id moved to the front |
| `ContextIndexes.PruneRepresents` | libs/client-sdk/src/flag_manager/context_index.cpp:26-49 | Pruning keeps exactly the front of that order and returns exactly the rest |
| `ContextIndexes.IndexRoundTrip` | libs/client-sdk/src/flag_manager/context_index.cpp:55-103 | Reading a written index gives the index back |
| `ContextIndexes.WriteIndex` | libs/client-sdk/src/flag_manager/context_index.cpp:55-73 | Writes the entries in order, with id and timestamp |
| `ContextIndexes.ReadIndex` | libs/client-sdk/src/flag_manager/context_index.cpp:75-103 | Reads the well-formed entries of any document in order and skips the others |
| `ContextIndexes.EntriesAppend` | libs/client-sdk/src/flag_manager/context_index.cpp:83-99 | A document is read entry by entry, in order |
| `ContextIndexes.OneEntry` | libs/client-sdk/src/flag_manager/context_index.cpp:84-98 | An object with a text id and a numeric timestamp is an entry, whatever else it holds, and nothing else is |
| `FlagPersistences.FlagPersistence.StoreCache` | libs/client-sdk/src/flag_manager/flag_persistence.cpp:94-113 | The persisted map becomes `Store` of the old one: pruned ids removed, then the index, then the flags of the context |
| `FlagPersistences.FlagPersistence.GetIndex` | libs/client-sdk/src/flag_manager/flag_persistence.cpp:115-134 | The stored index, or an empty one when none is stored |
| `FlagPersistences.StoresMostRecentContexts` | libs/client-sdk/src/flag_manager/flag_persistence.cpp:94-134 | After every run with increasing times and a limit of at least 1, an id has an entry if and only if it is among the most recently used up to the limit, the stored index lists the same ids, and each entry holds the flags last stored for it |
| `FlagPersistences.ContextIdIsNotIndexKey` | libs/client-sdk/src/flag_manager/flag_persistence.cpp:14-19 | The encoding of a 32-byte digest never is the key of the index |
| `FlagManagers.FlagManager.Init` | libs/client-sdk/src/flag_manager/flag_persistence.cpp:41-46 | The object keeps, over every run, the store and the persisted map that its updates so far determine |
| `FlagManagers.FlagManager.Upsert` | libs/client-sdk/src/flag_manager/flag_persistence.cpp:48-53 | The same for an upsert, applied or ignored |
| `FlagManagers.HoldsStoreOfLastUpdate` | libs/client-sdk/src/flag_manager/flag_persistence.cpp:41-113 | After every run of Init and Upsert, a context that was used has an entry if and only if it is among the most recently used, and the entry is the flag store as it was right after the last update for that context |
| `FlagUpdaters.FlagUpdater.InitFlags` | libs/client-sdk/src/flag_manager/flag_updater.cpp:20-73 | Replaces the store; each listener hears the one change of its flag, or nothing when there is none |
| `FlagUpdaters.FlagUpdater.CollectChanges` | libs/client-sdk/src/flag_manager/flag_updater.cpp:27-65 | Lists for every old or new flag exactly the change reported for it, once, and nothing else |
| `FlagUpdaters.FlagUpdater.UpsertFlag` | libs/client-sdk/src/flag_manager/flag_updater.cpp:88-116 | A version that is not newer is ignored; otherwise the item is stored and the flag's listeners hear the change, if any |
| `FlagUpdaters.FlagUpdater.DispatchEvent` | libs/client-sdk/src/flag_manager/flag_updater.cpp:74-86 | Calls the listeners of the flag; a signal without listeners is forgotten |
| `FlagUpdaters.FlagUpdater.OnFlagChange` | libs/client-sdk/src/flag_manager/flag_updater.cpp:123-129 | The flag has one listener more |
| `FlagUpdaters.FlagUpdater.Disconnect` | libs/internal/src/signals/boost_signal_connection.cpp:8-10 | The flag has one listener fewer |
| `FlagUpdaters.MirrorStep` | libs/client-sdk/src/flag_manager/flag_updater.cpp:20-116 | A step keeps a listener's mirror equal to the flag's value if and only if it is not an Init of an empty store that gives the flag a value |
| `FlagUpdaters.ChangeSays` | libs/client-sdk/src/flag_manager/flag_updater.cpp:20-116 | A change holds the flag's value before and after the step, and says deleted if and only if the flag was there and is now absent or deleted |
| `FlagUpdaters.InitSendsNothing` | libs/client-sdk/src/flag_manager/flag_updater.cpp:27-65 | When an Init sends nothing for a flag: an empty store, a flag in neither data set, or the same value in both |
| `FlagUpdaters.UpsertSendsNothing` | libs/client-sdk/src/flag_manager/flag_updater.cpp:88-116 | When an Upsert sends nothing for a flag: another flag, a version that is not newer, or deleting what was absent or deleted |
| `FlagUpdaters.MirrorFollowsStore` | libs/client-sdk/src/flag_manager/flag_updater.cpp:20-116 | Over every run without an Init of an empty store, a listener that applies its changes to a mirror holds the store's value, null when absent or deleted |
| `FlagUpdaters.UpsertsConverge` | libs/client-sdk/src/flag_manager/flag_store.cpp:27-42 | From any store, any order and repetition of the same coherent upserts gives the same store, holding the highest version of each key |
| `Fdv2Protocol.ProtocolHandler.HandleServerIntent` | libs/internal/src/fdv2_protocol_handler.cpp:48-87 | State and output follow the step function for every well-formed or malformed intent |
| `Fdv2Protocol.ProtocolHandler.HandlePutObject` | libs/internal/src/fdv2_protocol_handler.cpp:89-107 | The same for a put |
| `Fdv2Protocol.ProtocolHandler.HandleDeleteObject` | libs/internal/src/fdv2_protocol_handler.cpp:109-130 | The same for a delete |
| `Fdv2Protocol.ProtocolHandler.HandlePayloadTransferred` | libs/internal/src/fdv2_protocol_handler.cpp:132-164 | The same for a payload transfer |
| `Fdv2Protocol.ProtocolHandler.HandleError` | libs/internal/src/fdv2_protocol_handler.cpp:166-181 | The same for an error |
| `Fdv2Protocol.ProtocolHandler.HandleGoodbye` | libs/internal/src/fdv2_protocol_handler.cpp:183-198 | The same for a goodbye |
| `Fdv2Protocol.ProtocolHandler.Handle` | libs/internal/src/fdv2_protocol_handler.cpp:23-46 | Events are dispatched by type; an unrecognized one changes nothing |
| `Fdv2Protocol.ProtocolHandler.ResetState` | libs/internal/src/fdv2_protocol_handler.cpp:200-203 | No intent is open and no change is pending |
| `Fdv2Protocol.ChangesetsFollowTheTrace` | libs/internal/src/fdv2_protocol_handler.cpp:48-203 | For every trace, a changeset is emitted exactly at a well-formed transfer with an open intent; it holds, in order, the well-formed puts and deletes since the latest boundary; it is full exactly when the latest call that sets the kind is a full-transfer intent |
| `Fdv2Protocol.NoChangeInTwoChangesets` | libs/internal/src/fdv2_protocol_handler.cpp:48-203 | The stretches of trace that two changesets draw on are disjoint |
| `Fdv2Protocol.OtherOutputs` | libs/internal/src/fdv2_protocol_handler.cpp:23-203 | Every other output from the trace: the empty changeset for an intent to transfer nothing, the goodbye and its reason, the server's own error, protocol errors, decoding errors, and nothing |
| `Bucketing.Bucket` | libs/server-sdk/src/evaluation/bucketing.cpp:63-93 | A bucket lies in [0, 1]; the only failure is an invalid attribute reference outside experiments |
| `Bucketing.Variation` | libs/server-sdk/src/evaluation/bucketing.cpp:152-208 | The loop over weighted variations gives the fixed variation or the first position whose running sum exceeds the bucket, the last position otherwise, with the experiment flag, and the errors for a missing salt and an empty rollout |
| `Bucketing.PicksByInterval` | libs/server-sdk/src/evaluation/bucketing.cpp:187-207 | With non-negative weights and a bucket of at least 0, position i is picked if and only if the bucket lies in the i-th half-open cumulative interval, the last position taking the remainder |
| `Bucketing.PicksOne` | libs/server-sdk/src/evaluation/bucketing.cpp:187-207 | At most one position is picked, whatever the weights |
| `Bucketing.RaisingSharesNeverMovesLater` | libs/server-sdk/src/evaluation/bucketing.cpp:187-207 | When every cumulative weight of a second rollout is at least as large, no bucket moves to a later position |
| `Bucketing.RolloutByHash` | libs/server-sdk/src/evaluation/bucketing.cpp:152-208 | In whole numbers: the variation is the one in whose share, in 100000ths, the 60-bit hash falls; the hash is of the seed, or else of key and salt, with the attribute, which is the key in experiments; in the experiment exactly when it is one and the variation is tracked |
| `Bucketing.RolloutWithoutHash` | libs/server-sdk/src/evaluation/bucketing.cpp:76-93 | An attribute that cannot be hashed goes where hash zero goes, and counts for an experiment only if it is a number or the context has the rollout's kind |
| `Bucketing.WhenRolloutsFail` | libs/server-sdk/src/evaluation/bucketing.cpp:152-187 | The only failures: no salt, nothing to choose from, an invalid attribute outside experiments |
| `Bucketing.HashedIds` | libs/server-sdk/src/evaluation/bucketing.cpp:133-150 | Strings are hashed as they are and whole numbers by their decimal numeral, nothing else |
| `Evaluations.EvaluationStack.NoticePrerequisite` | libs/server-sdk/src/evaluation/evaluation_stack.cpp:31-47 | Guards a key exactly when it is not being evaluated already, and marks it |
| `Evaluations.EvaluationStack.ForgetPrerequisite` | libs/server-sdk/src/evaluation/evaluation_stack.cpp:36-38 | Leaving the guard unmarks its key |
| `Evaluations.EvaluationStack.RecordBigSegmentsStatus` | libs/server-sdk/src/evaluation/evaluation_stack.cpp:61-66 | Keeps whichever of the old and new status is less trustworthy |
| `Evaluations.TrustFalls` | libs/server-sdk/src/evaluation/evaluation_stack.cpp:6-24 | Trust falls from healthy over stale and store error to not configured |
| `Evaluations.Evaluator.Evaluate` | libs/server-sdk/src/evaluation/evaluator.cpp:63-174 | Ends on every finite store, cyclic ones included; on return the keys being evaluated are those on entry; detail, events in order and the cycle report are those of the guarded recursion |
| `Evaluations.Evaluator.MatchFlag` | libs/server-sdk/src/evaluation/evaluator.cpp:119-174 | Targets, then rules, then the fallthrough decide |
| `Evaluations.TargetServes` | libs/server-sdk/src/evaluation/evaluator.cpp:198-208 | Without context targets, the first target that lists the context's key serves its variation with TargetMatch |
| `Evaluations.ContextTargetServes` | libs/server-sdk/src/evaluation/evaluator.cpp:210-243 | With them, the first that lists the key, or that is an empty user target with a user target of the same variation listing it, serves its variation with TargetMatch |
| `Evaluations.RuleServes` | libs/server-sdk/src/evaluation/evaluator.cpp:130-158 | Without a target hit, the first rule that matches serves what its own variation or rollout gives, with its index, id and experiment flag |
| `Evaluations.FixedRuleServes` | libs/server-sdk/src/evaluation/evaluator.cpp:146-157 | A matching rule with a fixed variation serves exactly that variation |
| `Evaluations.BrokenRuleIsMalformed` | libs/server-sdk/src/evaluation/evaluator.cpp:134-140 | A rule that cannot be matched makes the flag malformed |
| `Evaluations.FallthroughServes` | libs/server-sdk/src/evaluation/evaluator.cpp:160-174 | Without a target hit or matching rule, the fallthrough serves what it gives |
| `Evaluations.MatchIgnoresWhatFollows` | libs/server-sdk/src/evaluation/evaluator.cpp:125-158 | Once a rule decides, replacing later rules or the fallthrough changes nothing |
| `Evaluations.OffServes` | libs/server-sdk/src/evaluation/evaluator.cpp:176-196 | The off variation is served with the reason given, a malformed flag when it does not exist, and null when there is none |
| `Evaluations.OffFlag` | libs/server-sdk/src/evaluation/evaluator.cpp:69-72 | A flag that is off serves its off variation and evaluates nothing else |
| `Evaluations.SatisfiedServes` | libs/server-sdk/src/evaluation/evaluator.cpp:74-112 | When every prerequisite is there, on and at the variation asked for, targets and rules decide; the events are those of the prerequisites in post-order |
| `Evaluations.FirstUnsatisfied` | libs/server-sdk/src/evaluation/evaluator.cpp:74-112 | The first other prerequisite makes the flag serve its off variation, naming it, or malformed when it is; later ones are not evaluated and send nothing |
| `Evaluations.UnmatchedRulesAreSkipped` | libs/server-sdk/src/evaluation/evaluator.cpp:130-158 | Rules that do not match have no effect: the first other rule decides, and without one the fallthrough |
| `Evaluations.CyclicIsMalformed` | libs/server-sdk/src/evaluation/evaluator.cpp:69-117 | When a flag already on the chain is reached, every evaluation up to the root is malformed and without variation |
| `Evaluations.GuardReportsExactlyDivergence` | libs/server-sdk/src/evaluation/evaluator.cpp:63-117 | On every well-keyed store, a cycle is reported if and only if the plain recursion without a seen-set ends at no depth, and otherwise the two give the same detail and events |
| `Evaluations.AcyclicAgreesWithPlain` | libs/server-sdk/src/evaluation/evaluator.cpp:63-174 | On every acyclic prerequisite graph, diamonds included, the guarded evaluation gives the detail and the events of the plain recursion |
| `Summaries.Summarizer.Update` | libs/internal/src/events/summarizer.cpp:17-33 | The summary becomes that of the events so far and the new one |
| `Summaries.CountsEvents` | libs/internal/src/events/summarizer.cpp:17-33 | Each counter is the number of events for it, and exists if and only if there is one |
| `Summaries.EmptySummary` | libs/internal/src/events/summarizer.cpp:8-10 | A summary is empty if and only if there was no event |
| `Summaries.FirstDefaultIsKept` | libs/internal/src/events/summarizer.cpp:17-33 | A flag's default is that of the first event for it |
| `Summaries.FirstValueIsKept` | libs/internal/src/events/summarizer.cpp:17-33 | A counter's value is that of the first event it counts |
| `Summaries.KindsAreCollected` | libs/internal/src/events/summarizer.cpp:17-33 | A flag's kinds are exactly those of the contexts of its events |
| `RequestWorkers.RequestWorker.AsyncDeliver` | libs/internal/include/launchdarkly/events/detail/request_worker.hpp:125-149 | An idle worker takes the batch and has a first request in flight |
| `RequestWorkers.RequestWorker.OnDeliveryAttempt` | libs/internal/src/events/request_worker.cpp:56-131 | The worker follows the transition table for every state and result, and tells the processor of a server time or a permanent failure exactly when the table says so |
| `Deliveries.FirstResultRetries` | libs/internal/src/events/request_worker.cpp:143-159 | By statuses alone: the first result starts the retry timer if and only if it is an I/O error or neither 2xx nor a 4xx other than 400, 408 and 429, and never at 413 |
| `Deliveries.SecondResultEnds` | libs/internal/src/events/request_worker.cpp:160-172 | The second result always ends the batch, for good exactly at an error-free 4xx other than 400, 408, 413 and 429 |
| `Deliveries.NoticesAre` | libs/internal/src/events/request_worker.cpp:81-103 | The owner hears a server time exactly from an error-free 2xx that has one, and a failure exactly from a refusal for good |
| `RequestWorkers.RequestWorker.OnRetryTimer` | libs/internal/src/events/request_worker.cpp:115-126 | An expired timer sends the batch again, a cancelled one does not |
| `EventProcessors.Outbox.PushDiscardingOverflow` | libs/internal/src/events/outbox.cpp:15-25 | Keeps the longest prefix that fits and reports whether all did |
| `EventProcessors.Outbox.Push` | libs/internal/src/events/outbox.cpp:7-13 | Adds the event at the end exactly when there is room |
| `EventProcessors.Outbox.Consume` | libs/internal/src/events/outbox.cpp:27-35 | Returns all events in order and leaves none |
| `EventProcessors.EventProcessor.InboxIncrement` | libs/internal/src/events/asio_event_processor.cpp:66-83 | A send is accepted exactly when delivery has not failed for good and the counter is below capacity, and then counts |
| `EventProcessors.EventProcessor.SendAsync` | libs/internal/src/events/asio_event_processor.cpp:94-102 | A send takes the step of the model: it is posted exactly when the inbox accepts it |
| `EventProcessors.EventProcessor.RunPosted` | libs/internal/src/events/asio_event_processor.cpp:98-115 | The handler of the earliest posted send takes the step of the model, for every input |
| `EventProcessors.EventProcessor.Process` | libs/internal/src/events/asio_event_processor.cpp:217-303 | Gives exactly the events `Outputs` lists for the input and whether its context is cached, counts a feature event in the summary, and in the server SDK notices the context's key |
| `EventProcessors.EventProcessor.FlushEvents` | libs/internal/src/events/asio_event_processor.cpp:118-144 | A flush takes the step of the model: an idle worker gets the whole outbox and the summary, and without one or with nothing to send nothing changes |
| `EventProcessors.EventProcessor.CreateBatch` | libs/internal/src/events/asio_event_processor.cpp:194-214 | A batch holds the outbox, which is emptied, and the summary when there is one |
| `EventProcessors.EventProcessor.FindWorker` | libs/internal/include/launchdarkly/events/detail/worker_pool.hpp:48-70 | Finds the first idle worker, or none when all are busy |
| `EventProcessors.EventProcessor.OnRequestResult` | libs/internal/src/events/asio_event_processor.cpp:147-164 | A delivery result takes the step of the model, and a server time is kept |
| `EventProcessors.EventProcessor.OnEventDeliveryResult` | libs/internal/src/events/asio_event_processor.cpp:147-164 | A permanent failure is remembered for good, and a server time replaces the one known |
| `EventProcessors.EventProcessor.OnRetryTimer` | libs/internal/src/events/request_worker.cpp:115-126 | A retry timer takes the step of the model |
| `EventProcessors.IndexEventIffNotRecent` | libs/internal/src/events/asio_event_processor.cpp:217-303 | In the server SDK a feature or track event makes an index event if and only if its context was not among the most recently seen ones, as many as the cache holds |
| `EventProcessors.MakesExactly` | libs/internal/src/events/asio_event_processor.cpp:217-303 | Exactly when an input makes an index, debug, full feature, identify or track event, in which order, and which are redacted for anonymous contexts |
| `EventPipelines.InboxStep` | libs/internal/src/events/asio_event_processor.cpp:66-115 | Every step keeps the inbox counter equal to the accepted sends not yet handled, which are the latest ones, and within capacity |
| `EventPipelines.OutboxStep` | libs/internal/src/events/outbox.cpp:7-35 | Every step keeps the events not discarded equal to those of all batches in order followed by the outbox, and the outbox within capacity |
| `EventPipelines.SummariesStep` | libs/internal/src/events/summarizer.cpp:17-33 | Every step keeps each feature event in exactly one batch's summary or the pending one |
| `EventPipelines.WorkersStep` | libs/internal/src/events/request_worker.cpp:56-179 | Every step keeps each batch with exactly one worker or finished, and no batch attempted more than twice |
| `EventPipelines.FatesAreFinal` | libs/internal/src/events/request_worker.cpp:56-131 | Once a batch is delivered, dropped or failed, that never changes |
| `EventPipelines.EveryRunConserves` | libs/internal/src/events/asio_event_processor.cpp:66-214 | Under every interleaving of sends, handlers, flushes, results and timers all four hold |
| `Deliveries.EveryRunExplained` | libs/internal/src/events/request_worker.cpp:56-179 | Under every interleaving, a batch is attempted twice only if its first result was worth it; it is delivered if and only if its last result is an error-free 2xx; the pipeline has failed if and only if some result is an error-free 4xx other than 400, 408, 413 and 429 |
| `EventPipelines.SendPosts` | libs/internal/src/events/asio_event_processor.cpp:66-102 | A send is posted if and only if delivery has not failed for good and the inbox has room |
| `EventPipelines.HandleKeepsWhatFits` | libs/internal/src/events/outbox.cpp:15-25 | A handler's events are kept in order, and none is discarded while there is room |
| `EventPipelines.FlushSendsEverything` | libs/internal/src/events/asio_event_processor.cpp:118-144 | With an idle worker and something to send, a flush gives the first idle worker all events and the summary and leaves nothing; otherwise it does nothing |

## Left out

- Networking, timers, threads and locks: handlers are atomic steps, results and timers are steps of the models, and clocks and random numbers are parameters.
- Redis, DynamoDB, OpenTelemetry, the C bindings, configuration builders, logging and the contract tests.
- Clause, segment, semantic-version, date and regular-expression matching: whether a rule matches is an arbitrary function in `Evaluations`.
- Big-segment lookups and attaching their status to a result; only the precedence of statuses is modelled.
- SHA-1, SHA-256 and UUIDs: digests and hashes are arbitrary.
- Floating-point rounding: numbers, weights, buckets and jitter are exact reals, and the exponent cap is an exact integer logarithm.
- Integer widths: counters, versions, timestamps and sizes do not wrap.
- JSON text: documents are trees, and parsing a serialized tree is taken to give the tree back.
- Persisted evaluation results: flag data is opaque in `FlagPersistences`.
- LoadCached: reading stored flags back into the store at start.
- Canonical keys of contexts: a context is known by its id in `FlagManagers` and by its key in `EventProcessors`.
- Client-side evaluation of prerequisites.
- The metric value of a track event: it travels with the event's data.
- Contexts.ContextBuilder.Build: the text of its errors is not modelled, only whether there are any.
- ValueJson.WriteValue: when two names of an object are cut to the same text, either member may be kept; the code keeps the later one in name order.
- ValueJson.ReadValue: when two names of a document object are cut to the same text, either member may be kept; the code keeps the first in document order.
- ContextIndexes.ReadIndex: a timestamp that is negative or not whole makes the code throw; the model skips or truncates it.
- ContextJson.ParseContext: when several kinds of a document are at fault, the error is that of any one of them; the code reports the first in document order.
- Redactions.Emplace: JSON containers are reached by address in one document value, not by reference; that no reference is left dangling is the condition on pending stack entries.
- ContextFilters.FilterSingleContext: requires builder-made attributes, whose custom names are never `key`, `kind`, `name`, `anonymous` or `_meta`.
- ContextJson.WriteContext: requires a builder-made context when it is valid, for the same reason.
- FlagPersistences.FlagPersistence.StoreCache: the persistence backend is a map that always accepts writes.
