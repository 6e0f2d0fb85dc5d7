# wechat-go session core, in Dafny

This project models the sequential logic of the web-WeChat bot session in
`wxweb/session.go`. That logic covers five things:

- **Message analysis** (`analize`). One decoded element of a sync batch
  becomes a `ReceivedMessage`. The element is a group message when the sender
  or receiver id contains "@@". The speaker and content of a group message
  come from splitting on ":<br/>". A leading "@name" mention, ended by U+2005,
  is split off a text message.
- **Shard derivation** (`analizeVersion`). The CGI domain, the CGI base URL
  and the long-poll host are derived from the login redirect's scheme and host.
- **QR-scan wait** (`scanWaiter`). Each poll result is classified, and the loop
  stores the redirect once the login is confirmed.
- **Long-poll producer** (`producer`). Each sync-check outcome is classified as
  continue, fetch-and-continue or terminate, and at most one termination signal
  is sent.
- **Batch consumer** (`consumer`). The handlers registered for each message
  type are started in list order.

Modules:

- `GoStrings` (go_strings.dfy) models Go's `strings.Index`, `strings.Contains`,
  `strings.HasPrefix` and `strings.Split` for a non-empty separator. `Join` is
  their partner, and `Join(Split(s, sep), sep) == s` is proved.
- `Message` (message.dfy) holds `analize` as a pure function, with lemmas for
  the group flag, the speaker and content split, and mention extraction.
- `Config` (config.dfy) holds the `Common` configuration class, its default
  values and the pure shard derivation `Shard`.
- `LoginFlow` (login_flow.dfy) holds one poll of `scanWaiter`.
- `SyncLoop` (sync_loop.dfy) holds one step of `producer` and the producer
  loop over a finite sequence of check outcomes.
- `Dispatcher` (dispatch.dfy) holds the functions that specify the consumer,
  with lemmas about skipping and ordering.
- `Wxweb` (wxweb.dfy) holds the `Session` class. Its methods `AnalyzeVersion`,
  `ScanWaiter` and `Consume` update the configuration and a ghost log of
  handler starts in place.

Strings are `seq<char>`. Both separators are complete UTF-8 sequences, so
splitting by code point gives the same pieces as Go's byte-wise split. The
test "longer than one byte and starts with @" also holds exactly when the
content is longer than one character and starts with "@".

Two behaviours of the code shape the model:

- **Group content.** The code keeps only the second piece of the split,
  `ss[1]`: the text between the first and the second ":<br/>"
  (session.go:304), not everything after the first one.
  `Message.AnalyzeGroupSpeaker` states this.
- **Malformed elements.** The type assertions at session.go:290-294 panic on
  an element whose fields are missing or of the wrong type. The model
  therefore requires well-formed elements (`WellFormed`, `AllWellFormed`).

A message whose type has no registered handlers is logged and skipped, and
later elements are still handled (session.go:277-281).

## Model

| member | source | states |
|---|---|---|
| GoStrings.IndexFrom | wxweb/session.go:297-298 | the match found is an occurrence at or after the start, and no occurrence lies between the start and the match (none at all when nothing is found) |
| GoStrings.ContainsIff | wxweb/session.go:297-298 | `strings.Contains` holds exactly when the pattern occurs at some position |
| GoStrings.Split | wxweb/session.go:301 | `strings.Split` with a non-empty separator always returns at least one piece |
| GoStrings.SplitJoin | wxweb/session.go:301 | joining the pieces with the separator gives back the input string |
| GoStrings.SplitPiecesFree | wxweb/session.go:318 | no piece of a split contains the separator |
| GoStrings.SplitFirst | wxweb/session.go:301-303 | the first piece is a prefix that ends at the leftmost occurrence; there is one piece exactly when the separator does not occur, and it is then the whole string |
| GoStrings.SplitHead | wxweb/session.go:301-304 | with two or more pieces, the first piece, the separator and the second piece form a prefix; the second piece holds no occurrence and ends at the next occurrence or at the end |
| GoStrings.SplitCountChar | wxweb/session.go:318-319 | splitting on one character gives one more piece than the character's number of occurrences |
| Message.Analyze | wxweb/session.go:288-295 | MsgId, OriginContent, FromUserName, ToUserName and MsgType are copied verbatim from the element |
| Message.ContainsGroupMarker | wxweb/session.go:297-298 | a string contains "@@" exactly when it has two adjacent '@' characters |
| Message.AnalyzeGroupFlag | wxweb/session.go:297-299 | IsGroup holds exactly when the sender or the receiver id has two adjacent '@' |
| Message.AnalyzeDirect | wxweb/session.go:309-313 | outside a group the speaker is the sender and the mention followed by the content is the original content |
| Message.AnalyzeGroupNoDelimiter | wxweb/session.go:305-308 | a group message without ":<br/>" is attributed to the bot and keeps its original content, apart from a split-off mention |
| Message.AnalyzeGroupSpeaker | wxweb/session.go:301-304 | with a delimiter, speaker + delimiter + (mention + content) is a prefix of the original; the speaker ends at the first delimiter and the content runs to the second delimiter or to the end |
| Message.ExtractMentionSpec | wxweb/session.go:314-323 | the mention followed by the content is the input content; a cut happens exactly for a text message longer than one character that starts with '@' and holds U+2005 exactly once; the mention then runs from the '@' through its only separator, and the rest holds no separator |
| Message.AnalyzeMention | wxweb/session.go:314-323 | the same mention conditions and shape, stated for the analysed message |
| Config.Shard | wxweb/session.go:122-132 | the CGI domain is scheme://host; the CGI URL is the domain followed by the CGI path; the sync server is the wx2 host exactly when the host contains "wx2", and the wx host otherwise |
| Config.DomainNamesPool | wxweb/session.go:123-126 | when the scheme has no "wx2", the domain names the wx2 pool exactly when its host does |
| Config.ShardConsistent | wxweb/session.go:122-132 | derived fields agree: CGI URL under the domain, and the sync-server pool matches the pool the domain names |
| Config.Common.Default | wxweb/session.go:50-59 | the default configuration's field values |
| LoginFlow.ScanStep | wxweb/session.go:140-150 | a redirect confirms the login with its uri, scheme and host; an error whose text contains "window.code=408" fails with that text; every other error is retried |
| SyncLoop.ProducerStep | wxweb/session.go:236-261 | a transport error continues; ret 0 with sel 2 fetches; ret 0 with sel 0 or 7 continues; ret 0 with another sel ends with "session down"; 1101 ends with nil; 1205 ends with "api blocked"; any other ret ends with "unhandled" |
| SyncLoop.Producer | wxweb/session.go:232-262 | at most one signal is sent, by the first terminal check, and the loop stops right after it; batches are fetched exactly after the sel-2 checks before that, in order |
| Dispatcher.InvokeAll | wxweb/session.go:282-284 | every handler of the list is started once on the message, in list order |
| Dispatcher.DispatchAllConcat | wxweb/session.go:275-285 | elements are handled in list order, independently of one another |
| Dispatcher.DispatchSegment | wxweb/session.go:275-284 | the k-th element contributes exactly one start per registered handler of its type, in registration order, between the starts of the earlier and of the later elements; it contributes nothing on a lookup miss |
| Dispatcher.UnregisteredSkipped | wxweb/session.go:277-281 | an element whose type has no handlers is skipped, and the rest of the batch is handled as if it were absent |
| Dispatcher.OnlyRegisteredTypeDispatched | wxweb/session.go:275-284 | with two elements of which only the first has a handler, that handler is started once, on the first |
| Dispatcher.BothHandlersDispatched | wxweb/session.go:282-284 | two handlers registered for one type are both started once, in registration order |
| Wxweb.Session.constructor | wxweb/session.go:91-101 | a session over a given configuration and registry, with no handler started yet; the bot's user name, which the code sets after login (session.go:187), is fixed when the session is constructed |
| Wxweb.Session.AnalyzeVersion | wxweb/session.go:119-133 | the three shard fields become `Shard(scheme, host)`, and no other configuration field changes |
| Wxweb.Session.ScanWaiter | wxweb/session.go:135-154 | stops at the first poll that is not retried; an expired code returns its error and leaves the configuration unchanged; a confirmation stores the redirect and derives the shard; nothing else changes |
| Wxweb.Session.Consume | wxweb/session.go:266-286 | the invocation log grows by exactly `Dispatch(registry, bot, count, msgs)`: nothing when the count is below one |
| Wxweb.Session.StartHandlers | wxweb/session.go:282-284 | the log grows by one start per handler, in list order |

## Left out

- `CreateSession` (QR rendering, QR image fetch, disk storage) and `LoginAndServe` (a chain of HTTP calls and JSON loads) are I/O over collaborators that are not part of this model.
- `serve` and the goroutines and channels are left out. Handlers are started one after another, and each start is recorded in the ghost log `Session.Invocations`. Concurrency, and the interleaving of handler runs, are not modelled.
- The network calls `SyncCheck`, `WebWxSync`, `Login` and `JsLogin` become inputs: sequences of check results and poll results. The three-second timer of `scanWaiter` is one poll per element.
- An input that runs out stands for a loop that is still running (`StillWaiting`, or no signal). The infinite loops themselves are not modelled.
- The fetch outcome in `producer` is only logged, so it is not an input. The sync-key refresh inside `WebWxSync` is not part of this model.
- JSON decoding of a batch is left out. A batch is a message count and a list of already-decoded elements.
- The float64 to int conversion of `MsgType` is left out. The decoded number is taken to be integral already.
- A malformed element panics in Go. The model requires well-formed elements and does not model the panic.
- `url.Parse` is left out. On an unparsable redirect it returns a nil URL, and reading its scheme at session.go:123 panics. The model takes `(scheme, host)` as inputs, so `AnalyzeVersion` always derives a shard.
- Wxweb.Session.constructor: takes the registry as given. `CreateSession` replaces a nil register with a fresh one (session.go:100), and the bot's user name is only known after `WebWxInit` (session.go:187); the model fixes it at construction.
- The registry (`HandlerRegister`) is a map from message type to a list of handler ids. Its own file is not part of this model.
- `MSG_TEXT` is defined in a file that is not part of this model. It is taken as 1, the text type, and no lemma depends on that value.
- `SendText`, `SendImg`, `SendImgFromBytes`, `GetImg`, `SendEmotionFromPath`, `SendEmotionFromBytes`, `RevokeMsg` and `Logout` are thin wrappers over HTTP calls and file reads.
