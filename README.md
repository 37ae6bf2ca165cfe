# BrokerUI in Dafny

BrokerUI lets an operator look into message brokers. It lists brokers and
their queues, browses the messages on a queue, and deletes, moves or purges
them. It has two halves:

- **broker service** (Go): reads broker definitions from the environment,
  builds one adapter per broker, and answers HTTP requests by calling the
  adapter;
- **client** (Ionic/Angular): shows the message list of one queue and keeps
  its shell in step with the URL.

This project models the core of both halves and proves properties of the
models:

- **`EnvConfig`** (`envconfig.dfy`): the environment scan. Up to 100 `BROKERn_` slots are read. A later variable overwrites an earlier one, and a slot is used only when its `NAME` is not empty.
- **`Registry`** (`registry.dfy`): start-up. The definitions become a map from broker name to adapter, and `"test"` is then set to the mock adapter.
- **`AdapterManager`** (`manager.dfy`): the HTTP handlers. Each one checks its parameters in order, looks up the adapter, and maps the adapter's error (or error list) to a status code.
- **`ActiveMQConsole`, `ActiveMQScan`, `ActiveMQMapDrain`** (`amq_console.dfy`, `amq_scan.dfy`, `amq_drain.dfy`): the ActiveMQ adapter.
  - The console (RSS census and queue list) is tried URL by URL.
  - Browsing receives until a timeout and releases what it got.
  - The single-message scans stop at the first match.
  - The map-then-act drain of `Move`/`DeleteMany`.
  - The purge loop.
  - The conversion of AMQP 1.0 messages to the service's standard message.
- **`RabbitMQ`** (`rabbit.dfy`): the RabbitMQ adapter. It deletes or moves by taking messages off the head of the queue one at a time through the management API. Unwanted messages are published back over AMQP 0-9-1.
  - A get hands out at most 50000 bytes of the payload, base64-encoded when they are not well-formed UTF-8. A message put back keeps only its three headers and gets the adapter's own properties.
  - A publish goes to the exchange named after the queue and reaches the queues that exchange routes to. An acknowledged publish that reaches no queue is lost, and the adapter reports success.
  - Every census, one per id in `Move` and `DeleteMany`, reads a listing of its own.
- **`MessageView`** (`message_view.dfy`): the client's message list component.
  - header names de-duplicated and laid out three to a row;
  - the selected-id list and the select-all toggle;
  - the move guard and the pruning after a move or delete;
  - the three-state column sort.
- **`AppShell`** (`app_shell.dfy`): the client's shell. It takes the broker and queue names out of the URL and picks the tab from the URL's text. It is proved to agree with the application's routes when the broker and queue names are plain: no slash, and not beginning with "brokers", "queues", "messages" or "message-details" (`PlainName`); below a queue page, no later segment may be "brokers" or "queues". Two lemmas show what goes wrong otherwise (`BrokerNamedLikeMessages`, `QueueNamedQueues`).
- Shared pieces:
  - `GoStrings`: Go's string functions.
  - `Wrappers`: Option, a Go slice that tells nil from empty, and Go errors.
  - `BrokerTypes`: the service's records.
  - `Assignments`: a fold of map assignments where the last write wins.
  - `Fallback`: trying endpoints in order until one succeeds.
  - `Amqp`: the AMQP 1.0 peer as an oracle.

The brokers, the network and the clock are not modelled as programs. Each
is a value given as a parameter:

- An ActiveMQ `Peer` is a stream of what each receive attempt yields (a
  message, a timeout, or a receive error), plus which sends, accepts and
  releases fail. A `Ledger` records what happened to every delivery.
- A RabbitMQ broker is its queues and its exchanges' routes, plus what the
  next gets, publishes and queue listings answer.
- An HTTP console answer is a datatype of its outcomes: request failed,
  transport failed, bad status, decode failed, decoded.

The model follows the code in three places where the service's
documentation says something else:

- In the ActiveMQ `Move` and `DeleteMany`, a receive error other than the
  timeout adds the receive context's error. That error is read after its
  cancel function has run, so the slot is "context canceled" and not nil
  (`ActiveMQMapDrain.MapThenAct`).
- The RabbitMQ `Move` and `DeleteMany` return an empty but non-nil error
  list. The handlers answer any non-nil list with 500, so these requests are
  answered 500 even when nothing failed
  (`AdapterManager.MoveWithEmptyErrorsIs500`, `RabbitMQ.Move`).
- The ActiveMQ `GetAllQueues` reports an error only when no console
  answered with queue data. The error it reports is the request or
  transport error of the last console tried (`ActiveMQConsole.QueuesErrorIff`).

## Model

| member | source | states |
|---|---|---|
| GoStrings.IndexFrom | broker-service/configuration/env-config-mgr.go:56-57 | the position found holds an occurrence and no earlier position at or after the start does; no result means no occurrence at all |
| GoStrings.ContainsIff | broker-service/configuration/env-config-mgr.go:56 | `strings.Contains` holds exactly when the pattern occurs at some position |
| GoStrings.ReplaceFirst | broker-service/configuration/env-config-mgr.go:57 | `strings.Replace(s, old, "", 1)` replaces only the first occurrence and leaves a string without one unchanged |
| GoStrings.CharIndex | broker-service/configuration/env-config-mgr.go:55 | the first position of the separator: it holds the separator and nothing before it does |
| GoStrings.Split | broker-service/configuration/env-config-mgr.go:55 | `strings.Split` on one character gives at least one piece, no piece holds the separator, and a string without it is one piece |
| GoStrings.JoinSplit | broker-mobile-ionic/src/app/app.component.ts:56 | splitting loses nothing: the pieces joined with the separator give the string back |
| GoStrings.SplitSecond | broker-service/configuration/env-config-mgr.go:55-58 | a string with the separator splits into at least two pieces, and the second is the text between the first and second separator |
| GoStrings.NatToDecimal | broker-service/adapters/rabbitMQAdapter.go:224 | `%d` of a natural number: decimal digits without a leading zero |
| GoStrings.DigitsValueOfDecimal | broker-service/adapters/rabbitMQAdapter.go:224 | the digits `%d` writes read back as the number |
| GoStrings.Atoi | broker-service/adapters/rabbitMQAdapter.go:440-444 | `strconv.Atoi` succeeds only with a value that fits in 64 bits |
| GoStrings.AtoiOfDecimal | broker-service/adapters/rabbitMQAdapter.go:224 | an in-range integer written with `%d` parses back to itself |
| GoStrings.AtoiOfNegative | broker-service/adapters/rabbitMQAdapter.go:224 | a negative in-range integer written with `%d` parses back to itself |
| GoStrings.AtoiOfDigits | broker-service/adapters/rabbitMQAdapter.go:224 | a non-negative in-range integer written with `%d` parses back to itself |
| Assignments.WrittenKey | broker-service/main.go:48-69 | after a sequence of map assignments, a key is present exactly when some assignment wrote it |
| Assignments.WrittenLast | broker-service/main.go:48-69 | a present key holds the value of the last assignment that wrote it |
| EnvConfig.VarValueIsBetweenEquals | broker-service/configuration/env-config-mgr.go:55-58 | the value of an entry is the text after its first '=', cut at a second '=' |
| EnvConfig.Updates | broker-service/configuration/env-config-mgr.go:54-60 | each environment entry contributes its key and value to the slot exactly when it joins the slot |
| EnvConfig.SlotValuesStep | broker-service/configuration/env-config-mgr.go:56-59 | an entry whose name contains the prefix sets its key (the name with the prefix removed once) to its value; any other entry changes nothing |
| EnvConfig.GetAllConfigValues | broker-service/configuration/env-config-mgr.go:50-62 | the loop builds the slot's map of all the entries, one at a time |
| EnvConfig.SlotValuesLastWins | broker-service/configuration/env-config-mgr.go:54-60 | a key is in the slot's map exactly when some entry gives it, with the value of the last such entry |
| EnvConfig.SlotConfig | broker-service/configuration/env-config-mgr.go:26-42 | a slot gives a definition exactly when its NAME is present and not empty |
| EnvConfig.GetAdapterConfigurations | broker-service/configuration/env-config-mgr.go:20-48 | the loop over slots 1 to 100 gives the definitions of the defining slots, in slot order |
| EnvConfig.ConfigsUpToFacts | broker-service/configuration/env-config-mgr.go:24-44 | after n slots there are at most n definitions, and each is the definition of a defining slot up to n, and conversely |
| EnvConfig.ConfigsUpToMember | broker-service/configuration/env-config-mgr.go:24-44 | one more slot adds exactly its own definition, if any, to the definitions of the earlier slots |
| EnvConfig.ConfigsFacts | broker-service/configuration/env-config-mgr.go:20-48 | at most 100 definitions, each named, and every defining slot's definition among them |
| EnvConfig.ConfigsUpToStep | broker-service/configuration/env-config-mgr.go:24-44 | one more slot keeps the earlier definitions as a prefix and appends this slot's definition, if it has one |
| EnvConfig.ConfigsInSlotOrder | broker-service/configuration/env-config-mgr.go:24-44 | of two defining slots, the lower one's definition comes first in the result |
| EnvConfig.EarlierPairKept | broker-service/configuration/env-config-mgr.go:24-44 | two definitions in order stay in order when a slot is added |
| EnvConfig.LastSlotComesLast | broker-service/configuration/env-config-mgr.go:24-44 | the newest slot's definition comes after that of any lower defining slot |
| Fallback.LastTriedFrom | broker-service/adapters/activeMQAdapter.go:712-718 | the loop over endpoints stops at the first success, or at the last endpoint after failures only |
| Fallback.FirstSuccess | broker-service/adapters/activeMQAdapter.go:712-718 | no endpoints gives no attempt; a failure is the last endpoint's, and only when every endpoint failed; a success is the first endpoint's success |
| Fallback.TryInOrder | broker-service/adapters/activeMQAdapter.go:48-59 | the dial loop tries each URL in order and stops at the first success |
| Amqp.SenderFailure | broker-service/adapters/activeMQAdapter.go:690-705 | `getNewSender` fails exactly when its new session or its new sender fails, with the message of the step that failed |
| ActiveMQConsole.NewActiveMQAdapter | broker-service/adapters/activeMQAdapter.go:39-71 | the constructor returns an adapter exactly when it returns no error, and exactly when some comma-separated URL dials; the console URLs are the comma-separated pieces |
| ActiveMQConsole.RssFetch | broker-service/adapters/activeMQAdapter.go:721-761 | a console request succeeds exactly when it yields a decoded feed, and the census is the feed's item count |
| ActiveMQConsole.Census | broker-service/adapters/activeMQAdapter.go:708-719 | a census is the item count of the first console that answered with a feed, all earlier consoles having failed; when none answered with a feed, it is the error the last console gave |
| ActiveMQConsole.RetrieveRssData | broker-service/adapters/activeMQAdapter.go:708-719 | the loop over consoles computes the census |
| ActiveMQConsole.GetAllQueues | broker-service/adapters/activeMQAdapter.go:527-599 | the loop over consoles gives the queue list or error of the console scan |
| ActiveMQConsole.ScanConsolesError | broker-service/adapters/activeMQAdapter.go:536-585 | the scan ends in an error exactly when no console from this one on gave data and the last console's request or transport failed |
| ActiveMQConsole.QueuesErrorIff | broker-service/adapters/activeMQAdapter.go:536-585 | `GetAllQueues` reports an error exactly when no console answered with data and the last console's request or transport failed |
| ActiveMQConsole.ScanConsolesNoData | broker-service/adapters/activeMQAdapter.go:536-580 | without any console answering with data, no queue is listed |
| ActiveMQConsole.AllBadStatusIsEmpty | broker-service/adapters/activeMQAdapter.go:536-598 | consoles that all answer with a bad status give an empty, non-nil list and no error |
| ActiveMQConsole.ScanConsolesFirstDecoded | broker-service/adapters/activeMQAdapter.go:536-580 | the first console to answer with decoded data ends the scan with that data and no error |
| ActiveMQConsole.QueuesFromFirstDecoded | broker-service/adapters/activeMQAdapter.go:527-599 | the queue list is that of the first console to answer with decoded data, converted entry by entry in order |
| ActiveMQConsole.FixedHeaders | broker-service/adapters/activeMQAdapter.go:648-660 | the thirteen header and property entries are always present |
| ActiveMQConsole.ToStandardMessageHeaders | broker-service/adapters/activeMQAdapter.go:646-681 | the headers are the fixed ones plus the application properties, annotations and delivery annotations, and a later group overrides an earlier one; the id is the `%v` id and the body is `Body` |
| ActiveMQConsole.FixedHeadersKeys | broker-service/adapters/activeMQAdapter.go:648-660 | the fixed part of the headers has exactly the thirteen header and property keys |
| ActiveMQConsole.ConvertMessages | broker-service/adapters/activeMQAdapter.go:624-687 | one standard message per AMQP message, in order; no messages gives a nil slice; the error list is always nil |
| ActiveMQScan.FirstTimeout | broker-service/adapters/activeMQAdapter.go:110-128 | the first attempt that times out, with none before it |
| ActiveMQScan.DeliveriesBetween | broker-service/adapters/activeMQAdapter.go:110-128 | the deliveries among a range of attempts, in increasing order |
| ActiveMQScan.CollectFromFacts | broker-service/adapters/activeMQAdapter.go:110-128 | the browse loop gives up exactly when more than ten receive errors come before the first timeout; otherwise it has every delivery before that timeout, in order; either way it received nothing else |
| ActiveMQScan.ErrorsBetweenAtLeast | broker-service/adapters/activeMQAdapter.go:120-122 | the receive errors of a range include those of any sub-range |
| ActiveMQScan.ListingNeverSettlesWrongly | broker-service/adapters/activeMQAdapter.go:80-138 | browsing never accepts or sends, receives nothing after the first timeout, and gives up exactly on more than ten receive errors, releasing nothing |
| ActiveMQScan.ListingContents | broker-service/adapters/activeMQAdapter.go:80-138 | without too many errors, one record per delivery before the first timeout, in order, each released unless its release fails |
| ActiveMQScan.CollectDeliveries | broker-service/adapters/activeMQAdapter.go:110-128 | the browse loop collects what the loop specification collects, and holds every delivery it receives |
| ActiveMQScan.ReleaseEach | broker-service/adapters/activeMQAdapter.go:131-133 | each delivery is released in turn; a failed release leaves it held and is ignored |
| ActiveMQScan.GetAllMessages | broker-service/adapters/activeMQAdapter.go:80-138 | the browse gives the listing specification's messages, error and ledger |
| ActiveMQScan.Advance | broker-service/adapters/activeMQAdapter.go:287-317 | the scan passes over receive errors and non-matching messages until the census bound, a timeout or a stopping attempt |
| ActiveMQScan.PassedStep | broker-service/adapters/activeMQAdapter.go:287-317 | skipping a receive error or releasing a non-matching message extends what has been passed over by one attempt |
| ActiveMQScan.AdvanceFacts | broker-service/adapters/activeMQAdapter.go:287-317 | every attempt passed over was a receive error or a non-matching message, now released (or still held when its release failed), and nothing is sent |
| ActiveMQScan.FindOneFacts | broker-service/adapters/activeMQAdapter.go:245-320 | a scan stops at the census bound or a timeout with no error, at the first match, whose fate alone may change to settled and which alone may be sent, or (moves only) at a failed release, reported with the message's id |
| ActiveMQScan.StopAtFacts | broker-service/adapters/activeMQAdapter.go:287-317 | what the stopping attempt does to the ledger and the error, given what was passed over before it |
| ActiveMQScan.StopAtMatch | broker-service/adapters/activeMQAdapter.go:287-317 | at a matching message the scan gives it its match fate, may send only it, and reports no error exactly when it was accepted |
| ActiveMQScan.StopAtNoMatch | broker-service/adapters/activeMQAdapter.go:287-317 | without a match the scan ends at the census bound or a timeout with no error, or at a failed release with an error |
| ActiveMQScan.ScanForTarget | broker-service/adapters/activeMQAdapter.go:287-317 | the receive loop of `MoveOne` and `DeleteOne` computes the scan specification |
| ActiveMQScan.FindOneWith | broker-service/adapters/activeMQAdapter.go:245-320 | a setup or census failure ends the operation with its error; otherwise the scan runs |
| ActiveMQScan.MoveOne | broker-service/adapters/activeMQAdapter.go:245-320 | `MoveOne` is the census-bounded scan that sends the match and then accepts it |
| ActiveMQScan.DeleteOne | broker-service/adapters/activeMQAdapter.go:376-440 | `DeleteOne` is the census-bounded scan that accepts the match |
| ActiveMQScan.PurgeFrom | broker-service/adapters/activeMQAdapter.go:354-371 | the purge loop stops at the census bound, a timeout, or the first failed accept |
| ActiveMQScan.PurgeFromFacts | broker-service/adapters/activeMQAdapter.go:354-371 | every message received before the stop is accepted; a failed accept is returned with its delivery left held; nothing is released or sent |
| ActiveMQScan.PurgeFacts | broker-service/adapters/activeMQAdapter.go:322-374 | `Purge` reports a setup or census error or the first failed accept; an empty queue is not an error |
| ActiveMQScan.PurgeWith | broker-service/adapters/activeMQAdapter.go:322-374 | the purge loop computes the purge specification |
| ActiveMQScan.Purge | broker-service/adapters/activeMQAdapter.go:322-374 | `Purge` accepts every message the census-bounded loop receives |
| ActiveMQMapDrain.DrainFrom | broker-service/adapters/activeMQAdapter.go:190-213 | the drain makes at most census-many attempts; it reaches the bound exactly when no timeout or receive error stopped it earlier |
| ActiveMQMapDrain.DrainGotStep | broker-service/adapters/activeMQAdapter.go:206-212 | one received message keeps the map a last-wins table of string ids |
| ActiveMQMapDrain.DrainReceiveStep | broker-service/adapters/activeMQAdapter.go:193-212 | one received message keeps the ledger holding exactly the deliveries received |
| ActiveMQMapDrain.DrainFromFacts | broker-service/adapters/activeMQAdapter.go:190-213 | the drain's map keys are exactly the string ids seen, each mapped to the last delivery with it, and every delivery received is held |
| ActiveMQMapDrain.DrainSpecFacts | broker-service/adapters/activeMQAdapter.go:190-213 | the same for the whole drain from the start |
| ActiveMQMapDrain.DrainIntoMap | broker-service/adapters/activeMQAdapter.go:190-213 | the drain loop computes the drain specification |
| ActiveMQMapDrain.SettledKeysStep | broker-service/adapters/activeMQAdapter.go:215-233 | one more id adds itself to the settled ids exactly when it is in the map and goes through |
| ActiveMQMapDrain.ErrorsStep | broker-service/adapters/activeMQAdapter.go:215-233 | one more id adds the error `ErrorFor` predicts |
| ActiveMQMapDrain.FatesStep | broker-service/adapters/activeMQAdapter.go:215-233 | one more id changes the fate of its own delivery only |
| ActiveMQMapDrain.HeldStep | broker-service/adapters/activeMQAdapter.go:215-233 | one more id removes itself from the map exactly when it goes through |
| ActiveMQMapDrain.SentStep | broker-service/adapters/activeMQAdapter.go:215-233 | one more id sends only its own delivery, and only when moving |
| ActiveMQMapDrain.SettleOneStep | broker-service/adapters/activeMQAdapter.go:215-233 | one more id keeps the id loop's invariant |
| ActiveMQMapDrain.SettleAllState | broker-service/adapters/activeMQAdapter.go:215-233 | the id loop keeps its invariant over all the ids |
| ActiveMQMapDrain.SettleAllFacts | broker-service/adapters/activeMQAdapter.go:215-233 | the map loses exactly the settled ids, each settled delivery is accepted and every other keeps its fate, the errors are `ErrorsFor`, and only deliveries from the map are sent |
| ActiveMQMapDrain.SettleTargets | broker-service/adapters/activeMQAdapter.go:215-233 | the id loop handles every id, whatever failed before, and computes the id loop specification |
| ActiveMQMapDrain.ReleaseRemaining | broker-service/adapters/activeMQAdapter.go:235-240 | every delivery still in the map is released, a failed release leaving it held |
| ActiveMQMapDrain.DrainWellFormed | broker-service/adapters/activeMQAdapter.go:190-213 | distinct map keys name distinct received deliveries |
| Amqp.LinksError | broker-service/adapters/activeMQAdapter.go:151-179 | the error of opening the receiver's session, the receiver and, when the operation opens one, the sender, in that order; no error exactly when every link opened, and always an error when the session failed |
| ActiveMQMapDrain.MapThenActWith | broker-service/adapters/activeMQAdapter.go:140-243 | once the census is known, the operation computes the map-then-act specification |
| ActiveMQMapDrain.SettleAndRelease | broker-service/adapters/activeMQAdapter.go:215-240 | the id loop and then the release loop, after the drain's error slot if any |
| ActiveMQMapDrain.Move | broker-service/adapters/activeMQAdapter.go:140-243 | `Move` is map-then-act with sending, bounded by the census of the source queue |
| ActiveMQMapDrain.DeleteMany | broker-service/adapters/activeMQAdapter.go:442-525 | `DeleteMany` is map-then-act without sending, bounded by the census of the queue |
| ActiveMQMapDrain.StopsBeforeIdLoop | broker-service/adapters/activeMQAdapter.go:151-213 | when the operation stops before the id loop, nothing is accepted, released or sent, and exactly one error slot is returned |
| ActiveMQMapDrain.CensusBoundsDrain | broker-service/adapters/activeMQAdapter.go:181-213 | only deliveries below the census are received, and every one of them is in the ledger |
| ActiveMQMapDrain.MapThenActFates | broker-service/adapters/activeMQAdapter.go:140-243 | a delivery that ends accepted is the last one drained with some asked-for id, and was sent first when moving; conversely the map entry of every id the id loop settles ends accepted; a delivery never in the map, or replaced in it, stays held (the fate of a leftover entry is MapThenActReleases) |
| ActiveMQMapDrain.MapThenActReleases | broker-service/adapters/activeMQAdapter.go:235-240 | every map entry the id loop did not settle is released once, unless its release fails |
| ActiveMQMapDrain.DeleteManyErrors | broker-service/adapters/activeMQAdapter.go:501-515 | `DeleteMany` sends nothing, and every error of its id loop is a "Did not find message" for one of the ids |
| ActiveMQMapDrain.NotMovingErrors | broker-service/adapters/activeMQAdapter.go:501-515 | without sends, the id loop's errors are "not found" errors only |
| ActiveMQMapDrain.HappyIdsNoErrors | broker-service/adapters/activeMQAdapter.go:215-233 | distinct ids that were all drained and whose sends and accepts succeed give no errors and are all settled |
| RabbitMQ.WithQueue | broker-service/adapters/rabbitMQAdapter.go:573-595 | replacing one queue's contents leaves every other queue, the routes and the answer streams alone |
| RabbitMQ.DialUrlWithScheme | broker-service/adapters/rabbitMQAdapter.go:113-116 | a broker URL written with "amqp://" gets the credentials right after the scheme |
| RabbitMQ.DialUrlWithoutScheme | broker-service/adapters/rabbitMQAdapter.go:113-116 | a broker URL without the scheme is used as it is, behind the credentials |
| RabbitMQ.NewRabbitMQAdapter | broker-service/adapters/rabbitMQAdapter.go:110-133 | the constructor always returns the adapter and a nil error; it is connected exactly when the dial succeeded |
| RabbitMQ.GetAllQueues | broker-service/adapters/rabbitMQAdapter.go:192-229 | each call consumes one listing answer; decoded entries give one queue each, in order, named as listed with "Size" its message count, and no error; a non-200 answer gives a nil list and no error; any other failure gives a nil list and its error |
| RabbitMQ.GetQueueLength | broker-service/adapters/rabbitMQAdapter.go:426-450 | the loop computes the census of the queue from a listing of its own, and consumes that listing |
| RabbitMQ.LengthFromSkips | broker-service/adapters/rabbitMQAdapter.go:433-447 | the census loop passes over queues with other names |
| RabbitMQ.LengthFromAt | broker-service/adapters/rabbitMQAdapter.go:433-447 | at a listed queue with the name, the census is its message count written with `%d` and parsed back |
| RabbitMQ.LengthFromFirst | broker-service/adapters/rabbitMQAdapter.go:433-447 | the census is the message count of the first listed queue with the name |
| RabbitMQ.LengthFromAbsent | broker-service/adapters/rabbitMQAdapter.go:433-449 | a name not listed has census 0 |
| RabbitMQ.QueueLengthUnlisted | broker-service/adapters/rabbitMQAdapter.go:426-450 | the census is 0 when the listing fails or does not list the name |
| RabbitMQ.QueueLengthFirst | broker-service/adapters/rabbitMQAdapter.go:426-450 | the census is the message count of the first listed queue with the name, since the counts parse back |
| RabbitMQ.Truncated | broker-service/adapters/rabbitMQAdapter.go:57-66 | the get's `truncate` of 50000 keeps a prefix of at most 50000 bytes |
| RabbitMQ.CharLength | broker-service/adapters/rabbitMQAdapter.go:57-66 | the length of the well-formed UTF-8 character a payload starts with (RFC 3629 section 4) is never more than what is left, and an ASCII byte is one character |
| RabbitMQ.AsciiIsUtf8 | broker-service/adapters/rabbitMQAdapter.go:57-66 | ASCII text is well-formed UTF-8 |
| RabbitMQ.Sextet | broker-service/adapters/rabbitMQAdapter.go:57-66 | every base64 alphabet character is ASCII |
| RabbitMQ.Base64 | broker-service/adapters/rabbitMQAdapter.go:57-66 | the base64 text of n bytes (RFC 4648 section 4) has 4 characters per started group of 3, all ASCII |
| RabbitMQ.Base64Vectors | broker-service/adapters/rabbitMQAdapter.go:57-66 | the encoding gives the test vectors "f", "fo" and "foobar" of RFC 4648 section 10 |
| RabbitMQ.PayloadTextIsUtf8 | broker-service/adapters/rabbitMQAdapter.go:57-66 | what the get with encoding "auto" hands out as the payload is always well-formed UTF-8 |
| RabbitMQ.PayloadIntact | broker-service/adapters/rabbitMQAdapter.go:57-66 | a well-formed UTF-8 payload of at most 50000 bytes is handed out whole |
| RabbitMQ.PayloadCut | broker-service/adapters/rabbitMQAdapter.go:57-66 | a longer payload is cut to its first 50000 bytes, which are handed out as they are when well-formed UTF-8 and base64-encoded otherwise |
| RabbitMQ.PayloadEncoded | broker-service/adapters/rabbitMQAdapter.go:57-66 | a payload that is not well-formed UTF-8 is handed out base64-encoded, a third longer |
| RabbitMQ.PayloadTextStable | broker-service/adapters/rabbitMQAdapter.go:57-66 | a payload whose first 50000 bytes are text is handed out the same way a second time |
| RabbitMQ.PublishingHeaderKeys | broker-service/adapters/rabbitMQAdapter.go:521-533 | the publishing carries a header table with exactly MessageID, CorrelationID and Timestamp |
| RabbitMQ.PublishRoundTrip | broker-service/adapters/rabbitMQAdapter.go:521-533 | a message taken by a get and published with routing key `queue` arrives with its three headers and the payload as the get handed it out, and with the adapter's own properties in place of all others |
| RabbitMQ.RepublishIntact | broker-service/adapters/rabbitMQAdapter.go:521-533 | a message with a text payload of at most 50000 bytes comes back unchanged except for its routing key and its other properties |
| RabbitMQ.RepublishStable | broker-service/adapters/rabbitMQAdapter.go:521-533 | republishing a republished text message changes nothing more |
| RabbitMQ.DeliverAppends | broker-service/adapters/rabbitMQAdapter.go:551 | a routed publish appends the message to each queue its exchange routes to and to no other |
| RabbitMQ.SendAmqp | broker-service/adapters/rabbitMQAdapter.go:507-571 | a batch of anything but one message is refused with the count and changes nothing; otherwise the message goes to exchange `queue` with routing key `queue` and the send succeeds exactly on an ack; no send changes the routes or consumes a listing or a get |
| RabbitMQ.SendAmqpRoutes | broker-service/adapters/rabbitMQAdapter.go:507-571 | on success every queue the exchange named `queue` routes to gains the message, published with routing key `queue`, and no other queue changes; an error changes no queue |
| RabbitMQ.UnroutedSendIsLost | broker-service/adapters/rabbitMQAdapter.go:551-567 | an acknowledged publish that the exchange routes nowhere reports success and reaches no queue |
| RabbitMQ.RequeueMessages | broker-service/adapters/rabbitMQAdapter.go:452-461 | each batch is published to the queue in order, and the error is always nil |
| RabbitMQ.DrainQueue | broker-service/adapters/rabbitMQAdapter.go:246-293 | the drain loop runs census-many times and computes the drain specification with the get's payload handout |
| RabbitMQ.FindOneMethod | broker-service/adapters/rabbitMQAdapter.go:241-301 | census, drain, requeue, and a nil error |
| RabbitMQ.MoveOne | broker-service/adapters/rabbitMQAdapter.go:241-301 | `MoveOne` is the census-bounded drain that publishes matches to the destination, with a nil error |
| RabbitMQ.DeleteOne | broker-service/adapters/rabbitMQAdapter.go:335-390 | `DeleteOne` is the census-bounded drain that drops matches, with a nil error |
| RabbitMQ.Move | broker-service/adapters/rabbitMQAdapter.go:231-239 | `MoveOne` once per id, in order, and an empty, non-nil error list |
| RabbitMQ.DeleteMany | broker-service/adapters/rabbitMQAdapter.go:392-400 | `DeleteOne` once per id, in order, and an empty, non-nil error list |
| RabbitMQ.DrainKeepsListings | broker-service/adapters/rabbitMQAdapter.go:246-293 | the drain loop consumes no listing answer |
| RabbitMQ.RequeueKeepsListings | broker-service/adapters/rabbitMQAdapter.go:452-461 | the requeue consumes no listing answer |
| RabbitMQ.FindOneTakesOneListing | broker-service/adapters/rabbitMQAdapter.go:241-244 | `MoveOne` and `DeleteOne` consume exactly one listing answer, the one their census reads |
| RabbitMQ.EachOfTakesOneListingEach | broker-service/adapters/rabbitMQAdapter.go:231-239 | a per-id loop whose step consumes one listing answer consumes the next n answers for n ids |
| RabbitMQ.ForEachIdTakesOneListingEach | broker-service/adapters/rabbitMQAdapter.go:231-239 | `Move` and `DeleteMany` take a fresh census per id: n ids consume the next n listing answers |
| RabbitMQ.GetOneCooperative | broker-service/adapters/rabbitMQAdapter.go:573-595 | with every get succeeding, a get takes the head of the queue, if there is one, and hands it out |
| RabbitMQ.SendCooperative | broker-service/adapters/rabbitMQAdapter.go:507-571 | with every publish acknowledged and the exchange routing to the queue alone, a send appends the message to that queue and changes no other |
| RabbitMQ.DrainStepCooperative | broker-service/adapters/rabbitMQAdapter.go:246-293 | with a cooperative broker, one drain step takes the head of the source, keeps it for the requeue or, when it matches and the destination routes to itself, republishes it there |
| RabbitMQ.DrainedCompose | broker-service/adapters/rabbitMQAdapter.go:246-293 | two drains in a row, the first taking one message, are one drain |
| RabbitMQ.DrainedAfterHead | broker-service/adapters/rabbitMQAdapter.go:246-293 | a drain of the head followed by a drain of k-1 more is a drain of k |
| RabbitMQ.ConsDistributes | broker-service/adapters/rabbitMQAdapter.go:246-293 | the matches and the kept batches of a prefixed list are those of the prefix followed by those of the rest |
| RabbitMQ.DrainCooperative | broker-service/adapters/rabbitMQAdapter.go:246-293 | with a cooperative broker and distinct queues, k drain steps take the first min(k, length) messages off the source; the matches reach the destination, republished, and the others are kept for the requeue, in order; no other queue changes |
| RabbitMQ.RequeueSendCooperative | broker-service/adapters/rabbitMQAdapter.go:507-571 | with every publish acknowledged and the queue's exchange routing to it alone, the send of a one-message batch appends it, as published, to the queue, a batch of any other size changes nothing, and no other queue changes |
| RabbitMQ.RequeueAppends | broker-service/adapters/rabbitMQAdapter.go:452-461 | with every publish acknowledged and the queue's exchange routing to it alone, a requeue of any batches appends what each one-message batch publishes, in order, and changes no other queue |
| RabbitMQ.RequeueDeliversOthers | broker-service/adapters/rabbitMQAdapter.go:452-461 | the batches the drain keeps publish exactly the non-matching messages, republished, in order |
| RabbitMQ.RequeuedCompose | broker-service/adapters/rabbitMQAdapter.go:452-461 | two requeues in a row append what each appended, in order |
| RabbitMQ.RequeueCooperative | broker-service/adapters/rabbitMQAdapter.go:452-461 | with every publish acknowledged and the queue's exchange routing to it alone, the requeue appends each kept message, republished, to the queue, in order, and changes no other queue |
| RabbitMQ.RequeueUnroutedLoses | broker-service/adapters/rabbitMQAdapter.go:452-461 | when the queue's exchange routes nowhere, every message a requeue puts back is lost and no queue changes |
| RabbitMQ.DrainThenRequeue | broker-service/adapters/rabbitMQAdapter.go:241-301 | a drain of the first m messages followed by the requeue of the kept ones leaves the rest of the source followed by the kept ones, and, when moving, the matches appended to the destination; no other queue changes |
| RabbitMQ.DrainRequeueCooperative | broker-service/adapters/rabbitMQAdapter.go:241-301 | a k-step drain of a cooperating broker followed by the requeue of what it kept leaves the source as its rest followed by the non-matching messages among the first min(k, length), republished; when moving the destination gains the matching ones; no other queue changes |
| RabbitMQ.NextListingKeepsQueues | broker-service/adapters/rabbitMQAdapter.go:426-450 | the census's listing request changes no queue, route or get and publish answer |
| RabbitMQ.MoveOneCooperative | broker-service/adapters/rabbitMQAdapter.go:241-301 | with a cooperative broker and each queue's exchange routing to it alone: the source becomes the rest of the queue followed by the non-matching messages among the first census-many, republished, and the destination gains the matching ones, republished, in order; no other queue changes |
| RabbitMQ.DeleteOneCooperative | broker-service/adapters/rabbitMQAdapter.go:335-390 | with a cooperative broker and the queue's exchange routing to it alone, the queue becomes the rest of the queue followed by the non-matching messages among the first census-many, republished; no other queue changes |
| RabbitMQ.FailedGetChangesNothing | broker-service/adapters/rabbitMQAdapter.go:573-595 | a get that fails before reaching the broker takes nothing off the queue |
| Registry.UseTls | broker-service/main.go:78 | TLS is used exactly when the URL contains "amqps:" |
| Registry.EntryFor | broker-service/main.go:49-68 | a definition registers an adapter exactly when it is "amq" and some URL dials, "rabbitmq", or "sqs" and the SQS constructor succeeds; the adapter keeps its definition |
| Registry.Registrations | broker-service/main.go:48-69 | one registration, or none, per definition, in order |
| Registry.BuildAdapters | broker-service/main.go:44-72 | the loop over definitions builds the registry of all the registrations |
| Registry.BuiltLastWins | broker-service/main.go:48-69 | a name is registered exactly when some definition with that name registers, and it holds the adapter of the last one |
| Registry.RabbitAlwaysRegisters | broker-service/main.go:55-59 | every RabbitMQ definition registers its name, whatever its dial does; an unsupported type never does |
| Registry.Startup | broker-service/main.go:18-25 | reading the definitions, building the adapters and then setting "test" gives the start-up registry |
| Registry.StartupFacts | broker-service/main.go:22-25 | "test" is always the mock adapter; every other name comes from a definition with that name, and only "test" holds the mock |
| AdapterManager.ErrorStrings | broker-service/pkg/service/brokerAdapterManager.go:257-264 | the texts of the errors, in order; no errors gives a nil slice |
| AdapterManager.CreateErrorStrings | broker-service/pkg/service/brokerAdapterManager.go:257-264 | the loop appends each error's text to an initially nil slice |
| AdapterManager.ErrorsReply | broker-service/pkg/service/brokerAdapterManager.go:168-174 | a nil list is 200; any other list without nil entries is 500 with the errors' texts; a nil entry is dereferenced and panics |
| AdapterManager.EmptyErrorListIs500 | broker-service/pkg/service/brokerAdapterManager.go:168-174 | a non-nil empty list is answered 500 with a null list of texts |
| AdapterManager.GetAllMessages | broker-service/pkg/service/brokerAdapterManager.go:20-44 | a missing queue name, a missing broker name and an unknown broker are refused 400, in that order; then the adapter's error is 500 and its messages are 200 |
| AdapterManager.GetAllQueues | broker-service/pkg/service/brokerAdapterManager.go:61-80 | refused 400 with a null payload exactly when the broker name is missing or unknown |
| AdapterManager.PurgeFromQueue | broker-service/pkg/service/brokerAdapterManager.go:82-106 | refused 400 exactly when the queue name or broker name is missing or the broker is unknown; a missing name gives a null payload |
| AdapterManager.DeleteMessageFromQueue | broker-service/pkg/service/brokerAdapterManager.go:108-138 | refused 400 exactly when the queue, broker or message id is missing or the broker is unknown |
| AdapterManager.MoveMessage | broker-service/pkg/service/brokerAdapterManager.go:177-212 | refused 400 exactly when the queue, destination, broker or message id is missing or the broker is unknown; the queues may be equal |
| AdapterManager.DeleteMessagesFromQueue | broker-service/pkg/service/brokerAdapterManager.go:140-175 | a body that cannot be read or decoded is 500 before any parameter is checked; then 400 exactly when the queue or broker is missing or unknown |
| AdapterManager.MoveMessages | broker-service/pkg/service/brokerAdapterManager.go:214-255 | the body is checked first, as for deletes, then queue, destination and broker |
| AdapterManager.MoveWithEmptyErrorsIs500 | broker-service/pkg/service/brokerAdapterManager.go:246-251 | an adapter that returns an empty, non-nil error list has the move answered 500 |
| AdapterManager.ChecksPrecedeTheAdapter | broker-service/pkg/service/brokerAdapterManager.go:82-138 | a request refused by the parameter checks gets the same answer whatever the adapters do |
| AdapterManager.GetAllBrokers | broker-service/pkg/service/brokerAdapterManager.go:46-59 | an empty registry is 500; otherwise 200 with one broker per registered name, each with only its name |
| MessageView.DedupSnoc | broker-mobile-ionic/src/app/message/message.component.ts:142-148 | a name already seen is skipped, and a new one is appended |
| MessageView.FirstIndex | broker-mobile-ionic/src/app/message/message.component.ts:142-148 | the first position of a name in the stream of header names |
| MessageView.DedupFacts | broker-mobile-ionic/src/app/message/message.component.ts:135-158 | the header names hold each name of the messages exactly once, in the order of first occurrence |
| MessageView.FirstIndexPrefix | broker-mobile-ionic/src/app/message/message.component.ts:140-158 | more messages do not move a name's first occurrence |
| MessageView.RowsStep | broker-mobile-ionic/src/app/message/message.component.ts:150-156 | a new name goes into the current row, or opens a new row once the current one holds three |
| MessageView.Rows | broker-mobile-ionic/src/app/message/message.component.ts:150-160 | there is always at least one filter row |
| MessageView.RowsFacts | broker-mobile-ionic/src/app/message/message.component.ts:150-160 | the rows hold the names in order, at most three to a row, every row but the last full, max(1, ceil(k/3)) rows |
| MessageView.RowsSnoc | broker-mobile-ionic/src/app/message/message.component.ts:150-156 | one more name fills the last row or starts a new one |
| MessageView.TextLeqTotal | broker-mobile-ionic/src/app/message/message.component.ts:324-335 | the comparison standing for `localeCompare` orders any two texts |
| MessageView.TextLeqTransitive | broker-mobile-ionic/src/app/message/message.component.ts:324-335 | the comparison is transitive |
| MessageView.InOrderTotal | broker-mobile-ionic/src/app/message/message.component.ts:324-335 | in either direction, of two messages one may precede the other |
| MessageView.InOrderTransitive | broker-mobile-ionic/src/app/message/message.component.ts:324-335 | in either direction, the order on one column is transitive |
| MessageView.InsertPermutes | broker-mobile-ionic/src/app/message/message.component.ts:324-335 | inserting adds exactly the one message |
| MessageView.InsertElements | broker-mobile-ionic/src/app/message/message.component.ts:324-335 | inserting adds no other message |
| MessageView.InsertSorted | broker-mobile-ionic/src/app/message/message.component.ts:324-335 | inserting into a sorted list keeps it sorted |
| MessageView.SortedCons | broker-mobile-ionic/src/app/message/message.component.ts:324-335 | a message in order before every message of a sorted list can head it |
| MessageView.SortOnFacts | broker-mobile-ionic/src/app/message/message.component.ts:322-340 | the sorted list is a permutation of the list, ordered on the column in the chosen direction |
| MessageView.InsertWithKey | broker-mobile-ionic/src/app/message/message.component.ts:324-335 | inserting into a sorted list places the message after every message with the same key, and moves no other |
| MessageView.SortOnStable | broker-mobile-ionic/src/app/message/message.component.ts:322-340 | the sort is stable: for every key value, the messages with that key come out in their original order |
| MessageView.RemoveAllFacts | broker-mobile-ionic/src/app/message/message.component.ts:234 | unchecking removes every occurrence of the id and keeps every other entry with its multiplicity |
| MessageView.RemoveEachFacts | broker-mobile-ionic/src/app/message/message.component.ts:305-309 | unchecking all messages removes every one of their ids and keeps every other id with its multiplicity |
| MessageView.RemoveEachKeepsOut | broker-mobile-ionic/src/app/message/message.component.ts:305-309 | unchecking never brings back an id that was not selected |
| MessageView.RemoveAllSubset | broker-mobile-ionic/src/app/message/message.component.ts:234 | unchecking keeps only ids that were selected |
| MessageView.PruneFacts | broker-mobile-ionic/src/app/message/message.component.ts:248 | pruning keeps exactly the messages whose id is not selected, with their multiplicity |
| MessageView.HeaderLayout | broker-mobile-ionic/src/app/message/message.component.ts:135-160 | the loop gives the de-duplicated header names and their rows |
| MessageView.AddHeaderKey | broker-mobile-ionic/src/app/message/message.component.ts:142-157 | one pass of the inner loop: a name already seen changes nothing, a new one is recorded once and placed in the current row or, after three, in a new row, keeping names, seen-set, counters and rows in step with their specifications |
| MessageView.AddHeaderKeys | broker-mobile-ionic/src/app/message/message.component.ts:142-157 | one message's header names keep the names, the seen-set, the counters and the rows in step with their specifications |
| MessageView.MessageList.constructor | broker-mobile-ionic/src/app/message/message.component.ts:42-56 | a new component shows nothing, selects nothing (the emptying of the selection in `ngOnInit` included) and is unsorted |
| MessageView.MessageList.SetupFilters | broker-mobile-ionic/src/app/message/message.component.ts:130-162 | the header names, each once in first-seen order, three to a row, and one empty input per name; the messages and the selection are unchanged |
| MessageView.MessageList.UpdateCheckedMessages | broker-mobile-ionic/src/app/message/message.component.ts:229-238 | a checked message's id is appended; an unchecked one's is removed everywhere; nothing else changes |
| MessageView.MessageList.CheckAll | broker-mobile-ionic/src/app/message/message.component.ts:298-311 | the toggle flips, every message takes the new state, and each id is selected or unselected in turn; the filtered list, the sort state, both queue names and the header fields are unchanged |
| MessageView.MessageList.MoveMessages | broker-mobile-ionic/src/app/message/message.component.ts:240-257 | the request is sent exactly when the guard passes and the user confirms; its answer removes the selected messages; every other field is unchanged |
| MessageView.MessageList.DeleteMessages | broker-mobile-ionic/src/app/message/message.component.ts:259-272 | the request is sent exactly when the user confirms; its answer removes the selected messages; every other field is unchanged |
| MessageView.MessageList.Sort | broker-mobile-ionic/src/app/message/message.component.ts:322-340 | direction 1 sorts ascending, 2 descending, anything else resets the sort and leaves the list; the messages, the selection, the toggle, both queue names and the header fields are unchanged |
| MessageView.MessageList.SortBy | broker-mobile-ionic/src/app/message/message.component.ts:316-320 | each click on a column steps the direction to (d+1) mod 3 and sorts on that column accordingly: ascending, descending, then unsorted; the messages, the selection, the toggle, both queue names and the header fields are unchanged |
| AppShell.Assigned | broker-mobile-ionic/src/app/app.component.ts:56-62 | the URL loop leaves the successor of the last segment naming the word, or nothing when none does |
| AppShell.AssignedByLast | broker-mobile-ionic/src/app/app.component.ts:56-62 | the last segment naming the word decides the value |
| AppShell.LastNamed | broker-mobile-ionic/src/app/app.component.ts:56-62 | when segment i is the word and no later one is, the loop ends with the segment after it |
| AppShell.TabFor | broker-mobile-ionic/src/app/app.component.ts:68-85 | whenever the ladder picks a tab, the flags agree with it |
| AppShell.RegexIsContains | broker-mobile-ionic/src/app/app.component.ts:70-76 | the patterns `/\/queues\/+/` and `/\/brokers\/+/` match exactly where "/queues/" and "/brokers/" occur |
| AppShell.OccursShift | broker-mobile-ionic/src/app/app.component.ts:68-85 | a match after the first separator is a match in the text that follows it, shifted |
| AppShell.OccursAtSeparator | broker-mobile-ionic/src/app/app.component.ts:68-85 | a pattern starting with '/' can only occur at a separator of the joined segments |
| AppShell.OccursAtChars | broker-mobile-ionic/src/app/app.component.ts:68-85 | an occurrence is a character-by-character match |
| AppShell.JoinStartsWith | broker-mobile-ionic/src/app/app.component.ts:68-85 | the joined segments begin with a slash-free word exactly when the first segment does |
| AppShell.PrefixWithSlash | broker-mobile-ionic/src/app/app.component.ts:68-85 | a word followed by '/' begins the joined segments exactly when it is the first segment and more follow |
| AppShell.JoinStartsWithSegment | broker-mobile-ionic/src/app/app.component.ts:68-85 | the joined segments begin with "word/" exactly when the first segment is the word and more follow |
| AppShell.SlashAfterFirst | broker-mobile-ionic/src/app/app.component.ts:68-85 | a pattern starting with '/' occurs in "a/rest" at the separator or inside the rest |
| AppShell.LaterJoinStartsStep | broker-mobile-ionic/src/app/app.component.ts:68-85 | a later segment begins the pattern exactly when the second does or a later one of the rest does |
| AppShell.SlashPatternInJoin | broker-mobile-ionic/src/app/app.component.ts:68-85 | "/x" occurs in the joined segments exactly when the segments from some later position on begin with x |
| AppShell.SlashWordInJoin | broker-mobile-ionic/src/app/app.component.ts:68-85 | "/word" occurs exactly when some later segment begins with the word |
| AppShell.SlashSegmentInJoin | broker-mobile-ionic/src/app/app.component.ts:68-85 | "/word/" occurs exactly when some inner segment is the word |
| AppShell.TabBySegments | broker-mobile-ionic/src/app/app.component.ts:68-85 | the ladder on the URL's text is the same ladder on its segments |
| AppShell.SlashWordInUrl | broker-mobile-ionic/src/app/app.component.ts:68-85 | "/word" occurs in a URL exactly when some later segment of its split begins with the word |
| AppShell.SlashSegmentInUrl | broker-mobile-ionic/src/app/app.component.ts:68-85 | "/word/" occurs in a URL exactly when some inner segment of its split is the word |
| AppShell.SplitJoin | broker-mobile-ionic/src/app/app.component.ts:56 | splitting joined slash-free segments gives the segments back |
| AppShell.NotStartsWith | broker-mobile-ionic/src/app/app.component.ts:68-85 | a text that differs from a word at some position does not begin with it |
| AppShell.RouteBrokers | broker-mobile-ionic/src/app/app-routing.module.ts:11 | the broker list "/brokers" shows tab 1 and names nothing |
| AppShell.BrokersRoute | broker-mobile-ionic/src/app/app-routing.module.ts:11 | the segments of "/brokers" give tab 1 and name no broker and no queue |
| AppShell.PlainNameFacts | broker-mobile-ionic/src/app/app-routing.module.ts:12-16 | a plain broker or queue name is none of the ladder's words |
| AppShell.RouteBroker | broker-mobile-ionic/src/app/app-routing.module.ts:12 | "/brokers/b" shows tab 2 with broker b, for a plain name b |
| AppShell.BrokerRoute | broker-mobile-ionic/src/app/app-routing.module.ts:12 | the segments of "/brokers/b", for a plain name b, give tab 2, broker b and no queue |
| AppShell.RouteQueues | broker-mobile-ionic/src/app/app-routing.module.ts:13 | "/brokers/b/queues" shows tab 2 with broker b, for a plain name b |
| AppShell.QueuesRoute | broker-mobile-ionic/src/app/app-routing.module.ts:13 | the segments of "/brokers/b/queues", for a plain name b, give tab 2, broker b and no queue |
| AppShell.RouteQueue | broker-mobile-ionic/src/app/app-routing.module.ts:14 | "/brokers/b/queues/q" shows tab 3 with broker b and queue q, for plain names b and q |
| AppShell.RouteMessages | broker-mobile-ionic/src/app/app-routing.module.ts:15 | "/brokers/b/queues/q/messages" shows tab 3 with broker b and queue q, for plain names b and q |
| AppShell.RouteDetails | broker-mobile-ionic/src/app/app-routing.module.ts:16 | the message details page shows tab 3 with broker b and queue q, for plain names b and q |
| AppShell.QueuePage | broker-mobile-ionic/src/app/app-routing.module.ts:14-16 | any page below "/brokers/b/queues/q", for plain names b and q, whose later segments are neither "brokers" nor "queues", shows tab 3 with broker b and queue q |
| AppShell.QueuePageNames | broker-mobile-ionic/src/app/app.component.ts:56-62 | on such a page the URL loop finds broker b and queue q |
| AppShell.BrokerNamedLikeMessages | broker-mobile-ionic/src/app/app.component.ts:68-85 | a broker whose name begins with "messages" (here "messages-eu") opens its queue list on tab 3, with a queue marked selected though none is named |
| AppShell.QueueNamedQueues | broker-mobile-ionic/src/app/app.component.ts:56-62 | on the messages page of a queue named "queues" the loop names the queue "messages", since the segment after the last "queues" wins |
| AppShell.RouteFacts | broker-mobile-ionic/src/app/app.component.ts:56-85 | for slash-free segments, one navigation's tab and names are those computed on the segments |
| AppShell.RouteOutcome | broker-mobile-ionic/src/app/app.component.ts:56-85 | a navigation ends with the tab and the names that its segments give |
| AppShell.Shell.constructor | broker-mobile-ionic/src/app/app.component.ts:27-91 | a new shell selects no broker or queue and shows the brokers tab |
| AppShell.Shell.SelectTabFor | broker-mobile-ionic/src/app/app.component.ts:68-85 | the tab and flags become the ladder's choice, or stay when no rung matches; the names are untouched |
| AppShell.Shell.OnNavigationEnd | broker-mobile-ionic/src/app/app.component.ts:52-86 | the names become the last ones the URL gives (or stay), the filter gets them, and the tab follows the ladder |
| AppShell.Shell.DecomposeUrl | broker-mobile-ionic/src/app/app.component.ts:56-62 | each name becomes the successor of the last "brokers" or "queues" segment that has one, or stays as it was; nothing else changes |

## Left out

- EnvConfig.GetAllConfigValues: the environment is taken to hold only `NAME=value` entries (`WellFormed`), as the operating system reports them. An entry without an '=' is not modelled: Go skips it when its text does not contain the slot prefix, and indexes past the end of the split, a panic, when it does. The same holds for EnvConfig.Updates, EnvConfig.SlotValuesLastWins, EnvConfig.GetAdapterConfigurations and the Configs lemmas, which require `WellFormed`.
- Connections, sessions, links and HTTP requests are not performed.
  - Their outcomes are parameters: the `Peer`, the `Setup`, the console answers, the RabbitMQ answer streams, and the dial results.
  - Timeouts and contexts appear only as the outcomes they cause, and logging is not modelled.
- XML, JSON and RSS decoding are outcomes of the console answers, not parsers.
- On the ActiveMQ peer, a repeated accept, release or send of the same delivery repeats that delivery's outcome. The model has no broker-side redelivery.
- ActiveMQMapDrain.ReleaseRemaining: Go's map iteration order is not modelled. The release loop's result does not depend on it, because each delivery is released at most once.
- AdapterManager.GetAllBrokers: the order of the brokers is not stated, because it is Go's map iteration order. Only the count and the names are stated.
- AdapterManager.ErrorsReply: a nil entry in an error list is modelled as a panic and nothing more. No adapter in the model produces one.
- A nil HTTP response after a transport error is not modelled. It is folded into the transport failure.
- The `Timestamp` of a standard message (`CreationTime`) and the timestamp parsing in `sendMessageAMQP`, which falls back to the current time, are not modelled. They depend on the clock and on time parsing.
- The SQS adapter's internals and the mock adapter's canned data are not modelled. Their registration is modelled; SQS construction is a parameter.
- Echo routing, CORS, the port, `setupRestEndpoints` and `printConfigs` are not modelled. They are wiring and logging.
- RabbitMQ `GetAllMessages` and `Purge` are not modelled. Both are a single management API request whose answer is decoded and passed on, so nothing in them is computed.
- RabbitMQ `sendMessageHTTP` is not modelled. It is unused by the modelled operations.
- After a failed dial, the RabbitMQ adapter is as good as unconnected: publishing on its nil connection panics. The model records `connected` but does not model that panic.
- RabbitMQ.SendAmqp: the publisher, confirm and publish steps are one answer per publish. The confirmation timeout is an outcome (`ConfirmTimeout`), not a clock.
- RabbitMQ.SendAmqp: publishing to an exchange that does not exist closes the channel in the broker; the model treats it as an exchange that routes nowhere. A returned message is not modelled apart from that: the acknowledgement that follows it is what the send reports.
- RabbitMQ.PublishRoundTrip: the `timestamp` property the adapter sets from the parsed header is not modelled, so `Republished` leaves it out of the properties.
- RabbitMQ.GetOne: the payload is taken as bytes and the reported `payload_encoding` is ignored, as the adapter ignores it. The JSON decoding is not modelled: it matches names without regard to case, so the headers published as `MessageID`, `CorrelationID` and `Timestamp` come back as the fields tagged `messageID`, `correlationID` and `timestamp`, and the model reads them back directly.
- ActiveMQConsole.ConvertMessages: every AMQP message is modelled with its header and properties present. In Go they are pointers, and a message lacking either makes the conversion dereference nil and panic; that case is not modelled.
- ActiveMQConsole.ToStandardMessageHeaders: the same; the fixed headers read the header and the properties without a nil check.
- ActiveMQMapDrain.DrainFrom: the same for the id lookup of `Move` and `DeleteMany`, which reads the properties of every message received.
- ActiveMQScan.Advance: the same for the id comparison of `MoveOne` and `DeleteOne`.
- The client's `filterMessages` is not modelled, nor its date filters (they use JavaScript `Date`) or `clearFilters`. The re-filter after pruning in `moveMessages`/`deleteMessages` is therefore not modelled either.
- MessageView.MessageList.Sort: `localeCompare` is stood in for by code-unit lexicographic order (`TextLeq`), a total order. Locale collation is not modelled.
- MessageView.MessageList.Sort: the in-place sort and the sharing of one array between `messages` and `filteredMessages` are not modelled. The two lists are separate values, and the sort is a stable sort (`SortOnStable`) of `filteredMessages` alone.
- MessageView.MessageList.CheckAll: the `isChecked` flag is set on `messages` only. The same objects seen through `filteredMessages` are not updated, because the lists are values.
- MessageView.MessageList.MoveMessages: the confirm dialog and the arrival of the server's answer are parameters. The toasts, the console logging and the server's answer itself are not modelled.
- Fetching messages (`getMessages`, `changeQueue`), modals, `presentModal` and message selection are not modelled. They are view wiring around the broker service.
- The shell's `selectTab`, the sidebar and the dark-theme listener are not modelled. They only set view state.
- MessageView.MessageList.constructor: the fetch in `ngOnInit` is not modelled, and the unset `filteredMessages` and header fields start empty.
- AppShell.Shell.constructor: setting `selectedTab` to 1 at the end of `ngOnInit` is folded into construction.
- AppShell.RouteBroker: proved for plain broker and queue names only (`PlainName`). For other names the shell and the routes disagree, as `BrokerNamedLikeMessages` and `QueueNamedQueues` show.
- AppShell.BrokerRoute: proved for plain broker and queue names only (`PlainName`). For other names the shell and the routes disagree, as `BrokerNamedLikeMessages` and `QueueNamedQueues` show.
- AppShell.RouteQueues: proved for plain broker and queue names only (`PlainName`). For other names the shell and the routes disagree, as `BrokerNamedLikeMessages` and `QueueNamedQueues` show.
- AppShell.QueuesRoute: proved for plain broker and queue names only (`PlainName`). For other names the shell and the routes disagree, as `BrokerNamedLikeMessages` and `QueueNamedQueues` show.
- AppShell.RouteQueue: proved for plain broker and queue names only (`PlainName`). For other names the shell and the routes disagree, as `BrokerNamedLikeMessages` and `QueueNamedQueues` show.
- AppShell.RouteMessages: proved for plain broker and queue names only (`PlainName`). For other names the shell and the routes disagree, as `BrokerNamedLikeMessages` and `QueueNamedQueues` show.
- AppShell.RouteDetails: proved for plain broker and queue names only (`PlainName`). For other names the shell and the routes disagree, as `BrokerNamedLikeMessages` and `QueueNamedQueues` show.
- AppShell.QueuePage: proved for plain broker and queue names only (`PlainName`). For other names the shell and the routes disagree, as `BrokerNamedLikeMessages` and `QueueNamedQueues` show.
- AppShell.QueuePageNames: proved for plain broker and queue names only (`PlainName`). For other names the shell and the routes disagree, as `BrokerNamedLikeMessages` and `QueueNamedQueues` show.
- AppShell.TabFor: regular expressions are not interpreted. The two regular expressions are stated as `MatchesSlashRun` and proved equal to a substring test (`RegexIsContains`).
