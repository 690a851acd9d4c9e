# Barcode scanner to MQTT bridge — Dafny model

This project models the core of a small service. The service reads lines from
an Intermec barcode scanner over a virtual serial port and publishes them to an
MQTT broker. The core has three parts, and each callback is one discrete,
deterministic step:

- **Line source** (`IntermecScanner`, with the string primitives in `JsString`).
  This is the connection state machine, with states Closed, Online and Closing.
  It also covers `read`, which cleans up each received frame before emitting it
  as an `rx` event. A step maps `(scanner, input)` to `(scanner', events)`.
- **Buffered publisher** (`Publisher`, `Drain`). There is one channel per
  category: error, state, rx, attribution, sampleRequestID and instrumentID.
  Each channel has a topic, a retain flag, a buffer and a limit. `mqttSend`
  publishes a message at once when the broker is connected. Otherwise it buffers
  the message and evicts the oldest entries down to the limit. After a
  reconnection, `mqttSendBuffered` drains the buffers, one message per channel
  per tick.
- **Classifier** (`Classifier`). This is the `rx` listener. It forwards every
  line on the rx channel, then sends at most one derived message. The rules are
  tried in this order: group id (`^(\w\-\w+)$`), then a `CK` prefix, then a JSON
  object whose `type` is `"sample"`. A group id updates the attribution record.

The `Bridge` module wires these parts together the way the listeners in
`scanner/scanner.js` do. It also proves that every step keeps the invariant
`Good`: the channel table is fixed, every buffer is within its limit, and the
scanner is only ever in an entered state.

The broker client becomes a `connected` flag and a list of `Publication`s, in
the order the client is asked to publish them. `JSON.parse` is a parameter
`parse: string -> Option<Json>`, which returns None where the real call would
throw. `JSON.stringify` is a parameter `stringify: Message -> string`. The
wall-clock `utc()` becomes a `now` timestamp passed with each stimulus. The
250 ms timer becomes discrete drain ticks.

## The code as written

The model follows the code as written in the places below. Where a comment in
the code says otherwise, the bullet names that comment:

- `read` removes only the **first** line feed, the first carriage return and
  the first escape (scanner/IntermecScanner.js:71). This is because
  `String.prototype.replace` with a string pattern replaces only one occurrence.
  The comment on line 70 says "deleting any". Later control characters survive
  unless `trim` strips them at the ends. `SanitizeKeepsLaterEscapes` shows that
  a frame with two escapes keeps one.
- A port error on an open connection announces Online, then **Closing**, then
  Closed. The error handler goes through `close()`, which always announces
  Closing first. See `OpenThenPortErrorAnnouncesClosing`.
- The group-id pattern allows exactly **one** word character before the hyphen.
  So `G-42` matches and `AB-1` does not. See `GroupIdExamples`.
- `hasJsonStructure` accepts both objects and arrays. An array never has a
  `type` property, so only an object can be a sample request.
- The open-failure error event puts the literal `'Port Failed to open: '` in
  `payload` and the thrown error in a separate field. This field is `detail` in
  the model.
- A drain tick publishes a shifted entry only if it is truthy. The model keeps
  this rule, so an empty string would be dropped. Serialised messages are never
  empty, and `Good` records that no buffer holds an empty string.
- After a reconnection, a new message can overtake older entries still
  buffered on its channel. `mqttSend` publishes at once while connected
  (scanner/scanner.js:78-79), but `mqttSendBuffered` shifts only one entry per
  channel per tick (lines 92-97). With `[a, b]` buffered, a tick, a send of `c`
  and a second tick publish `a`, `c`, `b` on that topic. On a retained topic
  (rx and attribution, lines 70-71) the broker then keeps `b`, which is older
  than `c`. See `ReconnectSendOvertakesBuffered`.
- The connect handler itself runs one drain tick. So a drain with all buffers
  empty takes one tick, and otherwise it takes as many ticks as the longest
  buffer.

## Model

| member | source | states |
|---|---|---|
| `JsString.AsciiWhitespace` | scanner/IntermecScanner.js:71 | the whitespace `trim()` strips (`IsWhitespace`): on ASCII exactly space, tab, line feed, vertical tab, form feed and carriage return; the escape character is never whitespace |
| `JsString.FirstIndex` | scanner/IntermecScanner.js:71 | the index found holds the character and no earlier index does |
| `JsString.RemoveFirst` | scanner/IntermecScanner.js:71 | `replace(c, '')` deletes exactly the first occurrence of `c`: the result is `s` with that one position cut out, or `s` itself when `c` is absent, and its multiset loses exactly one `c` |
| `JsString.TrimStart` | scanner/IntermecScanner.js:71 | removes the maximal whitespace prefix: the result is a suffix, everything removed is whitespace, and the result does not start with whitespace |
| `JsString.TrimStartKeeps` | scanner/IntermecScanner.js:71 | removing the whitespace prefix loses no non-whitespace character |
| `JsString.TrimEnd` | scanner/IntermecScanner.js:71 | the mirror image of TrimStart for the suffix |
| `JsString.TrimEndKeeps` | scanner/IntermecScanner.js:71 | removing the whitespace suffix loses no non-whitespace character |
| `JsString.Trim` | scanner/IntermecScanner.js:71 | `trim()` yields the infix between a whitespace prefix and a whitespace suffix, and it has no whitespace at either end |
| `JsString.TrimKeepsNonWhitespace` | scanner/IntermecScanner.js:71 | `trim()` keeps every non-whitespace character as often as the string holds it |
| `IntermecScanner.InitialIsClosed` | scanner/IntermecScanner.js:15-21 | a new scanner is Closed and has no port, so `close()` and the port callbacks are not yet possible |
| `IntermecScanner.SetState` | scanner/IntermecScanner.js:62-66 | `setState` changes only the state, keeps the port reference, and announces exactly the new state in one event |
| `IntermecScanner.OpenOk` | scanner/IntermecScanner.js:24-44 | a successful open leaves the scanner Online with a port and emits exactly one state event, Online |
| `IntermecScanner.OpenFail` | scanner/IntermecScanner.js:45-48 | a failed open emits one error event (fixed text, error as a separate field), then the state event Closed, and leaves the port reference as it was |
| `IntermecScanner.Close` | scanner/IntermecScanner.js:52-59 | `close()` always announces Closing first; with the port open it stops there in Closing, otherwise it announces Closed and ends Closed |
| `IntermecScanner.OnPortError` | scanner/IntermecScanner.js:37-40 | a port error emits one error event carrying the error text and then behaves exactly like `close()` |
| `IntermecScanner.OnPortClose` | scanner/IntermecScanner.js:41-43 | the port's close callback makes the state Closed from any prior state and announces it |
| `IntermecScanner.Sanitize` | scanner/IntermecScanner.js:70-71 | the cleaned line has no whitespace at either end and is no longer than the frame |
| `IntermecScanner.SanitizeCounts` | scanner/IntermecScanner.js:71 | the cleaned line is a sub-multiset of the frame; it keeps all escapes but one, has at least one line feed and one carriage return fewer when the frame had any, and keeps every character that is neither whitespace nor an escape exactly as often as the frame has it |
| `IntermecScanner.SanitizeKeepsLaterEscapes` | scanner/IntermecScanner.js:71 | a frame with two or more escapes still contains an escape after clean-up |
| `IntermecScanner.Read` | scanner/IntermecScanner.js:69-76 | no event when the cleaned line is empty; otherwise exactly one rx event whose payload is the cleaned line |
| `IntermecScanner.Step` | scanner/IntermecScanner.js:34-59 | a data frame leaves the scanner alone and yields what `read` yields; every other callback ends by announcing the state it leaves the scanner in; only a successful open acquires a port |
| `IntermecScanner.StepStateIsLastAnnounced` | scanner/IntermecScanner.js:62-66 | after every callback the state equals the last state it announced, or is unchanged if it announced none |
| `IntermecScanner.RunStateIsLastAnnounced` | scanner/IntermecScanner.js:62-66 | the same for any sequence of callbacks |
| `IntermecScanner.OnlyEnteredStatesReachable` | scanner/IntermecScanner.js:41-58 | from Closed, Online or Closing, every run stays in those three states and announces only them |
| `IntermecScanner.InitialReachesOnlyEnteredStates` | scanner/IntermecScanner.js:17 | Opening, Offline and Initializing are never entered or announced |
| `IntermecScanner.CloseIsLastAnnounced` | scanner/IntermecScanner.js:52-59 | `close()` ends in the state it announced last, whether or not the port reports itself open |
| `IntermecScanner.OpenThenPortErrorAnnouncesClosing` | scanner/IntermecScanner.js:37-59 | open, then a port error with the port no longer open, announces Online, Closing, Closed and ends Closed |
| `Publisher.MqttConfig` | scanner/scanner.js:67-74 | six channels, every buffer empty, every topic under the given root, and every channel retained except the error channel |
| `Publisher.MqttConfigIsWellFormed` | scanner/scanner.js:67-74 | the channel table has six channels with empty buffers and distinct topics, is within limits, and the sampleRequestID and instrumentID channels have limit 0 |
| `Publisher.Shed` | scanner/scanner.js:82-84 | the eviction loop leaves the last `min(limit, length)` entries in their original order |
| `Publisher.Send` | scanner/scanner.js:76-86 | connected: exactly one publication on the channel's topic with its retain flag, and no buffer changes; disconnected: nothing is published, only this channel changes, its buffer is the last `limit` entries of old buffer plus message (so at most `limit`, empty for limit 0), and the message is kept whenever the limit is positive |
| `Publisher.SendKeepsWithinLimits` | scanner/scanner.js:81-84 | a send never breaks a buffer bound and never changes topic, retain flag or limit |
| `Publisher.DisconnectedSendsKeepMostRecent` | scanner/scanner.js:80-85 | after any run of sends while disconnected, the channel holds exactly the most recent `limit` messages of old buffer plus new messages, in order, and nothing is published |
| `Drain.ShiftEach` | scanner/scanner.js:92-96 | every channel loses exactly its oldest entry (empty stays empty); the pass reports drained exactly when no buffer had more than one entry; it publishes only on the table's topics |
| `Drain.DrainTick` | scanner/scanner.js:89-98 | disconnected: nothing changes and nothing is scheduled; connected: every buffer is shifted once and a new tick is scheduled exactly when some buffer is still non-empty |
| `Drain.DrainTickKeepsWithinLimits` | scanner/scanner.js:93 | a drain tick never breaks a buffer bound |
| `Drain.ShiftEachPublishesHeads` | scanner/scanner.js:93-94 | with distinct topics and non-empty messages, a tick publishes on each channel's topic exactly that channel's oldest entry, or nothing if its buffer is empty |
| `Drain.MaxLen` | scanner/scanner.js:95-97 | the longest buffer: an upper bound that some channel attains |
| `Drain.DrainFully` | scanner/scanner.js:89-97 | ticks repeated without sends stop after `max(1, longest buffer)` ticks with every buffer empty and the table otherwise unchanged |
| `Drain.DrainPublishesEachOnceOldestFirst` | scanner/scanner.js:92-97 | a full drain publishes every buffered message exactly once, oldest first, on its own channel's topic with its retain flag |
| `Classifier.Property` | scanner/scanner.js:117 | property lookup on a parsed object: absent exactly when no member has the key, otherwise the value of the last member with the key (the last duplicate wins, as in `JSON.parse`) |
| `Classifier.PropertyIsLastBinding` | scanner/scanner.js:117 | the converse: whenever a member is the last with the key, the lookup yields its value |
| `Classifier.DuplicateTypeLastWins` | scanner/scanner.js:117 | `{"type":"sample","type":"x"}` has `type` `"x"`, so it is not a sample request |
| `Classifier.JsonStructure` | scanner/scanner.js:128-137 | `hasJsonStructure` yields the parse result exactly when it is an object or an array |
| `Classifier.StartsWithCk` | scanner/scanner.js:109 | `/^CK/` matches exactly the lines whose first two characters are `CK` |
| `Classifier.IsSampleRequest` | scanner/scanner.js:117 | `sampleIDMatch.type === 'sample'`: true exactly when the parse result is an object whose last `type` member is the string `"sample"` |
| `Classifier.AllWordChars` | scanner/scanner.js:108 | `\w+` over the whole string: true exactly when every character is a word character |
| `Classifier.GroupIdMatch` | scanner/scanner.js:108 | the regex matches exactly the lines of one word character, a hyphen and one or more word characters, and captures the whole line |
| `Classifier.OnRx` | scanner/scanner.js:106-119 | the raw event is always sent first on rx; a second message is sent exactly when a rule matches, in the order group id, `CK`, sample object; a group id sets only `gid` and `utc` of the attribution and sends the updated record; no other line changes the attribution |
| `Classifier.GroupIdAndCkPrefixAreDisjoint` | scanner/scanner.js:108-109 | no line is both a group id and a `CK` line |
| `Classifier.ParseIrrelevantBeforeSampleRule` | scanner/scanner.js:108-119 | for a group-id or `CK` line, the outcome does not depend on what the JSON parser returns |
| `Classifier.StructuredTextOnlyMatchesSampleRule` | scanner/scanner.js:108-110 | a line starting with `{` or `[` can only match the sample rule |
| `Classifier.GroupIdExamples` | scanner/scanner.js:108 | `G-42` matches and captures itself; `AB-1` and `G-` do not match |
| `Bridge.Listen` | scanner/scanner.js:104-106 | error events go to the error channel, state events to the state channel, and rx events through the classifier with the raw event first |
| `Bridge.SendAll` | scanner/scanner.js:107-118 | connected: one publication per message, in order, on each message's channel topic, and no buffer changes; disconnected: nothing is published |
| `Bridge.ListenerSends` | scanner/scanner.js:104-120 | the listeners' sends for a run of events: in total at least one and at most two per event; without rx events the attribution is unchanged |
| `Bridge.MessagesFor` | scanner/scanner.js:76-77 | the serialised messages of a run of sends that go to one channel: never more than there are sends, and each is the serialised message of some send whose category is that channel |
| `Bridge.SendAllAppend` | scanner/scanner.js:76-86 | sending `a + b` is sending `a` and then `b`: the channels end alike and the publications are concatenated |
| `Bridge.DispatchSendsListenerSends` | scanner/scanner.js:104-120 | dispatching a run of events is sending, in order, what the listeners produce for it, threading the attribution from event to event |
| `Bridge.DisconnectedSendAllBuffers` | scanner/scanner.js:80-85 | while disconnected, every channel ends with the last `limit` entries of its old buffer followed by the messages sent to it, with topic, retain flag and limit unchanged |
| `Bridge.Dispatch` | scanner/scanner.js:104-120 | connected leaves buffers alone; disconnected publishes nothing; without rx events the attribution is unchanged (what is published and buffered: `DispatchSendsListenerSends`, `OnStimulusDelivers`) |
| `Bridge.OnStimulus` | scanner/scanner.js:104-120 | one scanner callback plus its listeners: the scanner moves as its step says, buffers are untouched while connected, nothing is published while disconnected, and only data can change the attribution |
| `Bridge.OnStimulusDelivers` | scanner/scanner.js:104-120 | connected: the publications are exactly the immediate publications of every listener send, in emission order; disconnected: each channel keeps the last `limit` entries of its old buffer plus the messages sent to it; the attribution is the one the listeners leave |
| `Bridge.ConnectedCloseAnnouncesClosing` | scanner/scanner.js:105 | while connected, `close()` on an open port publishes exactly the Closing state event on the state topic with its retain flag |
| `Bridge.DisconnectedPortErrorIsBuffered` | scanner/scanner.js:104 | while disconnected, a port error publishes nothing and its error message is in the error channel's buffer afterwards |
| `Bridge.StateSendsSkipOtherChannels` | scanner/scanner.js:105 | state events are sent on the state channel only and leave the attribution alone |
| `Bridge.ReconnectSendOvertakesBuffered` | scanner/scanner.js:76-97 | with `[a, b]` buffered on a channel, a drain tick, a connected send of `c` and a second tick publish `a`, `c`, `b` on that channel's topic, in that order, and leave its buffer empty: the new message overtakes the older buffered one |
| `Bridge.OnDrainTimer` | scanner/scanner.js:89-98 | a drain tick touches only the channels; disconnected it changes nothing and reschedules nothing |
| `Bridge.Start` | scanner/scanner.js:67-74 | the process starts with the fixed table and empty buffers, a Closed scanner without a port, and the `N/A` attribution of line 101, and it satisfies the invariant `Good` |
| `Bridge.SendKeepsGood` | scanner/scanner.js:81-84 | a send of a non-empty message keeps buffers within limits, free of empty strings, and the table fixed |
| `Bridge.OnStimulusKeepsGood` | scanner/scanner.js:76-86 | every scanner callback, with whatever it sends, keeps the invariant: buffers within limits, table fixed, only entered states |
| `Bridge.OnDrainTimerKeepsGood` | scanner/scanner.js:89-98 | every drain tick keeps the invariant |
| `Bridge.UnbufferedChannelsStayEmpty` | scanner/scanner.js:72-73 | in every reachable process state the sampleRequestID and instrumentID buffers are empty, so messages sent on them while disconnected are lost |
| `Bridge.ConnectedRxPublishesRawFirst` | scanner/scanner.js:106-119 | while connected, an rx event is published first on the rx topic, then its derived message, one publication per send, and no buffer changes |

## Left out

- The MQTT client is left out: connecting, the connect/close/offline/reconnect/message handlers, the `edgeState` presence publishes and the last will (scanner/scanner.js:33-64). These are library behaviour. The model reduces the client to the `connected` flag of each step and a list of publications.
- Reconnecting while a drain tick is still pending starts a second chain of ticks. This is not modelled: timers are not state in this model, and each drain tick is an independent step.
- Environment-variable configuration and building the topic root (scanner/scanner.js:19-24) are left out. The root is a parameter of `MqttConfig`.
- The REPL console and `console.log` tracing are left out because they are I/O only.
- Serial port construction, framing parameters and the Readline `\r` splitter (scanner/IntermecScanner.js:27-33) are foreign drivers. Frames arrive as strings. `port.isOpen` is read from the `CloseCalled` and `PortError` inputs.
- The internals of `JSON.parse` and `JSON.stringify` are not modelled. They are the parameters `parse` and `stringify`. The invariant lemmas assume `stringify` never returns an empty string.
- The wall-clock `utc()` is not modelled. One `now` timestamp stamps every event of a step, while the code calls `utc()` once per event.
- JavaScript strings are UTF-16 code units, but Dafny `char` is a Unicode scalar value. `trim`'s whitespace set is written out as code points. JSON numbers are Dafny `real`s, so floating point is not modelled.
- EventEmitter dispatch is left out. Emitted events form an output sequence, and listeners are called in emission order.
- `IntermecScanner.Enabled` makes `close()` and the port callbacks require a port object, so `close()` before any successful open is not modelled. In the code, `close()` first calls `setState('Closing')` (scanner/IntermecScanner.js:53) and only then reads `this.port.isOpen` (line 54). So Closing is announced and the state listener sends it on the retained state channel (scanner/scanner.js:105). The scanner is left in Closing, and only then does the call throw a TypeError, because `this.port` is null.
- `Drain.ShiftEachPublishesHeads` and `Drain.DrainPublishesEachOnceOldestFirst` describe publications topic by topic. They assume distinct topics and no empty messages, as the channel table and `stringify` guarantee. They do not restate the order across channels within one tick. That order is the table order in `ShiftEach`.
