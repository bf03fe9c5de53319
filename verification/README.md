# Verified model of the telemetry pipeline

The repository collects telemetry from server management controllers over
Redfish and server-sent events (SSE), hands it to pumps over a message bus and
converts it for other systems. This project models the parts that carry state
and loops, and proves what they keep over all inputs and all runs.

| file | models |
|---|---|
| `SseText`, `SseEvent`, `SseReader`, `SseRoundTrip` | the SSE printer (twice), the incremental parser, and that they are inverse |
| `SseFormat` | the stream format written down without the parser, and the parser against it |
| `EventSource` | connecting with a retry budget, resuming after a break, the reading loop |
| `SourceLifecycle` | the same source under concurrent `Close` calls, as a state machine |
| `RedfishWalk` | the depth-first walk over the resource graph |
| `Listener` | SSE goroutine, bounded channel and consumer, with the restart on each error |
| `Wire`, `Service` | envelopes; request and reply with correlation ids |
| `Databus` | subscribe, broadcast and the pumps' filtered queues |
| `OtelMetrics`, `OtelConservation`, `OtelTable` | grouping and conversion of metrics; the metadata table |
| `Kafka` | the connection cache with its one reconnect |
| `Options`, `Sequences` | shared datatypes and sequence lemmas |

Code that changes state is modelled by classes and methods (`ReadCloser`,
`EventSource`, `RedfishClient`, `BaseClient`, `DataBusService`,
`KafkaMessagebus`); each method is proved against a specification function or
an invariant. Interleavings are modelled as state machines whose steps are the
critical sections and channel operations of the source; a run is any finite
sequence of enabled steps, and the results hold in every state of every run.
Beside what every run keeps, each machine has lemmas that its steps lead where
they should: a call whose reply arrives returns it, a broken stream is restarted,
a broadcast group reaches a subscribed pump.

Six promises hold only under a condition. Each condition is proved exact; the
further lemmas named show inputs on which the promise fails:

- Printing and parsing are inverse exactly for events whose ID and Name hold no
  line feed and whose ID, Name and Data lines do not end in a carriage return
  (`SseRoundTrip.RoundTrip`, `SseRoundTrip.LineFeedLost`).
- Asking a server to resume after the last event returned leads to the right
  place at every position exactly when every event has its own non-empty id
  (`EventSource.ResumesExactly`, `EventSource.SharedIDRepeats`).
- The retry budget is a limit for `0 < maxRetries < 65535`
  (`EventSource.GivesUpExactly`). Zero means no limit by design; at 65535 the
  `uint16` counter wraps before it exceeds the limit, so refusals never end the
  loop (`EventSource.NeverGivesUp`).
- The walk panics exactly when a reachable resource has an `@odata.id` that is
  not a string (`RedfishWalk.RedfishClient.Walk`, `RedfishWalk.BadServicePanics`).
- The metadata table depends on the iteration order of a Go map exactly when two
  sections define one key differently (`OtelTable.OrderIndependence`,
  `OtelTable.ClashingDependsOnOrder`).
- A Kafka send returns nil without having written exactly when the topic has no
  connection and the dial yields neither a connection nor an error
  (`Kafka.SilentLoss`, `Kafka.LostMessage`).

One more point where the code decides by map order: the attributes of an OTLP
scope are those of whichever convertible metric of the FQDD the iteration meets
first (`cmd/otelpump/otelpump.go:491-500`). `OtelMetrics.ScopeOf` promises no more:
the ids of a scope may come in any order, and the attributes are those of the
first.

## Model

| member | source | states |
|---|---|---|
| SseText.JoinSplit | internal/sse/event.go:26-32 | splitting Data at line feeds loses nothing: joining the pieces gives it back, and no piece holds a line feed |
| SseText.TerminatedUnlines | internal/sse/read_closer.go:51-62 | the parser sees each printed line once, in order, without its line end |
| SseText.TerminatedPrefix | internal/sse/read_closer.go:51-62 | the complete lines of a truncated stream are the first lines of the whole |
| SseText.AtoiItoa | internal/sse/read_closer.go:117-121 | every int64 printed in decimal is read back as itself |
| SseText.AtoiExactly | internal/sse/read_closer.go:117-118 | a value is read as a number if and only if it is digits with or without a sign that stand for an int64, and as that number |
| SseText.WrapCongruent | internal/sse/read_closer.go:120 | a product that leaves int64 keeps its value modulo 2^64 |
| SseEvent.Encode | internal/sse/event.go:19-37 | the loop yields the block of lines that stands for the event |
| SseEvent.Write | internal/sse/event.go:39-73 | on success exactly the bytes of Encode have been added, on failure a prefix of them, for a writer failing at any call after any number of bytes; a writer that never fails makes it succeed |
| SseEvent.WriteData | internal/sse/event.go:55-67 | the data loop stays within the block and on success ends at its last data line |
| SseReader.ReadCloser.Close | internal/sse/read_closer.go:29-39 | the first call closes the source and returns what that returned; every later call returns the already-closed error and changes nothing |
| SseReader.ReadCloser.Next | internal/sse/read_closer.go:41-124 | reassembles fragments and returns exactly the next event of the lines ahead with the id and rest that go with it; on a read error returns it with the empty event and leaves lastID alone |
| SseReader.IgnoredLine | internal/sse/read_closer.go:86-122 | a comment, an unknown field or a retry that is no number, anywhere in a stream, changes neither its events nor the final id |
| SseReader.DatalessBlock | internal/sse/read_closer.go:67-72 | a block that ends before it had data is no event; its id, name and retry go into the next block |
| SseReader.ScanMore | internal/sse/read_closer.go:51-84 | an event once complete is not affected by what follows it |
| SseReader.EventsPrefix | internal/sse/read_closer.go:41-124 | more lines never take back an event; an unfinished event has not moved lastID |
| SseReader.PartialLine | internal/sse/read_closer.go:51-62 | a last line without its line feed completes no event and moves no id |
| SseReader.TruncatedText | internal/sse/read_closer.go:41-124 | the events of the first n bytes of any text are a prefix of its events, and lastID is what the whole text had after those |
| SseReader.FragmentationIrrelevant | internal/sse/read_closer.go:51-62 | however ReadLine cuts lines into fragments, and whether or not it hands out the unclosed rest, events and final id are the same |
| SseReader.TruncatedStream | internal/sse/read_closer.go:41-124 | any byte stream cut at any byte yields a prefix of its events, and lastID as the whole stream had it after those |
| SseRoundTrip.RetryParsed | internal/sse/read_closer.go:117-121 | a printed Retry comes back truncated toward zero to whole milliseconds, for every int64 |
| SseRoundTrip.TruncatedTowardZero | internal/sse/event.go:22-24 | what the printer drops of Retry is less than a millisecond, toward zero for negative values too |
| SseRoundTrip.BlockReceived | internal/sse/read_closer.go:41-124 | one printed block, whatever follows it and whatever lastID was, parses to the event less the carriage returns its lines end in |
| SseRoundTrip.LineFeedLost | internal/sse/event.go:19-20 | an event with a line feed in ID or Name never comes back as it was |
| SseRoundTrip.RoundTrip | internal/sse/read_closer.go:41-124 | for every event, lastID and fragmentation: parsing the printed event gives exactly that event if and only if ID and Name hold no line feed and neither they nor a data line end in a carriage return |
| SseRoundTrip.StreamRoundTrip | internal/sse/read_closer.go:41-124 | repeated Next over a printed stream returns exactly that stream |
| SseRoundTrip.CutBlock | internal/sse/read_closer.go:66-84 | a block cut anywhere before its last byte yields nothing |
| SseRoundTrip.CutStream | internal/sse/read_closer.go:41-124 | a printed stream cut at any byte yields exactly the events whose blocks arrived whole |
| SseFormat.EveryLineHasForm | internal/sse/read_closer.go:86-107 | every non-empty line is a comment, a field with or without the space, or a bare field name |
| SseFormat.LineRead | internal/sse/read_closer.go:93-107 | the parser takes each such line apart into the field and value it was written with; only one leading space is dropped, and only a space |
| SseFormat.BlockMeaning | internal/sse/read_closer.go:67-122 | one block of lines in any form and order: its data lines joined by line feeds, the last id, name and valid retry it gives, a missing id inherited; without data its lines count for the next block |
| SseFormat.StreamRead | internal/sse/read_closer.go:41-124 | repeated Next over any lines returns what their blocks mean, one after the other; an unfinished rest adds nothing |
| SseFormat.EveryStreamHasBlocks | internal/sse/read_closer.go:67-72 | any sequence of lines can be cut into such blocks and a rest |
| SseFormat.WireLines | internal/sse/read_closer.go:51-62 | lines ended by "\n" or "\r\n", mixed at will, are read as written |
| SseFormat.ReadsAnyForm | internal/sse/read_closer.go:41-124 | bytes written by any server in any of these forms, in any fragments, give exactly the events it meant |
| SseFormat.PrintedSample | internal/sse/event.go:19-37 | the lines printed for one event that has everything |
| EventSource.Budget | internal/sse/event_source.go:203-254 | establishConnection ends where an independent count of refused requests says, from any counter that agrees with that count |
| EventSource.GivesUpExactly | internal/sse/event_source.go:203-254 | that ending is the only one: a transport error at exactly the (maxRetries+1)-th refusal, 500/502/503/504 answers never counting, a 200 or another status at once, ErrSourceClosed exactly when a wait finds the source closed |
| EventSource.Settles | internal/sse/event_source.go:203-272 | with a limited budget and at most s retriable answers an open source settles within s + maxRetries + 1 requests |
| EventSource.StatusDecides | internal/sse/event_source.go:227-252 | 500, 502, 503 and 504 cost one wait and nothing else; every other status fails the connection at once |
| EventSource.NeverGivesUp | internal/sse/event_source.go:203-272 | with maxRetries 65535 and every request refused the loop ends only when the source is closed |
| EventSource.ResumesExactly | internal/sse/event_source.go:203-208 | resuming after the last id returned leads to the next event at every position of the log if and only if every event has its own non-empty id |
| EventSource.SharedIDRepeats | internal/sse/event_source.go:203-208 | with one id on two events the second is asked for again after it has been returned |
| EventSource.ReplayedEvents | internal/sse/event_source.go:203-208 | whatever text a server uses for the rest of the log, with comments, unknown or missing fields, cut off at any byte: it parses to the next events of the log and nothing else |
| EventSource.PrintedReplay | internal/sse/event.go:19-37 | a server that prints its log with Encode and is cut off at any byte is one of those |
| EventSource.FreshConnection | internal/sse/event_source.go:203-254 | whatever connection is established continues the log right after the last event returned |
| EventSource.NextOfReplay | internal/sse/event_source.go:129-137 | one parsed event advances the position in the log by one and leaves its id for resumption |
| EventSource.Resumes | internal/sse/event_source.go:116-150 | against a server that replays after Last-Event-ID, over any breaks within one call: an event that comes back is the very next of the log, an error keeps the position |
| EventSource.ErrorsMean | internal/sse/event_source.go:116-150 | an EOF error only from a connection in place that ended in EOF, ErrSourceClosed only when the last look found the source closed, transport and status errors only as the ending of an attempt to connect |
| EventSource.Recovers | internal/sse/event_source.go:123-149 | past refusals within the budget, retriable statuses and connections that break too early, Next goes on to the first connection that holds a whole event and returns it, if the source stays open |
| EventSource.RecoversFrom | internal/sse/event_source.go:129-149 | the same from a connection that has just broken off |
| EventSource.NoRequest | internal/sse/event_source.go:129-142 | a connection with a whole event, or one that ended in EOF, leads to no request: the event or the EOF error comes back |
| EventSource.EventSource.WaitForRetry | internal/sse/event_source.go:256-267 | forgets the connection and fails exactly when the source is closed |
| EventSource.EventSource.EstablishConnection | internal/sse/event_source.go:203-254 | the loop with its wrapping counter does what Establish says and hands out a fresh ReadCloser with an empty lastID |
| EventSource.EventSource.EnsureReadCloser | internal/sse/event_source.go:172-201 | hands out the current connection untouched, or the outcome of one attempt to connect; a connection that arrives after Close is not kept |
| EventSource.EventSource.Next | internal/sse/event_source.go:116-150 | a closed source fails at once without a request; otherwise event, error, requests, looks and connection left are those of Answer, to which ErrorsMean, Recovers and NoRequest apply; a connection it leaves is closed; against a replaying server a successful call returns the very next event of the log and a failed one keeps the position |
| EventSource.EventSource.NextLoop | internal/sse/event_source.go:123-149 | the loop alone |
| EventSource.EventSource.Close | internal/sse/event_source.go:152-170 | closes the source; closes its connection unless that was closed before; an error of closing, from either the connection or its body, is returned and leaves the connection in place |
| EventSource.Connect | internal/sse/event_source.go:67-82 | an error and no source exactly when the attempt to connect fails; otherwise a source with that connection, at the start of the log of a replaying server |
| EventSource.ReadUntilError | internal/redfish/redfish.go:521-563 | the loop collects what Next returns call by call up to its first error and ends with that error; against a replaying server that is a gapless piece of the log without repetition |
| SourceLifecycle.StepInv | internal/sse/event_source.go:116-201 | every step of the reader and of Close keeps the ownership invariant |
| SourceLifecycle.NoConnectionLeak | internal/sse/event_source.go:116-201 | in every state of every run each opened body is closed, or in currentReadCloser, or held by the reader opening it; none is closed twice |
| SourceLifecycle.NothingOpenAfterClose | internal/sse/event_source.go:152-201 | once a Close has happened and the reader is out of Next, every body ever opened has been closed exactly once |
| SourceLifecycle.StaysClosed | internal/sse/event_source.go:152-160 | a closed source is never open again |
| SourceLifecycle.NextAfterClose | internal/sse/event_source.go:116-122 | a Next that begins after a Close returns ErrSourceClosed at once and touches nothing |
| SourceLifecycle.ReadsOpenConnection | internal/sse/event_source.go:172-201 | until Close is called the reader reads from the current connection, and it is open |
| SourceLifecycle.BrokenIsClosed | internal/sse/event_source.go:144 | a connection whose read broke is closed before the reader does anything else |
| SourceLifecycle.ClosedMeansClosed | internal/sse/event_source.go:116-201 | Next reports a closed source only after a Close |
| SourceLifecycle.NextReconnects | internal/sse/event_source.go:140-148 | from any idle open state a break leads through closing, forgetting and waiting back to connecting, the old body closed once |
| SourceLifecycle.NextConnects | internal/sse/event_source.go:172-201 | and a connection accepted then is published and delivers |
| SourceLifecycle.CloseCloses | internal/sse/event_source.go:152-170 | Close closes the current connection once and keeps it in place exactly when closing fails |
| SourceLifecycle.ReturnsToIdle | internal/sse/event_source.go:116-150 | the reader leaves Next exactly on the steps that return a result |
| RedfishWalk.PageChildren | internal/redfish/payload.go:123-152 | following every child of a fetched page completes it, and its links lead to reachable pages |
| RedfishWalk.ValueChildren | internal/redfish/payload.go:123-143 | links below a value that is no link itself are those below its children |
| RedfishWalk.PathInside | internal/redfish/redfish.go:291-304 | a set closed under fetchable links that holds the root holds every reachable page |
| RedfishWalk.BadServicePanics | internal/redfish/payload.go:123-132 | a one-page service whose only link is a number meets the condition under which the walk panics |
| RedfishWalk.RedfishClient.WalkUri | internal/redfish/redfish.go:297-304 | adds the page and completes everything it adds; the recursion ends because each fetched page leaves one fewer to fetch |
| RedfishWalk.RedfishClient.WalkPayload | internal/redfish/payload.go:145-152 | walks every child in any order, completing what it adds |
| RedfishWalk.RedfishClient.WalkChild | internal/redfish/payload.go:123-143 | follows a link not yet in the map, descends into what is no link, panics only on a link that is no string |
| RedfishWalk.RedfishClient.Walk | internal/redfish/redfish.go:291-295 | panics exactly when a reachable page has a link that is no string; otherwise the keys are exactly the fetchable URIs reachable from the root, each with its own page and fetched exactly once |
| Listener.StepInv | pkg/redfishread/redfishdevice.go:90-131 | every step of goroutines, channel and consumer keeps token, order and bound |
| Listener.OneRestartToken | pkg/redfishread/redfishdevice.go:90-131 | until the context is cancelled exactly one of active goroutine, queued error and handled error exists, afterwards at most one; every other error has led to exactly one restart |
| Listener.OrderAcrossRestarts | internal/redfish/redfish.go:516-563 | what the consumer handled is, in order, without loss or repetition, a prefix of what the successive streams sent |
| Listener.NothingLostAtRest | internal/redfish/redfish.go:516-563 | when channel and hands are empty the consumer has handled all of it |
| Listener.LateEntries | internal/redfish/redfish.go:516-563 | the count of late reports is the number that entered the channel since the cancellation |
| Listener.QuietAfterCancel | internal/redfish/redfish.go:521-527 | over any stretch of a run after the cancellation at most one more report enters the channel |
| Listener.StreamsRecorded | internal/redfish/redfish.go:521-563 | the streams in these statements are exactly what the sources sent, step by step |
| Listener.FailureIsReported | internal/redfish/redfish.go:430-457 | a goroutine whose start or stream failed does nothing before it has emitted its error event |
| Listener.ReportArrives | internal/redfish/redfish.go:521-563 | a report that parses goes from the stream to the handled ones |
| Listener.BreakLeadsToRestart | pkg/redfishread/redfishdevice.go:90-131 | a broken stream leads through one error event to one new goroutine that can connect |
| Listener.ChannelBound | pkg/redfishread/redfishdevice.go:91-93 | the channel holds at most ten events, and below that no sender waits |
| Listener.GoroutineEnds | internal/redfish/redfish.go:521-552 | a goroutine ends after its error event or at its next look at a cancelled context |
| Wire.ReplyCarries | internal/wire/envelope.go:73-116 | a reply carries its request's id and type; the caller gets exactly the payload or the message put in, an empty message as "request failed" |
| Service.ReplyChannel.TrySend | internal/service/service.go:126-132 | a full channel drops the envelope, otherwise it is appended |
| Service.BaseClient.AddPending | internal/service/service.go:148-151 | registers an empty channel of the call's own under its id |
| Service.BaseClient.HandleReply | internal/service/service.go:125-133 | delivers to the call whose id the envelope carries, and to no other; never waits |
| Service.BaseClient.DeletePending | internal/service/service.go:152-156 | forgets the call's id and no other |
| Service.StepInv | internal/service/service.go:110-174 | every step of calls, network and replying services keeps ids, channels and outcomes right |
| Service.ReplyCorrelation | internal/service/service.go:140-174 | over all runs with lost, late, duplicated and reordered replies a call that returns a payload or remote error returns the content of a reply made for that very request |
| Service.ReplyReachesItsOwnCall | internal/service/service.go:125-133 | no reply made for one call, timed out or not, is ever returned by another |
| Service.PendingIsInFlight | internal/service/service.go:148-156 | Pending holds exactly the ids of calls between registration and delete, at most one envelope each, with that id; it is empty once all calls have returned |
| Service.ArrivalServesCall | internal/service/service.go:125-133 | a reply that arrives for a waiting call always leaves it one to receive |
| Service.ReceiveDecides | internal/service/service.go:162-170 | a call that receives an envelope has the result it stands for in every later state |
| Service.TimeOutDecides | internal/service/service.go:171-173 | a call that runs out of time returns the timeout |
| Service.SendFailureDecides | internal/service/service.go:158-160 | a call whose request could not be sent returns that |
| Service.OnlyThen | internal/service/service.go:158-173 | a timeout, a failed send or a reply is the outcome only after such a step of the call itself |
| Service.CallSucceeds | internal/service/service.go:140-174 | from every reachable state a call can begin, be sent and be answered |
| Service.ReplyIsReturned | internal/service/service.go:118-174 | and its reply, once it arrives, is received and returned, and the id forgotten |
| Databus.SubscribedKeeps | internal/databus/databus.go:155-164 | a subscriber is listed once however often it subscribes, nobody is dropped, nobody else appears |
| Databus.DataBusService.HandleEnvelope | internal/databus/databus.go:123-127 | only SUBSCRIBE changes the receivers |
| Databus.DataBusService.HandleSubscribeEnvelope | internal/databus/databus.go:155-164 | appends the reply queue unless it is empty or listed |
| Databus.DataBusService.SendGroup | internal/databus/databus.go:131-137 | one attempt for each receiver, in order, whatever fails on the way |
| Databus.StepInv | internal/databus/databus.go:120-164 | every step of fan-outs, subscribes, GET replies, bus and pumps keeps the invariant |
| Databus.OtherLine | internal/service/service.go:195-204 | an envelope that is no DATAGROUP, sent to any queue, changes nothing of what any pump will get |
| Databus.PumpSeesBroadcastPrefix | internal/databus/databus.go:194-209 | in every state of every run the groups a pump got are, in order, a prefix of those broadcast to its queue; GET replies and any other envelopes that anyone sends to the queue never show |
| Databus.DrainedPumpHasAll | internal/databus/databus.go:194-209 | once its queues have drained the pump has all of them |
| Databus.EachSendingOnce | internal/databus/databus.go:131-137 | a SendGroup reaches a queue at most once and only if it was subscribed when the SendGroup began; when it is done every such queue, and a subscribed pump whose channels have drained has the group |
| Databus.StartedWith | internal/databus/databus.go:131-137 | a fan-out keeps the group and the receivers it began with, whoever subscribes meanwhile |
| Databus.SendingStarted | internal/databus/databus.go:131-137 | every fan-out was begun by a SendGroup |
| Databus.StaysSubscribed | internal/databus/databus.go:155-164 | once its SUBSCRIBE has passed the hook a queue stays subscribed |
| Databus.FanoutGoesOn | internal/databus/databus.go:131-137 | a fan-out that is not done can go on, and puts its group at the end of the next receiver's queue and nowhere else |
| Databus.PumpTakes | internal/service/service.go:188-212 | a group at the head of an idle line reaches the pump |
| Databus.GetIsAnswered | internal/wire/envelope.go:73-81 | a GET is answered on the queue it names, with its own type and id |
| OtelMetrics.GroupMetricsByFQDDAndMetricId | cmd/otelpump/otelpump.go:430-454 | under every pair of FQDD and metric id exactly its points in input order, and no key without points |
| OtelMetrics.ConvertPoints | cmd/otelpump/otelpump.go:515-544 | numbers pass, texts go through the enum map, the rest is dropped, order kept |
| OtelMetrics.ScopeOf | cmd/otelpump/otelpump.go:477-546 | one metric for every id of the FQDD with points and an entry, provided the report has a time; attributes from the first |
| OtelMetrics.ToOTLPMetrics | cmd/otelpump/otelpump.go:466-553 | one scope for every FQDD that has points, each with exactly its metrics |
| OtelConservation.EntryResolved | cmd/otelpump/otelpump.go:479-490 | an id's own named entry comes first whatever the report is called, then the one under the report's lower-case name |
| OtelConservation.PointConverted | cmd/otelpump/otelpump.go:430-544 | for one value, written out on its raw fields: which point grouping, lookup and conversion together make of it |
| OtelConservation.ResultShape | cmd/otelpump/otelpump.go:466-553 | one scope for every FQDD with a good value; in it exactly one metric for every id that has a good value and an entry, with the entry's name, description, unit and enum and its own points in order; attributes are an entry's with FQDD and time put in |
| OtelConservation.MetricOfId | cmd/otelpump/otelpump.go:466-553 | so in any result an id with a good value and an entry has its metric |
| OtelConservation.Partition | cmd/otelpump/otelpump.go:430-454 | splitting by distinct keys that cover everything loses and repeats nothing |
| OtelConservation.MetricPoints | cmd/otelpump/otelpump.go:515-544 | the points of a metric are exactly those its input values call for, in input order |
| OtelConservation.MetricConservation | cmd/otelpump/otelpump.go:466-553 | when the report time parses the emitted points are, as a multiset, those the input values call for one by one, each under its own FQDD and metric id; the points of each metric are those called for under its two keys, in input order; when the time does not parse, no metric and no point is emitted |
| OtelConservation.PointConservation | cmd/otelpump/otelpump.go:466-553 | of any result of the conversion: all its data points together are, as a multiset, the points the input values call for, or none when the report time does not parse |
| OtelTable.ReadOtelMeta | cmd/otelpump/otelpump.go:236-318 | the loops build the table for some order of the sections |
| OtelTable.MetaDescribes | cmd/otelpump/otelpump.go:262-313 | an entry says what its item says; an attribute comes from the item, else from the section, else from the defaults |
| OtelTable.TableHolds | cmd/otelpump/otelpump.go:262-315 | a key is in the table if and only if an item with name, type and Redfish name goes under it, and its entry describes the last such item of some section |
| OtelTable.OrderIndependence | cmd/otelpump/otelpump.go:236-318 | the table is the same for every order if and only if sections that define the same key define it alike |
| OtelTable.ClashingDependsOnOrder | cmd/otelpump/otelpump.go:236-318 | a file in which two sections name one metric differently has a table that depends on the order |
| OtelTable.KeyDetermines | cmd/otelpump/otelpump.go:306-309 | under the naming rule a table key tells its section and its Redfish name |
| OtelTable.WellNamedIsOrderIndependent | cmd/otelpump/otelpump.go:236-318 | if names shared by sections are listed as repeated and none holds the join character, the order never matters |
| OtelTable.RepeatedIdResolves | cmd/otelpump/otelpump.go:479-490 | a repeated id looked up for a report gives that report's own definition, whatever other sections say |
| OtelTable.PlainIdResolves | cmd/otelpump/otelpump.go:479-490 | a name that is not listed as repeated gives its only section's definition whatever the report is called |
| Kafka.ConnectValid | internal/messagebus/kafka/kafka.go:119-142 | a connect keeps every dialled connection cached or closed, closes none and writes nothing |
| Kafka.DropValid | internal/messagebus/kafka/kafka.go:176-182 | removing a stale connection closes it, once, and forgets the topic; every connection stays cached or closed |
| Kafka.SendKeeps | internal/messagebus/kafka/kafka.go:166-205 | at most two writes, a second only after a stale first on another connection; a nil error means exactly one successful write, the last, unless the dial gave neither connection nor error; after a recovery the topic has the new connection and the old one is closed; other topics are untouched |
| Kafka.OutcomeExactly | internal/messagebus/kafka/kafka.go:166-205 | every outcome, write and cached connection case by case from the cache and the next two dials and writes |
| Kafka.SharedTopic | internal/messagebus/kafka/kafka.go:120 | "/" becomes "_" and nothing else changes; two queues share a topic exactly when they differ only so |
| Kafka.SilentLoss | internal/messagebus/kafka/kafka.go:166-170 | a nil error without any write comes back if and only if the topic has no connection and the dial yields neither a connection nor an error |
| Kafka.LostMessage | internal/messagebus/kafka/kafka.go:166-170 | on a new bus such a dial loses the message |
| Kafka.CloseAllValid | internal/messagebus/kafka/kafka.go:289-302 | after Close every connection ever dialled has been closed exactly once |
| Kafka.HistoryKeepsConnections | internal/messagebus/kafka/kafka.go:119-302 | over any single-threaded history every dialled connection is either cached or closed, and after a final Close all are closed |
| Kafka.KafkaMessagebus.TopicConnect | internal/messagebus/kafka/kafka.go:119-142 | the cached connection, or one dialled now and cached |
| Kafka.KafkaMessagebus.SendMessageWithHeaders | internal/messagebus/kafka/kafka.go:207-254 | does what Send says and so keeps the promises of SendKeeps |
| Kafka.KafkaMessagebus.SendMessage | internal/messagebus/kafka/kafka.go:166-205 | the same without headers |
| Kafka.KafkaMessagebus.Close | internal/messagebus/kafka/kafka.go:289-302 | the loop closes and forgets every cached connection, in any order and whichever fail to close; it returns no error exactly when all closed well, otherwise one that occurred |

## Left out

- HTTP, TLS, message brokers and OTLP export are outcomes of a call or FIFO queues.
- JSON, YAML, RFC 3339 and float parsing, and lower-casing, are arbitrary functions; for a DataGroup decode undoes encode.
- `bufio.Reader.ReadLine` is a contract: its fragments make up the lines, without their `\n` or `\r\n`.
- `int` has 64 bits.
- Time, sleeps and timeouts are steps that may happen at any moment; nothing is said about how soon `Next` returns after `Close`, because its timer may win the select.
- Two concurrent callers of `EventSource.Next` can overwrite each other's connection; one reader is assumed.
- A restarted listener opens a new source, which sends no Last-Event-ID (internal/redfish/redfish.go:516); resumption is a property of one source.
- Unsynchronised access to `ReadCloser.closed` is taken as atomic.
- Bodies and looks at the closed channel in `EventSource` are lists given beforehand, of any finite length; once the looks have run out the source counts as closed, which stands for every run that ends.
- Correlation ids of calls are assumed fresh and not empty; a duplicate would let one call replace another in `Pending`. Commands sent without `Call` may share the empty id.
- A payload that the caller cannot decode: `Call` then returns the decoding error; the model ends at the payload text.
- Replies to GET carry the type "get" (internal/wire/envelope.go:74) and are dropped by the DATAGROUP filter (internal/databus/databus.go:198); nothing is claimed about `DataBusClient.Get`.
- `ListenToQueueFiltered` under a cancelled context; `GetGroup` never cancels it.
- `ListenForLceEvents`, `GetEventsSSE`, `GetLceSSE`, `GetSSEByUri`: the same reading loop without the restart.
- The wording of the error event (idle timeout or connection error) and the five-minute sleep; any pause is allowed before a restart.
- A panic in `ListenForMetricReports` on an event service URI that is no string.
- `GetUri` also records the host name and whether it is IPv6; the walk does not use it.
- `parseReport`, `parseRedfishEvents` and `getValueIdContextAndLabel` only map fields.
- `toOTLPLogs` and `mapSeverity` convert one event at a time.
- Resource attributes, enum metadata entries and the printing of attribute values in `toOTLPMetrics`; a metric keeps its enum map instead.
- The renaming of `_` to `.` in scope attribute names, and non-string attribute or non-integer enum values, on which `readOtelMeta` or the conversion panics.
- `shouldRestartOnErr`: whether an error is restartable is part of the error.
- Concurrent use of the Kafka bus and `RecieveLoop`, which closes a connection that stays cached; `NewKafkaMessageBusFromConn`, which writes to a nil map.
- Prometheus, Victoria, Elasticsearch, Splunk, Influx and Timescale pumps, configuration maps, discovery, user interface and deployment.
