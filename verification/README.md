# Remote driving: a verified model

The system drives a vehicle from a cockpit over WebRTC. A signalling server introduces the two sides, C++
clients on both sides keep peer connections and safety state, and a browser shows the video. This project
models the five parts that carry the protocol logic and proves what they keep over every input and every run.

* **Signalling codec** (`SignalSearch`, `SignalLayout`, `Signaling`, `SignalRoundTrip`, `SignalQuotes`,
  `SignalText`, on `Text` and `Decimal`). The printer concatenates without escaping and the parser looks for
  the first `"key":` in the raw text. Cutting a text at its double quotes turns both searches into scans over
  the pieces, which settles what they find on any rendered field list, exactly when printing and parsing
  round-trip, and what is left of a message that holds double quotes.
* **Peer-connection manager** (`PeerManager`, `PeerLifecycle`, `PeerBookkeeping`, `PeerBuffer`,
  `PeerProvenance`, `PeerEffects`, `PeerAnswers`, `PeerClosing`, `PeerReuse`). Each compare-and-swap and each
  body under the mutex is one atomic step; connection creation, the answer to SetRemoteDescription, callbacks,
  clock readings and the wiring of a signalling client are the environment's. Proved: the lifecycle over every
  interleaving of threads, the bookkeeping of the five maps, where every call on a connection comes from, the
  buffer of remote candidates, which section 4.1.19 of RFC 8829 forbids to hand over before a remote
  description, the answers to offers, and what is called on a closed connection.
* **Session table and router** (`SessionManager`, `SessionHistory`, `SessionDelivery`, `SessionAnswers`). The
  tables are compared with predicates on the event history alone; what each message sends, and to whom, is
  told by the same history.
* **Browser candidate queue** (`VideoPlayer`). Each stretch between two awaits is one step and suspended calls
  resume in any order.
* **Safety state machines** (`VehicleRuntime`, `CockpitRuntime`, `Timeline`, `RemoteDriving`,
  `CommandSurface`). Invariants over every event sequence, the meaning of the recorded timelines, the two
  machines driven together, and the text commands in front of the cockpit. That both see the same connectivity
  events, and that the vehicle gets a command exactly when the cockpit accepts it, is assumed from line 29-30
  of the repository's own README.md.

Where the source works by updating state, a class with its fields updates state here, and every method is
proved equal to a step of a state machine on values (`View() == Step(old(View()), e)`); the theorems are
about that state machine.

What the proofs turned up:

* A message does not survive printing and parsing if a printed string holds a double quote, or if it has a
  mid or m-line index but no candidate (`SignalRoundTrip.RoundTripsExactlyWhen`). What was printed before the
  first double quote is still read back (`SignalQuotes.ReadUpToFirstQuote`).
* `signaling/signaling_message.h:45` promises an empty result for a text that cannot be parsed; the code
  never returns one, but a message, be the text JSON or not. Its type is UNKNOWN exactly when no string is
  found for the type or one that names no other type (`SignalRoundTrip.UnknownExactlyWhen`).
* stop tries Running first and Initialized second. When the first try failed, it returns with the manager
  running exactly when a start passed its gate in between and, since then, no other stop passed one and no
  start failed (`PeerLifecycle.StopGivesUpExactlyWhen`).
* A manager ends up stopped without having closed its connections exactly when no stop passed its gate; it
  was a failing start that stopped it then (`PeerLifecycle.ClearedExactlyWhen`). Every start fails without a
  signalling client; if no stop has passed its gate before, it strands every connection there is
  (`PeerLifecycle.FailedStartStrands`).
* LEAVE and disconnectFromPeer close a connection that stays stored, and exactly the connections they closed
  are closed a second time when they go (`PeerClosing.CalledAfterCloseExactlyWhen`). In between, the closed
  connection is used exactly when the peer sends an offer or answer with a description, or a complete
  candidate while a description is flagged as set (`PeerReuse.UsedAfterCloseExactlyWhen`; runs in
  `PeerClosing.OfferAfterLeave` and `PeerReuse.CandidateAfterDisconnect`).
* In the browser a candidate that arrives during the flush overtakes the queued ones that are left
  (`VideoPlayer.LateCandidateOvertakes`, exactly when is `VideoPlayer.OrderKeptExactlyWhen`); the C++ buffer
  keeps the order.
* A network drop puts the vehicle, but not the cockpit, into an emergency; the cockpit is then CONNECTED and
  refuses RECOVER_AUTO, so that it takes an EMERGENCY_STOP first to drive again
  (`RemoteDriving.NetworkDropStrandsVehicle`; exactly when this happens is
  `RemoteDriving.StrandedExactlyWhen`).

`dafny verify dfyconfig.toml` checks the whole project.

## Model

| member | source | states |
|---|---|---|
| `SignalRoundTrip.RoundTripsExactlyWhen` | signaling/signaling_message.cc:59-210 | a message survives printing and parsing if and only if no member holds a double quote and, without a candidate, it has neither mid nor m-line index |
| `SignalRoundTrip.RoundTrip` | signaling/signaling_message.cc:59-210 | whenever the members that are printed hold no double quote, parsing the printed text returns them all, for every 32-bit m-line index; absent members are not found by accident |
| `SignalRoundTrip.ParseOfRender` | signaling/signaling_message.cc:178-210 | on the text of any field list, nested to any depth, whose keys and strings hold no double quote, the parser returns for each member the first field in text order that carries its key, and `sdpMlineIndex` wins over `sdpMLineIndex` |
| `SignalRoundTrip.NestedParsesAsFlat` | signaling/signaling_message.cc:198-210 | opening an object in place, so a nested against a flat candidate, does not change the parsed message, unless the object stands under an m-line key, where it hides the index |
| `SignalRoundTrip.OrderIsFree` | signaling/signaling_message.cc:176-210 | two texts with the same set of unambiguous fields, in any order and nesting, parse to the same message |
| `SignalRoundTrip.SpellingIsFree` | signaling/signaling_message.cc:205-210 | a lone m-line index is read alike under either spelling, whatever surrounds it |
| `SignalRoundTrip.FoundIsQuoteFree` | signaling/signaling_message.cc:151-160 | on any text at all, a found string has no double quote |
| `SignalRoundTrip.ParsedIsQuoteFree` | signaling/signaling_message.cc:178-203 | on any text at all, no string of the parsed message has a double quote |
| `SignalRoundTrip.UnknownExactlyWhen` | signaling/signaling_message.cc:178-180 | on any text at all, the parsed type is UNKNOWN if and only if no string is found for it or the string names none of the other five types |
| `SignalText.PrintedText` | signaling/signaling_message.cc:59-89 | the text of every message, character by character: which keys it carries, in which order, and that the mid and both spellings of the m-line index stand inside the candidate object |
| `SignalText.BothSpellings` | signaling/signaling_message.cc:73-79 | a reader of either spelling finds the m-line index in the text of every quote-free message with a candidate and an index |
| `SignalText.MembersAreFound` | signaling/signaling_message.cc:178-210 | each member of the parsed message is what is found under its key; without a find a required string is empty and an optional one absent; `sdpMlineIndex` decides over `sdpMLineIndex` unless it holds no int |
| `SignalQuotes.QuotedSearchOfAnyRender` | signaling/signaling_message.cc:151-160 | on the text of any field list, whatever its strings hold, the string search returns the first field with the key up to its first double quote, provided no double quote comes before that field |
| `SignalQuotes.ReadUpToFirstQuote` | signaling/signaling_message.cc:59-210 | for every message, whatever its strings hold: the type is read back; in printing order, the members before the first that holds a double quote are read back, the m-line index included, and that one is read up to its first double quote |
| `SignalLayout.QuotedSearchOfRender` | signaling/signaling_message.cc:151-160 | the string search on a rendered field list returns exactly the first string field with the key: its token matches inside no value, at no closing quote and not at a nested object |
| `SignalLayout.IntSearchOfRender` | signaling/signaling_message.cc:162-174 | the integer search on a rendered field list is decided by the first field with the key and returns its number, or nothing if it is no number or no 32-bit one |
| `SignalSearch.QuotedSearchIsScan` | signaling/signaling_message.cc:151-160 | on every text, seen as its pieces between double quotes, the substring search finds the piece two after the first piece equal to the key that a lone colon follows |
| `SignalSearch.IntSearchIsScan` | signaling/signaling_message.cc:162-174 | the same for the integer search: it reads the text after the first piece equal to the key that a colon follows, up to a comma or brace |
| `SignalSearch.SplitJoins` | signaling/signaling_message.cc:151-160 | every text is the join of its pieces, none of which holds a double quote, so the two searches above are described on all inputs |
| `Decimal.StoiOfToString` | signaling/signaling_message.cc:75-78 | reading back a printed integer returns it exactly when it fits an `int`, INT_MIN included, and throws otherwise |
| `Decimal.StoiReads` | signaling/signaling_message.cc:169-173 | on any text: leading space is skipped, one sign is allowed, the digits that follow are read whatever comes after them, and it throws exactly when there are none or their value is no 32-bit int |
| `Decimal.PrintedExactly` | signaling/signaling_message.cc:75-78 | an integer is printed as the one numeral of its value that has no superfluous zero or sign |
| `Decimal.ValueIsPositional` | signaling/signaling_message.cc:169-173 | the value that is read is positional in base ten |
| `Signaling.TypeNamesRoundTrip` | signaling/signaling_message.cc:24-57 | each type name is read back as its type, and nothing but the six names is read as a type other than UNKNOWN |
| `Signaling.SerializeSignalMessage` | signaling/signaling_message.cc:59-89 | the string built by appending is the rendering of the message as a field list |
| `Signaling.AppendOptional` | signaling/signaling_message.cc:68-72 | appending an optional string member extends the rendered list by that field, or by nothing |
| `Signaling.AppendMline` | signaling/signaling_message.cc:73-79 | appending the m-line index extends the rendered list by both spellings |
| `Signaling.AppendCandidate` | signaling/signaling_message.cc:69-81 | the nested text, from its comma to its brace, extends the rendered list by one object field |
| `Signaling.DeserializeSignalMessage` | signaling/signaling_message.cc:148-215 | the message assembled step by step is the one the searches determine; the result is never empty |
| `PeerBuffer.BufferIsCorrect` | webrtc/webrtc_manager.cc:482-565 | in every run, for every peer with a connection: the candidates handed to it since its creation or the last LEAVE, followed by the queue, are the complete CANDIDATE messages of that period in arrival order; none is handed over before a remote description was set in the period; the flag holds exactly when one was, and then the queue is empty |
| `PeerBuffer.AlwaysRight` | webrtc/webrtc_manager.cc:482-565 | the inductive form of the buffer property, over every interleaving of messages, callbacks, sweeps, connects, disconnects and lifecycle calls |
| `PeerBuffer.DescribeBuffers` | webrtc/webrtc_manager.cc:488-546 | setting a description hands over the whole queue in order after it, or nothing if the description is refused |
| `PeerBuffer.AcceptBuffers` | webrtc/webrtc_manager.cc:547-566 | a complete candidate is queued or handed over, so that it comes last of what was received |
| `PeerBuffer.LeaveBuffers` | webrtc/webrtc_manager.cc:479-487 | LEAVE starts a new period with an empty buffer on the connection that stays stored |
| `PeerBuffer.CreateBuffers` | webrtc/webrtc_manager.cc:645-665 | a connection created on a message starts with an empty buffer, even over stale entries |
| `PeerBuffer.ConnectBuffers` | webrtc/webrtc_manager.cc:179-281 | connectToPeer resets no buffer, yet starts with an empty one, because a running manager has not cleared its connections |
| `PeerProvenance.CallsComeFromMessages` | webrtc/webrtc_manager.cc:459-585 | in every run, every call on every connection ever created has its cause: a candidate handed over is, field by field, one its peer sent; a description is that of an OFFER set as "offer" or an ANSWER set as "answer", with what the connection answered; an offer comes from connectToPeer, an answer from an accepted offer |
| `PeerProvenance.QueueComesFromMessages` | webrtc/webrtc_manager.cc:547-566 | in every run, each queued candidate is, field by field, one its peer sent while the connection now stored for it was stored |
| `PeerEffects.ConnectionsExactlyWhen` | webrtc/webrtc_manager.cc:172-887 | in every run a connection is stored for a peer exactly by connectToPeer on a running manager or an offer, answer or candidate, complete or not, if there is none and one can be created; it is taken away exactly by a disconnected, failed or closed state, a heartbeat check that finds the peer silent, or the locked body of stop |
| `PeerEffects.DescriptionsAreSet` | webrtc/webrtc_manager.cc:488-546 | in every run an OFFER is set as "offer" and an ANSWER as "answer", each with its own description; accepted, it is followed by the queue in order and, for an offer only, by the answer, and the flag is raised; refused, the queue and the flag stay |
| `PeerEffects.CandidatesAreTaken` | webrtc/webrtc_manager.cc:547-566 | in every run a complete CANDIDATE is taken field by field: queued last, or handed over at once if a description is flagged as set |
| `PeerEffects.UselessDoesNothing` | webrtc/webrtc_manager.cc:475-573 | JOIN and UNKNOWN do nothing; an incomplete offer, answer or candidate creates a missing connection and makes no call |
| `PeerEffects.LeaveForgets` | webrtc/webrtc_manager.cc:479-487 | LEAVE closes a stored connection, keeps it stored and forgets its flag and queue |
| `PeerEffects.ConnectOffers` | webrtc/webrtc_manager.cc:172-284 | connectToPeer on a running manager stores a missing connection, asks it for an offer and touches nothing else |
| `PeerEffects.DisconnectCloses` | webrtc/webrtc_manager.cc:287-308 | disconnectFromPeer closes the stored connection and touches nothing else |
| `PeerEffects.LifecycleTouches` | webrtc/webrtc_manager.cc:60-169 | init, start and stop leave four of the five maps alone; the locked body of stop empties the fifth and closes every connection in it |
| `PeerEffects.HeartbeatIsHistory` | webrtc/webrtc_manager.cc:1143-1152 | in every run the manager remembers of a peer exactly its last heartbeat, unless its connection was destroyed since; it never counts a reconnection attempt |
| `PeerBookkeeping.AlwaysTidy` | webrtc/webrtc_manager.cc:172-284 | in every run no stored connection is null, none is stored for two peers, and until stop clears the connections every flag and queue belongs to a stored connection |
| `PeerBookkeeping.DestroyRemovesFromAll` | webrtc/webrtc_manager.cc:671-705 | destroying a stored peer takes it out of all five maps and closes its connection; other peers keep their entries, other connections their logs |
| `PeerBookkeeping.PeersAreIsolated` | webrtc/webrtc_manager.cc:459-585 | whatever happens to one peer leaves every other peer's entries in all five maps, and its connection, untouched |
| `PeerBookkeeping.SweepRemovesExactly` | webrtc/webrtc_manager.cc:1102-1139 | in every run the heartbeat check takes out of all five maps, and closes, exactly the peers that are tracked, present, connected and silent for more than three intervals; a non-positive interval changes nothing |
| `PeerBookkeeping.SilenceExactly` | webrtc/webrtc_manager.cc:1118-1120 | after truncation to milliseconds a silence exceeds k exactly from k + 1 full milliseconds on |
| `PeerBookkeeping.EachDisconnectOnce` | webrtc/webrtc_manager.cc:831-887 | in any order of callbacks each connection is reported as disconnected at most once, and never while it is stored |
| `PeerBookkeeping.StepReports` | webrtc/webrtc_manager.cc:850-885 | a connection is reported exactly when a state change removes it; no other step reports, and no step stores a connection it did not create |
| `PeerAnswers.EveryOfferIsAnsweredOnce` | webrtc/webrtc_manager.cc:488-546 | in every run, on every connection ever created, each accepted offer is followed by the flush and then by exactly one answer before anything else is called on it, and no answer is created without one |
| `PeerClosing.CalledAfterCloseExactlyWhen` | webrtc/webrtc_manager.cc:287-705 | in every run, for every connection ever created: while stored it has been closed if and only if its peer left or was disconnected from; once removed, something was called on it after a Close if and only if that happened, and otherwise its one Close was its last call |
| `PeerClosing.StepTreats` | webrtc/webrtc_manager.cc:287-705 | what one step does to a stored connection: LEAVE and disconnect close and keep it, removal closes it, nothing else closes it |
| `PeerReuse.UsedAfterCloseExactlyWhen` | webrtc/webrtc_manager.cc:287-566 | in every run, for every connection ever created: something other than another Close was called on it after a Close if and only if, after its peer left or was disconnected from and with it still stored, the peer sent an offer or answer with a description, or a complete candidate while a description was flagged as set |
| `PeerReuse.StepEmploys` | webrtc/webrtc_manager.cc:459-585 | one step calls a stored connection other than to close it exactly when the message is such a one |
| `PeerClosing.OfferAfterLeave` | webrtc/webrtc_manager.cc:479-518 | a run of that family: an offer after a LEAVE sets a description on, and answers from, a closed connection |
| `PeerReuse.CandidateAfterDisconnect` | webrtc/webrtc_manager.cc:287-566 | another: after disconnectFromPeer a candidate is handed to the closed connection |
| `PeerLifecycle.LifecycleIsMonotone` | webrtc/webrtc_manager.cc:60-169 | over every interleaving of threads the state never moves backwards in its order |
| `PeerLifecycle.EachGateOnce` | webrtc/webrtc_manager.cc:60-136 | at most one caller ever passes each of the gates of init, start and stop |
| `PeerLifecycle.AlwaysOrderly` | webrtc/webrtc_manager.cc:60-169 | what a thread past a gate says about the state, at every point of every interleaving |
| `PeerLifecycle.StateIsHistory` | webrtc/webrtc_manager.cc:60-169 | over every interleaving the state is told by which of init, start and stop have passed their gates, finished or failed, and the signalling client by how init finished |
| `PeerLifecycle.RunningExactlyWhen` | webrtc/webrtc_manager.cc:98-133 | a manager that was not running is running later if and only if a start in between passed its gate, and since then neither did a stop pass one of its own nor did a start call fail |
| `PeerLifecycle.RunningIsTransient` | webrtc/webrtc_manager.cc:84-120 | without a wired signalling client, in any interleaving, the manager runs only while a start call is before its locked body |
| `PeerLifecycle.RunningIsUncleared` | webrtc/webrtc_manager.cc:145-184 | wired or not, a running manager has not been cleared |
| `PeerLifecycle.StopGivesUpExactlyWhen` | webrtc/webrtc_manager.cc:123-135 | over every run: a stop call whose first compare-and-swap failed returns with the manager running if and only if between its two compare-and-swaps a start passed its gate and, since then, no other stop passed one and no start failed; an initialised manager it goes on to stop |
| `PeerLifecycle.StartOvertakesStop` | webrtc/webrtc_manager.cc:98-136 | such a run: stop gives up and the manager is running |
| `PeerLifecycle.StoppedForGood` | webrtc/webrtc_manager.cc:60-169 | once the manager is stopped and no stop is under way, it stays so and nothing is cleared any more |
| `PeerLifecycle.ClearedExactlyWhen` | webrtc/webrtc_manager.cc:98-169 | over every run: a manager that is stopped, with no stop under way, has cleared its connections if and only if a stop passed its gate; if none did, a failing start stopped it |
| `PeerLifecycle.FailedStartStrands` | webrtc/webrtc_manager.cc:98-120 | a start that fails before any stop passed its gate stops the manager with every connection it holds, whenever made, and they are never cleared |
| `PeerLifecycle.FailedStartStrandsConnections` | webrtc/webrtc_manager.cc:98-120 | such a run, with a connection made between the gate and the body of start |
| `PeerManager.WebrtcManager.constructor` | webrtc/webrtc_manager.cc:39-46 | a new manager is uninitialised and empty |
| `PeerManager.WebrtcManager.InitGate` | webrtc/webrtc_manager.cc:60-66 | init goes on exactly from Uninitialized, and then the state is Initializing |
| `PeerManager.WebrtcManager.InitLocked` | webrtc/webrtc_manager.cc:68-95 | init's locked body: no signalling client, then Initialized |
| `PeerManager.WebrtcManager.StartGate` | webrtc/webrtc_manager.cc:98-104 | start goes on exactly from Initialized, and then the state is Running |
| `PeerManager.WebrtcManager.StartLocked` | webrtc/webrtc_manager.cc:106-120 | start's locked body fails and stops the manager exactly when there is no signalling client |
| `PeerManager.WebrtcManager.StopGate` | webrtc/webrtc_manager.cc:123-125 | from Running stop goes on at once; from any other state it tries again |
| `PeerManager.WebrtcManager.StopSecondGate` | webrtc/webrtc_manager.cc:126-133 | from Initialized stop goes on; from any other state, Running included, it gives up |
| `PeerManager.WebrtcManager.CloseConnections` | webrtc/webrtc_manager.cc:145-150 | the loop closes every stored connection once, in whatever order |
| `PeerManager.WebrtcManager.StopLocked` | webrtc/webrtc_manager.cc:136-169 | stop's locked body closes and clears the connections and leaves the other four maps |
| `PeerManager.WebrtcManager.ConnectToPeer` | webrtc/webrtc_manager.cc:172-284 | creates, stores and offers exactly when the manager runs and has no such connection; which answer it gives |
| `PeerManager.WebrtcManager.DisconnectFromPeer` | webrtc/webrtc_manager.cc:287-308 | closes the stored connection and keeps it stored |
| `PeerManager.WebrtcManager.GetOrCreatePeerConnection` | webrtc/webrtc_manager.cc:589-667 | returns the stored connection, or stores a new one with a fresh flag and no queue |
| `PeerManager.WebrtcManager.FlushPending` | webrtc/webrtc_manager.cc:496-499 | the loop hands over the queue in order |
| `PeerManager.WebrtcManager.SetAndFlush` | webrtc/webrtc_manager.cc:490-508 | description, flag, flush and, for an offer, the answer, or only the refused description |
| `PeerManager.WebrtcManager.HandleSignalingMessage` | webrtc/webrtc_manager.cc:459-585 | the five maps and the calls on the connection after a message of any type: created on demand, described and flushed, queued, handed over, or closed |
| `PeerManager.WebrtcManager.DestroyPeerConnection` | webrtc/webrtc_manager.cc:671-705 | closes the connection and erases the peer from all five maps; an unknown peer is left alone, stray entries included |
| `PeerManager.WebrtcManager.HandlePeerConnectionStateChange` | webrtc/webrtc_manager.cc:831-887 | a disconnected, failed or closed connection that is stored is destroyed and reported; any other change does nothing |
| `PeerManager.WebrtcManager.HandleReceivedHeartbeat` | webrtc/webrtc_manager.cc:1143-1152 | a heartbeat is recorded when the interval is positive, for unknown peers as well |
| `PeerManager.WebrtcManager.CollectLost` | webrtc/webrtc_manager.cc:1113-1129 | the loop over the tracked peers collects exactly the lost ones, each once |
| `PeerManager.WebrtcManager.DestroyPeers` | webrtc/webrtc_manager.cc:1131-1138 | destroying distinct peers one by one is removing them all at once |
| `PeerManager.WebrtcManager.CheckForHeartbeatLoss` | webrtc/webrtc_manager.cc:1102-1139 | collecting first and destroying afterwards removes exactly the lost peers |
| `SessionHistory.TableIsHistory` | signaling_server/src/session_manager.js:17-87 | after any run, a socket is in the client map exactly when it was added and not removed since, with the id of that login; an id maps to a socket exactly when that socket is the last that logged in under it and was not removed since |
| `SessionHistory.StepKeepsValid` | signaling_server/src/session_manager.js:17-87 | every operation keeps each session entry pointing to a connected socket of that id |
| `SessionHistory.ValidIsInjective` | signaling_server/src/session_manager.js:153-211 | no socket is stored under two ids, and the `connectedClients.has` checks of the router never fail |
| `SessionHistory.TargetIsHistory` | signaling_server/src/session_manager.js:128-198 | a connected client's target is what its last effective join or leave made it, told from the event history alone |
| `SessionHistory.TargetExactly` | signaling_server/src/session_manager.js:128-198 | so the target is a function of the history: it is the one value the last effective join or leave gave |
| `SessionHistory.RemovalKeepsOtherLogins` | signaling_server/src/session_manager.js:37-87 | removing a socket leaves every login of another socket alone, in particular the newer login under its own id |
| `SessionDelivery.EverySendIsAddressed` | signaling_server/src/session_manager.js:37-264 | in every run, each event sends at most one message on each socket, addressed to the id the socket is authenticated with, and from the server or the acting client |
| `SessionDelivery.ExactlyOneSend` | signaling_server/src/session_manager.js:199-232 | with open sockets an accepted offer, answer or candidate with a recipient causes exactly one send: the message to the socket that owns the id in the history, or an error to the sender |
| `SessionDelivery.LeaveFansOut` | signaling_server/src/session_manager.js:49-79 | removing the socket that owns an id tells exactly the other open sockets that target the id; removing a shadowed or unknown socket tells nobody |
| `SessionDelivery.EnvelopeIsTransparent` | signaling_server/src/session_manager.js:102-110 | in every state an envelope around a join, leave, offer, answer or candidate does to both maps and all outboxes what its payload does when sent with the computed ids |
| `SessionDelivery.MlineNormalization` | signaling_server/src/session_manager.js:112-115 | normalising the m-line key is idempotent, keeps the given key and gives a candidate the other |
| `SessionAnswers.NormalizedIs` | signaling_server/src/session_manager.js:102-115 | what a message is taken for: an envelope is its payload, from the sender it names or else the client, to the first given of its recipient, its target peer and the client's target; a candidate gets the upper-case m-line key if it has only the other |
| `SessionAnswers.JoinAnswers` | signaling_server/src/session_manager.js:128-175 | an accepted join with a target causes exactly one send: the request to the socket that owns the target in the history, or else the error to the sender |
| `SessionAnswers.LeaveAnswers` | signaling_server/src/session_manager.js:176-198 | an accepted leave causes exactly one send, the notice with its reason to the socket that owns the last target of the client, or none |
| `SessionAnswers.RelayAnswers` | signaling_server/src/session_manager.js:199-232 | an accepted offer, answer or candidate with a recipient causes exactly one send: the message to the socket that owns the recipient, or else the error to the sender |
| `SessionAnswers.UnknownAnswers` | signaling_server/src/session_manager.js:234-243 | an accepted message of any other type causes exactly the error to the sender, which names the type as received, and changes neither map |
| `SessionAnswers.RejectedDoesNothing` | signaling_server/src/session_manager.js:97-125 | a message from an unknown socket, or one that claims another id, does nothing |
| `SessionManager.Manager.constructor` | signaling_server/src/session_manager.js:5-10 | both maps start empty |
| `SessionManager.Manager.Add` | signaling_server/src/session_manager.js:17-31 | a second add of a socket changes nothing; a new login takes the id over |
| `SessionManager.Manager.Remove` | signaling_server/src/session_manager.js:37-87 | on a valid table the search that stops at its first hit deletes every entry of the socket |
| `SessionManager.Manager.NotifyFollowers` | signaling_server/src/session_manager.js:64-76 | the loop tells each follower once, in whatever order |
| `SessionManager.Manager.Route` | signaling_server/src/session_manager.js:95-245 | both maps and all outboxes after a message: unwrapped, its m-line key normalised, dropped unless it claims the sender's own id, then handled by type |
| `SessionManager.Manager.RouteJoin` | signaling_server/src/session_manager.js:128-175 | a join with a target reaches the socket that holds the target's id; without one online the sender gets an error and no target |
| `SessionManager.Manager.RouteLeave` | signaling_server/src/session_manager.js:176-198 | a leave reaches the target if it is online and clears the sender's target in any case |
| `SessionManager.Manager.RouteRelay` | signaling_server/src/session_manager.js:199-232 | an offer, answer or candidate reaches the socket that holds the recipient's id, or the sender gets an error; without a recipient nothing happens |
| `SessionManager.Manager.SendMessage` | signaling_server/src/session_manager.js:252-264 | only an open socket gets the message |
| `VideoPlayer.CandidatesAreConserved` | cockpit_client/display/src/video_player.js:147-247 | until close, at every await point of every interleaving: the well-formed candidates that arrived before the description was in place are, in arrival order, those handed over from the queue, those of the suspended flush and those pending; the later ones are, in order, those handed over directly; nothing is handed over before the description is in place, and then nothing is pending |
| `VideoPlayer.NothingLost` | cockpit_client/display/src/video_player.js:147-247 | as multisets: received equals handed over plus the unprocessed rest of the flush plus pending |
| `VideoPlayer.OrderKeptExactlyWhen` | cockpit_client/display/src/video_player.js:202-247 | with the flush through, the queued candidates all reached the browser before the later ones if and only if none arrived while the flush still had one to hand over |
| `VideoPlayer.ArrivalOrderKept` | cockpit_client/display/src/video_player.js:202-247 | in that case the browser got every well-formed candidate in arrival order |
| `VideoPlayer.LateCandidateOvertakes` | cockpit_client/display/src/video_player.js:202-247 | a run in which the third candidate reaches the browser before the second |
| `VideoPlayer.ClosedStaysSilent` | cockpit_client/display/src/video_player.js:263-275 | after close nothing reaches the browser or the queue, whatever was still suspended |
| `VideoPlayer.DescribedExactlyWhen` | cockpit_client/display/src/video_player.js:153-154 | until close the flag is set exactly when the browser has accepted a description it was given, whether anything was queued or not |
| `VideoPlayer.ArrivalsAreTaken` | cockpit_client/display/src/video_player.js:202-229 | until close: once a description was accepted nothing is pending and a well-formed arrival is the next candidate handed over; before, it is queued last and nothing is handed over |
| `VideoPlayer.FlushBegins` | cockpit_client/display/src/video_player.js:153-243 | an accepted description empties the queue and hands over its first well-formed candidate at once, or ends the flush if there is none |
| `VideoPlayer.FlushGoesOn` | cockpit_client/display/src/video_player.js:239-246 | each time the flush is resumed it hands over its next well-formed candidate, or ends if there is none |
| `VideoPlayer.CloseForgets` | cockpit_client/display/src/video_player.js:263-275 | closing an open player forgets the queue and the flag and hands nothing over |
| `VideoPlayer.DescriptionIsAwaited` | cockpit_client/display/src/video_player.js:147-170 | giving the browser a description only makes the call wait, and a refused one only ends the call |
| `VideoPlayer.Player.constructor` | cockpit_client/display/src/video_player.js:7-39 | an initialised player, nothing queued |
| `VideoPlayer.Player.BeginSetRemoteDescription` | cockpit_client/display/src/video_player.js:147-153 | setRemoteDescription up to its await |
| `VideoPlayer.Player.ResumeSetRemoteDescription` | cockpit_client/display/src/video_player.js:153-167 | setRemoteDescription after the browser's answer |
| `VideoPlayer.Player.FlushPendingRemoteCandidates` | cockpit_client/display/src/video_player.js:231-247 | the snapshot is taken and the queue emptied before the first await |
| `VideoPlayer.Player.ContinueFlush` | cockpit_client/display/src/video_player.js:239-246 | the loop from one await to the next: a rejected candidate is skipped without one |
| `VideoPlayer.Player.ResumeFlush` | cockpit_client/display/src/video_player.js:242-245 | the flush goes on after an await, whatever the browser said |
| `VideoPlayer.Player.AddCandidate` | cockpit_client/display/src/video_player.js:202-229 | a candidate is queued, handed over, or rejected by the constructor |
| `VideoPlayer.Player.CloseConnection` | cockpit_client/display/src/video_player.js:263-275 | close forgets the queue and the flag |
| `VehicleRuntime.VehicleIsSafe` | vehicle_client/domain/runtime_state.cc:12-118 | over every event sequence: SAFE_STOP exactly in an emergency, speed 0 or 6, motion only under remote control in gear 1 out of emergency, gear 0 in SAFE_STOP |
| `VehicleRuntime.SafeStopHolds` | vehicle_client/domain/runtime_state.cc:80-118 | once in SAFE_STOP any run without RECOVER_AUTO stays there at speed 0 |
| `VehicleRuntime.EmergencyCounter` | vehicle_client/domain/runtime_state.cc:32-92 | the emergency counter is the number of network-down, heartbeat-lost and WebRTC-error events and EMERGENCY_STOP commands |
| `VehicleRuntime.TimelineIsHistory` | vehicle_client/domain/runtime_state.cc:5-10 | the recorded timeline is the whole run's mode history with consecutive repeats removed |
| `VehicleRuntime.RemoteControlEnteredFromAuto` | vehicle_client/domain/runtime_state.cc:91-111 | on every recorded timeline REMOTE_CONTROL comes after AUTO only |
| `VehicleRuntime.CommandsExactly` | vehicle_client/domain/runtime_state.cc:80-118 | which commands are accepted in each state, and all they change |
| `VehicleRuntime.EventsExactly` | vehicle_client/domain/runtime_state.cc:12-78 | all that every other event changes |
| `VehicleRuntime.ConnectedIsHistory` | vehicle_client/domain/runtime_state.cc:12-62 | the vehicle is connected exactly when its peer connected or the network came up and neither was lost since; a lost heartbeat does not change that |
| `CockpitRuntime.CockpitIsSafe` | cockpit_client/domain/runtime_state.cc:24-122 | over every event sequence that announces CONNECTING at most first: CONNECTED or REMOTE_CONTROL exactly when connected and out of emergency, SAFE_STOP only with emergency and shown as such, emergency only in SAFE_STOP, RECONNECTING or DISCONNECTED, expected speed only under remote control, as many acks as commands |
| `CockpitRuntime.OnlyRecoverAutoClears` | cockpit_client/domain/runtime_state.cc:75-122 | no event but RECOVER_AUTO clears an emergency |
| `CockpitRuntime.EmergencyHolds` | cockpit_client/domain/runtime_state.cc:24-122 | an emergency outlasts every run without RECOVER_AUTO |
| `CockpitRuntime.WsClientsAreHistory` | cockpit_client/domain/runtime_state.cc:12-22 | the set of browser clients holds exactly those that connected and have not disconnected since |
| `CockpitRuntime.TimelineIsHistory` | cockpit_client/domain/runtime_state.cc:5-10 | the recorded timeline is the whole run's session history with consecutive repeats removed |
| `CockpitRuntime.RemoteControlEnteredFromConnected` | cockpit_client/domain/runtime_state.cc:84-108 | on every recorded timeline REMOTE_CONTROL comes after CONNECTED only |
| `CockpitRuntime.CommandsExactly` | cockpit_client/domain/runtime_state.cc:75-122 | which commands are accepted in each state, and all they change; a refused one changes nothing |
| `CockpitRuntime.EventsExactly` | cockpit_client/domain/runtime_state.cc:12-73 | all that every other event changes |
| `CockpitRuntime.ConnectedIsHistory` | cockpit_client/domain/runtime_state.cc:24-73 | the cockpit is connected exactly when its peer connected or the network came up and neither was lost since; a lost heartbeat does not change that |
| `RemoteDriving.AlwaysRelated` | README.md:29-30 | in every run of the pair: cockpit emergency implies vehicle emergency, vehicle remote control implies cockpit remote control, vehicle speed is at most the expected speed |
| `RemoteDriving.StopRecoverTakeoverForward` | vehicle_client/domain/runtime_state.cc:91-111 | from every reachable state with the cockpit connected, the four orders bring both to remote control at 6.0 |
| `RemoteDriving.RecoverExactlyWhen` | cockpit_client/domain/runtime_state.cc:84-108 | without EMERGENCY_STOP the other three do so if and only if the cockpit shows SAFE_STOP or neither side is in an emergency |
| `RemoteDriving.TakeoverExactlyWhen` | cockpit_client/domain/runtime_state.cc:84-94 | TAKEOVER_REQUEST and FORWARD do so if and only if neither side is in an emergency |
| `RemoteDriving.NetworkDropStrandsVehicle` | vehicle_client/domain/runtime_state.cc:32-51 | a network drop that comes back leaves the vehicle alone in an emergency that RECOVER_AUTO does not reach |
| `RemoteDriving.EmergenciesAreHistory` | vehicle_client/domain/runtime_state.cc:32-118 | over every run: the cockpit is in an emergency if and only if a heartbeat loss or an EMERGENCY_STOP, and the vehicle if and only if one of these, a network drop or a WebRTC error, came since the last RECOVER_AUTO the cockpit accepted |
| `RemoteDriving.StrandedExactlyWhen` | vehicle_client/domain/runtime_state.cc:32-118 | over every run: the vehicle alone is in an emergency if and only if the cockpit is out of one and a network drop or WebRTC error came since the last accepted RECOVER_AUTO |
| `RemoteDriving.DrivesAgainExactlyWhen` | cockpit_client/domain/runtime_state.cc:84-108 | after any run that leaves the cockpit connected, RECOVER_AUTO, TAKEOVER_REQUEST and FORWARD set both driving if and only if the cockpit shows SAFE_STOP or nothing that raises an emergency on either side came since the last accepted RECOVER_AUTO |
| `RemoteDriving.StopStops` | cockpit_client/domain/runtime_state.cc:96-98 | after every run that leaves the cockpit in remote control, STOP brings the expected speed and the vehicle to 0.0 and changes no mode; if the vehicle is out of an emergency, FORWARD then brings both back to 6.0 |
| `RemoteDriving.OrdersExactly` | README.md:29-30 | an order reaches the vehicle exactly when the cockpit counts it as sent |
| `Timeline.WithoutRepeats` | cockpit_client/domain/runtime_state.cc:5-10 | dropping consecutive repeats keeps the last value |
| `Timeline.NeighboursComeFromHistory` | cockpit_client/domain/runtime_state.cc:5-10 | neighbours on a timeline differ and are neighbours in the history |
| `VehicleRuntime.RuntimeState.PushMode` | vehicle_client/domain/runtime_state.cc:5-10 | a mode is recorded when it differs from the last |
| `VehicleRuntime.RuntimeState.OnPeerConnected` | vehicle_client/domain/runtime_state.cc:12-20 | AUTO, or SAFE_STOP while an emergency stands, at speed 0; out of an emergency the gear is kept; counted and recorded |
| `VehicleRuntime.RuntimeState.OnPeerDisconnected` | vehicle_client/domain/runtime_state.cc:22-30 | out of gear at speed 0, in AUTO or, while an emergency stands, in SAFE_STOP |
| `VehicleRuntime.RuntimeState.OnNetworkDown` | vehicle_client/domain/runtime_state.cc:32-42 | halts in SAFE_STOP, raises the emergency and counts both the drop and the emergency |
| `VehicleRuntime.RuntimeState.OnNetworkUp` | vehicle_client/domain/runtime_state.cc:44-51 | connected again at speed 0 with the gear kept; a standing emergency keeps SAFE_STOP |
| `VehicleRuntime.RuntimeState.OnHeartbeatLost` | vehicle_client/domain/runtime_state.cc:53-62 | halts in SAFE_STOP and raises the emergency; the peer stays connected |
| `VehicleRuntime.RuntimeState.OnTelemetryMessageReceived` | vehicle_client/domain/runtime_state.cc:64-67 | changes nothing but its counter |
| `VehicleRuntime.RuntimeState.OnWebrtcError` | vehicle_client/domain/runtime_state.cc:69-78 | halts in SAFE_STOP, raises the emergency and counts both the error and the emergency |
| `VehicleRuntime.RuntimeState.Transition` | vehicle_client/domain/runtime_state.cc:91-113 | which commands are accepted and what they do; a refused one changes nothing |
| `VehicleRuntime.RuntimeState.ApplyCommand` | vehicle_client/domain/runtime_state.cc:80-118 | the counters around the transition: received commands are counted even if refused |
| `VehicleRuntime.RuntimeState.constructor` | vehicle_client/vehicle_client_app.cc:455-459 | the start-up state with its first recorded mode |
| `CockpitRuntime.RuntimeState.PushState` | cockpit_client/domain/runtime_state.cc:5-10 | a session state is recorded when it differs from the last |
| `CockpitRuntime.RuntimeState.OnWsConnected` | cockpit_client/domain/runtime_state.cc:12-16 | changes the set of browser clients and its counter only |
| `CockpitRuntime.RuntimeState.OnWsDisconnected` | cockpit_client/domain/runtime_state.cc:18-22 | changes the set of browser clients and its counter only, for unknown clients too |
| `CockpitRuntime.RuntimeState.OnPeerConnected` | cockpit_client/domain/runtime_state.cc:24-34 | CONNECTED at expected speed 0; in an emergency the session stays what it was |
| `CockpitRuntime.RuntimeState.OnPeerDisconnected` | cockpit_client/domain/runtime_state.cc:36-44 | DISCONNECTED and showing AUTO, while an emergency stands as it did |
| `CockpitRuntime.RuntimeState.OnNetworkDown` | cockpit_client/domain/runtime_state.cc:46-53 | RECONNECTING at expected speed 0; raises no emergency |
| `CockpitRuntime.RuntimeState.OnNetworkUp` | cockpit_client/domain/runtime_state.cc:55-63 | CONNECTED, or SAFE_STOP while an emergency stands |
| `CockpitRuntime.RuntimeState.OnHeartbeatLost` | cockpit_client/domain/runtime_state.cc:65-73 | SAFE_STOP, shown as such, with the emergency raised; stays connected |
| `CockpitRuntime.RuntimeState.Transition` | cockpit_client/domain/runtime_state.cc:75-110 | which commands are accepted and what they do; a refused one changes nothing |
| `CockpitRuntime.RuntimeState.ApplyCommand` | cockpit_client/domain/runtime_state.cc:75-122 | the counters after an accepted command |
| `CockpitRuntime.RuntimeState.AnnounceConnecting` | cockpit_client/cockpit_client_app.cc:239-244 | the opening step of the connection thread |
| `CockpitRuntime.RuntimeState.constructor` | cockpit_client/cockpit_client_app.cc:532-536 | the start-up state with its first recorded session state |
| `CommandSurface.TrimExactly` | cockpit_client/cockpit_client_app.cc:41-49 | trim is the one substring with no blank at either end that only blanks surround |
| `CommandSurface.TrimSplits` | cockpit_client/cockpit_client_app.cc:41-49 | every text splits into blanks, its trim and blanks |
| `CommandSurface.TrimIdempotent` | cockpit_client/cockpit_client_app.cc:41-49 | trimming twice is trimming once |
| `CommandSurface.AssignmentFormExactly` | cockpit_client/cockpit_client_app.cc:194-200 | `cmd=NAME` is read as NAME if and only if NAME is trimmed and holds no separator of that form |
| `CommandSurface.JsonFormExactly` | cockpit_client/cockpit_client_app.cc:202-212 | `{"cmd":"NAME"}` is read as NAME if and only if NAME holds no `cmd=` and no separator of that form |
| `CommandSurface.BareFormExactly` | cockpit_client/cockpit_client_app.cc:194-215 | NAME by itself is read as NAME if and only if it is trimmed, holds no `cmd=` and does not read as a quoted key with a value |
| `CommandSurface.AssignmentAnywhere` | cockpit_client/cockpit_client_app.cc:194-200 | with `cmd=` anywhere, the name is what follows its first occurrence up to a separator, trimmed |
| `CommandSurface.KeyAnywhere` | cockpit_client/cockpit_client_app.cc:202-212 | without `cmd=`, a quoted key is read with any spacing: the name is what follows its colon, past blanks and quotes, up to a separator |
| `CommandSurface.OtherwiseTrimmed` | cockpit_client/cockpit_client_app.cc:194-215 | any other text is its own name, trimmed: no `cmd=`, and no quoted key, no colon after it, or only blanks and quotes after the colon |
| `CommandSurface.FormsAgree` | cockpit_client/cockpit_client_app.cc:194-228 | exactly the plain names are read as themselves in all three forms, and for them the forms cause the same step of the cockpit |
| `CommandSurface.HandleWsMessage` | cockpit_client/cockpit_client_app.cc:217-228 | the parsed name is applied as a web command and the counter advances |

## Left out

- Error notifications of `handleSignalingMessage` and of the connect and ICE handlers: single-branch forwarding to a registered handler.
- The rest of `webrtc_manager.cc`: callback registration, data channels, heartbeat pings, logging; `attemptReconnection` and the timer start and stop are empty in the source.
- `webrtc/peer_connection.cc`: a connection is an object with a log of the calls made on it; what it answers, and when it calls back, is arbitrary. Calls back into the manager from inside `Close()` are taken as later steps.
- A state change names its peer, not its connection object, as in the source: a late callback of a replaced connection acts on its successor, and the model allows it.
- The signalling client itself: whether init wires one is open, what `connect` and `disconnect` make it do is not modelled. In the code init wires none (webrtc_manager.cc:84).
- The order in which C++ and JavaScript maps are iterated is arbitrary here; the results proved do not depend on it. Maps are value maps held in fields.
- PeerManager.WebrtcManager.DisconnectFromPeer: requires that the stored pointer is not null, because the source calls through it unchecked; `PeerBookkeeping.AlwaysTidy` shows that every run provides it.
- PeerManager.WebrtcManager.StopLocked: requires that no connection is stored twice, as owning pointers guarantee in the source and `PeerBookkeeping.AlwaysTidy` shows of every run; likewise `CloseConnections`, `DestroyPeers` and `CheckForHeartbeatLoss`.
- PeerManager.WebrtcManager.CheckForHeartbeatLoss: does not model the 32-bit overflow of `heartbeat_interval_ms * 3`, which intervals of more than eight days would reach.
- PeerManager.WebrtcManager.HandleReceivedHeartbeat: nothing in the source calls it yet, so that as it stands no peer is tracked and the heartbeat check finds none; the model lets heartbeats arrive.
- No claim that the manager stays empty after stop: handleSignalingMessage does not look at the lifecycle state. No claim that a heartbeat removal is reported: it is not. No claim that heartbeats are tracked for connected peers only: they are not.
- No claim that a moving vehicle has a connected peer: its ApplyCommand does not look at `peer_connected`.
- SessionManager.Manager.Remove: requires that each session entry points to a connected socket of its id, which `SessionHistory.TableIsHistory` shows of every run; without it the search would stop at the first of several entries.
- SessionManager.Manager.Route: messages are parsed records, so that JSON types other than the ones modelled, and JavaScript's coercions on them, are not covered; normalising changes a copy, where the source changes the received object in place. A send that throws counts as a socket that is not open.
- `signaling/signaling_client.cc`, `signaling_server/src/server.js` and `auth.js`: web-socket, TLS and token plumbing over libraries that are not part of this model.
- VideoPlayer.Player.BeginSetRemoteDescription: a call that is suspended is told apart by a number; a number in use starts no second call.
- VideoPlayer.Player.ResumeSetRemoteDescription: ends with the flush; createAnswer after it does not touch the queue. Initialising the same object again after close is not modelled, nor are video, data channels and the status display. `RTCIceCandidate` is taken to reject exactly the candidates with neither mid nor index.
- JSON escaping and full JSON parsing: the codec under study does neither. Strings are sequences of characters, without an encoding.
- Statistics counters are unbounded; speeds are only ever 0.0 and 6.0 and are reals.
- CommandSurface.HandleWsMessage: leaves out the command id string, which is only logged.
- Sensors, controllers, telemetry, video sinks, configuration, sleeping loops, self-tests, logging and process start-up.
