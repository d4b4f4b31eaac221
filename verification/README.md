# oximqtt: a Dafny model of the broker core and its load generator

oximqtt is an MQTT 3.1.1 and 5.0 broker with a load generator (`oximqtt-bench`) and a test harness
(`oximqtt-test`). This project models the parts whose correctness depends on invariants over many
calls, and proves what those parts promise for every input and every run.

| component | modules |
|---|---|
| QoS 2: receiver, session object, sender, both joined by two channels | `QosReceiver`, `QosAnswers`, `QosSession`, `QosSender`, `QosClient`, `QosProtocol`, `QosOverload`, `QosTimeouts` |
| topics, subscription trie, retained-message trie, router, fan-out | `Topics`, `TopicTrie`, `RetainTrie`, `RetainSweep`, `RetainStore`, `Routing`, `Delivery` |
| wire format of the load generator | `Packets`, `PacketParsing`, `PacketStream`, `PacketLayout`, `PacketGrammar`, `Utf8Text`, `PacketCodec` |
| delivery queue, topic aliases, packet ids, per-client locks | `DeliverQueue`, `DeliverRace`, `TopicAliases`, `PacketIds`, `ClientLocks` |
| latency histogram | `Histogram` |
| test scheduling | `Scheduler` |

The style is the same throughout. Pure modules hold a specification (a step function, a relation, a
codec on values) with theorems about all of its runs or inputs. Classes and loops in the form the
source has are proved to implement that specification, so the theorems carry over. References are
independent of the code: topic matching is the text of section 4.7 of MQTT 5.0 over `/`-separated
pieces, a router answer is a linear scan, the bytes of a packet are a grammar of concatenated fields,
the answers of a session and of the alias tables are read off the history of calls alone, a
percentile is an element of the sorted samples, a schedule is judged by paths in the dependency graph.

Things outside the model enter as parameters quantified over: whether forwarding a message is
accepted, refused or fails, and whether a reply can be sent (`QosReceiver.Env`); which member a
shared group picks (`Routing.Choice`); when a retained message expires; the clock; the order in
which hash maps are walked (every such loop takes an arbitrary remaining key, and `RetainSweep.Plan`
makes the order explicit where results depend on it).

Main theorems, hardest first:

1. `QosProtocol.ExactlyOnceInOrder`, `IdsAreFresh`, `NeverDropped`, `NothingDeferred`,
   `EveryMessageCompletes`: the load generator and the broker over FIFO channels, in every
   interleaving; `QosOverload.DropsIffTooWide`, `DefersIffWider`: the window bounds they assume are
   exactly the right ones; `QosTimeouts.AtMostOnceInOrder`, `LostExactlyWhen`: what remains when the
   client may give up on messages.
2. `Routing.Router.FindMatches` with `ReachedIffSubscribed`: trie, parser, printer, relation map and
   fan-out together are a linear scan.
3. `TopicTrie.MatchAll`, `RetainTrie.MatchNames`, `RetainStore.LiveIffRetained`: the lazy iterator and
   the retained-message walk answer the same section 4.7 question from opposite sides.
4. `QosReceiver.AtMostOnceDelivery`, `FlowControl`, `QosAnswers.AnswersFromHistory`,
   `EveryReplyJustified`: the receiver against any peer, any failures.
5. `PacketStream.ChunkingIsInvisible`, `StreamRoundTrip`, `SurvivesIff`: cutting any byte stream into
   chunks changes nothing, streaming decode inverts encode, and exactly which packets survive;
   `PacketLayout.EveryLayout`, `PacketGrammar.ParseIff`, `DecodesIff`: exactly which bytes are written
   for a packet, and exactly which bytes are taken for which packet.
6. `DeliverQueue.QueueConserves`, `QueueDrains`, `DeliverRace.RaceConserves`,
   `AtomicWhenUninterrupted`: where every item and every wake-up token is, with atomic operations and
   in every interleaving of their lock and channel steps.
7. `Scheduler.ResolveDagOrder`, `Histogram.LatencyStats.Percentile`, `TopicAliases.AliasesInvert`,
   `AliasHistory`, `AnnouncedInOrder`,
   `ClientLocks.MutualExclusion`, `PacketIds.OutInflight.NextId`, `TopicTrie.CanonicalUnique`.

Properties that turned out false of the code. The second column is the member that exhibits a
failing input, the third the one that says when the property does hold:

| expected | a failing input | when it holds |
|---|---|---|
| `$` names are isolated in `matches_str` (used by access control) | `Topics.LeakExample` | exactly `Topics.MatchesStr` |
| section 4.7 names are accepted | `Topics.RefusedExample` | exactly `Topics.ParseAccepts` |
| a retained message that matches is returned | `RetainTrie.HiddenExample` | exactly `RetainTrie.MatchNames` with `HiddenIff`; always for names without wildcards, `PlainHidesNothing` |
| the removal limit caps an expiry sweep | `RetainSweep.PastLimitExample` | for every limit and order of the maps, exactly `RetainSweep.CapIffSpread`; for a given limit also whenever no more names expire than it allows. Between the two, a given limit may or may not be passed, depending on which branches the map happens to visit first |
| a matching filter is found, and served, once | `TopicTrie.DoubledExample` | exactly `TopicTrie.FoundDistinct`, `Routing.RepeatedIff`; how often otherwise, `TopicTrie.FoundTimes` |
| overlapping v5 subscriptions are served at the highest QoS | `Routing.FirstQosExample` | exactly `Delivery.QosIsMaximalIff` |
| wake-up tokens equal the queue length | `DeliverQueue.PopLeavesToken` | exactly `DeliverQueue.QueueConserves` |
| an evicting send accounts for its items | `DeliverRace.LostExample` | per step exactly `DeliverRace.LostExactlyWhen`; for whole schedules `WithoutEviction`, `UninterruptedEviction` |
| every queued item has a wake-up token, sends and polls interleaving | `DeliverRace.StrandedExample` | for the counts of a run exactly `DeliverRace.RaceConserves`; for whole schedules `WithoutEviction`, `UninterruptedEviction` |
| items are received in send order, sends and polls interleaving | `DeliverRace.OutOfOrderExample` | `DeliverRace.WithoutEviction`, `UninterruptedEviction` |
| with the acknowledgement timeout on, a completed message was delivered | `QosTimeouts.LossExample` | exactly `QosTimeouts.LostExactlyWhen` for each arriving message |
| `next_id` finds a free id when there is one | `PacketIds.TooMany` | exactly `PacketIds.OutInflight.NextId` |
| a refused oversized frame is reported with its size | `PacketCodec.SizeReportExample` | never: the buffer is truncated first, so 0 is reported |
| the Receive Maximum of a v5 CONNACK is read | `PacketParsing.StandardConnAckMisread` | never on a successful CONNACK laid out as in section 3.2 of MQTT 5.0 |
| the broker keeps every QoS 2 message of a conforming sender | the run `QosOverload.ReadAll` builds | exactly `QosOverload.DropsIffTooWide` |

## Model

| member | source | states |
|---|---|---|
| `QosReceiver.AtMostOnceDelivery` | oximqtt/src/session.rs:909-1031 | For every sequence of packets and every outcome of forwarding and sending, two successful deliveries under one packet id have a PUBREL for that id strictly between them, whatever duplicates, QoS 1 publishes or unknown PUBRELs are interleaved. |
| `QosReceiver.FlowControl` | oximqtt/src/session.rs:707-1031 | After every run: deferred ids are distinct, disjoint from registered ids and at most 4096; a live session defers only while its window is full; accepted first copies are processed in arrival order with the queue as the remainder; no session ends because registering a QoS 2 id failed. |
| `QosReceiver.RunKeeps` | oximqtt/src/session.rs:707-1031 | The invariant behind both results is kept by every sequence of packets from any state that has it. |
| `QosReceiver.StepKeeps` | oximqtt/src/session.rs:952-1031 | Every single inbound packet, with its reply and drain, keeps the invariant. |
| `QosReceiver.AckKeeps` | oximqtt/src/session.rs:909-932 | With room in the window and a new id, acknowledging keeps safety and order, and the session survives exactly when forwarding did not fail and the reply was sent: the `add` inside cannot fail. |
| `QosReceiver.DrainKeeps` | oximqtt/src/session.rs:934-949 | Draining ends with an empty queue, a full window or an ended session, and keeps safety and order. |
| `QosAnswers.AnswersFromHistory` | oximqtt/src/session.rs:707-1031 | In every run a live session answers the next packet with exactly the actions a reference computes from the history alone: a QoS 0 or 1 publish is forwarded, and acknowledged only after that; a QoS 2 publish is ignored, re-acknowledged, delivered and answered, deferred or dropped; a PUBREL is answered by PUBCOMP and then lets waiting messages through while there is room. The session goes on exactly when nothing failed, no id was missing and no QoS 1 publish met a full window. |
| `QosAnswers.EveryReplyJustified` | oximqtt/src/session.rs:909-1031 | In the log of every run each PUBACK directly follows the forwarding, which did not fail, of the QoS 1 publish that carried its id; each successful PUBREC an accepted delivery under its id or a duplicate of a registered one, each refusing PUBREC a refused delivery; each PUBCOMP its PUBREL. Every QoS 0 publish is followed by its forwarding and every PUBREL by its one PUBCOMP. |
| `QosAnswers.StateFromHistory` | oximqtt/src/session.rs:909-1031 | The registered ids of a live session are those delivered and not released since, and its queue is the messages taken in and not yet handed over, oldest first. |
| `QosAnswers.RunKnown` | oximqtt/src/session.rs:707-1031 | Every sequence of packets keeps what that needs. |
| `QosSession.InInflight.Add` | oximqtt/src/inflight.rs:385-398 | A full window refuses even a held id; a new id is registered; a held id is an error for QoS 2 and reported as already there otherwise; the gauge equals the number of ids. |
| `QosSession.InInflight.Remove` | oximqtt/src/inflight.rs:411-421 | Exactly the given id leaves, the result says whether it was there, and the gauge follows. |
| `QosSession.Session.AckQos2Inbound` | oximqtt/src/session.rs:909-932 | The handler's new state and result are `AckInbound` of the old state, including taking the id back when PUBREC could not be sent. |
| `QosSession.Session.DrainQos2Pending` | oximqtt/src/session.rs:934-949 | The loop over the deferral queue is `Drain`. |
| `QosSession.Session.IsDeferred` | oximqtt/src/session.rs:996-999 | True exactly when the id is somewhere in the deferral queue. |
| `QosSession.Session.ProcessExactlyOnce` | oximqtt/src/session.rs:991-1025 | A QoS 2 publish is handled as `OnExactlyOnce`: duplicate of a deferred one ignored, of a registered one re-acknowledged, else deferred, dropped at the bound, or delivered. |
| `QosSession.Session.ProcessAtLeastOnce` | oximqtt/src/session.rs:964-990 | The method is `OnAtLeastOnce`, of which `QosAnswers.EveryReplyJustified` says that no PUBACK is sent before the message was forwarded; it leaves the window as it found it on every path, even when the id belongs to a QoS 2 exchange. |
| `QosSession.Session.OnPacket` | oximqtt/src/session.rs:707-722 | One inbound PUBLISH or PUBREL takes the session to `Step` of its state, so every theorem about runs holds of handler calls. |
| `QosSender.TakeIsFresh` | oximqtt-bench/src/window.rs:30-42 | A claimed id was free and nothing else changes; only a fully claimed window refuses. |
| `QosSender.TakeIsNext` | oximqtt-bench/src/window.rs:30-42 | The claimed slot is the first free one in circular order from the cursor, which moves just past it. |
| `QosSender.SendOneMatches` | oximqtt-bench/src/client.rs:565-602 | Sending keeps the claimed slots equal to the ids in flight, and the new id was not in flight. |
| `QosSender.SendOneQueues` | oximqtt-bench/src/client.rs:565-602 | A send uses an id that was not in flight and records exactly that message under it; nothing is sent exactly when every slot is claimed. |
| `QosSender.FillExact` | oximqtt-bench/src/client.rs:551-606 | For every batch, limit and window a fill sends the next messages in order under ids that were free, records each with its time and changes no other entry; it never passes the message limit and stops short of the batch only at the limit or at a full window. |
| `QosSender.OnAckMatches` | oximqtt-bench/src/client.rs:609-618 | Completing a message keeps the claimed slots equal to the ids in flight. |
| `QosClient.SlotTable.Take` | oximqtt-bench/src/window.rs:30-42 | The circular scan of the array is `Take`: first free slot from the cursor. |
| `QosClient.SlotTable.Release` | oximqtt-bench/src/window.rs:45-53 | Frees exactly the slot of a valid id and ignores 0 and out-of-range ids. |
| `QosClient.Outbound.constructor` | oximqtt-bench/src/client.rs:527-542 | The window is the smaller of the local limit and the broker's Receive Maximum, but at least one; all slots free. |
| `QosClient.Outbound.Fill` | oximqtt-bench/src/client.rs:551-606 | With QoS the loop queues the next messages in order under free ids, records each and no other, never passes the message limit, and stops short of its batch only at the limit or a full window; at QoS 0 it queues the next messages, as many as batch and limit allow, and records nothing as in flight. |
| `QosClient.Outbound.OnAck` | oximqtt-bench/src/client.rs:609-618 | PUBACK or PUBCOMP retires the message and frees its slot; an unknown id changes nothing. |
| `QosClient.Outbound.OnPubrec` | oximqtt-bench/src/client.rs:626-631 | PUBREC for a message in flight is answered by one PUBREL and the message stays in flight. |
| `QosClient.Outbound.SweepTimeouts` | oximqtt-bench/src/client.rs:640-657 | Exactly the messages older than the timeout are given up and their slots freed; a zero timeout changes nothing. |
| `QosProtocol.ExactlyOnceInOrder` | oximqtt-bench/src/client.rs:551-631 | In every interleaving with window <= max_inflight + 4096, the broker has delivered exactly messages 0, 1, 2, ... in sending order, so none twice, and every message no longer in flight has been delivered. |
| `QosProtocol.IdsAreFresh` | oximqtt-bench/src/window.rs:30-53 | The packet id of any new PUBLISH is unregistered and undeferred at the broker and on no packet in either channel. |
| `QosProtocol.NeverDropped` | oximqtt/src/session.rs:1003-1020 | Whenever a PUBLISH reaches the broker its id is new there, and if the window is full the deferral queue has room, so no message is dropped or taken for a duplicate. |
| `QosProtocol.NothingDeferred` | oximqtt/src/session.rs:1003-1022 | With window <= max_inflight the deferral queue is empty in every reachable state. |
| `QosOverload.DropsIffTooWide` | oximqtt/src/session.rs:1003-1020 | The bound is sharp: some interleaving makes the broker drop a message, kept, delivered and answered nowhere, exactly when the client's window exceeds max_inflight + 4096. |
| `QosOverload.DefersIffWider` | oximqtt/src/session.rs:1003-1022 | Some interleaving defers a message exactly when the client's window exceeds max_inflight. |
| `QosTimeouts.AtMostOnceInOrder` | oximqtt-bench/src/client.rs:640-657 | With giving up on messages as a further move, for all windows: in every interleaving the deliveries are in sending order and none is repeated. |
| `QosTimeouts.LostExactlyWhen` | oximqtt/src/session.rs:991-1025 | An arriving message is lost exactly when its id is registered or deferred at the broker or both stores are full; nothing else is lost or reordered by it. |
| `QosTimeouts.LossExample` | oximqtt-bench/src/client.rs:640-657 | One slot: the client gives up on a delivered message, sends the next under the same id, completes it, and it is delivered to nobody. |
| `QosTimeouts.PlayKeeps` | oximqtt-bench/src/client.rs:551-657 | Every sequence of moves, giving up included, keeps the order of messages delivered, waiting and under way. |
| `QosProtocol.Reachable` | oximqtt-bench/src/client.rs:551-631 | Every interleaving of sends and receives keeps the joint invariant: each id in flight is carried by exactly one packet or deferral entry, in the phase the broker's window says. |
| `QosProtocol.NextKeeps` | oximqtt/src/session.rs:707-722 | Each single move of client or broker keeps the joint invariant. |
| `QosProtocol.PlayKeeps` | oximqtt/src/session.rs:707-722 | So does every sequence of moves. |
| `QosProtocol.FillIsSends` | oximqtt-bench/src/client.rs:551-606 | One call of `fill` equals some moves of the step system, so its interleavings are covered. |
| `QosProtocol.DeliveringIsBounded` | oximqtt/src/session.rs:934-949 | A stretch of receive moves is no longer than the work outstanding at its start. |
| `QosProtocol.Quiescent` | oximqtt-bench/src/client.rs:609-631 | With both channels empty nothing is in flight or deferred, every slot is free, and every message was delivered. |
| `QosProtocol.EveryMessageCompletes` | oximqtt-bench/src/client.rs:609-631 | Progress: after any run, any way of delivering the packets under way stops within a computed number of steps, and only with every slot free and every message delivered once, in order. |
| `Topics.Display` | oximqtt/src/topic.rs:407-423 | The formatter's loop prints the levels joined by `/`. |
| `Topics.PrintParse` | oximqtt/src/topic.rs:357-423 | Printing any parsed topic gives back its text, so parsing is injective; the result is valid and not empty. |
| `Topics.ParsePrint` | oximqtt/src/topic.rs:357-423 | Parsing the printed form of any topic the parser can produce gives it back. |
| `Topics.ParseLevelsInverts` | oximqtt/src/topic.rs:361-394 | A list of pieces parses exactly when every piece does, level by level, and prints back to the same pieces. |
| `Topics.ParseAccepts` | oximqtt/src/topic.rs:357-394 | A text is accepted exactly when its pieces keep the wildcard rules of section 4.7.1 and only the first begins with `$`. |
| `Topics.RefusedExample` | oximqtt/src/topic.rs:231-243 | `a/$b` keeps those rules and is refused. |
| `Topics.SpecOnText` | oximqtt/src/topic.rs:357-394 | On parsable text the relation over levels is the section 4.7 relation over pieces. |
| `Topics.LevelsMatchStep` | oximqtt/src/trie.rs:327-375 | The relation unfolds one level at a time, the form both tries follow. |
| `Topics.MatchesStr` | oximqtt/src/topic.rs:185-210 | For every name the direct matcher is the section 4.7 relation unless a wildcard meets a `$` piece, and then only the filter's next level decides; with `$` only at the front it errs exactly on `+` and `+/#`. |
| `Topics.LeakExample` | oximqtt/src/topic.rs:191-195 | `+` against `$SYS`: the relation says no, the matcher's exception applies. |
| `TopicTrie.LookupInsert` | oximqtt/src/trie.rs:113-126 | Inserting adds one value under one filter and leaves every other filter's values alone. |
| `TopicTrie.LookupRemove` | oximqtt/src/trie.rs:129-149 | Removing takes one value from one filter and leaves every other filter's values alone, pruning included. |
| `TopicTrie.InsertCanonical` | oximqtt/src/trie.rs:120-126 | Insert keeps every node below the root alive. |
| `TopicTrie.RemoveCanonical` | oximqtt/src/trie.rs:134-149 | Remove keeps every node below the root alive. |
| `TopicTrie.CanonicalUnique` | oximqtt/src/trie.rs:113-149 | Two canonical trees with the same contents are the same tree. |
| `TopicTrie.RemoveUndoesInsert` | oximqtt/src/trie.rs:113-149 | Removing a freshly inserted pair restores the tree node for node. |
| `TopicTrie.FoundIffHit` | oximqtt/src/trie.rs:327-375 | An item is produced below a node exactly when it is a stored filter that fits the rest of the name, with its whole value set. |
| `TopicTrie.FoundTimes` | oximqtt/src/trie.rs:327-375 | Exactly how often every filter is produced: not at all unless it is stored and fits, else once for a wildcard-free name and twice as often for every wildcard level it shares with the name. |
| `TopicTrie.OnceUnlessDoubled` | oximqtt/src/trie.rs:346-370 | That number is 1 exactly when filter and name share no wildcard level. |
| `TopicTrie.FoundDistinct` | oximqtt/src/trie.rs:327-375 | No filter is produced twice, exactly unless a stored matching one shares a wildcard level with the name. |
| `TopicTrie.DoubledExample` | oximqtt/src/trie.rs:346-370 | The filter `+` is found twice under the name `+`. |
| `TopicTrie.FoundIsMatching` | oximqtt/src/trie.rs:157-159 | From the root, for every name, the items are exactly the stored filters that match under section 4.7. |
| `TopicTrie.Prepare` | oximqtt/src/trie.rs:327-375 | Expanding a node lazily changes nothing about what is still to come. |
| `TopicTrie.NextItem` | oximqtt/src/trie.rs:313-325 | Yields the first remaining item and keeps the rest, across exhausted sub-iterators. |
| `TopicTrie.Next` | oximqtt/src/trie.rs:393-409 | Each call yields the next remaining item, or nothing, and then nothing for ever. |
| `TopicTrie.MatchAll` | oximqtt/src/trie.rs:157-159 | For every name, running the iterator to its end yields each stored matching filter with exactly its values and nothing else, and exactly as often as stated; once each, exactly unless a stored matching one shares a wildcard level with the name, which a wildcard-free name never does. |
| `TopicTrie.IsMatch` | oximqtt/src/trie.rs:152-154 | For every name, true exactly when some stored filter matches. |
| `TopicTrie.TopicTree.Insert` | oximqtt/src/trie.rs:113-126 | Says whether the value was new, changes exactly that filter's values, keeps the tree canonical. |
| `TopicTrie.TopicTree.Remove` | oximqtt/src/trie.rs:129-149 | Says whether the value was there, changes exactly that filter's values, keeps the tree canonical. |
| `RetainTrie.LookupInsert` | oximqtt/src/retain.rs:356-369 | Inserting sets one name's value and no other. |
| `RetainTrie.LookupRemove` | oximqtt/src/retain.rs:376-396 | Removing clears one name's value and no other. |
| `RetainSweep.Retain` | oximqtt/src/retain.rs:403-430 | The loop over children in an arbitrary order, with its test of the limit on entry, is the sweep along that order. |
| `RetainSweep.SweepFacts` | oximqtt/src/retain.rs:403-430 | For every order and limit: a name keeps its value or loses one that fails the predicate, empty nodes go, the counter grows by exactly the number of names lost; unless the limit is reached exactly the failing values go, and the names of a node that was entered are examined in any case. |
| `RetainSweep.SweepCounts` | oximqtt/src/retain.rs:403-430 | No more names go than fail, and exactly those unless the limit is reached. |
| `RetainSweep.CapIffSpread` | oximqtt/src/retain.rs:410-430 | The limit caps every sweep, for every limit and order, exactly when no failing name's parent is a proper prefix of another failing name; a given limit also when at most that many names fail, and when fewer fail they all go. |
| `RetainSweep.PastLimitExample` | oximqtt/src/retain.rs:410-430 | Two failing names side by side and limit 1: both go, in either order. |
| `RetainTrie.SetChildSize` | oximqtt/src/retain.rs:420-429 | How replacing or pruning one child changes the number of stored names. |
| `RetainTrie.MatchFrom` | oximqtt/src/retain.rs:441-509 | Appends each reported name below a node exactly once and leaves what was already collected. |
| `RetainTrie.MatchChild` | oximqtt/src/retain.rs:455-467 | One child contributes itself on a parent match with `#` and its reported names, never the same name twice. |
| `RetainTrie.MatchChildren` | oximqtt/src/retain.rs:468-507 | A wildcard level collects from every admitted child, in any order, `$` children shielded at the root. |
| `RetainTrie.MatchHash` | oximqtt/src/retain.rs:455-466 | Asked by `#`, a stored `#` level contributes its own value and nothing else. |
| `RetainTrie.MatchNames` | oximqtt/src/retain.rs:433-438 | For every valid filter the result is each stored (name, value) that matches under section 4.7 and is not hidden, once. |
| `RetainTrie.HiddenIff` | oximqtt/src/retain.rs:455-466 | A name is hidden exactly when some stored name leaves its way at a position with the filter's own wildcard there. |
| `RetainTrie.PlainHidesNothing` | oximqtt/src/retain.rs:455-466 | Names without wildcards hide nothing. |
| `RetainTrie.HiddenExample` | oximqtt/src/retain.rs:455-466 | A message retained under `a/+` hides the one under `a/b` from the filter `a/+`. |
| `RetainStore.RetainStorage.SetWithTimeout` | oximqtt/src/retain.rs:212-230 | For every name: sets, replaces or clears its message, no other name changes, a name that does not parse is refused, and the counter stays the number of stored messages. |
| `RetainStore.RetainStorage.RemoveExpiredMessages` | oximqtt/src/retain.rs:199-209 | Exactly the expired messages go, the result and the counter follow. |
| `RetainStore.RetainStorage.GetMessage` | oximqtt/src/retain.rs:233-252 | On text: exactly the unexpired messages whose name matches the filter under section 4.7 and is not overlooked, each name once; nothing is overlooked when no stored name has a wildcard. |
| `RetainStore.LiveIffRetained` | oximqtt/src/retain.rs:433-509 | Both queries run: subscribing returns the message retained under a name exactly when a live publish to it reaches the filter's subscribers and the name is not hidden. |
| `Routing.KeptAfterAdd` | oximqtt/src/router.rs:421-440 | After an add the map is well kept, has the expected keys, and both counts grow exactly when the filter, or the client under it, is new. |
| `Routing.KeptAfterRemove` | oximqtt/src/router.rs:443-483 | After a remove no entry is empty, the filter leaves with its last client, and both counts follow. |
| `Routing.IndexedAfterAdd` | oximqtt/src/router.rs:423-425 | The trie still holds exactly the parsed keys of the map. |
| `Routing.IndexedAfterRemove` | oximqtt/src/router.rs:470-476 | The trie still holds exactly the parsed keys of the map. |
| `Routing.ScanIsSeen` | oximqtt/src/router.rs:178-179 | The printed filters found by the trie are the filters a linear scan with the section 4.7 relation finds. |
| `Routing.SortSubscribers` | oximqtt/src/router.rs:193-218 | One filter's subscribers split into ordinary ones and shared groups, No Local ones left out. |
| `Routing.PickFromGroups` | oximqtt/src/router.rs:222-243 | Each shared group contributes exactly what the choice picks from its members. |
| `Routing.SelectionsJoin` | oximqtt/src/router.rs:178-244 | Selections for disjoint sets of filters combine to a selection. |
| `Routing.Router.constructor` | oximqtt/src/router.rs:421-440 | The empty router satisfies the invariant. |
| `Routing.Router.Add` | oximqtt/src/router.rs:421-440 | A filter that does not parse is refused without change. Otherwise exactly the given id and options are stored for the filter and client, a former entry overwritten, every other pair keeps its entry, and trie, map and both counters stay consistent. |
| `Routing.Router.Remove` | oximqtt/src/router.rs:443-483 | Removes exactly when the same session subscribed, and says so; the pair is gone, every other pair keeps its id and options, and trie, map and both counters stay consistent. |
| `Routing.GatherAll` | oximqtt/src/router.rs:178-244 | The loop over the filters found selects, for distinct filters, every ordinary subscription and one pick per group, in the order of the filters. |
| `Routing.Router.FindMatches` | oximqtt/src/router.rs:174-253 | The subscriptions considered are those of a linear scan minus No Local; every ordinary one and one pick per group are selected, in the trie's order, nothing twice; each node gets exactly the relations of its selected subscriptions. For a name with a wildcard that a matching filter shares, the selection still covers the same subscriptions and each ordinary one is selected as often as the trie finds its filter. |
| `Routing.RepeatedIff` | oximqtt/src/router.rs:174-253 | An ordinary subscription is selected more than once exactly when its filter shares a wildcard level with the name. |
| `Routing.ReachedIffSubscribed` | oximqtt/src/router.rs:174-253 | End to end, for every client and every name: it is handed the publish on a node exactly when it has there a matching subscription that No Local does not exclude and that is ordinary or was picked by its group. |
| `Routing.RelationsAreStored` | oximqtt/src/router.rs:174-253 | Every relation handed out on a node carries a filter that matches the name and to which its client is subscribed from that node, not excluded by No Local, with exactly the options and group stored for it. |
| `Routing.OnePickPerGroup` | oximqtt/src/router.rs:222-243 | At most one member of a shared group is picked per filter. |
| `Routing.FirstQosExample` | oximqtt/src/router.rs:174-253 | `a/#` at QoS 0 and `a/b` at QoS 2: the trie finds the first one first, so a QoS 2 publish goes out at QoS 0. |
| `Delivery.CollectExact` | oximqtt/src/types.rs:505-538 | After any sequence of additions: one v3 relation per subscription in order, one v5 entry per client with the identifiers of all its subscriptions. |
| `Delivery.OrderIrrelevant` | oximqtt/src/types.rs:505-538 | Two orders of the same selection give the same v3 relations, v5 clients and identifier multisets; filter and options of a v5 relation agree exactly when those of the client's first subscription do. |
| `Delivery.QosIsMaximalIff` | oximqtt/src/shared.rs:874 | A v5 client is served at the highest QoS of its matching subscriptions, as section 3.3.4 of MQTT 5.0 asks, exactly when the publish asks for no more than the first one grants or no other grants more. |
| `Delivery.CollectAllSplits` | oximqtt/src/router.rs:208-217 | Each node's collector is that of the selected subscriptions living on it. |
| `Delivery.IntoRelations` | oximqtt/src/types.rs:485-493 | The list is the v3 relations followed by one relation per v5 client, in any order. |
| `Delivery.FanOut` | oximqtt/src/types.rs:485-538 | A v5 client has exactly one relation iff a subscription of its was selected, carrying all identifiers and the filter, options and group of the first one; v3 relations are one per selected subscription. |
| `Delivery.ReachesExactly` | oximqtt/src/types.rs:485-538 | Whatever the versions, a client is on the list exactly when one of its subscriptions was selected. |
| `Delivery.RelationSpeaks` | oximqtt/src/types.rs:485-538 | Every relation on the list has client, filter, options and group of one selected subscription. |
| `PacketCodec.PutRemainingLength` | oximqtt-bench/src/mqtt/encode.rs:23-35 | The loop appends the variable length integer. |
| `PacketCodec.RemainingLengthLenExact` | oximqtt-bench/src/mqtt/encode.rs:13-21 | The width table agrees with the encoding exactly below 2^28. |
| `PacketCodec.PublishWireSizeExact` | oximqtt-bench/src/mqtt/encode.rs:66-71 | The size helper equals the length of the frame the encoder produces. |
| `PacketCodec.WriteConnect` | oximqtt-bench/src/mqtt/encode.rs:166-221 | Flags set one by one and fields appended one by one give the CONNECT body that `PacketLayout.ConnectLayout` lays down; a client id that is too long is refused. |
| `PacketCodec.WritePublish` | oximqtt-bench/src/mqtt/encode.rs:223-242 | Fields appended one by one give the specified PUBLISH body; the three id errors are those of the encoder. |
| `PacketCodec.WriteAck` | oximqtt-bench/src/mqtt/encode.rs:245-255 | A zero id is refused; the reason and an empty property block follow only in v5 and only when not zero. |
| `PacketCodec.WriteBody` | oximqtt-bench/src/mqtt/encode.rs:73-255 | For every packet the body appended field by field, with the loops over filters, names and reasons, is the specified one, and the first error met is the specified error. |
| `PacketLayout.ConnectLayout` | oximqtt-bench/src/mqtt/encode.rs:166-221 | Section 3.1 by position, for every CONNECT: `0 4 M Q T T` and the level, 4 for version 3.1.1 and 5 for 5.0; every bit of the flag byte; the keepalive; in 5.0 no properties or just the session expiry, `5 0x11` and its four bytes; then client id, will, user name and password, a password implying a user name. |
| `PacketLayout.EveryLayout` | oximqtt-bench/src/mqtt/encode.rs:73-255 | For every packet the type and reserved bits of the first byte, and the body as concatenated fields. |
| `PacketLayout.EncodeErrors` | oximqtt-bench/src/mqtt/encode.rs:73-255 | Exactly which packets are refused, with which error. |
| `PacketGrammar.ParseIff` | oximqtt-bench/src/mqtt/decode.rs:89-371 | For all bytes: a body is accepted as a packet if and only if a grammar of fields, written without a parser, says that it is that packet. |
| `PacketGrammar.ConnectIff` | oximqtt-bench/src/mqtt/decode.rs:136-189 | The same for CONNECT: either protocol name, levels 3 to 5, the flag bits that are looked at, and the fields they announce. |
| `PacketGrammar.PublishIff` | oximqtt-bench/src/mqtt/decode.rs:261-288 | The same for PUBLISH. |
| `PacketGrammar.ConnAckIff` | oximqtt-bench/src/mqtt/decode.rs:191-259 | The same for CONNACK: the property block is a sequence of known properties of exactly the announced length, and the Receive Maximum given last is taken. |
| `Utf8Text.Utf8Iff` | oximqtt-bench/src/mqtt/decode.rs:59-63 | Bytes are accepted as text if and only if they are the shortest UTF-8 forms (section 3 of RFC 3629) of some sequence of Unicode characters. |
| `PacketGrammar.DecodesIff` | oximqtt-bench/src/mqtt/mod.rs:61-91 | A decode yields a packet and leaves the rest exactly when the buffer starts with a first byte, a length within the limit, and that many bytes which the grammar says are that packet. |
| `PacketGrammar.WaitsIff` | oximqtt-bench/src/mqtt/mod.rs:61-91 | A decode waits exactly when the length is not complete, or is within the limit and the body is not complete. |
| `PacketGrammar.DecodeHeaded` | oximqtt-bench/src/mqtt/mod.rs:61-91 | With a complete length: over the limit it is refused with its size and nothing is consumed; otherwise it waits, or consumes exactly the frame, refused or not. |
| `PacketParsing.VarIntBack` | oximqtt-bench/src/mqtt/mod.rs:95-109 | A length below 2^28 reads back with its width, whatever follows. |
| `PacketParsing.VarIntTooLong` | oximqtt-bench/src/mqtt/mod.rs:95-109 | A length of 2^28 or more is malformed on reading. |
| `PacketParsing.VarIntPartial` | oximqtt-bench/src/mqtt/mod.rs:95-109 | A strict prefix of a length reads as not yet complete. |
| `PacketParsing.ParsedIsRepresentable` | oximqtt-bench/src/mqtt/decode.rs:89-189 | Whatever bytes parse, the packet is a CONNACK, exactly for type 2, or obeys the field rules. |
| `PacketParsing.StandardConnAckMisread` | oximqtt-bench/src/mqtt/decode.rs:191-211 | On every successful v5 CONNACK laid out as in section 3.2 of MQTT 5.0 the flags are taken for the reason and the Receive Maximum is not seen, whatever follows. |
| `PacketCodec.Cur.VarInt` | oximqtt-bench/src/mqtt/decode.rs:36-48 | The cursor's loop reads the variable length integer or reports the same error, leaving the rest unread. |
| `PacketCodec.Cur.String` | oximqtt-bench/src/mqtt/decode.rs:59-63 | Reads a length-prefixed string, refusing bytes that are not UTF-8. |
| `PacketCodec.Cur.SkipProperties` | oximqtt-bench/src/mqtt/decode.rs:77-86 | Skips exactly the property block. |
| `PacketCodec.ReadConnect` | oximqtt-bench/src/mqtt/decode.rs:136-189 | The cursor parser of CONNECT is the parsing function. |
| `PacketCodec.ReadConnAck` | oximqtt-bench/src/mqtt/decode.rs:191-211 | The cursor parser of CONNACK is the parsing function, for both versions. |
| `PacketCodec.ReadConnAckProps` | oximqtt-bench/src/mqtt/decode.rs:213-259 | The loop over the property block ends at the block's end, keeps the last Receive Maximum, and reports unknown, overrunning and truncated properties. |
| `PacketCodec.ReadPublish` | oximqtt-bench/src/mqtt/decode.rs:261-288 | The cursor parser of PUBLISH is the parsing function. |
| `PacketCodec.ReadAck` | oximqtt-bench/src/mqtt/decode.rs:299-309 | The cursor parser of the four acknowledgements is the parsing function. |
| `PacketCodec.ReadSubscribe` | oximqtt-bench/src/mqtt/decode.rs:311-337 | The loop over filters is the parsing function. |
| `PacketCodec.ReadUnsubscribe` | oximqtt-bench/src/mqtt/decode.rs:348-361 | The loop over names is the parsing function. |
| `PacketCodec.ReadPacket` | oximqtt-bench/src/mqtt/decode.rs:89-134 | Dispatch on type and reserved flags is the parsing function. |
| `PacketStream.BodyRoundTrip` | oximqtt-bench/src/mqtt/decode.rs:89-189 | For both versions every packet within the field rules parses back from its body, up to the stated normalisation. |
| `PacketStream.FrameStep` | oximqtt-bench/src/mqtt/mod.rs:61-91 | A frame followed by anything: the packet comes out and the rest stays. |
| `PacketStream.FramePartial` | oximqtt-bench/src/mqtt/mod.rs:61-91 | On any strict prefix of a frame nothing comes out and the buffer is untouched. |
| `PacketStream.SurvivesIff` | oximqtt-bench/src/mqtt/mod.rs:42-91 | An encoded frame decodes to its packet if and only if the packet keeps the field rules and its length fits 28 bits and the receiver's limit. |
| `PacketStream.StepStable` | oximqtt-bench/src/mqtt/mod.rs:61-91 | More bytes never change an answer the decoder has given. |
| `PacketStream.ChunkingIsInvisible` | oximqtt-bench/src/mqtt/mod.rs:57-91 | For every byte stream and every way to cut it, feeding the pieces gives the packets and the error of decoding all bytes at once, and the same unread bytes when there is no error. |
| `PacketStream.StreamRoundTrip` | oximqtt-bench/src/mqtt/mod.rs:42-91 | However the bytes of a list of encodable packets are cut, exactly those packets come out, normalised and in order, and nothing is left. |
| `PacketCodec.PeekRemainingLength` | oximqtt-bench/src/mqtt/mod.rs:95-109 | The accumulating loop computes value and width, not yet, or malformed, as the recursive definition does. |
| `PacketCodec.SizeReportExample` | oximqtt-bench/src/mqtt/mod.rs:47-53 | With limit 64 a 64-byte payload makes a frame of 69 bytes, which is refused with size 0; no frame has size 0. |
| `PacketCodec.Codec.EncodeInto` | oximqtt-bench/src/mqtt/mod.rs:42-55 | Appends exactly the frame, or on any error leaves the buffer as it was; a frame over the limit is reported with size 0. |
| `PacketCodec.Codec.Decode` | oximqtt-bench/src/mqtt/mod.rs:61-91 | Answer and remaining buffer are those of `DecodeStep`; the hint is the two bytes, the one byte more, or the whole frame that are wanted while a frame is incomplete, and is otherwise cleared once a frame is consumed. |
| `DeliverQueue.QueueConserves` | oximqtt/src/queue.rs:143-189 | Over every run each item sent is received, queued or handed back, exactly one of them; received then queued is in send order; no queued item lacks a token; tokens minus queue length is the direct pops that removed an item minus the polls that found nothing and the tokens refused, so they are equal exactly when these balance, and always without direct pops. |
| `DeliverQueue.RunBalances` | oximqtt/src/queue.rs:143-189 | That balance is kept by every run from any balanced state. |
| `DeliverQueue.EveryTokenServes` | oximqtt/src/queue.rs:182-189 | Over every run without direct pops, the number of items received is the number of polls made while a token was there. |
| `DeliverQueue.QueueDrains` | oximqtt/src/queue.rs:182-189 | After any run, direct pops or not, as many polls as items are queued hand out all of them, in order, and leave the queue empty. |
| `DeliverQueue.PopLeavesToken` | oximqtt/src/queue.rs:168-170 | One direct pop leaves a token with no item, and the next poll finds the queue empty. |
| `DeliverQueue.RunKeeps` | oximqtt/src/queue.rs:143-189 | Every sequence of sends, polls and pops keeps that invariant. |
| `DeliverRace.RaceConserves` | oximqtt/src/queue.rs:143-189 | In every interleaving of pushes, pops and token operations each item is received, queued, handed back, held by a send under way or lost; once nothing is half done, no item is missing exactly when none was lost, and every queued item has a token exactly when direct pops and lost items outweigh empty polls, refused tokens and second pushes after an empty pop. |
| `DeliverRace.RunKeeps` | oximqtt/src/queue.rs:143-189 | Every interleaving keeps the account of items and of tokens. |
| `DeliverRace.WithoutEviction` | oximqtt/src/queue.rs:143-189 | Without evicting sends items are received in send order in every interleaving; without direct pops, too, tokens added, owed or taken are exactly the queued items, no poll finds nothing, no token is refused and no item is lost. |
| `DeliverRace.UninterruptedEviction` | oximqtt/src/queue.rs:143-189 | The same holds with evicting sends, whatever else interleaves, as long as nothing comes between the three steps of one. |
| `DeliverRace.LostExactlyWhen` | oximqtt/src/queue.rs:147-157 | A step loses an item exactly when it is the second push of an evicting send that removed one, into a full queue. |
| `DeliverQueue.EarlyUninterrupted` | oximqtt/src/queue.rs:147-157 | Uninterrupted, the two steps are the atomic send. |
| `DeliverRace.AtomicWhenUninterrupted` | oximqtt/src/queue.rs:143-189 | Over every run, operations whose steps are not interrupted come to exactly what the atomic queue does. |
| `DeliverRace.LostExample` | oximqtt/src/queue.rs:147-157 | A concrete interleaving in which an item is nowhere. |
| `DeliverRace.StrandedExample` | oximqtt/src/queue.rs:147-157 | A concrete interleaving after which an item is queued with no token. |
| `DeliverRace.OutOfOrderExample` | oximqtt/src/queue.rs:147-157 | A concrete interleaving in which an item is queued behind a newer one. |
| `DeliverQueue.Channel.constructor` | oximqtt/src/queue.rs:217-227 | Opening a channel on stored messages seeds one token each. |
| `DeliverQueue.Channel.Push` | oximqtt/src/queue.rs:277-287 | Appends below capacity, hands back at capacity; the gauge equals the length. |
| `DeliverQueue.Channel.Pop` | oximqtt/src/queue.rs:290-300 | Takes the oldest item, if any; the gauge equals the length. |
| `DeliverQueue.Channel.SendItem` | oximqtt/src/queue.rs:143-164 | With room the item is appended and a token added unless the token channel is full; at capacity the item itself, or under the evicting policy the oldest one in exchange for it, is handed back and no token is added; what is handed back is recorded. |
| `DeliverQueue.Channel.PollNext` | oximqtt/src/queue.rs:182-189 | A token is spent and the oldest item leaves the queue and is received, or nothing if there is none; without a token nothing changes and the consumer waits, or the stream ends once no sender is left. |
| `TopicAliases.AliasesInvert` | oximqtt/src/types.rs:2611-2700 | From empty tables, every sequence of non-empty topics passes through the sending and receiving tables unchanged and without error, if the receiver's limit is at least the sender's. |
| `TopicAliases.RelayOne` | oximqtt/src/types.rs:2624-2697 | One topic arrives unchanged and the tables stay inverse to each other. |
| `TopicAliases.GetKeepsDense` | oximqtt/src/types.rs:2624-2648 | Issued aliases are always exactly 1 to the table's size. |
| `TopicAliases.AliasHistory` | oximqtt/src/types.rs:2663-2697 | Over every sequence of calls, whatever the peer sends: an empty topic is answered by the topic of the latest successful call that bound its alias, and fails exactly when there was none; a new alias is refused exactly when as many distinct ones are bound as are allowed; the table is always that history. |
| `TopicAliases.AnnouncedInOrder` | oximqtt/src/types.rs:2624-2648 | Over every sequence of topics: the first distinct ones, as many as allowed, are numbered from 1 in order of appearance, sent with their number the first time and as the number alone afterwards; every later topic is sent as it is. |
| `TopicAliases.ServerTopicAliases.Next` | oximqtt/src/types.rs:2624-2648 | A known topic goes out as its number alone; a new one with the next number, which is stored, while there is room, and as it is otherwise, changing nothing; the branch for a number of zero is dead. |
| `TopicAliases.ClientTopicAliases.Resolve` | oximqtt/src/types.rs:2663-2697 | A topic with an alias is stored for it, a former one overwritten; an alias alone is answered from the table; each of the three errors occurs in exactly its case, and a failed call changes nothing. |
| `PacketIds.OutInflight.NextId` | oximqtt/src/inflight.rs:324-335 | Returns the first nonzero id in probing order that is not in flight, and fails exactly when the only free ids are the one never probed; at most 65533 ids in flight always suffice. |
| `PacketIds.ManyInFlight` | oximqtt/src/inflight.rs:324-335 | A failing search means at least 65534 ids in flight. |
| `PacketIds.TooMany` | oximqtt/src/inflight.rs:324-335 | For every id there is a counter value and a set of 65534 others in flight with which the search fails although that id is free. |
| `ClientLocks.MutualExclusion` | oximqtt/src/shared.rs:317-325 | In every interleaving of try_lock, drop and guard release a client has at most one undropped entry, and a mutex in the map is held by an undropped entry. |
| `ClientLocks.RunKeeps` | oximqtt/src/shared.rs:317-411 | The invariant is kept by every sequence of steps. |
| `ClientLocks.GrantedIff` | oximqtt/src/shared.rs:401-411 | In every interleaving a try is granted exactly when its client has no undropped entry, adds just that one, and changes no other entry. |
| `ClientLocks.DropFrees` | oximqtt/src/shared.rs:317-325 | In every interleaving a drop leaves its client without an undropped entry, and the release then frees its mutex and changes no other entry. |
| `ClientLocks.NewLockBeforeUnlock` | oximqtt/src/shared.rs:317-325 | After the drop removed the mutex and before its guard is released, another session can already hold a new lock. |
| `ClientLocks.LockTable.TryLockFor` | oximqtt/src/shared.rs:401-411 | Granted exactly when the client has no mutex in the map; the new entry gets a mutex nobody holds, and nothing changes otherwise. |
| `ClientLocks.LockTable.RemoveLocker` | oximqtt/src/shared.rs:317-325 | The first half of a drop takes the mutex of just that client out of the map and leaves it held. |
| `ClientLocks.LockTable.ReleaseGuard` | oximqtt/src/shared.rs:317-325 | The second half of a drop removes just that entry and frees its mutex. |
| `Histogram.ClampIsDead` | oximqtt-bench/src/stats.rs:22-31 | No 64-bit value reaches the clamp. |
| `Histogram.LowerIsClose` | oximqtt-bench/src/stats.rs:22-43 | A bucket's lower bound never exceeds a sample in it and is below it by less than a quarter; exact under 64. |
| `Histogram.BucketMonotone` | oximqtt-bench/src/stats.rs:22-31 | Bucketing is monotone over all 64-bit values. |
| `Histogram.BucketIff` | oximqtt-bench/src/stats.rs:22-43 | A bucket holds exactly the values from its lower bound up to that of the next bucket. |
| `Histogram.LowerIs` | oximqtt-bench/src/stats.rs:34-43 | Every power of two from 64 on is cut into four equal buckets. |
| `Histogram.RankBucket` | oximqtt-bench/src/stats.rs:237-246 | Where the cumulative count reaches a rank is the bucket of the sample at that rank in sorted order. |
| `Histogram.LatencyStats.RecordLatency` | oximqtt-bench/src/stats.rs:226-231 | Every bucket stays the count of the samples in it; count, maximum and 64-bit sum follow. |
| `Histogram.LatencyStats.Percentile` | oximqtt-bench/src/stats.rs:234-248 | For every rank up to the number of samples, the result is the lower bound of the bucket of the sample at that rank in sorted order, hence close below it. |
| `Histogram.LatencyStats.PercentileOf` | oximqtt-bench/src/stats.rs:234-248 | For every percentage, the rank is the least one, from 1, that covers that share of the samples, and the result is that of the rank; the maximum when the percentage asks for more samples than there are. |
| `Scheduler.BuildIndex` | oximqtt-test/src/framework/scheduler.rs:156-157 | A name stands for the last test that carries it. |
| `Scheduler.BuildGraph` | oximqtt-test/src/framework/scheduler.rs:160-170 | Adjacency lists and in-degrees count exactly the resolvable dependencies. |
| `Scheduler.Kahn` | oximqtt-test/src/framework/scheduler.rs:173-184 | The loop visits tests only after their dependencies and ends with nothing ready. |
| `Scheduler.Ending` | oximqtt-test/src/framework/scheduler.rs:173-192 | At the end either every test was visited in a respecting permutation, or the graph has a cycle. |
| `Scheduler.StuckHasCycle` | oximqtt-test/src/framework/scheduler.rs:186-189 | A non-empty set of tests each waiting on another of the set contains a cycle. |
| `Scheduler.RespectedHasNoCycle` | oximqtt-test/src/framework/scheduler.rs:186-192 | A graph with a respecting permutation has no cycle. |
| `Scheduler.ResolveDagOrder` | oximqtt-test/src/framework/scheduler.rs:154-193 | Always a permutation; dependencies first when the graph is acyclic; the given order exactly when it has a cycle. |

## Left out

- QosClient.Outbound.Fill: topic expansion, payload and statistics are left out.
- QosProtocol.ExactlyOnceInOrder: one connection with FIFO channels whose sends succeed and whose publishes are accepted; reconnection and retransmission are not moves, and giving up on messages is a move only in `QosTimeouts`. `QosReceiver` covers arbitrary duplicates and failures on the receiving side.
- Topic::matches between parsed topics (oximqtt/src/topic.rs:246): a blank level matches anything there, so it is not a section 4.7 matcher; only `matches_str` is related to the reference.
- Routing.Router.FindMatches: for a name with a wildcard that a matching filter shares, a shared group is asked once for every time its filter is found; which members it then picks is not stated.
- Trie nodes, iterators and per-node collectors are owned values in the source and values here, reassigned by the object that owns them; there is no aliasing to capture.
- Shared-group relations also carry the picked member's online flag and the group's client list; both are copied through and not modelled.
- PacketGrammar.ParseIff: which error a refused body gets is stated only by the cursor methods, not by the grammar.
- DeliverQueue.Channel.SendItem: one send is one step here; `DeliverRace` has the steps of sends, polls and pops interleave.
- DeliverQueue.Channel.PollNext: the rate limiter in front of the consumer is not modelled. Whether the token channel takes tokens beyond its nominal capacity is a parameter of each send, since every cloned sender may have a slot of its own.
- Histogram.LatencyStats.PercentileOf: percentages are real numbers, so the rounding of 64-bit floating point is left out. Counters other than the sum are unbounded.
- Router calls and session events up to their reply are atomic; session takeover, state transfer and interleaved router calls are left out.
- `OutInflight` is a plain set of ids here: its ordering and whether its length stays within its capacity are left out.
- Sockets, TLS, WebSocket and QUIC transports, keepalive timers, hooks, access control rules, metrics, JSON, process control and reports are I/O or table lookups.
