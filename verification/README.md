# Verification of the thoth MQTT broker core

thoth is an MQTT 3.1.1 broker. This project models, in Dafny 4.11, the parts whose
correctness is not visible from a single function, and proves what they keep over every input,
every run and every interleaving. `dafny verify dfyconfig.toml` checks all of it.

- **The topic index.** Two mutable tries, one of filters with their subscribers, one of topics with
  retained messages, driven by a byte-level tokenizer. `TopicLevels` gives the tokenizer and its
  closed form. `Trie` gives the trie as a value with its two updates and proves exactly what they do
  to the flat table path -> value. `SubscriptionNode.SNode` and `RetainedNode.RNode` are the heap
  tries, each proved equal to the value it stands for. Lookup results are multisets, because Go does
  not fix the order of map iteration: the number of times an entry is reported is the number of
  paths where it is stored and where the wildcard relation of section 4.7.1 of MQTT Version 3.1.1
  holds (`TopicMatch.Matches`).
- **The subscription layer.** `Subscriptions` gives SUBSCRIBE and UNSUBSCRIBE packets as functions
  and proves that the client views and the index agree in every state of every run; with the trie
  results this yields the delivery theorems, and `EndToEnd` carries them to the packets written to
  each client. `BrokerClient.Client` is the imperative code, proved against those functions, and
  `Broker.BrokerCore` holds all clients over one index: the agreement is part of its `Valid()`, kept
  by its handlers, and a PUBLISH packet is followed to what is written on every connection.
  `RetainedAnswers` follows the retained messages over the SUBSCRIBE packets of a connection,
  `SessionHistory` what a session lists over the packets of a client, and `LeakedNodes` says which nodes
  the tree has, all in any run of any number of clients.
- **The QoS state machines.** `AwaitWindow` (QoS 2 receive window with expiry timers, on a clock
  finer than the seconds the code records), `Outbox` and `OutboxRuns` (inflight table and
  retransmission), `RetryTimer` (the race around the retry timer, one step per access to shared
  state), `WorkerPool` (hash-sharded serial execution).

The model follows the code where it differs from the standard or from its own apparent intent:

- The levels are those the tokenizer yields: an empty level before a `/` becomes `+`, a trailing
  empty level is dropped, `$` topics are ordinary. `JoinTokenize` says exactly when the levels are
  the plain split, `PlainSplitsMatch` that matching then is the plain one, and `EmptyLevelMatchesAny`
  that `a//b` matches `a/x/b`.
- Clearing a retained topic can take ancestors along (`ClearingLosesParent`, and on the topics `a` and
  `a/b` `ClearingChildLosesParent`); `ClearsOnlyItsTopicIff` is the exact condition.
- A refused subscription can leave bare nodes (`RefusedFilterLeaks`, for the filter `a/b#`): exactly
  when the filter is malformed and the levels read before the bad one have no node yet
  (`SubscribeOneTidyIff`, over runs `RunsTidyIff`). `BareIff` says which of them are still there.
- A shared delivery picks one subscriber over all groups together; `EveryGroupServedIff` says when
  that serves every group, `OneGroupUnserved` is a run where it does not.
- The list of retained messages is never reset between SUBSCRIBE packets, so a second answer repeats
  the first (`SecondAnswerRepeats`); `AnsweredExactlyIff` says when an answer is exactly what its packet
  asked for.
- A refused re-subscription drops the filter from the subMap and leaves it in the session
  (`RefusalLeavesOrphan`, for `a` with QoS 0 and then 3); `SessionExactIff` is the exact condition over
  all runs.
- Two connections of one client id can work on the same session object, as the code never closes the
  older one. What one of them sends can then take a filter off the session that the other is still
  subscribed to (`SharedSessionUncovered`); `MateSubscribeIff` and `MateUnsubscribeIff` say exactly when.
- An expiry can come up to one second early because of truncation (`OlderTimerCanBeEarly`): exactly
  when a timer set earlier in the same counted second is pending (`EarlyExpiryIff`, `AtRiskIff`).
- The retry timer can be lost (`LostWhenRecordedLate`): only by recording a timer whose
  `retryDelivery` is already past its reset (`NeverDeadIff`, `TimerNeverLost`), and then for good
  (`LossIsPermanent`).
- `publish` writes nothing for QoS 2 (`Outbox.ClientOutbox.PublishTo`, `EndToEnd.PublishedToWire`).

A subscription pointer is modelled as a record with an `id` that stands for its address; ids are
handed out by a counter, as allocation hands out fresh addresses. The clock, the outcome of a
network write, the random pick and the order of map iteration are parameters or nondeterministic.

## Model

| member | source | states |
|---|---|---|
| `TopicLevels.NextTopicLevel` | broker/persistence/topics/memtopics.go:408-458 | the byte loop answers the first piece up to `/` and the rest, and fails exactly when that piece has a wildcard that does not fill it, or is `#` before a `/` |
| `TopicLevels.TokenizeSpec` | broker/persistence/topics/memtopics.go:408-458 | iterating it succeeds exactly on input whose pieces are whole wildcards or wildcard-free with `#` last; the levels are the split on `/` with a trailing empty piece dropped and other empty pieces named `+`; on malformed input they are the pieces before the first bad one |
| `TopicLevels.TokensSharpLast` | broker/persistence/topics/memtopics.go:413-416 | `#` is only ever the last level read, and never read on malformed input |
| `TopicLevels.TokenizeJoin` | broker/persistence/topics/memtopics.go:408-458 | tokenizing the join of well-formed non-empty levels gives them back |
| `TopicLevels.JoinTokenize` | broker/persistence/topics/memtopics.go:418-422 | the levels of a well-formed topic are its plain split if and only if no piece is empty, and then joining them gives the topic back |
| `TopicMatch.MatchesCons` | broker/persistence/topics/memtopics.go:152-161 | the index-based wildcard relation, read one level at a time as the walks read it |
| `TopicMatch.PlainSplitsMatch` | broker/persistence/topics/memtopics.go:418-422 | for well-formed filters and topics without empty pieces, the relation on the code's levels is the one on plain splits |
| `TopicMatch.EmptyLevelMatchesAny` | broker/persistence/topics/memtopics.go:418-422 | the filter `a//b` matches the topic `a/x/b` on the code's levels and not on the splits |
| `TopicMatch.WildcardBytes` | broker/persistence/topics/memtopics.go:428-443 | on the bytes: a filter ending in `/#` matches the level before it, `+` matches any one level and no shorter topic |
| `TopicMatch.WildcardPlaces` | broker/persistence/topics/memtopics.go:408-458 | on the bytes: a wildcard is accepted as a whole level and refused after other bytes, `#` is refused before a `/`, and `a/` has the levels of `a` |
| `Trie.PathsHas` | broker/persistence/topics/memtopics.go:18-22 | the finite set of paths of a trie is exactly the set of paths with a node |
| `Trie.WriteTable` | broker/persistence/topics/memtopics.go:51-69 | descending and creating nodes changes the flat table at the written path only, not at all when nothing is written, and adds nodes on that path only |
| `Trie.TidyWriteNothing` | broker/persistence/topics/memtopics.go:62-69 | making the nodes of a path and writing nothing keeps a tree free of bare nodes if and only if the path had a node already |
| `Trie.EraseTable` | broker/persistence/topics/memtopics.go:115-126 | removal with pruning deletes exactly the doomed nodes (non-root, on the path, nothing below them off the path, all values from them down dead) and keeps every other value |
| `Trie.WriteThenErase` | broker/persistence/topics/memtopics.go:62-69 | writing and erasing restores the identical tree if and only if no node already on the path was bare |
| `Trie.TidyAllDead` | broker/persistence/topics/memtopics.go:120-124 | a tree without bare nodes whose values are all dead is a bare root |
| `SubscriptionTree.InsertTable` | broker/persistence/topics/memtopics.go:30-70 | a successful insertion changes only the entry (path, subscriber), a failed one no entry; slices stay equally long, without duplicates, `#` nodes stay childless |
| `SubscriptionTree.RemoveTable` | broker/persistence/topics/memtopics.go:74-127 | removal fails exactly when the filter is malformed, unknown or not subscribed by that subscriber; otherwise it deletes that entry, or all at the path for nil, and no other |
| `SubscriptionTree.DropSubSpec` | broker/persistence/topics/memtopics.go:87-93 | shifting the slices up removes that subscriber and keeps every other with its QoS |
| `SubscriptionTree.PutSubSpec` | broker/persistence/topics/memtopics.go:34-48 | the subscriber ends up listed once with the new QoS, every other keeps its own |
| `SubscriptionTree.InsertTidyIff` | broker/persistence/topics/memtopics.go:51-69 | an insertion leaves no childless node without subscribers if and only if the filter is well formed or its readable levels had a node already |
| `SubscriptionTree.RemoveStaysTidy` | broker/persistence/topics/memtopics.go:115-124 | a removal never leaves such a node |
| `SubscriptionTree.SubscribeThenUnsubscribe` | broker/persistence/topics/memtopics.go:115-124 | subscribing a fresh subscriber and removing it restores the identical tree if and only if the path had no bare node, in particular on every tidy tree |
| `SubscriptionTree.NoEntriesBareRoot` | broker/persistence/topics/memtopics.go:115-124 | a tidy tree without entries is a bare root |
| `SubscriptionNode.SNode.SInsert` | broker/persistence/topics/memtopics.go:30-70 | the heap trie becomes the inserted tree and the result is whether the filter tokenizes, for every input |
| `SubscriptionNode.SNode.SRemove` | broker/persistence/topics/memtopics.go:74-127 | the heap trie becomes the pruned tree, or is unchanged on error |
| `SubscriptionNode.SNode.MatchQos` | broker/persistence/topics/memtopics.go:469-478 | all subscribers of the node are appended, each with the published QoS |
| `SubscriptionNode.SNode.SMatch` | broker/persistence/topics/memtopics.go:133-164 | without error every subscriber is appended once per filter path that holds it and matches the topic (so `a/#` matches `a`), for any iteration order; an error occurs exactly when a malformed topic is read up to its bad level at some node |
| `RetainedTree.RInsertTable` | broker/persistence/topics/memtopics.go:177-205 | retaining changes its own topic path only, and nothing when the topic is malformed |
| `RetainedTree.RRemoveTable` | broker/persistence/topics/memtopics.go:208-244 | clearing T drops the message at T and those of the strict non-root ancestors whose tree descendants all lie on the path to T; it fails exactly when T is malformed or has no node |
| `RetainedTree.ClearingSparesOthers` | broker/persistence/topics/memtopics.go:208-244 | a topic that is not a level-prefix of the cleared one keeps its message |
| `RetainedTree.ClearsOnlyItsTopicIff` | broker/persistence/topics/memtopics.go:238-241 | clearing removes its own topic's message only if and only if no ancestor with a message is cut off by it |
| `RetainedTree.ClearingLosesParent` | broker/persistence/topics/memtopics.go:238-241 | with messages at a and a/b, clearing a/b loses the one at a |
| `RetainedNode.RNode.RInsertOrUpdate` | broker/persistence/topics/memtopics.go:177-205 | the heap trie becomes the tree with the message written |
| `RetainedNode.RNode.RRemove` | broker/persistence/topics/memtopics.go:208-244 | the heap trie becomes the pruned tree, or is unchanged on error |
| `RetainedNode.RNode.RMatch` | broker/persistence/topics/memtopics.go:249-287 | without error every stored message is appended once per topic path that holds it and that the filter matches, for any iteration order; errors as for smatch |
| `RetainedNode.RNode.AllRetained` | broker/persistence/topics/memtopics.go:289-297 | every message of the subtree is appended once: what `#` matches |
| `MemTopicsProvider.MemTopics.Subscribe` | broker/persistence/topics/memtopics.go:335-356 | it succeeds exactly for a QoS of 0 to 2, a subscriber and a well-formed filter, returns that QoS or 128, and updates the tree accordingly |
| `MemTopicsProvider.MemTopics.Unsubscribe` | broker/persistence/topics/memtopics.go:358-363 | the subscription tree after removal, unchanged on error |
| `MemTopicsProvider.MemTopics.Subscribers` | broker/persistence/topics/memtopics.go:366-378 | for a QoS of 0 to 2 the slices are refilled with exactly the matching entries; a higher one leaves them alone |
| `MemTopicsProvider.MemTopics.Retain` | broker/persistence/topics/memtopics.go:380-392 | an empty payload clears the topic, any other is retained; success exactly when that is possible |
| `MemTopicsProvider.RetainTable` | broker/persistence/topics/memtopics.go:380-392 | after Retain a message with a payload is at the levels of its well-formed topic and nothing else changed, one without leaves no message there, and a malformed topic changes nothing |
| `MemTopicsProvider.MemTopics.Retained` | broker/persistence/topics/memtopics.go:394-399 | the matching retained messages are appended |
| `MemTopicsProvider.MatchersDual` | broker/persistence/topics/memtopics.go:133-164 | for any two tries, one holding a subscription at F and the other a message at T: the walk for T hits F if and only if the walk for F hits T, if and only if F matches T |
| `MemTopicsProvider.AfterRetainHomed` | broker/persistence/topics/memtopics.go:380-392 | every retained message stays stored under the levels of its own topic name |
| `MemTopicsProvider.ClearingChildLosesParent` | broker/persistence/topics/memtopics.go:380-392 | with messages retained at the topics `a` and `a/b`, an empty payload on `a/b` loses the message at `a` too |
| `MemTopicsProvider.MatchersAgree` | broker/persistence/topics/memtopics.go:249-287 | in any topic provider, whatever else it holds: Subscribers of topic T finds a subscription to filter F if and only if Retained of F finds the message at T, if and only if F matches T |
| `MemTopicsProvider.MatchersAgreeAlone` | broker/persistence/topics/memtopics.go:335-399 | the same for a provider built by one Subscribe and one Retain, for all well-formed F and T |
| `Subscriptions.KeyOfNew` | broker/subscribe.go:45-67 | the subMap key is recovered from the record, shared or not |
| `Subscriptions.ParseFilterIff` | broker/subscribe.go:45-54 | a filter is shared, with that group and topic, if and only if its bytes are `$share/`, a group of letters, digits, `-` and `_`, `/` and a topic without newline; refused if and only if it has the prefix and not that form; plain if and only if it has no such prefix |
| `Subscriptions.DropRow` | broker/subscribe.go:56-59 | dropping the old subscription deletes its one row of the index and no other |
| `Subscriptions.AddRow` | broker/subscribe.go:61-74 | indexing a fresh record adds exactly its row, or none when refused |
| `Subscriptions.SubscribeOneKeepsAgreement` | broker/subscribe.go:41-79 | one filter of a SUBSCRIBE packet, replacement included, keeps client views and index in agreement |
| `Subscriptions.SubscribeKeepsAgreement` | broker/subscribe.go:40-81 | so does a complete SUBSCRIBE packet |
| `Subscriptions.UnsubscribeKeepsAgreement` | broker/unsubscribe.go:64-71 | so does a complete UNSUBSCRIBE packet |
| `Subscriptions.RunsKeepAgreement` | broker/subscribe.go:56-79 | in every state of every run the rows of the index are exactly the subMap values of all clients, each once, at its own filter path with its own QoS |
| `Subscriptions.SubscribeOneTidyIff` | broker/subscribe.go:56-74 | one filter of a SUBSCRIBE packet leaves no bare node if and only if it is refused before the index is asked, or is well formed, or the levels read before its bad one have a node once the old entry is gone |
| `Subscriptions.RunsTidyIff` | broker/persistence/topics/memtopics.go:62-69 | a run leaves no bare node at any filter if and only if every filter met that condition in the state it found |
| `Subscriptions.EmptyBareRootIff` | broker/persistence/topics/memtopics.go:115-124 | in any state of any run with all subMaps empty, the tree is a bare root if and only if there is no bare node |
| `Subscriptions.RefusedFilterLeaks` | broker/persistence/topics/memtopics.go:63-69 | a SUBSCRIBE packet with the filter `a/b#` is refused, leaves the subMap empty and a bare node at `a` |
| `LeakedNodes.NodesIff` | broker/persistence/topics/memtopics.go:51-126 | after any run the tree has exactly the nodes on the way to a filter somebody is subscribed to, or to the last readable level of a malformed filter since which no removal came by |
| `LeakedNodes.BareIff` | broker/persistence/topics/memtopics.go:115-124 | the bare nodes after any run are exactly those last readable levels that no subscription leads through and no other such path extends |
| `Subscriptions.PacketsKeepSessionCover` | broker/persistence/sessions/session.go:82-106 | with one live client per session every subMap filter stays listed in the session with its QoS |
| `Subscriptions.RunsKeepSessionCover` | broker/subscribe.go:76-78 | the same in every state of every run |
| `SessionHistory.OrphanIff` | broker/subscribe.go:56-78 | in every state of every run, whatever other clients send in between: the subMap lists t if and only if a subscription to t was accepted and neither dropped nor refused since; the session lists t beyond the subMap if and only if it did so on connect, or t was refused while subscribed, and no subscription to t was accepted since |
| `SessionHistory.RefusalLeavesOrphan` | broker/subscribe.go:56-78 | the run in which a client subscribes `a` with QoS 0 and then with QoS 3 ends with `a` in the session and not in the subMap |
| `SessionHistory.SessionExactIff` | broker/subscribe.go:56-78 | in every state of every run, session and subMap of a client list the same filters if and only if there is no such t |
| `SessionHistory.MateSubscribeIff` | broker/persistence/sessions/session.go:82-93 | a SUBSCRIBE packet of one connection keeps the session covering the subMap of another that shares it if and only if no filter of that subMap was accepted last with another QoS |
| `SessionHistory.MateUnsubscribeIff` | broker/persistence/sessions/session.go:95-106 | an UNSUBSCRIBE packet does so if and only if it drops no filter that both are subscribed to |
| `SessionHistory.SharedSessionUncovered` | broker/unsubscribe.go:64-71 | two connections on one session subscribe `a`, one unsubscribes it, and the session does not cover the other any more |
| `Subscriptions.Delivery` | broker/publish.go:105-150 | where the views agree, a fan-out serves each matching non-shared subMap entry of every client once, exactly one matching shared entry if any exists, and nothing else |
| `Subscriptions.DeliveryAfterAnyRun` | broker/publish.go:105-150 | the same after any run of SUBSCRIBE and UNSUBSCRIBE packets of any number of clients, on well-formed topics, in terms of the levels of filter and topic |
| `Subscriptions.EveryGroupServedIff` | broker/publish.go:145-149 | every matching shared subscription is served if and only if at most one shared subscription matches |
| `Subscriptions.OneGroupUnserved` | broker/publish.go:145-149 | after two clients subscribed `$share/g/x` and `$share/h/x`, every fan-out on `x` leaves one of the groups unserved |
| `EndToEnd.HandedToWire` | broker/comm.go:10-30 | calling publish for a list of entries writes each open client one packet per entry of its own for QoS 0 and 1, none for QoS 2, and puts a QoS 1 message in flight there |
| `EndToEnd.PublishedToWire` | broker/publish.go:128-149 | each client is written as many copies as it has matching non-shared filters, plus one if the shared pick fell on it |
| `Broker.PublishedAfterAnyRun` | broker/publish.go:105-150 | the same from the bytes of every well-formed topic and every QoS from 0 to 2, after any run of SUBSCRIBE and UNSUBSCRIBE packets |
| `BrokerClient.Client.ProcessClientSubscribe` | broker/subscribe.go:23-99 | the loop over the filters has the stated effect on tree, subMap, session and address counter; SUBACK with one code per filter is the first new packet; if and only if it could be written every gathered message follows, each as often as it was gathered, and nothing else; nothing happens on a closed client |
| `BrokerClient.Client.SubscribeFilter` | broker/subscribe.go:40-81 | one filter: replacement, indexing, subMap, session, return code and retained messages |
| `BrokerClient.IndexFilter` | broker/subscribe.go:56-80 | the calls to the topic provider for one filter: old entry dropped, new one indexed, retained messages fetched only on success |
| `BrokerClient.ReturnCodes` | broker/subscribe.go:40-83 | the codes are positional: the i-th is the requested QoS when the i-th filter parses, is well formed and asks for a QoS of 0 to 2, and 128 otherwise |
| `RetainedAnswers.AnswerOnWire` | broker/subscribe.go:85-99 | of the packets written in answer to a SUBSCRIBE packet SUBACK is the first; when it was written each message follows as often as the list has it and only publications follow; when it was not, nothing follows |
| `RetainedAnswers.FetchedIsAsked` | broker/subscribe.go:80 | the loop over the filters fetches a message once for each pair of an accepted filter and a topic where it is retained that the filter matches |
| `RetainedAnswers.Accumulates` | broker/subscribe.go:80-92 | after packet k of a connection the list holds each message as often as packets 1 to k ask for it |
| `RetainedAnswers.AnsweredExactlyIff` | broker/subscribe.go:80-92 | the packets written after SUBACK are exactly the messages the packet asks for, each as often, if and only if no earlier packet of the connection asked for a message |
| `RetainedAnswers.SecondAnswerRepeats` | broker/subscribe.go:80-92 | with one message retained at `a`, of two SUBSCRIBE packets for `a` the first is answered with one copy and the second with two, on the wire |
| `BrokerClient.Client.ProcessClientUnsubscribe` | broker/unsubscribe.go:52-83 | subMap, tree and session after the whole packet, and UNSUBACK |
| `BrokerClient.Client.ProcessPublishMessage` | broker/publish.go:105-150 | the message is retained if asked, and handed out exactly as a fan-out over the index, or to nobody when the look-up fails |
| `BrokerClient.PickTargets` | broker/publish.go:128-149 | the loop and the random pick turn the looked-up list into a fan-out |
| `BrokerClient.Client.ProcessClientPublish` | broker/publish.go:75-102 | PUBACK or PUBREC first; QoS 0 is always routed, QoS 1 exactly when the PUBACK was written, QoS 2 exactly when the id was not in the window, there was room and the PUBREC was written, and then it is in the window after; a higher QoS never; a message that is not routed is neither retained nor handed to anybody |
| `BrokerClient.Client.ProcessPubrel` | broker/client.go:351-359 | the id is released and PUBCOMP answered, known or not |
| `Broker.BrokerCore.OnConnect` | broker/broker.go:205-246 | a new client, on a session of its own or one that other connections work on too, keeps views and index in agreement and starts with an open, empty connection |
| `Broker.BrokerCore.OnSubscribe` | broker/client.go:290-382 | a SUBSCRIBE packet of any client is one step of the run model on an open connection and nothing on a closed one, its session seen by every client that shares it; it keeps the agreement of all clients with the index and the retained messages, answers SUBACK and the gathered messages on that connection, and writes to no other |
| `Broker.BrokerCore.OnUnsubscribe` | broker/client.go:290-382 | the same for an UNSUBSCRIBE packet, answered by UNSUBACK |
| `Broker.BrokerCore.OnPublish` | broker/publish.go:75-150 | the message is acknowledged, the receive window and the retained messages change as for the publisher alone; a routed message with a well-formed topic is then, for QoS 0 or 1, written to the open connection of each client once per matching non-shared filter of that client, plus once if the shared pick fell on it, one of QoS 2 to none; views and index stay, and a message that is not routed changes no other connection; a routed QoS 2 id comes into the window by it |
| `Broker.BrokerCore.OnClose` | broker/client.go:270-288 | closing a connection leaves all subscriptions in place |
| `Broker.SpreadAlone` | broker/persistence/sessions/session.go:82-106 | what a client does to a session that it does not share is seen by that client only |
| `Broker.BrokerCore.RetainedMeetsLive` | broker/persistence/topics/memtopics.go:133-287 | in every state of the broker the filter of a subscription finds the message retained at T exactly once or not at all, and exactly when a message published on T finds that subscription |
| `AwaitWindow.AwaitingRel.IsAwaitingFull` | broker/client.go:396-404 | full exactly when the limit is not zero and as many ids are in the window |
| `AwaitWindow.AwaitingRel.RegisterPublishPacketId` | broker/client.go:406-418 | registers exactly when the window is not full and the id is not in it, with a timer 20 seconds ahead |
| `AwaitWindow.AwaitingRel.ExpireAwaitingRel` | broker/client.go:420-432 | the firing of a pending timer is the run's Fire step: the timer is used up and the loop removes exactly the entries that are 20 counted seconds old |
| `AwaitWindow.AwaitingRel.PubRel` | broker/client.go:434-442 | removes that id and no other, and says whether it was there |
| `AwaitWindow.Run.Balance` | broker/client.go:406-442 | over any run, routings minus removals of an id is 1 if it is in the window and 0 otherwise |
| `AwaitWindow.Run.WindowIsHistory` | broker/client.go:396-442 | over any run, an id is in the window, with the time of event i, if and only if event i took it and since then there was no PUBREL of that id and no timer firing 20 counted seconds after i or later |
| `AwaitWindow.Run.AtMostOnce` | broker/publish.go:86-97 | when an id comes into the window twice, which every routed QoS 2 message makes its id do, a PUBREL of that id or a timer firing at a counted age of 20 seconds lies in between |
| `AwaitWindow.Run.GoneAfter20` | broker/client.go:416 | with punctual timers no entry is in the window more than 20 seconds after its registration |
| `AwaitWindow.Run.Covered` | broker/client.go:406-418 | in every state each entry has the timer of its own registration pending, and a positive limit is never exceeded |
| `AwaitWindow.Run.CoveringTimerExpires` | broker/client.go:420-432 | that timer removes the entry whenever it fires |
| `AwaitWindow.ExpiryAge` | broker/client.go:425-429 | no timer, however late, removes an entry before 20 counted seconds, that is more than 19 real ones; when it comes before the full 20 |
| `AwaitWindow.FiresEarlyIff` | broker/client.go:425-429 | a timer that fires on time removes an entry before its full 20 seconds if and only if it falls due before the entry's own timer, in the same counted second |
| `AwaitWindow.Run.EarlyExpiryIff` | broker/client.go:420-432 | over every run with punctual timers: the expiry of an entry comes less than 20 seconds after its registration if and only if some id was registered before it in the same counted second |
| `AwaitWindow.Run.AtRiskIff` | broker/client.go:406-418 | with timers on time, a registration has such a timer pending if and only if an id was registered earlier in the same counted second |
| `AwaitWindow.OlderTimerCanBeEarly` | broker/client.go:425-429 | a run in which an older timer removes a reused id before its full 20 seconds |
| `Outbox.ClientOutbox.PublishTo` | broker/comm.go:10-30 | the new table, timer and output per QoS; QoS 1 arms an unarmed timer for 20 seconds; nothing for QoS 2 |
| `Outbox.ClientOutbox.EnsureRetryTimer` | broker/comm.go:33-51 | arms the timer only when none is armed |
| `Outbox.ClientOutbox.PubackIn` | broker/client.go:320-328 | removes the id |
| `Outbox.ClientOutbox.PubrecIn` | broker/client.go:329-350 | moves a published element on, once, and answers PUBREL in any case |
| `Outbox.ClientOutbox.PubcompIn` | broker/client.go:360-364 | removes the id |
| `Outbox.ClientOutbox.RetryDelivery` | broker/comm.go:64-103 | for any order of the table: exactly the elements 20 seconds old are written again, each once, as PUBLISH or after PUBREC as PUBREL, and stamped; the timer then falls due when some younger element gets 20 seconds old, or in 20 seconds when there is none |
| `OutboxRuns.Run.InflightIsHistory` | broker/client.go:320-364 | an id is in flight if and only if its last QoS 1 delivery is followed by no PUBACK or PUBCOMP; it awaits PUBCOMP if and only if a PUBREC followed that delivery; the stored packet is that of the delivery |
| `OutboxRuns.Run.RetryResendsHistory` | broker/comm.go:83-94 | a retry resends that publication before PUBREC and a PUBREL with its id after |
| `OutboxRuns.StepWrites` | broker/comm.go:64-103 | nothing is taken off the wire, and every event writes each packet exactly as often as it should: a QoS 0 or 1 publication once, a PUBREL for a PUBREC, every element of 20 seconds at a firing |
| `OutboxRuns.Run.StaysOnTime` | broker/comm.go:95-102 | with any number of timers pending, on an open connection: every pending timer is at most 20 seconds ahead, the field names one of them whenever something is in flight, and one of them falls due before any element is 40 seconds old |
| `OutboxRuns.Run.RetransmissionBound` | broker/comm.go:84-99 | however many timers the races leave pending, with timers firing when due: each resend comes at least 20 and less than 40 seconds after the last timestamp, and a timer falls due within 20 seconds as long as anything is in flight |
| `OutboxRuns.Run.LoneOnSchedule` | broker/comm.go:95-102 | with timers firing when due and no interference, an element that is alone in the table when timers fire is transmitted again exactly 20 seconds after its last transmission |
| `OutboxRuns.RetriedAlone` | broker/comm.go:64-103 | a retryDelivery that no other thread interferes with is such a step: it arms an interval of 1 to 20 seconds |
| `RetryTimer.StepConsistent` | broker/comm.go:33-103 | every step keeps: timers are used once, and the lock is held exactly between starting a timer and assigning the field |
| `RetryTimer.NeverDeadIff` | broker/comm.go:47-49 | over every run, the field never names a timer that neither runs nor will still reset it, if and only if no step records such a timer |
| `RetryTimer.TimerNeverLost` | broker/comm.go:17-25 | in every interleaving without such a late assignment, with the connection open and something in flight, a timer runs, a publisher is between insert and ensure, or a fired retryDelivery is unfinished |
| `RetryTimer.LostOnlyByDeadField` | broker/comm.go:33-103 | in every interleaving, with no assumption on timing, retransmission stops only in states where the field names a dead timer |
| `RetryTimer.StuckIff` | broker/comm.go:33-103 | no continuation ever runs a timer again if and only if the field is dead, no timer runs and no thread is left that saw a nil field or has yet to reset it |
| `RetryTimer.LossIsPermanent` | broker/comm.go:33-103 | every state of a run in which retransmission has stopped is beyond recovery, and stays so |
| `RetryTimer.LostWhenRecordedLate` | broker/comm.go:47-49 | a run with a late assignment, respecting the lock, that loses the timer for good |
| `WorkerPool.Pool.Dispatch` | pool/pool.go:51-56 | every queue gets its own channel |
| `WorkerPool.Pool.constructor` | pool/pool.go:17-38 | there is at least one worker |
| `WorkerPool.Run.StartsIff` | pool/pool.go:44-71 | while its worker runs, a waiting task can start if and only if no task is running whose client id has the same remainder of the hash by the number of workers |
| `WorkerPool.Run.OneAtATime` | pool/pool.go:58-71 | of two tasks of one client id the first finishes before the second starts, in every interleaving |
| `WorkerPool.Run.SubmissionOrder` | pool/pool.go:44-49 | tasks one thread submits for a client id run in submission order |

## Left out

- Network listening, packet reading and writing, CONNACK and keep-alive: input and output; a write is an entry in an output log with a free outcome.
- Router, remote and cluster connections and their reference counts: the listener only creates CLIENT connections.
- Authentication, the RabbitMQ bridge, configuration and start-up: foreign services.
- Provider registries, the session store and session lookup on CONNECT: plain map operations.
- UTF-8 validation of incoming packets: not a property of the modelled state.
- Locks around the tries, the session and the inflight table: each locked operation is one step; interleavings are modelled for the retry timer and the worker pool.
- Data races on `awaitingRel`: the code does not lock it, and `expireAwaitingRel` runs on a timer goroutine beside the handlers; in the model each firing and each handler is one step.
- The in-place update of an inflight element after it left the table: elements are values stored in the table.
- The reflective cases of `equal`: subscribers are compared as the records they point to, which carry a unique id.
- The minimum-QoS rule described above `matchQos`: the code has it commented out.
- The removal of a closed client's subscriptions: the code does not do it, so the delivery theorems count entries of closed clients, to which nothing is written.
- The handlers of PUBACK, PUBREC, PUBREL, PUBCOMP and the timers at the level of `Broker.BrokerCore`: each touches one connection or window only, and is proved there.
- OutboxRuns.Run.RetransmissionBound: starting a timer and recording it is one step here; what happens when a timer is recorded late is the subject of `RetryTimer`.
