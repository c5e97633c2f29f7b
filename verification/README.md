# A verified model of ast_redis

ast_redis lets a cluster of Asterisk servers share events (message waiting, device state) over
Redis publish/subscribe. A node prints each of its own events as a JSON text of at most 1023
characters, publishes it on the channel of its type, receives everybody's messages including its
own, drops its own by entity identifier (EID), and feeds the others into Asterisk's event queue and
cache. The model covers the codec, the publish/subscribe callbacks, the cluster they form, the
subscription table, the server list and failover.

`dafny verify dfyconfig.toml` checks everything. One module per file:

| file | contents |
|---|---|
| CText.dfy | C strings as values: strtok, strsep, the trims, `%u`, atoi, EID text |
| LibC.dfy | the same operations in place on char buffers |
| IeTable.dfy | the table of information elements (IEs) and the name search |
| Spelling.dfy | letter case, numbers and identifiers character by character, and the table's contents |
| EventCodec.dfy | encoding and decoding as functions; the round trip and its exact condition |
| EventText.dfy | the text of an event line by line, in the printf formats |
| Serializer.dfy | `message2json` and `json2message` over buffers, equal to those functions |
| Truncation.dfy | messages cut by the buffer: whom a receiver takes them to come from |
| Reprint.dfy | events that lose their origin in the buffer print as the very same text again |
| JsonGrammar.dfy | the printed text against the grammar of RFC 8259 |
| ResRedis.dfy | the event types table, the callbacks, the cache dump, the subscriptions |
| Channels.dfy | from the settings to the wire: topics, messages, and what is let in |
| Cluster.dfy | N nodes as a transition system, and its invariant |
| Convergence.dfy | when a replica agrees with its origin, exactly, and a run in which it does not |
| TwoKeys.dfy | a quiet run in which a reader holds two keys of one origin |
| ClusterTheorems.dfy | catch-up, no forwarding, conservation, no storms |
| RealCluster.dfy | the cluster of the real callbacks, with real text on the wire |
| Overlong.dfy | published events beyond the buffer, and exactly when one of them sets off a storm |
| SampleCluster.dfy | two nodes with the compiled-in table and the sample configuration; a race and a storm on them |
| Subscriptions.dfy | the subscription table and the commands sent for it |
| ServerList.dfy | the linked list of servers and the round-robin pointer |
| Failover.dfy | `redis_connect_nextserver` and its static position |
| ServerFields.dfy | the fields of the server list, blanks included, and the sample line |
| Shared.dfy | result codes |

## How the parts fit

*Codec.* Decoding is total: a step to which C gives no meaning (a null `value`, a trim of an empty
string, an `atoi` result that is no `int`) ends in `Undefined`, and the identifier buffer that the
code never initialises is the parameter `junk`. The table and the device state names are parameters
(`Dict`); `AsteriskTableValid` and `AsteriskDictValid` show that the compiled-in table qualifies.

*Cluster.* The theorems are stated over a `Net`, which says what a node's callbacks publish and make
of a message, and hold for every `Faithful` net. `RealNetFaithful` proves that the real callbacks
(1024-byte encoder, routing by channel, decoder) are one, so they hold of real text. Steps of
different nodes interleave freely; a dump and the subscription that follows it are separate steps.

What the cluster model assumes of its surroundings:

- Redis delivers every message to every subscriber, in order within a channel; messages of
  different channels may overtake each other. A step is atomic.
- Asterisk's cache maps (type, identifying part of the elements, EID) to the last cached event and
  evicts nothing; a local poster caches an event exactly if its last Cachable element is non-zero.
- Locally created events carry the local EID and no other EID.
- Nodes have distinct EIDs and one configuration, with distinct non-empty channels.
- Events of published types are wire-safe and fit the buffer. `RoundTripIff` shows that a fitting
  event survives only if it is wire-safe; `CutOrigin` and `StormWithoutEnd` show what happens when it
  does not fit.

Where the code does less than it promises, the model follows the code:

- An event that does not fit keeps its origin exactly if the kept text reaches the end of the EID's
  17 characters and makes sense (`OriginKeptIff`). If it makes sense and holds nothing of those
  characters, every node, the sender included, takes the event for its own and publishes it again as
  the very same text (`Reprinted`, `PublishedAgain`). That, and nothing else, sets off a storm
  (`RoundIff`): a single node then publishes the message forever (`StormWithoutEnd`). Otherwise a
  receiver takes it for that of whoever the uninitialised identifier buffer names, or runs into
  undefined behaviour (`CutOrigin`).
- What a starting node dispatches between its cache dump and its own subscription is lost. A replica
  of a key that was published, by dump or by dispatch, agrees with its origin exactly if nothing was
  lost for that key since the last publication, or a newer event is still queued, or the last event
  lost is the one that was published (`ConvergenceIff`). The condition can fail for good
  (`StartupRace`); with the publisher subscribed it cannot (`Convergence`).
- `msq_remove_all_servers` leaves `current_server` dangling (`Servers.RemoveAllServers`).
- Switching subscriptions off completes exactly if no subscribed entry is properly registered and no
  command fails (`OffCompletesIff`).
- A server without a port inherits the port of an earlier server of the same call
  (`PortCarriesOver`), and failover never starts over once the list is used up (`FailoverOrder`).
  The sample configuration says that servers are tried in order until a connection is established.

## Model

| member | source | states |
|---|---|---|
| CText.TrimQuote | lib/ast_event_message_serializer.c:208-216 | trimming quotes off both ends undoes quoting for every text, quotes at its ends included |
| CText.AtoiOfDecimal | lib/ast_event_message_serializer.c:333 | atoi reads back what %u printed exactly for the values up to 2^31-1, and is undefined for all others |
| Spelling.AtoiSign | lib/ast_event_message_serializer.c:333 | atoi skips spaces, reads a sign, and stops at the first character that is no digit |
| CText.ParseEidText | lib/ast_event_message_serializer.c:343 | parsing the printed form of an EID gives the EID back |
| Spelling.EidSpelling | lib/ast_event_message_serializer.c:263-343 | an EID is printed in lower case hexadecimal digits and read in either case |
| CText.TokensAppend | lib/ast_event_message_serializer.c:306-360 | the tokens of two texts joined by the delimiter are the tokens of the first, then those of the second |
| LibC.TrimCharBothEnds | lib/ast_event_message_serializer.c:208-216 | the in-place trim computes the trimmed string and touches no other byte; it reports exactly the inputs on which the code would index before the string |
| LibC.Strtok | lib/ast_event_message_serializer.c:306-360 | one in-place strtok call yields the first token and leaves a strictly shorter text that holds the remaining tokens |
| LibC.Strsep | lib/ast_event_message_serializer.c:309 | cuts at the first colon: key, and value or null |
| IeTable.StrToIeType | lib/ast_event_message_serializer.c:188-204 | the search loop returns 0 and the first IE type from 1 on with that name ignoring case, or -1 if there is none |
| IeTable.LookupInvertsNaming | lib/ast_event_message_serializer.c:188-204 | the search maps every name, in any letter case, back to its own type if and only if no two names are equal ignoring case |
| IeTable.AsteriskTableValid | lib/ast_event_message_serializer.c:120-184 | the compiled-in table has distinct alphanumeric names, EntityID as its only RAW element, no UNKNOWN or EXISTS element, and no name equal to statestr |
| Spelling.CaseEqIs | lib/ast_event_message_serializer.c:196 | two strings are equal ignoring case if and only if they have one length and differ at most by 32 at the letters A-Z and a-z |
| Spelling.LookupSpelled | lib/ast_event_message_serializer.c:188-204 | the search of the compiled-in table finds an element by exactly the spellings of its name |
| Spelling.LookupAnyCase | lib/ast_event_message_serializer.c:188-204 | among them every name in lower and in upper case |
| Spelling.NamedElements | lib/ast_event_message_serializer.c:120-184 | the elements the code names are those called EntityID, Cachable and Exists, and State names one element only |
| Spelling.PayloadTypes | lib/ast_event_message_serializer.c:120-184 | fifteen elements are numbers, the identifier is raw, and all others are strings |
| EventCodec.AsteriskDictValid | lib/ast_event_message_serializer.c:120-184 | the codec results apply to that table with any comma-free device state names |
| EventText.OpenLines | lib/ast_event_message_serializer.c:241-271 | over the compiled-in table the unlimited text is a brace and one line per element, in the printf formats; the line of the element called State, and no other, continues with a statestr entry |
| EventText.FitsIff | lib/ast_event_message_serializer.c:222-275 | an event fits a buffer if and only if its text there is as long as the unlimited one |
| EventText.FirstOfIs | res_redis/res_redis.c:380-383 | the EID taken for an event's origin is the first one it carries |
| EventText.StateEvent | lib/ast_event_message_serializer.c:249-255 | a device-state event of three elements, written out character by character |
| EventCodec.TokensOfJoin | lib/ast_event_message_serializer.c:287-307 | the token loop sees exactly the entries that were joined, for any non-empty comma-free entries |
| EventCodec.PrefixRun | lib/ast_event_message_serializer.c:307-361 | after the entries of the first k wire-safe elements exactly those elements, in order, have been appended and the flag is that of their last Cachable element |
| EventCodec.CutEntry | lib/ast_event_message_serializer.c:247 | if decoding goes on past the entry of a string that holds a comma, the element appended for it is the same one with a shorter string |
| EventCodec.CachableIsLast | lib/ast_event_message_serializer.c:330-333 | the cache flag is the value of the last Cachable element, 0 without one |
| EventCodec.DecodeEncode | lib/ast_event_message_serializer.c:282-374 | for every wire-safe fitting event: an event that carries the decoder's EID anywhere gives EID_SELF_EXCEPTION; any other comes back in order, with one local EID appended if it had none, cacheable exactly if its last Cachable element is non-zero |
| EventCodec.RoundTripIff | lib/ast_event_message_serializer.c:219-374 | a fitting event comes back unchanged if and only if its strings hold no comma, its numbers are at most 2^31-1 and it carries an EID, none the decoder's own |
| Truncation.CutOrigin | lib/ast_event_message_serializer.c:274-370 | for every comma-free local event, buffer size and node: the message is dropped as the node's own, comes from its origin, from the node named by the uninitialised buffer or from the receiver itself, or has no meaning, according to how much of the identifier's text is kept and whether the kept numbers and cut entries can be read |
| Truncation.OriginKeptIff | lib/ast_event_message_serializer.c:343-365 | every other node takes the event to come from its origin, whatever its buffer held, if and only if the kept text makes sense and reaches the end of the identifier's 17 characters |
| Truncation.EchoDroppedIff | lib/ast_event_message_serializer.c:342-349 | a node drops its own event if and only if the kept text reaches that end and what precedes it makes sense |
| Reprint.Reprinted | lib/ast_event_message_serializer.c:219-370 | what any node, the sender included, makes of a comma-free event that loses its origin is a well-formed event of its own, whose text in a buffer of the same size is the same |
| Reprint.OverlongString | lib/ast_event_message_serializer.c:247 | one string before the identifier that the buffer ends in, or right behind, is enough for that, if what precedes it is safe |
| Serializer.Append | lib/ast_event_message_serializer.c:247-251 | one bounded snprintf and strlen: the buffer shows what fits of the longer text and the cursor stands at its end |
| Serializer.Message2Json | lib/ast_event_message_serializer.c:219-279 | for every event and buffer size of at least 2 the buffer ends up holding the first min(length, size-1) characters of the unlimited text with the last replaced by }, then NULs; over the compiled-in table that text is the lines above; bytes past the size are untouched; an event without elements is refused |
| Serializer.DecodeEntry | lib/ast_event_message_serializer.c:308-359 | the in-place cut and trims of one entry do what the entry function says, undefined cases included |
| Serializer.Json2Message | lib/ast_event_message_serializer.c:282-375 | the in-place decoder equals the decoding function on every message, whatever the uninitialised identifier buffer held, and terminates |
| JsonGrammar.EncodeIsJson | lib/ast_event_message_serializer.c:241-275 | an untruncated message whose texts need no escape is an object of RFC 8259 (sections 4, 6 and 7) |
| JsonGrammar.QuotedIff | lib/ast_event_message_serializer.c:247 | a string without a backslash, put between quotes as the code does, is a JSON string if and only if it holds no quote and no control character |
| ResRedis.Module.Set | res_redis/res_redis.c:467-495 | set_event changes exactly the first type of that name, and -1 means none has it; types in use keep a channel |
| Channels.SettingIs | res_redis/res_redis.c:467-495 | a setting changes the first type of that name, in any letter case, and no other: it switches one direction on and sets the channel, or sets the prefix, and leaves the other fields alone |
| Channels.ConfiguredInOrder | res_redis/res_redis.c:467-495 | settings are made in the order they are read |
| ResRedis.RoutingInverse | res_redis/res_redis.c:225-237 | after any settings, messages reach the type they were published under if and only if the configured channels are pairwise distinct |
| ResRedis.SampleConfiguration | res_redis/res_redis.c:93-98 | the built-in table with the three shared types on three different channels routes each channel to its type |
| ResRedis.Module.AstEventCb | res_redis/res_redis.c:373-465 | sends PUBLISH with the encoded event exactly for events of a published type that carry the local EID first or none, and PING for ping events of any origin |
| ResRedis.Module.SubscriptionCb | res_redis/res_redis.c:212-306 | the receive callback accepts, drops or ignores a reply as the reception function says, a reply that starts with message in lower case included; queue and cache change only by an accepted event, the cache only if it is cacheable, and every cached event of another type, identifying part or origin stays |
| Channels.Gate | res_redis/res_redis.c:225-256 | a message is let in if and only if the first type with its channel is published and the text has at least 4 characters |
| Channels.EmittedIs | res_redis/res_redis.c:373-465 | a PING for every event of type 12, and a PUBLISH on the channel of its type, of at most 1023 characters, for every published event that carries the local EID first or none |
| Channels.SlotIff | res_redis/res_redis.c:273 | two events share a slot of the cache if and only if type, identifying part and origin are the same |
| ResRedis.SelectedFrom | res_redis/res_redis.c:357-361 | a dump selects exactly the listed events of that type and of the local EID |
| ResRedis.Module.DumpType | res_redis/res_redis.c:356-361 | hands the selected cached events of one type to ast_event_cb, in listing order |
| ResRedis.Module.DumpPublished | res_redis/res_redis.c:336-364 | goes through the published types in index order and skips the others |
| Channels.DumpInOrder | res_redis/res_redis.c:336-364 | a dump goes through the types in index order |
| ResRedis.Module.DumpAstEventCache | res_redis/res_redis.c:330-368 | does nothing without a dispatch thread; otherwise dumps every published type, then subscribes |
| ResRedis.Module.SubscribeToChannels | res_redis/res_redis.c:524-549 | one SUBSCRIBE per published type in index order, for the type's channel; the local subscriptions of these types then exist |
| ResRedis.Module.UnsubscribeFromChannels | res_redis/res_redis.c:497-522 | one UNSUBSCRIBE per published type in index order, for the type's channel, and the table keeps its subscription pointers |
| Channels.TopicIsWireChannel | res_redis/res_redis.c:451-542 | the topic of a type is the channel that its events are published on |
| Channels.TopicOnce | res_redis/res_redis.c:524-549 | with distinct channels, the channel of every published type is among the topics exactly once |
| Channels.SubscribersHear | res_redis/res_redis.c:524-549 | every message of every step of every run is on exactly one topic of each subscribed node, and enters its inbox |
| Cluster.InvStep | res_redis/res_redis.c:212-465 | every step of every node keeps the cluster invariant |
| Cluster.RunInv | res_redis/res_redis.c:212-465 | the cluster invariant holds in every state of every run |
| ClusterTheorems.DeliveriesDefined | res_redis/res_redis.c:256-276 | no delivery of any run meets undefined behaviour, and an echo changes neither queue nor cache |
| Convergence.ConvergenceIff | res_redis/res_redis.c:212-465 | once a node, subscribed or not, has published a cachable event by dispatch or dump while a reader was subscribed, at all later times the reader's cache, drained of its inbox and followed by the publisher's queue, holds for that key what the publisher's cache holds if and only if nothing was lost for it since the last publication, a newer event is queued, or the last event lost is the one published |
| Convergence.Convergence | res_redis/res_redis.c:212-306 | if the publisher was subscribed it always does |
| Convergence.NeverShared | res_redis/res_redis.c:212-465 | a key that was never published while the reader was subscribed is in no view of the reader |
| Convergence.QuietAgreement | res_redis/res_redis.c:212-465 | with nothing under way both hold the key, and the two caches agree on it if and only if nothing was lost since the last publication or the last event lost is the one published |
| Convergence.StartupRace | res_redis/res_redis.c:357-366 | a run in which all nodes end up subscribed and quiet with different replicas, because the publisher lost an event between its dump and its subscription |
| ClusterTheorems.SubsetOfOrigin | res_redis/res_redis.c:212-465 | in every state of every run a reader's cache and drained view hold only keys of published types that their origin holds |
| ClusterTheorems.CatchUp | res_redis/res_redis.c:330-368 | after a dump the drained view of the dumping node at every subscribed reader is exactly that node's own cache of published types |
| ClusterTheorems.DumpIdempotent | res_redis/res_redis.c:330-368 | dumping again changes no drained view |
| ClusterTheorems.NoForwarding | res_redis/res_redis.c:416-420 | over whole runs a node publishes only events it posted, never one it accepted, and every message under way carries the EID of the node that published it |
| ClusterTheorems.PublishCount | res_redis/res_redis.c:416-456 | PUBLISH commands, publishable events still queued and those dispatched before subscribing add up to the publishable local posts plus the dumped cache entries |
| ClusterTheorems.StormBound | res_redis/res_redis.c:212-465 | without new posts and dumps a run takes at most as many steps as the load of its first state |
| ClusterTheorems.QuietIff | res_redis/res_redis.c:212-465 | a state is quiet exactly when no dispatch and no delivery is possible |
| RealCluster.LocalReceived | res_redis/res_redis.c:212-306 | the text of a published local event is an echo at its own node and the same event, equally cacheable, at every other |
| RealCluster.RealNetFaithful | res_redis/res_redis.c:212-465 | the real callbacks meet what the cluster theorems require |
| RealCluster.EmissionsArePackets | res_redis/res_redis.c:330-368 | the PUBLISH commands of the module's methods are, in order, the messages of the cluster's step |
| RealCluster.RealAgreement | res_redis/res_redis.c:212-465 | agreement of the replicas in quiet states, with its exact condition and real text on the wire |
| Overlong.TakenAsOwnIff | res_redis/res_redis.c:416-420 | any node, the sender included, takes a comma-free event for its own, and so passes the guard against forwarding with it, if and only if the kept text makes sense and holds nothing of the identifier's characters |
| Overlong.PublishedAgain | res_redis/res_redis.c:256-456 | what it takes for its own it publishes as the same message on the same channel |
| Overlong.RepublishedIff | res_redis/res_redis.c:256-456 | a node publishes again what it makes of a message under that condition and no other |
| Overlong.RoundIff | res_redis/res_redis.c:212-465 | a subscribed node with an empty inbox and one published comma-free event of its own in its queue has, after a dispatch and a delivery, an event to publish again if and only if the buffer cut the first one before its identifier and the kept text makes sense; and then it would publish the same message |
| Overlong.StormWithoutEnd | res_redis/res_redis.c:212-465 | under that condition, without any post or dump, the node alone sends PUBLISH any number of times, once in every such round and always the same message |
| SampleCluster.SampleSuitable | conf/res_redis.conf:28-59 | the compiled-in table, with the sample configuration's publish settings, meets the premises of the cluster theorems |
| SampleCluster.TwoMailboxes | res_redis/res_redis.c:256-276 | a run with real texts that ends with nothing under way and with the events of two mailboxes of one origin in the reader's cache |
| SampleCluster.LongContextCut | lib/ast_event_message_serializer.c:247 | a message-waiting event for mailbox 100 with a context of at least 994 characters is such an event |
| SampleCluster.MailboxRace | res_redis/res_redis.c:357-366 | the startup race happens with real message-waiting texts: both nodes end subscribed and quiet and disagree on a mailbox |
| Subscriptions.Table.SetChannel | lib/msq_redis.c:384-401 | sets one flag of a named entry, leaves unnamed entries alone, and keeps subscriptions named |
| Subscriptions.Table.AddSubscription | lib/msq_redis.c:404-438 | registers exactly when the entry is named and unregistered and both channel and callback are given; otherwise changes nothing |
| Subscriptions.Table.Send | lib/msq_redis.c:558-611 | one subscribe or unsubscribe attempt, with the guards of both directions as written |
| Subscriptions.AttemptIs | lib/msq_redis.c:558-611 | exactly when a command is sent in each direction, and when the attempt fails |
| Subscriptions.TopicText | lib/msq_redis.c:565-600 | the topic is the channel, with the pattern behind a colon if there is one |
| Subscriptions.Table.Toggle | lib/msq_redis.c:519-542 | for any connection outcomes: attempts in index order up to the first failure, flags changed exactly on the subscribed entries before it; subscriptions stay named |
| Subscriptions.TraceMatchesFlags | lib/msq_redis.c:519-584 | with named subscriptions the SUBSCRIBE commands before the first failure are exactly the subscribed topics, once each in order, each sent without error and marked active |
| Subscriptions.TraceIsWantedIff | lib/msq_redis.c:519-584 | before the first failure the commands sent are the subscribed topics if and only if the subscribed entries are named |
| Subscriptions.OffCompletesIff | lib/msq_redis.c:519-611 | switching off completes if and only if no subscribed entry has both a channel and a callback and no command for one fails |
| Subscriptions.OffStopsAtRegistered | lib/msq_redis.c:586-611 | it fails at or before the first such entry, and changes no flag from there on |
| ServerList.AddKeeps | lib/msq_redis.c:115-163 | adding keeps the list free of duplicates (socket, or url and port, ignoring case), keeps its order, and makes the requested server known |
| ServerList.KnownIs | lib/msq_redis.c:115-123 | a server is known if and only if a listed socket is spelled like the requested one, or a listed url is and the port is the same number |
| ServerList.PortsTellApart | lib/msq_redis.c:115-140 | one host on two ports is two servers, on one port it is one |
| ServerList.ListInvariant | lib/msq_redis.c:107-217 | over any sequence of valid adds and clears there are no duplicates, and every server requested since the last clear is in the list |
| ServerList.Servers.ConnectRepeatedly | lib/msq_redis.c:277-316 | over an unchanged list of n servers, k calls from position i leave current_server at (i + k) mod n, and n calls visit every server exactly once |
| ServerList.RoundRobin | lib/msq_redis.c:286-292 | the position after k steps from i is (i + k) mod n |
| ServerList.VisitsAll | lib/msq_redis.c:286-292 | any n consecutive positions include every position exactly once |
| ServerList.Servers.Find | lib/msq_redis.c:112-127 | the list walk finds a duplicate exactly if there is one, and otherwise ends at the last node |
| ServerList.Servers.AddServer | lib/msq_redis.c:107-167 | EXISTS exactly for a known server, with the list unchanged; otherwise the new node is the last of an acyclic chain that keeps its order; current_server stays a list member |
| ServerList.Servers.RemoveAllServers | lib/msq_redis.c:192-217 | empties the list and wipes every node, but current_server is still in the list afterwards if and only if it was null |
| ServerList.Servers.Advance | lib/msq_redis.c:286-292 | current_server moves to the next node, or to the first from the last or from null, and stays a list member |
| ServerList.Servers.Disconnect | lib/msq_redis.c:318-343 | the contexts are closed only if switching the subscriptions off succeeded; the result tells of errors in either |
| ServerList.Servers.ConnectToNextServer | lib/msq_redis.c:277-316 | closes, steps, opens and subscribes; the previous server's contexts stay open exactly if its unsubscription failed |
| Failover.ScanOrder | res_redis/res_redis.c:131-165 | one call tries consecutive fields in order, stops at its first success, and ends without one only when no field is left |
| ServerFields.FieldTarget | res_redis/res_redis.c:131-147 | a field is tried without the blanks around it: as a socket if it then starts with a slash, otherwise as the host and port that it splits into |
| ServerFields.BlankCounts | res_redis/res_redis.c:131-165 | a field of blanks is not tried, and counts as a success if an earlier call left a connection |
| ServerFields.SampleServers | conf/res_redis.conf:20 | with nobody answering, the sample line is tried on two hosts and then on the socket path |
| ServerFields.FirstPort | res_redis/res_redis.c:113-147 | the first server of a call that gives no port is tried on 6379 |
| Failover.FailoverOrder | res_redis/res_redis.c:106-167 | over any sequence of calls and outcomes the servers tried are those of a prefix of the fields, in order, none twice, and after the last field nothing is tried again |
| Failover.PortCarriesOver | res_redis/res_redis.c:113-148 | a server without its own port is tried on 6379 if and only if the last port given earlier in the same call, if any, is 6379 |
| Failover.PortLeaks | res_redis/res_redis.c:139-142 | two fields where the second server is tried on the first one's port |
| Failover.Connector.NextField | res_redis/res_redis.c:125-130 | the strtok_r position kept between calls hands out the fields of the configured text in order, each once |
| Failover.Connector.ConnectNextServer | res_redis/res_redis.c:106-167 | a call unsubscribes exactly if a context exists, then does what the scan from the static position says, dumps the cache exactly on success, and always returns -1 |

## Left out

- hiredis, libevent, threads, the dispatch loop, logging and CLI handlers: a send or a connect is an outcome the environment chooses.
- Locks: steps are atomic; the interleaving of whole callbacks is modelled, that of their instructions is not.
- Allocation failures: `calloc`, `malloc` and `ast_calloc` succeed, so MALLOC_EXCEPTION does not occur.
- The binary layout of `struct ast_event` and Asterisk's iterators: an event is a type and a sequence of elements, and starting an iterator fails exactly on an event without elements.
- Asterisk's name and payload type lookups: they read a table equal to the one compiled in here.
- `ast_str_to_eid` beyond six colon-separated groups of two hexadecimal digits: other texts leave the identifier buffer as it was.
- `ast_devstate_str`: a parameter. `ast_sockaddr_split_hostport` and the `atoi` of its port: a parameter.
- A misread of memory: indexing before a string is reported as having no meaning, not given the value it would find there.
- Serializer.Message2Json: sizes below 2 are excluded, because the code then writes or searches outside the buffer.
- EventCodec.RoundTripIff: the elements that come back from a message cut by the buffer; Truncation.CutOrigin states whom it comes from, and Reprint.Reprinted that the text stays the same if the origin is lost.
- Truncation.CutOrigin: strings that hold a comma, whose text may print entries of any kind.
- JsonGrammar.EncodeIsJson: one direction; a string with quotes in it may or may not yield valid JSON.
- Elements of payload type UNKNOWN or EXISTS and RAW elements other than EntityID: encoded and decoded as written, but the compiled-in table has none, and the round trip is not stated for tables that do.
- Reconnecting as a step of the cluster: `redis_unsubscribe_from_channels` keeps the local subscription pointer, so subscribing again does not recreate it; joining and dumping are the steps modelled.
- The byte that `strcat` needs past the configured text.
- `_msq_remove_server`, `_msq_remove_subscription`, `_msq_drop_all_subscriptions`: they leave freed pointers in place.
- ServerList.Servers.AddServer: requires a url and port, or a socket; otherwise the code follows a null pointer.
- ServerList.Servers.ConnectToNextServer: requires a non-empty list and a current server that is null or listed, for the same reason.
- `load_general_config`, `msq_list_servers`, `msq_find_channel`, `msq_publish`: glue or printing.
- `pbx_subscribe`, `pbx_publish`, the Stasis variants, cdr_redis, res_config_redis and res_redis_v1: stubs or unfinished code.
