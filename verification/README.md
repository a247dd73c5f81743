# A model of the chat cluster and its message ordering

The system is a chat server that runs on several nodes and a terminal client. Nodes share a MySQL database and a Redis
server. Every chat message belongs to a conversation, a pair of users or a group, and gets a number from that
conversation's Redis counter before it takes one of three paths: straight to a connection of the same node, through
Redis pub/sub to another node, or into the offline store. On the way copies are reordered, repeated and lost; the
client's reorderer turns what arrives into strictly ordered output per conversation.

The model has four parts and connects them.

**The reorderer** (`Messages`, `Channels`, `ChannelLaws`, `WordLimit`, `ChannelBooks`, `OrderIndependence`,
`BoundedRelease`, `GapTimer`, `DedupWindow`, `Orderers`, `Provenance`, `Unnumbered`, `Reorderer`). `Channels` gives the effect of each
entry point on one conversation's channel, with the draining loop in closed form; `Orderers` is the map of channels, swept in an arbitrary order;
`Reorderer.ConversationOrderer` is the mutable class with the source's loops, and each of its methods is proved to compute exactly
those functions. The laws are then about all runs of the functions. The field `expect` is called `cursor` here, because
`expect` is a reserved word. Clock readings are inputs: positive naturals in nanoseconds, since 0 is what an unset time
point compares equal to.

**The cluster** (`ConversationIds`, `Numbering`, `RedisClients`, `OfflineSort`, `Replay`, `Handlers`, `ChatServices`, `Cluster`,
`Ledger`, `Delivery`, `Effects`, `LoginBatch`, `Runs`, `EndToEnd`, `Example`). `Handlers` says what each handler does to its node and to the shared state, `ChatServices.ChatService`
and `RedisClients.Redis` are the classes with the mutable fields, proved equal to those functions, and `Cluster` interleaves handler calls of any
number of nodes with deliveries, losses, closing connections and `reset`. Each handler call is one atomic step. `Effects` and `LoginBatch`
state what each step does in the fields of the state alone: what was put on which connection, sent, stored or lost, who is held,
online and subscribed, and that nothing else changed. `Runs` has two invariants of
whole runs: one that every run keeps, and one, with presence and the ledger of copies, that runs of rightful steps keep. A step is
rightful when a logout names a user of its own node or of none, a packet is handled for the user whose channel it came on, and
`reset` comes when nobody is connected; each of these conditions is proved to be exact. `EndToEnd`
feeds what the cluster handed over to clients, in any order, repeated or dropped, into reorderers; its order theorems hold of every run.

**Framing** (`Framing`, `FrameLaws`, `ReadTasks`, `StreamLaws`, `Sessions`). Encoders, the server's incremental decoder, the client's receive loop and the
receive thread that drives the reorderer. `Sessions` joins this to the cluster: from the copies pushed, through the bytes of
a connection that may break, to what a receive thread displays. Lengths are 4 bytes in network byte order, Appendix B of RFC 791.

**The connection pool** (`Pools`). The critical sections of its threads as operations, their invariants over every
interleaving, and the class with its queue.

## Where the code does less than its comments say

* The comment at include/conversation_orderer.hpp:103 says that the buffer is emptied at the end of an offline batch. The
  code releases one run of consecutive numbers per conversation. `Replay.SortedReplay` says exactly what is shown, and that
  this is everything if and only if the batch has at most one gap.
* `ch.expect=seq+1` wraps at 2^64-1 (include/conversation_orderer.hpp:127). `WordLimit.StrictOrderExactly` and
  `WordLimit.DedupSetMattersExactly` give the exact sets of numbers on which order, and the uselessness of the dedup set, survive this.
  The laws that exclude the largest number do so for this reason only; numbers drawn by the cluster stay below it as long as the counters are in
  the range that `Numbering.InRange` names.
* The comment at src/server/redis/redis.cpp:177-178 promises that numbers drawn after the fallback never look like repeats. A node that lost
  its connection never goes back to Redis, but after a reply of another type it does, and the next number may be smaller
  (`Numbering.OtherTypeGoesBack`). `Numbering.NextNumberExceedsExactly`, `Numbering.AnyReplyExceedsExactly` and
  `Numbering.NodeNumbersIncreaseExactly` have the exact conditions for one call and for whole runs.
* An `INCR` that is executed although its reply is lost consumes a number that no message gets (`Numbering.LostReplySkips`).
  `Numbering.RedisSkipsExactly` counts these: no number is skipped if and only if there are none.
* Neither sender checks the length of a frame. `Framing.RoundTripExactly` and `Framing.ServerReceivesExactly` show that exactly the bodies of 1 to 65536
  bytes survive.
* A logout request is not compared with the connection it came on; `Cluster.LogoutKeepsPresenceExactly` gives the condition under
  which presence survives. `reset` marks everybody offline while nodes still hold them (`Cluster.ResetKeepsPresenceExactly`). Neither can disturb
  the order of what clients display: `EndToEnd.ClientsAgreeOnOrder` allows both at any time.
* `observer_channel_message` takes the user from the `integer` field of the reply's channel element (src/server/redis/redis.cpp:108-110).
  What that field holds when the channel name arrives as a string is decided by hiredis, which is not part of this model; the handler
  may therefore be called with any user. `Ledger.ArrivalNeedsItsUserExactly` shows that the books of copies balance if and only if it is
  the user of the channel; the order theorems do not need this.
* The timeout of a gap is looked at only when a frame arrives (src/client/main.cpp:336-342), so a silent connection releases nothing;
  `ReadTasks.QuietFramesEmptyTheBuffer` counts the frames needed.
* The idle time of a connection is measured with `::clock()`, processor time of the process, not elapsed time
  (include/server/db/connection.hpp:35-36). The pool's laws hold for any nondecreasing clock; the value of
  `CLOCKS_PER_SEC` is the one million that POSIX prescribes.

## Model

| member | source | states |
|---|---|---|
| `ChannelLaws.DrainedFacts` | include/conversation_orderer.hpp:136-152 | a drain shows exactly the buffered messages from the cursor up to the first missing number, in order, keeps exactly those beyond it, and restarts the gap timer if and only if something stays; no entry below the cursor is ever met |
| `ChannelLaws.ReleaseFacts` | include/conversation_orderer.hpp:92-95 | a release jumps to the least buffered number and shows at least that one |
| `ChannelLaws.NextKeepsInv` | include/conversation_orderer.hpp:44-152 | every step keeps the channel invariant: pending keys exceed the cursor and name their message, at most 4096 numbers are remembered, the gap timer runs if and only if something is buffered |
| `ChannelLaws.PlayKeepsInv` | include/conversation_orderer.hpp:44-152 | the channel invariant holds after every run, whatever numbers arrive |
| `ChannelLaws.AcceptCases` | include/conversation_orderer.hpp:62-77 | a late arrival changes nothing, the awaited one is shown together with what it unblocks, an early one is buffered and nothing is shown |
| `ChannelLaws.NextOrdered` | include/conversation_orderer.hpp:44-111 | one step shows increasing numbers between the old and the new cursor, which never goes back |
| `ChannelLaws.PlayOrdered` | include/conversation_orderer.hpp:44-133 | strict order over whole runs: under any interleaving of messages, ticks and batch ends the numbers shown strictly increase, although the dedup set is cleared from time to time |
| `ChannelLaws.NextIgnoresDelivered` | include/conversation_orderer.hpp:124-133 | one step of a channel without its dedup set shows the same and leaves the same state |
| `ChannelLaws.DedupSetIsRedundant` | include/conversation_orderer.hpp:62-64 | on every run the reorderer without `delivered` shows the same messages and has the same cursor, buffer and timer |
| `DedupWindow.DedupSetIsAWindow` | include/conversation_orderer.hpp:124-133 | after any run of numbers below 2^64-1 `delivered` holds exactly the numbers of the last n messages shown, where n is the number of messages shown modulo 4097 |
| `WordLimit.WrapReorders` | include/conversation_orderer.hpp:124-133 | counterexample at the top of the range: after number 2^64-1 any smaller number is shown behind it |
| `WordLimit.StrictOrderExactly` | include/conversation_orderer.hpp:127 | all runs over a set of numbers are shown in strictly increasing order if and only if the set lacks 2^64-1 or holds nothing else |
| `WordLimit.WrapNeedsDedup` | include/conversation_orderer.hpp:62-64 | counterexample: a repeated 2^64-1 is dropped only because of the dedup set |
| `WordLimit.DedupSetMattersExactly` | include/conversation_orderer.hpp:124-133 | the dedup set changes nothing on the runs over a set of numbers if and only if the set lacks 2^64-1 |
| `ChannelBooks.NextBooks` | include/conversation_orderer.hpp:44-152 | in every step the arrival and the old buffer are, counted with multiplicity, what is shown, the new buffer, a replaced copy and a discarded late arrival |
| `ChannelBooks.EveryArrivalAccountedFor` | include/conversation_orderer.hpp:44-146 | over every run each arrival is exactly one of shown, buffered, replaced by a later copy of its number, or discarded as late; nothing else is shown |
| `OrderIndependence.ArrivalsClosedForm` | include/conversation_orderer.hpp:44-78 | after any history of arrivals, with b the first number received and e the least number from b on not received: b..e-1 have been shown in order, the cursor is e, exactly the received numbers above e are buffered |
| `Provenance.PlayInside` | include/conversation_orderer.hpp:44-152 | over every run, whatever numbers arrive, every message shown or buffered is one that arrived, payload included |
| `OrderIndependence.PlayCopies` | include/conversation_orderer.hpp:44-152 | when all copies of a number are equal, every shown and buffered message is the copy of its number, under any run |
| `OrderIndependence.ArrivalOrderIsIrrelevant` | include/conversation_orderer.hpp:44-78 | two histories with the same first number and the same set of numbers show the same messages and buffer the same ones, whatever order and repetition |
| `BoundedRelease.NextMovesOn` | include/conversation_orderer.hpp:67-95 | a buffered number stays buffered or is shown, and a due tick, a batch end or an awaited arrival moves the cursor towards it |
| `BoundedRelease.BufferedIsReleased` | include/conversation_orderer.hpp:82-97 | in every run a buffered number is shown once the run has made as many progressing steps as the number lies above the cursor, and is not lost before |
| `BoundedRelease.DueTickReleasesOneRun` | include/conversation_orderer.hpp:82-97 | a due tick takes exactly one maximal run out of the buffer and restarts the timer at its own reading |
| `BoundedRelease.PacedTicksRelease` | include/conversation_orderer.hpp:82-97 | n ticks a timeout apart take min(n, k) runs out of a buffer of k runs, and every message that left it was shown |
| `BoundedRelease.PacedTicksEmptyTheBuffer` | include/conversation_orderer.hpp:82-97 | with no arrivals the buffer of k runs is empty after paced ticks if and only if there were at least k of them; everything is shown in order and nothing is lost |
| `GapTimer.TickReleasesExactly` | include/conversation_orderer.hpp:85-95 | for a positive timeout of t milliseconds a tick shows something if and only if something is buffered and at least t * 1000000 nanoseconds have passed since the gap opened; what truncation to milliseconds means for t up to 0 is written out as well; otherwise the tick changes nothing |
| `GapTimer.NextMovesTimer` | include/conversation_orderer.hpp:73-77 | the timer starts at the arrival that opens a gap, starts again when messages were shown and others stay, stops when nothing stays, and does not move otherwise |
| `GapTimer.GapKeepsItsStart` | include/conversation_orderer.hpp:73-77 | over any run that shows nothing an open gap keeps its start: further arrivals do not postpone the release |
| `GapTimer.OpenGapIsReleased` | include/conversation_orderer.hpp:82-97 | every run that contains a tick at least t * 1000000 nanoseconds after the start of an open gap, for a timeout of t milliseconds, shows something, whatever arrives in between |
| `Orderers.SweptView` | include/conversation_orderer.hpp:82-111 | a sweep over all channels in any order does to one conversation what visiting it alone does |
| `Orderers.ReceivedView` | include/conversation_orderer.hpp:44-78 | a message changes only its own conversation; an unnumbered one is shown at once and changes none |
| `Orderers.ProcessView` | include/conversation_orderer.hpp:44-111 | in every run what a conversation shows and keeps is what its own channel makes of its own messages, ticks and batch ends |
| `Orderers.EveryConversationAscends` | include/conversation_orderer.hpp:44-111 | in every run of the whole reorderer the numbers shown in each conversation strictly increase |
| `Orderers.OnlyIsFeasible` | include/conversation_orderer.hpp:82-111 | dropping the other conversations' messages from a run, and their channels from its sweeps, leaves a possible run |
| `Orderers.ConversationsAreIsolated` | include/conversation_orderer.hpp:82-111 | what the reorderer shows and keeps of a conversation equals what one fed only that conversation shows and keeps, however the channels are iterated |
| `Unnumbered.PlainPassesThrough` | include/conversation_orderer.hpp:44-50 | in every run the messages without conversation or number are shown at once, each once, in the order received |
| `Unnumbered.ScreenIsComplete` | include/conversation_orderer.hpp:44-111 | the screen holds, counted with multiplicity, the unnumbered messages received and what each conversation shows on its own, nothing else |
| `Reorderer.ConversationOrderer.constructor` | include/conversation_orderer.hpp:40-41 | a new reorderer has no channel and has shown nothing |
| `Reorderer.ConversationOrderer.OnMessage` | include/conversation_orderer.hpp:44-78 | the whole new state is that of the specified step: channel opened at its first number, late and repeated ones dropped, gaps buffered |
| `Reorderer.ConversationOrderer.ShowNext` | include/conversation_orderer.hpp:124-133 | `deliver`: one message shown, cursor advanced modulo 2^64, dedup set cleared beyond 4096 entries, timer reset |
| `Reorderer.ConversationOrderer.FirstPending` | include/conversation_orderer.hpp:93 | the first entry of the ordered buffer is its least number |
| `Reorderer.ConversationOrderer.DrainPending` | include/conversation_orderer.hpp:136-152 | the loop with its three branches computes the closed form: the maximal run from the cursor, nothing else; it ends because the buffer shrinks |
| `Reorderer.ConversationOrderer.ExpireGap` | include/conversation_orderer.hpp:85-95 | one channel in `tick`: released if and only if something is buffered, the timer runs and the truncated milliseconds reach the timeout |
| `Reorderer.ConversationOrderer.ReleaseRest` | include/conversation_orderer.hpp:105-109 | one channel at the end of a batch: released if and only if something is buffered |
| `Reorderer.ConversationOrderer.Tick` | include/conversation_orderer.hpp:82-97 | visits every channel exactly once, in some order, and leaves the state of that sweep |
| `Reorderer.ConversationOrderer.OnOfflineBatch` | include/conversation_orderer.hpp:101-111 | handles the messages one after the other, then releases one run of every channel that still buffers |
| `Reorderer.ConversationOrderer.ReleaseAll` | include/conversation_orderer.hpp:104-110 | the second loop of `onOfflineBatch` as one sweep |
| `OfflineSort.ComparatorIsStrictWeakOrder` | src/server/chatservice.cpp:65-70 | the comparator is irreflexive, asymmetric and transitive, and so is its "not less": what `stable_sort` requires |
| `OfflineSort.TextLessMeans` | src/server/chatservice.cpp:65-70 | conversation ids compare as texts: one is less than another if and only if it is a proper beginning of it or has the smaller character at the first place where they differ |
| `OfflineSort.StableSortedIsOrdered` | src/server/chatservice.cpp:65-70 | no item stands before one that is less |
| `OfflineSort.StableSortedIsStable` | src/server/chatservice.cpp:65-70 | items that compare equal keep their relative order |
| `OfflineSort.SortOfflineMessages` | src/server/chatservice.cpp:47-72 | the vector in place becomes the raw texts of the stably sorted items |
| `OfflineSort.SortedIsPermutation` | src/server/chatservice.cpp:47-72 | sorting neither adds, drops nor changes a stored text |
| `OfflineSort.SortedIsGrouped` | src/server/chatservice.cpp:47-72 | numbered messages come first, grouped by conversation, numbers nondecreasing within each; the rest follow |
| `Replay.GroupedParses` | src/client/main.cpp:231-244 | after the client has dropped unparsable texts each conversation still comes in order |
| `Replay.TwoRunsSuffice` | include/conversation_orderer.hpp:101-111 | nothing is left behind after the first two runs if and only if there are at most two |
| `Replay.SortedReplay` | src/server/chatservice.cpp:124-132 | of each conversation of a sorted batch a new client shows exactly the first two maximal runs of the stored numbers, in order, and buffers exactly the rest; every message shown or buffered is a stored one of that conversation; everything is shown if and only if there is at most one gap |
| `Replay.OrderedReplay` | src/client/main.cpp:231-249 | the same of any batch in which the conversation comes in the order of its numbers |
| `ConversationIds.ToStringInjective` | include/conversation.hpp:21-30 | `to_string` is injective on all integers and contains no separator |
| `ConversationIds.ToStringIsDecimal` | include/conversation.hpp:21-30 | the text reads back as a decimal number, with a minus sign in front of negative ones and no leading zero |
| `ConversationIds.IdsReadAs` | include/conversation.hpp:21-30 | how ids are spelled: users 2 and 1 have `p1_2`, 10 and -3 have `p-3_10`, group 7 has `g7` |
| `ConversationIds.DirectIdsAreInjective` | include/conversation.hpp:21-25 | two direct conversations have the same id if and only if they join the same unordered pair of users, negative ids included |
| `ConversationIds.GroupIdsAreInjective` | include/conversation.hpp:28-30 | group ids are injective and never equal the id of a pair |
| `Numbering.ServeKeepsInv` | src/server/redis/redis.cpp:126-155 | one call by any node keeps the invariant: each number is backed by the counter it came from, Redis numbers of a conversation increase in the order drawn, so do each node's fallback numbers |
| `Numbering.ServeAllKeepsInv` | src/server/redis/redis.cpp:126-185 | that invariant holds after any interleaving of calls from all nodes with any replies |
| `Numbering.NumberRanges` | src/server/redis/redis.cpp:179-185 | while Redis counters stay within 2^40 a number tells its source: up to 2^40 it came from Redis, above it is 2^40 plus the count of a fallback |
| `Numbering.CounterLimitExactly` | src/server/redis/redis.cpp:137-155 | a node on Redis gets the counter's next value if and only if that fits a signed 64-bit number; past it the counter stays, and the node draws a fallback number without giving up Redis |
| `Numbering.UniqueExactly` | src/server/redis/redis.cpp:126-185 | the numbers of a conversation are unique if and only if no two nodes have drawn fallback numbers in it |
| `Numbering.NextNumberExceedsExactly` | src/server/redis/redis.cpp:126-185 | a node's next number exceeds all its earlier ones in the conversation if and only if it has no connection, has given up Redis, gets no integer, or has drawn no fallback number there |
| `Numbering.AnyReplyExceedsExactly` | src/server/redis/redis.cpp:126-185 | before the call: whatever Redis will answer the next number exceeds the earlier ones, if and only if the node has no connection, has given up Redis, or has drawn no fallback number there |
| `Numbering.OtherTypeGoesBack` | src/server/redis/redis.cpp:150-153 | counterexample: after one reply of another type the next number is smaller |
| `Numbering.NodeNumbersIncreaseExactly` | src/server/redis/redis.cpp:126-185 | over every run of requests each node's own numbers of a conversation strictly increase if and only if no request is answered with an integer by a Redis that the node never lost, after an earlier reply of another type in the same conversation |
| `Numbering.NodeNumbersIncrease` | src/server/redis/redis.cpp:126-155 | when replies are integers or missing they increase, across the switch to the fallback too, and a node on Redis has drawn no fallback number |
| `Numbering.RedisSkipsExactly` | src/server/redis/redis.cpp:137-146 | over every run of requests Redis issues numbers above the starting value, each once and in order; as many are missing as executed `INCR`s lost their reply, so none is skipped if and only if no reply was lost |
| `Numbering.LostReplySkips` | src/server/redis/redis.cpp:138-143 | counterexample: one lost reply, and number 1 is never issued |
| `RedisClients.Redis.Connect` | src/server/redis/redis.cpp:22-51 | the object counts as available only after all three contexts have opened; a failure leaves it on the fallback |
| `RedisClients.Redis.LocalFallbackSeq` | src/server/redis/redis.cpp:179-185 | the conversation's local counter goes up by one and the number is 2^40 plus it, modulo 2^64 |
| `RedisClients.Redis.IncrSeq` | src/server/redis/redis.cpp:126-155 | number, source, local state and shared counter are those of the specified draw, for integer, missing and other replies and without a connection |
| `Cluster.LoginKeepsPresence` | src/server/chatservice.cpp:87-183 | a login, successful or refused, keeps presence |
| `Cluster.LogoutKeepsPresenceExactly` | src/server/chatservice.cpp:212-228 | a logout keeps presence if and only if the named user is on this node or on none |
| `Cluster.CloseKeepsPresence` | src/server/chatservice.cpp:231-255 | a closing connection keeps presence |
| `Cluster.ChatKeepsPresence` | src/server/chatservice.cpp:258-384 | chats keep presence, whatever Redis answers |
| `Cluster.DoKeepsPresence` | src/server/chatservice.cpp:87-405 | every rightful step keeps presence: each user on at most one node, online exactly when some node holds the user, subscriptions equal to the connection map's keys |
| `Cluster.ResetKeepsPresenceExactly` | src/server/chatservice.cpp:40-43 | `reset` keeps presence if and only if nobody is connected |
| `Effects.ArrivalExactly` | src/server/chatservice.cpp:389-405 | a packet handled for user u: if the node of the packet has u on an open connection, exactly its message is put on that connection; on a closed one it is lost; if the node does not have u it is stored; nothing else changes |
| `Effects.PacketReachesItsReader` | src/server/chatservice.cpp:399-402 | under presence a packet for a user whom its node holds on an open connection is put on that connection |
| `Effects.EnvironmentExactly` | src/server/chatserver.cpp:24-32 | the steps of the environment: what is handled for a user on a connection that has gone away is lost, a dropped packet is lost, `reset` marks everybody offline; nothing else changes |
| `Effects.LogoutExactly` | src/server/chatservice.cpp:212-228 | a logout removes exactly the named user from this node, its subscriptions and the online users; every other user, node and field is unchanged |
| `Effects.CloseExactly` | src/server/chatservice.cpp:231-255 | a closed connection removes exactly the user found on it in the same way; a user without a row stays online, and user -1 only leaves the connection map |
| `Effects.ClosedUserCanReturn` | src/server/chatservice.cpp:231-255 | under presence, after a close the user is held by no node, not online and not subscribed, everybody else is where they were, and the user is admitted again on any node |
| `Effects.PublicationExactly` | src/server/redis/redis.cpp:54-63 | a publication makes exactly one packet for each subscribed node; without any the copy is lost |
| `Effects.RouteExactly` | src/server/chatservice.cpp:275-298 | one recipient row, in fields of the shared state: put on this node's connection, lost with a closed one, in flight to the one node that holds the reader, in the store when the publication fails, in both when it was executed all the same, in the store when nobody holds the reader; nothing else changes |
| `Effects.ChatExactly` | src/server/chatservice.cpp:258-299 | a direct chat is recorded with its number and routed so, once, to the addressee |
| `Effects.RouteAllExactly` | src/server/chatservice.cpp:364-383 | of a list of rows exactly those with an open connection here are put on it, in order, those with a closed one lost, those on other nodes sent, those whose publication fails or who are nowhere stored |
| `Effects.GroupChatExactly` | src/server/chatservice.cpp:329-384 | a group chat is recorded with its number and its rows are routed so |
| `Effects.GroupRowsExactly` | src/server/chatservice.cpp:343-362 | the rows of a group chat: the member rows of other users, those connected to this node first, each part in the order of the member list, all with the one stamped message |
| `LoginBatch.BatchIsSorted` | src/server/chatservice.cpp:124-132 | what a login hands over is a permutation of the user's stored rows: numbered rows first, grouped by conversation, numbers nondecreasing within each; rows without a number last; rows without a number, and rows of one conversation with one number, in stored order |
| `LoginBatch.LoginExactly` | src/server/chatservice.cpp:87-133 | a login is admitted if and only if name and password are right and the user is not online; then the user is held on this connection, unless the node still has it on an earlier one, and is subscribed and online; the user's rows and no others have left the store, and the sorted batch is put on the connection or lost with a closed one; nothing else changes, and nothing at all otherwise |
| `LoginBatch.HandedBatchIsShown` | src/client/main.cpp:231-249 | a new client fed the batch of its login shows of each conversation exactly the first two maximal runs of the numbers that were stored for its user, in order, and buffers exactly the rest |
| `LoginBatch.MailIsWellAddressed` | src/server/chatservice.cpp:87-405 | whatever any step puts on a connection is for the user whom a node then holds on it, even when a packet is handled for the wrong user |
| `Ledger.OneCopy` | src/server/redis/redis.cpp:54-63 | a publication to a user held by one node makes exactly one packet, for that node |
| `Ledger.RouteBalances` | src/server/chatservice.cpp:275-298 | each of the three delivery paths turns one owed copy into exactly one copy, and into one more if a `PUBLISH` that was executed is repeated into the offline store |
| `Ledger.BatchIsMine` | src/server/chatservice.cpp:124-132 | the batch handed over at login is a permutation of the user's offline rows, payloads unchanged |
| `Ledger.LoginBalances` | src/server/chatservice.cpp:106-132 | a login moves the user's offline copies into the batch, or loses them with a closed connection, and no others |
| `Ledger.ArriveBalances` | src/server/chatservice.cpp:389-405 | a packet that arrives becomes one pushed, stored or lost copy |
| `Ledger.ArrivalNeedsItsUserExactly` | src/server/redis/redis.cpp:108-110 | a packet handled for any user id: the books stay balanced if and only if it is the user whose channel the packet came on |
| `Ledger.ChatBalances` | src/server/chatservice.cpp:258-384 | a direct or group chat keeps the books balanced, repeated member rows included |
| `Ledger.DoBalances` | src/server/chatservice.cpp:87-405 | every rightful step keeps the books of copies balanced |
| `Delivery.LoginAdmitsExactly` | src/server/chatservice.cpp:87-133 | a login connects a user if and only if the name is known, the password right and the user not online; this connection then holds the user and no offline row of the user is left; otherwise nothing changes |
| `Delivery.OwedExactly` | src/server/chatservice.cpp:258-384 | an accepted chat is owed to exactly its readers: the addressee once, each member row of another user once, the sender never; the text is the one sent |
| `Delivery.ChatsGoToTheirReaders` | src/server/chatservice.cpp:275-298 | each copy owed goes where its reader is: to the connection if this node holds the reader, towards the holding node or, if the publication fails, into the store if another does, and into the store if none does |
| `ChatServices.ChatService.Login` | src/server/chatservice.cpp:87-183 | node and shared state afterwards are those of the specified login: refused, already online, or connected, subscribed, online and handed the sorted batch, which leaves the store |
| `ChatServices.ChatService.Loginout` | src/server/chatservice.cpp:212-228 | connection entry, subscription and online state are gone, nothing else changed |
| `ChatServices.ChatService.ClientCloseException` | src/server/chatservice.cpp:231-255 | some user found on the connection is removed as specified; without one nothing changes |
| `ChatServices.ChatService.Onechat` | src/server/chatservice.cpp:258-299 | number drawn and stamped first, then exactly one of the three paths, with the offline store when the publication fails |
| `ChatServices.ChatService.Groupchat` | src/server/chatservice.cpp:329-384 | the same for every other member row: connected members pushed, online ones published with fallback, the rest stored |
| `ChatServices.ChatService.Partition` | src/server/chatservice.cpp:349-362 | splits the member rows, in order, into those connected here with their connections and the others |
| `ChatServices.ChatService.HandleRedisSubscribeMessage` | src/server/chatservice.cpp:389-405 | pushes to the local connection or stores; the message keeps its number |
| `Runs.RunTraced` | src/server/chatservice.cpp:40-405 | over every run of any number of nodes, with logouts for anybody, packets handled for any user and `reset` at any time: every copy anywhere is of an accepted message, which carries the number of its ticket, and the numbering invariant holds |
| `Runs.RunKeepsGood` | src/server/chatservice.cpp:87-405 | over every run of rightful steps presence and the ledger hold as well |
| `Runs.OwedIsDue` | src/server/chatservice.cpp:258-384 | in every run the copies of a message owed to a user are, summed over the accepted chats that made it, one per addressee and one per member row of another user |
| `Runs.EveryCopyAccountedFor` | src/server/chatservice.cpp:268-405 | per user and message the copies pushed, in flight, stored, batched or lost number exactly what the accepted chats owe, summed over the run, plus one per publication repeated into the store; every copy is an accepted message with its number |
| `Runs.ChatStamps` | src/server/chatservice.cpp:268-273 | each accepted message carries the conversation and the number of the draw that the numbering model makes for the request |
| `EndToEnd.DisplayedFacts` | src/client/main.cpp:333-373 | what a client displays of a conversation ascends and consists of accepted messages of that conversation; no presence and no bound on Redis counters is assumed |
| `EndToEnd.ClientsAgreeOnOrder` | src/server/chatservice.cpp:258-384 | in every run, with any loss, repetition and reordering, two clients that both display two messages of a conversation display them in the same order; how numbers were drawn, who logged out whom and for whom packets were handled does not matter |
| `EndToEnd.DisplayFollowsAcceptance` | src/server/redis/redis.cpp:123-155 | in every run, when all numbers of a conversation come from Redis every client displays its messages in the order in which the servers accepted them |
| `EndToEnd.SameNumberSameMessage` | src/server/redis/redis.cpp:126-185 | in every run, unless two nodes have fallen back in the conversation, clients that display the same number of it display the same message |
| `Example.TheoremsApply` | src/server/chatservice.cpp:258-299 | a login and two chats after which a client displays both messages: all assumptions of the end-to-end theorems can hold together |
| `Framing.DecodeResumes` | src/client/main.cpp:54-78 | decoding a stream in two parts, carrying the rest over, gives the bodies, the rest and the verdict of decoding it at once |
| `Framing.IllegalIsFinal` | src/server/chatserver.cpp:55-61 | an illegal length is never consumed: whatever follows, no further body is decoded |
| `Framing.RoundTripExactly` | src/client/main.cpp:33-78 | a list of bodies is encoded and decoded to itself with nothing left over if and only if every body has 1 to 65536 bytes |
| `Framing.HandledThenRest` | src/server/chatserver.cpp:47-92 | one readable event handles a prefix of the bodies in the buffer and leaves the rest decodable; all of them if nothing raises |
| `Framing.ServerIgnoresChunking` | src/server/chatserver.cpp:47-92 | however a stream is cut into readable events, bodies handled and bodies still in the buffer make up the bodies of the stream; if nothing raises all are handled and the connection is closed exactly on an illegal length |
| `Framing.ServerReceivesExactly` | src/server/chatserver.cpp:47-70 | client to server: the encoded bodies, cut in any way, are handled exactly, with an empty buffer and an open connection, if and only if all are 1 to 65536 bytes long |
| `FrameLaws.FrameOnTheWire` | src/client/main.cpp:33-39 | a frame is four bytes, most significant first, which hold the length of the body cut to 32 bits, and the body |
| `FrameLaws.DecodeKeepsEveryByte` | src/client/main.cpp:54-78 | decoding loses no byte: the frames of the bodies found, with the bytes left behind, are the input; every body has 1 to 65536 bytes; decoding stops if and only if the rest starts with a length out of that range or is too short |
| `FrameLaws.HandlingStops` | src/server/chatserver.cpp:47-92 | of one readable event only the last body handled can have raised, and then the connection is to be closed; otherwise no complete frame is left, and it is to be closed if and only if a length out of range stands in front |
| `FrameLaws.ClosingExactly` | src/server/chatserver.cpp:47-92 | over any readable events the connection is to be closed if and only if some handled body raised or the buffer starts with a length out of range |
| `Framing.ServerConnection.OnMessage` | src/server/chatserver.cpp:47-92 | the loop over the buffer computes the specified handling of old buffer and new bytes: illegal lengths close and stay, half frames wait, a json exception closes after its frame |
| `Framing.SendFrame` | src/client/main.cpp:33-47 | under any partial counts exactly the frame is sent, or on failure a strict prefix of it |
| `Framing.SendWithHeader` | src/server/chatserver.cpp:24-32 | a connected peer is sent exactly the frame, a closed one nothing |
| `Framing.ClientConnection.RecvFrame` | src/client/main.cpp:54-78 | succeeds if and only if the stream starts with a legal frame, however it is cut, returns its body and takes exactly that frame off; an illegal length empties the buffer |
| `ReadTasks.HandleBody` | src/client/main.cpp:340-357 | one turn of the receive loop: every conversation plays one tick, and its own conversation the message if the body is a chat |
| `ReadTasks.ReadTaskHandler` | src/client/main.cpp:333-373 | for every conversation the display and the channel at the end are those of playing what the bodies of the whole byte stream say, one tick before each, however the bytes were cut |
| `ReadTasks.DisplayFollowsTheBytes` | src/client/main.cpp:54-78 | two clients that receive the same bytes at the same readings display the same, whatever the chunking and the iteration order; the display strictly increases |
| `ReadTasks.QuietFramesEmptyTheBuffer` | src/client/main.cpp:340-342 | a buffer of k runs is empty after frames of other conversations, a timeout apart, if and only if there were at least k of them, and nothing in it is lost |
| `StreamLaws.InOrderStreamIsDisplayed` | src/client/main.cpp:333-357 | a new client whose stream carries the messages of a conversation in order and without a gap displays exactly these, whatever else the stream carries, and keeps nothing back |
| `StreamLaws.TickComesFirst` | src/client/main.cpp:340-357 | the timeout is looked at before the frame: an awaited message that comes when its gap is due is too late, the buffered ones behind it are shown without it |
| `Sessions.FramesDecodeToPrefix` | src/client/main.cpp:54-78 | of the frames of any bodies below 4 GiB, legal or not, the decoder finds a prefix of the bodies |
| `Sessions.StreamDecodesToPrefix` | src/client/main.cpp:54-78 | so it does when only a part of the bytes comes through |
| `Sessions.SessionDisplays` | src/client/main.cpp:231-249 | a session displays of a conversation what one channel makes of the login batch followed by the bodies that came through |
| `Sessions.SessionInOrder` | src/client/main.cpp:231-373 | from the copies pushed to a connection, through its bytes, to the screen: what a session displays of a conversation ascends and consists of accepted messages |
| `Sessions.ReadersAgreeOnOrder` | src/client/main.cpp:231-373 | in every run of the cluster two receive threads that both display two messages of a conversation display them in the same order, whatever came through of their frames and in whatever pieces |
| `Sessions.ReaderFollowsAcceptance` | src/server/redis/redis.cpp:123-155 | and in the order of acceptance when all numbers of the conversation come from Redis |
| `Sessions.LoginAndRead` | src/client/main.cpp:231-249 | the login batch followed by the receive thread has such a session as its effect |
| `Pools.ScanTakesFront` | src/server/db/connectionpool.cpp:136-145 | a scan closes a front segment of the queue, each unused for the maximal idle time, at a million ticks a second, when looked at and with more than the initial number left, stops at the first that is not, and touches no lent connection |
| `Pools.DoKeepsInv` | src/server/db/connectionpool.cpp:79-147 | every critical section keeps the pool invariant |
| `Pools.RunKeepsInv` | src/server/db/connectionpool.cpp:50-147 | under any interleaving the count equals queued plus lent connections and stays between initial and maximal size, no connection is in two places, and the queue is ordered by age |
| `Pools.ScanIsComplete` | src/server/db/connectionpool.cpp:136-145 | despite the early break: after a scan the queue is empty, or the pool is down to its initial size, or no queued connection was overdue at the last look at the clock |
| `Pools.EarlyExitNeedsOrder` | src/server/db/connectionpool.cpp:142-144 | counterexample without the order: an overdue connection behind a younger one is missed |
| `Pools.BorrowFailsExactly` | src/server/db/connectionpool.cpp:98-129 | a borrower gets nothing if and only if every connection is lent; otherwise it gets the one that has waited longest |
| `Pools.BorrowExactly` | src/server/db/connectionpool.cpp:112-119 | a borrower gets the front of the queue, which was not lent, is lent now and has left the queue; the others and the count stay |
| `Pools.ReturnExactly` | src/server/db/connectionpool.cpp:113-118 | a returned connection was not in the queue, is no longer lent and goes to its end with the time of the return; the others and the count stay |
| `Pools.ProduceExactly` | src/server/db/connectionpool.cpp:79-96 | the pool grows by this connection if and only if the queue is empty, the maximal size not reached and the connection opened; the next borrower gets it |
| `Pools.LentUntilReturned` | src/server/db/connectionpool.cpp:113-119 | in every run a lent connection stays lent until it is given back |
| `Pools.NoDoubleLending` | src/server/db/connectionpool.cpp:112-119 | in every run, between two borrows that hand out the same connection it was given back |
| `Pools.ExhaustedUntilReturn` | src/server/db/connectionpool.cpp:79-110 | once all connections of a full pool are lent, no run without a return lets a borrower succeed |
| `Pools.ConnectionPool.constructor` | src/server/db/connectionpool.cpp:44-59 | the initial connections, distinct and each with its own time, all queued and counted |
| `Pools.ConnectionPool.ProduceConnection` | src/server/db/connectionpool.cpp:79-96 | a new connection is queued and counted if and only if the wait is over, the pool is not full and the connection opens; otherwise nothing changes |
| `Pools.ConnectionPool.GetConnection` | src/server/db/connectionpool.cpp:98-129 | the front of the queue is lent, or nothing when it is empty |
| `Pools.ConnectionPool.GiveBack` | src/server/db/connectionpool.cpp:113-118 | the deleter queues the connection again with a fresh time and no other connection changes |
| `Pools.ConnectionPool.ScanIdleConnection` | src/server/db/connectionpool.cpp:132-147 | the loop with its break computes the specified scan |

## Left out

- Interleaving inside a handler: each handler call is one step. The locks of the source cover less than that, and a login that is interrupted between the connection map and the database can break presence.
- Database failures: inserts, updates and queries succeed, and the connection pool gives the handlers what they ask for. Texts longer than the column allows count as stored.
- The order of rows in the offline query: rows are read in the order stored. The handler sorts them again, so only the order among unnumbered rows could differ.
- Pub/sub between the queue in Redis and the handler: a copy in flight is delivered once or lost, and copies may overtake each other. Subscribing takes effect at once.
- A failed `PUBLISH` may or may not have reached Redis; both are modelled.
- Node restarts. A restarted node would start its fallback numbers again.
- A `convid` that is present but not a string: the client and the sorter raise there. A message has no conversation id, or one that is a string.
- JSON text: parsing is a parameter, printing does not appear. A body that is valid JSON but not an object, or a logout notice without its fields, would end the client's thread and is treated as a body that is no chat.
- Which handler failures raise json exceptions: a parameter of the decoder. Other exceptions do not end the decoding loop, as in the source.
- Timestamps in messages, names, time formatting and everything else the orderer does not read: one opaque text per message.
- The responses of login, registration and the other requests that carry no chat message, and the handlers for registering, adding friends and groups.
- Password hashing and comparison: a verdict passed to the login.
- Group membership is an input of a group chat, a list that may repeat users, because the table has no unique key (sql/chat.sql:40-47); the query at src/server/muduo/groupmodel.cpp:99-113 filters out the sender, here as in the source.
- `redis::getSeq`, which nothing calls.
- Waking and waiting in the pool: which thread runs next is arbitrary, a consumer's wait is over when its critical section runs, and no statement is made about fairness.
- Opening, probing and reopening database connections: whether a new connection opens is an input. A borrowed connection that fails its probe is handed out whether or not reopening succeeds, as in the source, and is not told apart here.
- `Numbering.UniqueExactly`: for a Redis counter up to 2^40 and fallback counters below 2^64 - 2^40 - 1; beyond that numbers of the two kinds meet. The same range bounds the other laws that compare numbers of both kinds, and `EndToEnd.SameNumberSameMessage`.
- `EndToEnd.ClientsAgreeOnOrder`: as long as no node's fallback counter of the conversation has reached 2^64 - 2^40 - 1, because a client that receives 2^64-1 can show a smaller number after it (`WordLimit.StrictOrderExactly`). Redis counters are not bounded.
- `Runs.EveryCopyAccountedFor`: for runs of rightful steps. A step that is not rightful breaks presence or the books, which is proved step by step.
- `Sessions.SessionInOrder`: assumes that parsing undoes printing on accepted messages, and that no printed message has 4 GiB or more.
- The client's menus, commands, rendering, signal handling and configuration files.
