# A verified model of the Web Push service

The service accepts push messages over HTTP, stores them, and delivers them to user agents
over WebSocket sessions; application servers read delivery receipts from event streams. This
project models its storage, its delivery protocol and its byte-level codecs, and proves what
they promise. Run `dafny verify dfyconfig.toml` to check all of it.

## The parts

**The store.** `StoreSpec` states what each of the 25 store calls may do to one abstract state: user
agents, channels, push ids, messages, topic slots, receipt queues, routes and the sequence counter;
`StoreFacts` says what that means field by field, without the contract's own functions.
`MemoryStore` is the class of seven maps under one lock. `Bigtable` is the class over a table of
rows: `Keys` gives every row a structured key, its string and the range of every scan, `Tables` the
RPCs, `Layout` the relation between rows and abstract state. The reaper leaves rows of the table
behind that the maps drop; `TableSpec` is the contract with those rows in it, and says exactly when
the two contracts part. `Agreement` proves that they leave room only for the numbers of receipts,
the order of sets and what was left behind, and runs both stores over every sequence of whole calls.
`Fates` follows every message through runs of calls and acknowledgements, with a log that explains
each fate, and `Removal` takes the table calls apart into single-row steps that any number of
processes interleave and may abandon; `RemovalFacts` adds that nothing due is forgotten on the way.
`Chunks` is the loop that merges row chunks; `Sequence` is the compare-and-swap counter.

**Delivery.** `Hub` is the registry of bounded channels. `Delivery` is the protocol around it:
writers store, then announce to the local hub, the route and the other node; listeners register, set
their route, then read storage; cleanups of routes float in between. `DeliveryFacts` says what the
moves do, field by field: who gets what, what fails, and what each excuse is given for. `Session`
and `ReceiptStream` are the two readers.

**Codecs.** `Ece` is the `aes128gcm` content coding of section 2 of RFC 8188 with an abstract
seal/open pair. `Vapid` is the `Authorization` parser of section 3 of RFC 8292, `Links` the `Link`
lookup of section 3 of RFC 8288; each is proved against a printer.

## Hypotheses of the table refinement

`TableSpec.Suits` and `TableSpec.Shaped` state what callers owe the store: identifiers have the
issued shapes and numbers fit their widths, new identifiers are fresh, a channel is created only
when absent, a touch does not go backwards, and a node name is ASCII. No read, delete or backlog
query is excluded. The sequence counter stays below 2^64 because the clock shows less than 2^63
microseconds, and the counter's lead over the clock plus the number of stored messages stays below
2^63 (`Bigtable.Load`, which a call raises by at most one).

## Where code and documentation differ

- The documentation of `decrypt` says that a body cut after a record with delimiter 1 gives
  `Truncated` (crates/webpush-crypto/src/ece.rs:213-219). The code gives `InvalidPadding` there;
  `Truncated` from the loop means that there was no record at all (`Ece.TruncatedExactly`). The
  model follows the code.
- `webpush::encrypt` accepts 4079 octets where its comment says 3993
  (crates/webpush-crypto/src/ece.rs:414). `Ece.WebPushRoundTrip` states both limits.
- The trait documents `reap` as deleting messages with receipts
  (crates/webpush-store/src/lib.rs:334-336). The in-memory store drops every expired message; the
  table leaves those without a receipt to garbage collection. `TableSpec.ReadAgrees`,
  `TableSpec.DeleteAgrees` and `TableSpec.PendingAgrees` say exactly when this can be seen, and
  `TableSpec.ReapedStillSeen` gives such a run for every message without topic and receipt.
- `touch_user_agent` takes the later time in memory and writes the given time in the table
  (crates/webpush-store/src/memory.rs:149, crates/webpush-store/src/bigtable.rs:616-621).
  `Bigtable.TouchAgrees` gives the exact condition under which they agree.
- `exact` is meant to match any value (crates/webpush-store/src/bigtable.rs:260-271). RE2 rejects a
  backslash before a character that is not ASCII, so the pattern is accepted exactly for ASCII
  values (`Keys.ExactAccepted`); message ids are ASCII, and a node name that is not makes
  `clear_route` fail.
- A cleanup left over from an earlier session can clear the route of a later one on the same node
  (crates/webpush-server/src/notify.rs:97-115). `Delivery.NoMiss` names it as an excuse and
  `Delivery.DelayedCleanupMisses` exhibits the run.
- The comment that every message is in the backlog or forwarded to the new node
  (crates/webpush-server/src/notify.rs:23-25) does not hold where a node that accepts messages also
  held the recipient's earlier listener: its slot takes the event. `Delivery.AbsorbedExactly` gives
  the condition, that the route names another node when the slot takes the event;
  `Delivery.AbsorbsNone` says where it cannot arise, `Delivery.OldSlotAbsorbs` exhibits a run, and
  `Delivery.NoMiss` has it as an excuse.

## Model

| member | source | states |
|---|---|---|
| Agreement.Both | crates/webpush-store/src/bigtable.rs:597-906 | The two stores side by side: from like states, matching calls leave like states, and the rows answer as the maps do, receipts compared without numbers and order, except that a message the reaper left behind may be found by id or take a place in a backlog batch; such a message had expired at the latest reaping and asked for no receipt. |
| Agreement.Compare | crates/webpush-store/src/bigtable.rs:597-906 | Both stores run side by side, each caller choosing its next call from the answers it got, so that a receipt may be deleted by the number it was given: the runs are traces of the two contracts, the states are alike at every index, and every answer matches but for messages left behind by then. |
| Agreement.TableTracesAgree | crates/webpush-store/src/bigtable.rs:597-906 | Any trace of the maps' contract and any trace of the table's, with matching calls by index and alike at the start, are alike at every index, and every answer matches but for messages left behind by then. |
| Agreement.ReceiptLifeMatches | crates/webpush-store/src/bigtable.rs:835-866 | A receipt may be queued on both stores and then taken off by whatever number each gave it: the two calls match and suit. |
| Agreement.TableAgrees | crates/webpush-store/src/bigtable.rs:597-906 | From like states a call of the table's contract and a matching call of the maps' contract end in like states with answers that differ at most by what was left behind. |
| Agreement.PendingHides | crates/webpush-store/src/bigtable.rs:782-794 | The table's backlog batch, without the messages left behind, is the front of the maps' batch, which is never the longer one. |
| Agreement.NothingHidden | crates/webpush-store/src/bigtable.rs:597-906 | With nothing left behind the answers match outright. |
| Agreement.SameCallsMatch | crates/webpush-store/src/bigtable.rs:597-906 | A list of calls that suits the table whatever the answers, and names no receipt by its number, can be given to both stores as it is. |
| Agreement.TracesAgree | crates/webpush-store/src/bigtable.rs:597-906 | For every sequence of matching permitted calls on two stores that start alike, every answer matches and every state is alike. |
| Agreement.StepsAgree | crates/webpush-store/src/memory.rs:134-362 | Whatever order the maps are walked in and whatever numbers the clock gives, one call has one answer and one outcome up to receipt numbers; a receipt to delete may go by different numbers. |
| Agreement.QueueAllPiles | crates/webpush-store/src/memory.rs:120-131 | Queueing receipts under unused numbers adds exactly those receipts to each queue, as a multiset, and to no other. |
| Bigtable.BigtableStore.Replay | crates/webpush-store/src/bigtable.rs:597-906 | Every sequence of whole calls that callers may make is answered by the rows as the table contract says, contents by contents; at every index the indexes agree and what was left behind is expired, receipt-less and reaped. |
| Bigtable.BigtableStore.Execute | crates/webpush-store/src/bigtable.rs:597-906 | Any one whole call takes the stored messages and what was left behind where the table contract says, answers as it says, and keeps the representation. |
| Bigtable.BigtableStore.RemoveMessage | crates/webpush-store/src/bigtable.rs:551-583 | The conditional row delete and the index delete remove exactly the one message from what the rows represent. |
| Bigtable.BigtableStore.PurgeOne | crates/webpush-store/src/bigtable.rs:575-594 | Removing a message and queueing its 410 is a purge of that one message, and of none if it was only left behind by the reaper. |
| Bigtable.BigtableStore.Owe410 | crates/webpush-store/src/bigtable.rs:585-594 | A 410 is queued if and only if the message names a receipt subscription and that has a queue, whatever else the message holds, under a number above all earlier ones. |
| Bigtable.BigtableStore.EnqueueReceipt | crates/webpush-store/src/bigtable.rs:835-846 | The receipt enters the queue under a new highest number, or nothing changes and no number is returned when the subscription is gone. |
| Bigtable.BigtableStore.MessagesIn | crates/webpush-store/src/bigtable.rs:734-737 | Scanning the message prefix of a user agent and decoding the rows gives each of its messages once, each with the key of its own row. |
| Bigtable.BigtableStore.DeleteSubscription | crates/webpush-store/src/bigtable.rs:725-745 | Row by row, the channel, its push row and all its messages go, those left behind included, and the 410s of the stored ones are queued, as the maps do it at once; an unknown channel changes nothing. |
| Bigtable.BigtableStore.DeleteUserAgent | crates/webpush-store/src/bigtable.rs:630-639 | Channels first and the user agent row last amounts to dropping the user agent with all it owns. |
| Bigtable.BigtableStore.ExpireUserAgents | crates/webpush-store/src/bigtable.rs:641-656 | The scan drops exactly the user agents last seen before the cutoff, with all they own, and counts them. |
| Bigtable.BigtableStore.CreateUserAgent | crates/webpush-store/src/bigtable.rs:598-609 | The row of a new user agent represents it. |
| Bigtable.BigtableStore.ReadUserAgent | crates/webpush-store/src/bigtable.rs:611-614 | The row reads back as the user agent that was written, bridge address and time included. |
| Bigtable.BigtableStore.TouchUserAgent | crates/webpush-store/src/bigtable.rs:616-621 | The time is written whatever was there; the call agrees with the in-memory store when the time does not go backwards. |
| Bigtable.TouchAgrees | crates/webpush-store/src/bigtable.rs:616-621 | The unconditional write gives the in-memory result if and only if the user agent is absent or its recorded time is not later than the new one. |
| Bigtable.BigtableStore.UpdateBridgeToken | crates/webpush-store/src/bigtable.rs:623-628 | Only the token cell of an existing bridged user agent changes, and the answer says whether there was one. |
| Bigtable.BigtableStore.Subscriptions | crates/webpush-store/src/bigtable.rs:658-674 | The scan lists each subscription of the user agent exactly once. |
| Bigtable.BigtableStore.ReadChannel | crates/webpush-store/src/bigtable.rs:676-688 | The channel row reads back as the subscription that was written, key restriction included. |
| Bigtable.BigtableStore.CreateSubscription | crates/webpush-store/src/bigtable.rs:690-711 | The channel row and the push row together represent the new subscription and its push id. |
| Bigtable.BigtableStore.SubscriptionByPush | crates/webpush-store/src/bigtable.rs:713-723 | A push id leads to exactly the channel that carries it. |
| Bigtable.BigtableStore.InsertMessage | crates/webpush-store/src/bigtable.rs:747-780 | Clearing and writing the row, then the id row, then the expiry row, inserts the message and drops the one in its topic slot, stored or left behind, with no receipt for it. |
| Bigtable.BigtableStore.Pending | crates/webpush-store/src/bigtable.rs:782-794 | For any time, the decoded, filtered, sorted and truncated scan is the oldest unexpired messages of the user agent up to the limit, among the stored ones and those left behind. |
| Bigtable.BigtableStore.Locate | crates/webpush-store/src/bigtable.rs:558-573 | The id row leads to the message exactly when it still has its row, and to no other message. |
| Bigtable.BigtableStore.ReadMessage | crates/webpush-store/src/bigtable.rs:796-798 | The message is found exactly when it is stored or was left behind. |
| Bigtable.BigtableStore.DeleteMessage | crates/webpush-store/src/bigtable.rs:800-812 | The message is returned exactly when it is stored or was left behind and the owner may delete it; a stored one goes from the stored messages, one left behind goes from those, and nothing else changes. |
| Bigtable.BigtableStore.CreateReceiptSub | crates/webpush-store/src/bigtable.rs:814-818 | A new receipt subscription has an empty queue. |
| Bigtable.BigtableStore.ReceiptSubExists | crates/webpush-store/src/bigtable.rs:820-822 | A receipt subscription exists exactly when it has its row. |
| Bigtable.BigtableStore.DeleteReceiptSub | crates/webpush-store/src/bigtable.rs:824-833 | Deleting the subscription row first and every queue row after removes the queue whole and nothing else. |
| Bigtable.BigtableStore.QueuedReceipts | crates/webpush-store/src/bigtable.rs:848-862 | The queue scan, its numbers parsed from the keys, is the whole queue in sequence order. |
| Bigtable.BigtableStore.DeleteReceipt | crates/webpush-store/src/bigtable.rs:864-866 | Exactly the receipt with that number leaves the queue. |
| Bigtable.BigtableStore.ReapRow | crates/webpush-store/src/bigtable.rs:872-883 | One due expiry row purges its message if the row it names still holds that message, and purges nothing otherwise. |
| Bigtable.BigtableStore.Reap | crates/webpush-store/src/bigtable.rs:868-885 | Every expired message goes and the 410s owed are queued; exactly the expired messages without a receipt join those left behind. |
| Bigtable.ReapDone | crates/webpush-store/src/bigtable.rs:868-885 | After the due expiry rows are dealt with, the only expired messages remaining are those that asked for no receipt. |
| Bigtable.DueAmong | crates/webpush-store/src/bigtable.rs:782-794 | Of the scanned rows of a user agent, those that pass the expiry filter are exactly its due messages, stored or left behind. |
| Bigtable.BigtableStore.SetRoute | crates/webpush-store/src/bigtable.rs:887-892 | The route is replaced and the previous node returned. |
| Bigtable.BigtableStore.ReadRoute | crates/webpush-store/src/bigtable.rs:894-899 | The route row gives the recorded node. |
| Bigtable.BigtableStore.ClearRoute | crates/webpush-store/src/bigtable.rs:901-905 | The route goes exactly when it names the given node, in one conditional step; the call fails and changes nothing exactly when the node name is not ASCII. |
| TableSpec.ReadAgrees | crates/webpush-store/src/bigtable.rs:796-798 | A read by id finds the same in both contracts if and only if the message was not left behind. |
| TableSpec.DeleteAgrees | crates/webpush-store/src/bigtable.rs:800-812 | A delete by id returns the same in both contracts if and only if the message was not left behind or the owner may not delete it. |
| TableSpec.PendingAgrees | crates/webpush-store/src/bigtable.rs:782-794 | A backlog read gives the same in both contracts if and only if every message left behind that is due at the given time is later than a full batch; from the latest reaping time on it always does. |
| TableSpec.ReapedStillSeen | crates/webpush-store/src/bigtable.rs:868-885 | For every message without topic and receipt, a run of two calls after which the table finds it, deletes it and shows it in a backlog read for an earlier time, while the maps can do none of it. |
| Layout.RepInserted | crates/webpush-store/src/bigtable.rs:747-780 | The three writes of an insert keep the rows a representation, with the occupant of the message's row displaced. |
| Layout.OccupantIs | crates/webpush-store/src/bigtable.rs:306-313 | What a new message's row overwrites is, of the stored messages, exactly the one in its topic slot; a message without a topic overwrites no row at all. |
| Layout.OwnRow | crates/webpush-store/src/bigtable.rs:306-313 | Two stored messages never share a row. |
| Layout.RepRowGone | crates/webpush-store/src/bigtable.rs:551-556 | Deleting the row of a stored message removes that message alone from what the rows represent. |
| Layout.AgentRowRoundTrip | crates/webpush-store/src/bigtable.rs:290-304 | A user agent row reads back as the user agent written. |
| Removal.RemovedOnce | crates/webpush-store/src/bigtable.rs:551-594 | In every run of interleaved row steps, crashes and collection included, the conditional delete succeeds at most once per message, and no message it removed was also replaced. |
| Removal.ReceiptOnce | crates/webpush-store/src/bigtable.rs:725-885 | In every such run at most one receipt is ever queued for a message, to the subscription it named, with the status of its acknowledgement or 410 for a deletion or the reaper; a withdrawn or replaced message gets none. |
| Removal.LocatesOwn | crates/webpush-store/src/bigtable.rs:558-573 | In every such run an id row, however stale, leads to its own message or to none. |
| Removal.ResolvesRight | crates/webpush-store/src/bigtable.rs:568-583 | A row that decodes to a message holds that very message in its own row, so stale index rows lead nowhere else. |
| Removal.IndexNamesOwn | crates/webpush-store/src/bigtable.rs:558-567 | An id row names the row of its own message and no other. |
| Removal.ExpiryNamesOwn | crates/webpush-store/src/bigtable.rs:872-877 | An expiry row names the row of its own message, with that message's expiry. |
| Removal.HeldRow | crates/webpush-store/src/bigtable.rs:551-556 | A conditional delete that matches hits a message that was written, not replaced and not removed before. |
| Removal.RunsKeepInv | crates/webpush-store/src/bigtable.rs:527-885 | Every run of starts, row steps, crashes, garbage collection and changes elsewhere keeps rows, removals, receipts and pending steps consistent. |
| Removal.NoTokenBeforeRemoval | crates/webpush-server/src/notify.rs:214-227 | Before a message is removed nobody holds a claim on its receipt and none was queued. |
| Removal.RemovalReason | crates/webpush-server/src/session.rs:393-418 | The removal that justifies a receipt is the message's only one and one the message may suffer: its own channel's acknowledgement, its channel's deletion, or its expiry. |
| RemovalFacts.NoReceiptForgotten | crates/webpush-store/src/bigtable.rs:575-594 | In every such run a message removed otherwise than by withdrawal, with a receipt subscription, has its receipt, or a process is on the way to it, or at some step that process stopped or the subscription had no row. |
| RemovalFacts.IntactIsFound | crates/webpush-store/src/bigtable.rs:551-583 | In every such run, while the row and the id row of a message are in place, a lookup by id reads exactly its row, a row read by a call that may delete it leads to the conditional delete, and that delete matches, removes the row and goes on to the receipt. |
| StoreSpec.StepKeepsValid | crates/webpush-store/src/memory.rs:34-49 | Every call keeps the topic and push indexes in exact agreement with messages and channels, through cascading deletes and both sweeps. |
| StoreSpec.OneMessagePerSlot | crates/webpush-store/src/lib.rs:187-189 | There is at most one stored message per user agent, channel and topic. |
| StoreSpec.PurgedCompose | crates/webpush-store/src/memory.rs:84-90 | Removing messages one by one and queueing their 410s is removing them at once. |
| StoreSpec.DroppedCompose | crates/webpush-store/src/memory.rs:93-106 | Dropping channels one by one, with their messages and receipts, is dropping them at once. |
| StoreSpec.PendingUnique | crates/webpush-store/src/lib.rs:192-192 | Oldest unexpired messages up to a limit is one list: the answer of `pending` is determined. |
| StoreSpec.EnqueuedReadsLast | crates/webpush-store/src/memory.rs:303-318 | A receipt queued under a higher number is read last, so reading order is enqueue order. |
| StoreFacts.ReapMeans | crates/webpush-store/src/memory.rs:327-344 | Reaping removes exactly the messages with an expiry of at most the given time; each of them that names an existing receipt subscription, and no other message, has exactly one new receipt, a 410 in that queue, under ascending numbers above all earlier ones; everything else stays. |
| StoreFacts.DropChannelMeans | crates/webpush-store/src/memory.rs:68-91 | Deleting an existing subscription removes exactly the channel, its push id and the messages of that user agent and channel, with the same 410s and nothing else changed; an unknown one removes nothing. |
| StoreFacts.DropAgentMeans | crates/webpush-store/src/memory.rs:93-106 | Deleting a user agent removes exactly it, its channels, their push ids and their messages, with the same 410s. |
| StoreFacts.ExpireMeans | crates/webpush-store/src/memory.rs:170-186 | The same for exactly the user agents last seen before the cutoff, and the answer counts them. |
| StoreFacts.QueuedHolds | crates/webpush-store/src/memory.rs:118-131 | Queues that were given receipts under ascending numbers above all earlier ones hold what they held and exactly those receipts, each in its own queue under its number. |
| StoreFacts.InsertMeans | crates/webpush-store/src/memory.rs:242-253 | Inserting a message removes exactly the stored messages with its user agent, channel and topic, if it has one, and queues no receipt. |
| StoreFacts.DeleteMeans | crates/webpush-store/src/memory.rs:272-287 | A delete gives back and removes the message if it is stored and the owner, where one is given, is its user agent and channel; otherwise it finds nothing and changes nothing. |
| StoreFacts.PendingMeans | crates/webpush-store/src/memory.rs:255-266 | The batch has at most the limit, only stored unexpired messages of the user agent, in order of acceptance time and id; one that is due and not in it comes later than every one of a full batch. |
| StoreFacts.TouchMeans | crates/webpush-store/src/memory.rs:144-151 | The recorded time becomes the later of the two, for that user agent only. |
| StoreFacts.TokenMeans | crates/webpush-store/src/memory.rs:153-164 | Only the token of an existing bridged user agent changes, and the answer says whether there was one. |
| StoreFacts.AgentReads | crates/webpush-store/src/memory.rs:135-142 | A created user agent is read back as created, and every other as before. |
| StoreFacts.PushMeans | crates/webpush-store/src/memory.rs:226-232 | A push id leads to a subscription if and only if that is stored under its channel and carries the push id. |
| StoreFacts.ChannelReads | crates/webpush-store/src/memory.rs:188-224 | A created subscription is read back by its channel and by its push id, and the list of its user agent is what it was and that one, each once. |
| StoreFacts.EnqueueMeans | crates/webpush-store/src/memory.rs:303-311 | A receipt for an existing subscription enters that queue and no other under a number above all numbers in any queue; for an unknown one nothing happens. |
| StoreFacts.ReadingMeans | crates/webpush-store/src/memory.rs:313-318 | The answer lists exactly the numbered receipts of the queue, by increasing number, and nothing for an unknown subscription. |
| StoreFacts.TakeMeans | crates/webpush-store/src/memory.rs:320-325 | Exactly the receipt with that number leaves that queue. |
| StoreFacts.QueueReads | crates/webpush-store/src/memory.rs:289-301 | A created receipt subscription exists with an empty queue, a deleted one is gone with its queue, and no other is touched. |
| StoreFacts.RouteReads | crates/webpush-store/src/memory.rs:346-352 | A route set is the route read, the answer is the one read before, and no other route changes. |
| StoreFacts.ClearMeans | crates/webpush-store/src/memory.rs:354-361 | Exactly the route of that recipient goes, and only if it names the given node; the answer says whether it did. |
| MemoryStore.MemoryStore.RemoveMessage | crates/webpush-store/src/memory.rs:108-116 | The message goes with its topic slot, and nothing else changes. |
| MemoryStore.MemoryStore.Owe410 | crates/webpush-store/src/memory.rs:118-131 | A 410 is queued if and only if the message names a receipt subscription that exists, whatever else the message holds, under a number above all earlier ones. |
| MemoryStore.MemoryStore.PurgeAll | crates/webpush-store/src/memory.rs:84-90 | In whatever order the ids come, exactly those messages go and exactly the owed 410s are queued. |
| MemoryStore.MemoryStore.RemoveSubscription | crates/webpush-store/src/memory.rs:68-91 | The channel, its push id and all its messages go, and the owed 410s are queued. |
| MemoryStore.MemoryStore.RemoveUserAgent | crates/webpush-store/src/memory.rs:93-106 | The user agent goes with all its channels and their messages. |
| MemoryStore.MemoryStore.ExpireUserAgents | crates/webpush-store/src/memory.rs:170-186 | Exactly the user agents last seen before the cutoff go, with all they own, and are counted. |
| MemoryStore.MemoryStore.CreateSubscription | crates/webpush-store/src/memory.rs:207-224 | The channel and its push id are added in agreement. |
| MemoryStore.MemoryStore.InsertMessage | crates/webpush-store/src/memory.rs:242-253 | The message takes its topic slot and the message it replaces goes without a receipt. |
| MemoryStore.MemoryStore.Pending | crates/webpush-store/src/memory.rs:255-266 | The oldest unexpired messages of the user agent up to the limit, in (accepted, id) order. |
| MemoryStore.MemoryStore.DeleteMessage | crates/webpush-store/src/memory.rs:272-287 | The stored message goes and is returned exactly when the owner may delete it. |
| MemoryStore.MemoryStore.EnqueueReceipt | crates/webpush-store/src/memory.rs:303-311 | The receipt is queued under a number above all earlier ones when its subscription exists. |
| MemoryStore.MemoryStore.QueuedReceipts | crates/webpush-store/src/memory.rs:313-318 | The whole queue in sequence order. |
| MemoryStore.ReadQueue | crates/webpush-store/src/memory.rs:313-318 | Reading an ordered queue from its least number up gives every receipt once, in order. |
| MemoryStore.MemoryStore.Reap | crates/webpush-store/src/memory.rs:327-344 | Every expired message goes, with or without a receipt, and the owed 410s are queued. |
| MemoryStore.MemoryStore.ClearRoute | crates/webpush-store/src/memory.rs:354-361 | The route goes exactly when it names the given node. |
| MemoryStore.MemoryStore.Execute | crates/webpush-store/src/memory.rs:134-362 | Any one permitted call takes the maps where the store contract says and keeps the indexes in agreement. |
| MemoryStore.MemoryStore.Replay | crates/webpush-store/src/memory.rs:134-362 | Every sequence of permitted calls is answered by the maps as the store contract says. |
| Fates.StoredOrFated | crates/webpush-store/src/memory.rs:70-131 | After any run of calls and acknowledgements an inserted message is stored as inserted or has met one fate, and not both. The log holds its insertion and, later, what removed it: the insertion of another message into its topic slot, a delete or acknowledgement that gave it back to its owner, a reap at or after its expiry, or a deletion that dropped its channel. It was given back exactly once if withdrawn or acknowledged, else never. |
| Fates.FateIsFinal | crates/webpush-store/src/memory.rs:70-131 | A fate is final: no later step changes it, rewrites the log or brings the message back. |
| Fates.ReceiptsConserved | crates/webpush-store/src/memory.rs:118-131 | A message that a deletion or the reaper removed has a receipt, one 410 to the subscription it named, if and only if it named one and the log entry that removed it lists that one among the subscriptions existing then; a replaced or withdrawn message never has one; an acknowledged one has at most one, with the status of its acknowledgement and to the subscription it named. |
| Fates.SweepOwes | crates/webpush-store/src/memory.rs:327-344 | A sweep removes a set of messages, each expired by the reaping time or of a channel that was dropped, and queues one 410 for exactly those of them that name an existing receipt subscription, to that subscription. |
| Fates.OtherCalls | crates/webpush-store/src/memory.rs:242-287 | Outside sweeps only an insert and a delete remove a message: the insert the one in its topic slot, the delete the one it gives back; neither queues a receipt. |
| Fates.RunsKeepInv | crates/webpush-server/src/session.rs:395-418 | The record of insertions, fates, debts and receipts stays consistent over every run, acknowledgements interrupted between their halves included. |
| Keys.EncodeInjective | crates/webpush-store/src/bigtable.rs:1-29 | Different rows have different keys, for identifiers of the issued shapes. |
| Keys.HexOrder | crates/webpush-store/src/bigtable.rs:306-313 | Fixed-width hexadecimal order is numeric order, whatever follows. |
| Keys.HexRoundTrip | crates/webpush-store/src/bigtable.rs:853-853 | Fixed-width hexadecimal parses back to the number. |
| Keys.PrefixRangeExact | crates/webpush-store/src/bigtable.rs:245-250 | The range built for a prefix ending in # holds exactly the keys with that prefix. |
| Keys.ScanExact | crates/webpush-store/src/bigtable.rs:234-250 | Every scan reads exactly the rows it is meant to: the user agents, the channels or messages of one user agent, one queue, or the expiry rows due by now. |
| Keys.DueExact | crates/webpush-store/src/bigtable.rs:868-872 | The reaping range is exactly the expiry rows with expiry at most now. |
| Keys.QueueScansInOrder | crates/webpush-store/src/bigtable.rs:839-853 | Receipts of one queue scan in sequence order. |
| Keys.KeyTails | crates/webpush-store/src/bigtable.rs:633-633 | The channel, the number, the message id and the user agent id read off scanned keys are those the keys were built from. |
| Keys.MessageRowRoundTrip | crates/webpush-store/src/bigtable.rs:315-338 | A message row reads back as the message written, for every well-formed message. |
| Keys.SharedRows | crates/webpush-store/src/bigtable.rs:306-313 | Two messages share a row exactly when they share user agent, channel and topic, or are the same topicless message. |
| Keys.DecimalRoundTrip | crates/webpush-store/src/bigtable.rs:202-205 | A decimal cell parses back to the number written, within its width. |
| Keys.UrgencyRoundTrip | crates/webpush-store/src/lib.rs:153-177 | Every urgency token parses back to its urgency. |
| Keys.ExactMatches | crates/webpush-store/src/bigtable.rs:260-271 | An accepted pattern built from a value matches exactly that value. |
| Keys.ExactAccepted | crates/webpush-store/src/bigtable.rs:260-271 | The pattern built from a value is one the server accepts if and only if the value is ASCII. |
| Tables.Table.Mutate | crates/webpush-store/src/bigtable.rs:438-452 | One row changes, atomically: optionally cleared, then given cells; a row without cells is gone. |
| Tables.Table.MutateIf | crates/webpush-store/src/bigtable.rs:527-549 | The mutation happens exactly when the predicate matches, in the same atomic step, and the answer says which; a value that is not ASCII fails the call and changes nothing. |
| Tables.Table.Get | crates/webpush-store/src/bigtable.rs:513-520 | The row under exactly that key. |
| Tables.Table.Read | crates/webpush-store/src/bigtable.rs:466-511 | A scan returns the rows of its range, each once, in key order. |
| Tables.IndexesAt | crates/webpush-store/src/bigtable.rs:15-29 | A key string leads to the row of exactly one structured key. |
| Types.SortByAge | crates/webpush-store/src/bigtable.rs:791-791 | Sorting gives the same messages, oldest first by (accepted, id). |
| Chunks.Read | crates/webpush-store/src/bigtable.rs:466-511 | The chunk loop computes the rows of all chunks, wherever responses are cut. |
| Chunks.ReassemblyExact | crates/webpush-store/src/bigtable.rs:482-508 | For every list of rows and every legal way to cut it into chunks, with split values, omitted keys and qualifiers and abandoned partial rows, the loop returns exactly the committed rows in order. |
| Chunks.WireRead | crates/webpush-store/src/bigtable.rs:485-508 | Reading the chunks of the items from any legal reader state gives their committed rows and the state to go on from. |
| Sequence.NextSeq | crates/webpush-store/src/lib.rs:365-375 | The next number is above the last one, at least the clock in microseconds, and one of the two: the clock or the last number plus one. |
| Sequence.ResultsIncrease | crates/webpush-store/src/lib.rs:365-375 | For any number of concurrent callers, any retries and any clocks, results increase strictly in the order the swaps take effect and no two callers share one. |
| Hub.Hub.Register | crates/webpush-server/src/hub.rs:111-121 | The new listener has the slot under an unused id with an open, empty channel; the one before it gets the notice that it is gone exactly if its channel is open and has room, and no other channel changes. |
| Hub.Hub.Unregister | crates/webpush-server/src/hub.rs:123-132 | The slot is freed exactly when it is still the caller's; nothing else changes. |
| Hub.Hub.Notify | crates/webpush-server/src/hub.rs:134-151 | The event is appended to the channel of the slot, and nothing else changes, exactly if that is open and has room; otherwise the slot is freed and no channel changes; absent means no slot or a closed channel. |
| Hub.NoGaps | crates/webpush-server/src/hub.rs:111-151 | In every run a listener receives a prefix of the events addressed to it since it registered, then at most one replacement notice; while registered nothing is missing; no buffer exceeds capacity. |
| Hub.ReplacedNeverReturns | crates/webpush-server/src/hub.rs:123-132 | In every run a registration that lost its slot never gets it back, so it never unregisters its successor. |
| Hub.RunsKeepInv | crates/webpush-server/src/hub.rs:111-151 | Every run of the hub keeps slots, channels and what each listener is owed consistent. |
| Delivery.NoMiss | crates/webpush-server/src/notify.rs:21-30 | In every run, on one node or in a cluster with any roles, once an item is announced and a listener for it has read its backlog, or has none to read because nothing was ever stored for it, the item was stored at that read or removed by then or reached the listener's channel, unless the announcement failed or was absorbed (a slot on the announcing node took it while the route named another node), or the listener was replaced, overflowed, ended, or had its route taken or cleared after setting it. What had ever been stored before the read was stored at it or removed by then, without excuse. |
| Delivery.AbsorbedExactly | crates/webpush-server/src/notify.rs:144-153 | In every run, when the local slot takes an announced event, a listener that missed it before still misses it if and only if the recipient's route names another node. |
| Delivery.AbsorbsNone | crates/webpush-server/src/notify.rs:144-153 | Nothing is ever absorbed without a cluster, and with split roles nothing for a user agent, so there the absorbed excuse never applies. |
| Delivery.OldSlotAbsorbs | crates/webpush-server/src/notify.rs:144-153 | A concrete run with overlapping roles: the old listener's slot takes the item on the announcing node and the live listener that holds the route has room, no excuse and no item, which stays stored. |
| Delivery.StillStored | crates/webpush-server/src/notify.rs:21-23 | A corollary of how items are stored and removed: whatever is lost on the way, the next listener to read its backlog finds an item not removed. |
| Delivery.SingleHasNoRoutes | crates/webpush-server/src/notify.rs:153-153 | Without a cluster no route is ever set, so no route excuse arises. |
| Delivery.DelayedCleanupMisses | crates/webpush-server/src/notify.rs:97-115 | A concrete run: the cleanup of an earlier session on the same node takes a live session's route and the next item passes it by, while the item stays stored. |
| Delivery.MissingWhere | crates/webpush-server/src/endpoint.rs:243-260 | Whoever still misses an item holds the local slot without a cluster, and in a cluster an open slot on the node the route names. |
| Delivery.ForwardKeeps | crates/webpush-server/src/internal.rs:60-86 | A forward that arrives serves the slot's listener or excuses it, and an absent listener is none that misses the item; what serving is, and what failing is, is in `DeliveryFacts`. |
| Delivery.LookUpKeeps | crates/webpush-server/src/notify.rs:153-168 | A route lookup after the local announcement names the node of whoever misses the item, or nobody misses it. |
| Delivery.AnnounceKeeps | crates/webpush-server/src/notify.rs:144-153 | The local announcement serves whoever misses the item on the announcing node, or its absorption is recorded; when it finds no slot, whoever misses the item is on another node. |
| Delivery.NextKeepsInv | crates/webpush-server/src/notify.rs:97-235 | Every step of writers, listeners, forwards and cleanups keeps slots, routes, pending jobs and storage consistent. |
| Delivery.RunsKeepInv | crates/webpush-server/src/notify.rs:97-235 | Every run of such steps keeps them consistent. |
| DeliveryFacts.OpenSlotGets | crates/webpush-server/src/internal.rs:60-86 | In every run, a forward that reaches a node, or a local announcement, that finds an open slot with room for the recipient appends the event to that channel and to what its listener was offered, leaves its slot, excuses and the failed items as they were, and ends the announcement. |
| DeliveryFacts.FullSlotGoes | crates/webpush-server/src/hub.rs:134-151 | Without room the listener loses its slot, gets nothing and is excused as overflowed; nothing fails. |
| DeliveryFacts.FailsOnlyBy | crates/webpush-server/src/notify.rs:153-203 | Over every move, an item enters the failed ones only by an error of the route lookup or of the forward, by an unreachable node, or by a forward to a node that is not there. |
| DeliveryFacts.AbsorbedOnlyBy | crates/webpush-server/src/notify.rs:144-153 | Over every move, an item is absorbed only by an open slot on its announcing node while the recipient's route names another node. |
| DeliveryFacts.ExcusedOnlyFor | crates/webpush-server/src/notify.rs:97-135 | In every run, a listener gets an excuse only for its reason: a registration for the same recipient on its node, an event that met its full channel, its own end or an event that met its closed channel, a route set on another node after its own, or a cleanup for its node that cleared its route. |
| DeliveryFacts.StartsUnexcused | crates/webpush-server/src/notify.rs:120-127 | A listener appears only by registering: in an open slot of its own, with no excuse and nothing offered. |
| DeliveryFacts.RegisterMeans | crates/webpush-server/src/hub.rs:111-121 | A new registration takes the slot; a listener before it is told, if its channel is open and has room, and is excused as replaced. |
| DeliveryFacts.CatchUpReads | crates/webpush-server/src/notify.rs:21-23 | A listener that reads its backlog gets what is stored, and the record of that read is exact: all ever stored, and all removed by then. |
| DeliveryFacts.AnnouncementEnds | crates/webpush-server/src/notify.rs:140-170 | A posted item is stored before it is announced, and every step of an announcement brings it nearer its end: store, local hub, route, other node. |
| DeliveryFacts.LookUpForwards | crates/webpush-server/src/notify.rs:153-170 | An item without a local slot is forwarded to the node the recipient's route names, if that is another one. |
| DeliveryFacts.OwnRouteIsStale | crates/webpush-server/src/notify.rs:162-167 | A route that leads back to the announcing node, where no slot was found, is cleared next. |
| DeliveryFacts.EmptyRouteIsStale | crates/webpush-server/src/notify.rs:175-203 | A forward to a node without an open slot for the recipient, or to no node, leads to the clearing of that route. |
| DeliveryFacts.ClearedExactly | crates/webpush-server/src/notify.rs:97-115 | A step of a job changes a route only by a cleanup, which removes it exactly if it names the node cleaned up after. |
| DeliveryFacts.RouteSetTells | crates/webpush-server/src/notify.rs:128-137 | Setting a route sends the notice that it is gone to the node that had it, exactly if that is another one. |
| DeliveryFacts.RoutesKept | crates/webpush-server/src/notify.rs:97-170 | No move but a cleanup and the setting of a route changes a route. |
| DeliveryFacts.EndMeans | crates/webpush-server/src/notify.rs:97-115 | A listener that ends frees the slot, and in a cluster has its node's route cleaned up, exactly if the slot is still its own; its channel is closed. |
| Session.Session.Notify | crates/webpush-server/src/session.rs:443-462 | A message is sent once per connection, is then awaited, and the answer says whether it was new. |
| Session.Session.NextBatch | crates/webpush-server/src/session.rs:420-437 | The unsent messages of the next batch go out in order; more may follow exactly when the batch was full and brought something new. |
| Session.Session.Ack | crates/webpush-server/src/session.rs:393-418 | An acknowledgement stops being awaited. For a stored message of the client's own channel, no code or 100 removes it and queues its receipt with status 204 and codes 101 and 102 with 410, if it names a receipt subscription that exists, and without a receipt otherwise; any other code, channel or message leaves the store untouched. |
| Session.Session.HandleAck | crates/webpush-server/src/session.rs:350-357 | A frame acknowledges its entries in order; the next batch is read exactly when nothing is awaited any more and more may be stored. |
| Session.Session.OnEvent | crates/webpush-server/src/session.rs:295-306 | A pushed message not sent before is sent, recorded as sent and awaited, and nothing else becomes either; receipts are ignored; being gone or dropped ends the session. |
| Session.ChannelIdReads | crates/webpush-server/src/subscription.rs:34-43 | A text is read as a given channel exactly when it spells that channel in some letter case. |
| Session.Drain | crates/webpush-server/src/session.rs:350-356 | On a quiet store, for any batch size of at least one, a client that acknowledges what it is sent receives every message still unexpired at the last read, each once, in (accepted, id) order; the store keeps the rest; the drain ends. |
| Session.Turn | crates/webpush-server/src/session.rs:393-437 | One frame of the client frees at least one stored message and leaves the drain's invariant. |
| Session.ReadDrains | crates/webpush-server/src/session.rs:421-436 | A read when everything sent is acknowledged brings only new messages, all newer than those sent, and leaves nothing due behind unless the batch was full. |
| Session.FrameFrees | crates/webpush-server/src/session.rs:350-353 | An honest frame frees exactly the messages it names. |
| ReceiptStream.Pump.Emit | crates/webpush-server/src/receipts.rs:140-160 | A receipt is written once and leaves the queue only after it was written; a repeated number does nothing. |
| ReceiptStream.Pump.Run | crates/webpush-server/src/receipts.rs:105-138 | What is written is exactly the first receipt under each number, in order, of the backlog and then of the receipts heard, up to where the client was cut off. The stream stops before the last wake-up only if the last one heard was the gone notice, the closed channel or a hangup, or the client is cut off; the queue loses exactly what was taken off. |
| ReceiptStream.Pump.Hear | crates/webpush-server/src/receipts.rs:117-138 | A receipt heard is written unless its number was; a pushed message and a keep-alive the client takes let the stream go on; the gone notice, the closed channel and a hangup end it. |
| ReceiptStream.OnlyWrittenLeave | crates/webpush-server/src/receipts.rs:140-160 | Over the whole stream nothing leaves the queue that was not written, and what stays is unchanged. |
| ReceiptStream.WrittenOnce | crates/webpush-server/src/receipts.rs:143-158 | Writing a number not written before and then taking it off keeps the log free of repeats and of early removals. |
| Ece.ParseHeaderExact | crates/webpush-crypto/src/ece.rs:119-136 | A body parses to a header and records exactly when it is that header's octets, with a record size from 18 to the largest 32-bit number and a key id of at most 255 octets, followed by those records. |
| Ece.RecordNonce | crates/webpush-crypto/src/ece.rs:179-186 | The in-place loop gives the base nonce XOR the big-endian sequence number in its last eight octets. |
| Ece.NonceBits | crates/webpush-crypto/src/ece.rs:179-186 | Bit by bit, a nonce differs from the base nonce exactly where the record number, read from the end of the nonce, has a 1. |
| Ece.NonceInjective | crates/webpush-crypto/src/ece.rs:179-186 | Nonces of different sequence numbers differ, and number 0 has the base nonce. |
| Ece.StripPaddingInverts | crates/webpush-crypto/src/ece.rs:199-205 | Stripping undoes any zero padding after any non-zero delimiter. |
| Ece.StripPaddingSound | crates/webpush-crypto/src/ece.rs:199-205 | Stripping returns the text before the last non-zero octet and that octet, and fails exactly on the all-zero plaintexts. |
| Ece.OpenRecordLoop | crates/webpush-crypto/src/ece.rs:190-206 | The record loop opens under the record's nonce and strips the padding, with the source's errors. |
| Ece.DecryptBody | crates/webpush-crypto/src/ece.rs:220-243 | The loop over records computes the decryption of the whole body. |
| Ece.DecryptIsRfcLanguage | crates/webpush-crypto/src/ece.rs:220-243 | Decryption succeeds with a text exactly when the body is a valid header and a non-empty run of records as section 2 of RFC 8188 has them, with that text as their data. |
| Ece.TruncationDetected | crates/webpush-crypto/src/ece.rs:208-243 | Every cut of an accepted body at a record boundary is rejected, and so is every extension after a full last record. |
| Ece.TruncatedExactly | crates/webpush-crypto/src/ece.rs:220-232 | Decryption reports a truncated body if and only if the header is cut short, or is complete and acceptable and no octet follows it. |
| Ece.Encrypt | crates/webpush-crypto/src/ece.rs:265-293 | The appended body is header and sealed record, or the source's error for record size, key id or length. |
| Ece.EncryptDecryptRoundTrip | crates/webpush-crypto/src/ece.rs:265-293 | Encryption succeeds exactly within the limits, its body has length 21 + keyid + plaintext + 17, and decryption returns the plaintext. |
| Ece.WebPushRoundTrip | crates/webpush-crypto/src/ece.rs:415-472 | A push message survives the trip for exactly the plaintexts of at most 4079 octets, and the body fits 4096 octets exactly up to 3993. |
| Vapid.ReadParamValue | crates/webpush-crypto/src/vapid.rs:174-193 | The scanning loop reads a token or unescapes a quoted string. |
| Vapid.ReadParam | crates/webpush-crypto/src/vapid.rs:141-160 | One pass reads one parameter and consumes input. |
| Vapid.ReadParams | crates/webpush-crypto/src/vapid.rs:139-160 | The loop ends on every input and keeps the last t and k. |
| Vapid.ParseAuthorization | crates/webpush-crypto/src/vapid.rs:127-172 | The whole parse, with the source's errors; the lemmas below say when each one is given. |
| Vapid.NotVapidExactly | crates/webpush-crypto/src/vapid.rs:127-134 | A value is refused as not VAPID if and only if its trimmed text up to the first ASCII whitespace is not `vapid` in some letter case. |
| Vapid.AlwaysSplits | crates/webpush-crypto/src/vapid.rs:127-134 | Every value is blank space, such a scheme, what follows it and blank space, so the condition speaks of every value. |
| Vapid.MissingExactly | crates/webpush-crypto/src/vapid.rs:162-164 | A printed header is refused for a missing parameter if and only if no `t` or no `k`, in either case, was printed; otherwise only the key can be at fault. |
| Vapid.MalformedHeader | crates/webpush-crypto/src/vapid.rs:145-152 | A header of the right scheme whose parameters end in a name that no `=` follows is malformed, whatever comes after. |
| Vapid.UnclosedMalformed | crates/webpush-crypto/src/vapid.rs:183-193 | So is a quoted value that is never closed, or that ends in a backslash. |
| Vapid.ParsePrinted | crates/webpush-crypto/src/vapid.rs:127-172 | Every printed header, in any parameter order, letter case, spacing and quoting, parses to the last t and k printed. |
| Vapid.HeaderRoundTrip | crates/webpush-crypto/src/vapid.rs:127-172 | A header printed with one t and one 65-octet k among other parameters parses to exactly those. |
| Vapid.UnquoteEscaped | crates/webpush-crypto/src/vapid.rs:183-192 | Any escaping of a value is undone. |
| Vapid.ParamValuePrinted | crates/webpush-crypto/src/vapid.rs:174-193 | A printed value, token or quoted, is read back and leaves what follows it. |
| Links.SplitOutside | crates/webpush-server/src/headers.rs:126-143 | The scan cuts the text into the pieces outside angle brackets and quotes. |
| Links.SplitJoin | crates/webpush-server/src/headers.rs:126-143 | Joining the pieces with the separator gives the text back, for every text. |
| Links.CutsExact | crates/webpush-server/src/headers.rs:126-143 | Cuts fall exactly at separators outside angle brackets and quotes. |
| Links.Lookup | crates/webpush-server/src/headers.rs:95-124 | The nested loops find the target of the first link value that carries the relation. |
| Links.LookupPrinted | crates/webpush-server/src/headers.rs:95-124 | On a printed list of well-formed link values, with any whitespace around separators and either side of =, the lookup returns the first target that declares the relation. |
| Links.HasWordExactly | crates/webpush-server/src/headers.rs:112-118 | A relation list carries a word exactly when one of its maximal runs of characters other than ASCII whitespace is the word in some letter case. |
| Links.ListSplits | crates/webpush-server/src/headers.rs:100-106 | A printed list of link values splits into exactly those values. |
| Links.LinkPrinted | crates/webpush-server/src/headers.rs:101-118 | A printed link value, with any whitespace around its parts, is judged by its own target and relations. |

## Left out

- TLS, HTTP and WebSocket framing, gRPC, OAuth, CORS, configuration, telemetry and shutdown: only the order of store, hub and forward steps is kept.
- AES-GCM, HKDF, P-256 and base64 are abstract functions with the laws of inverse pairs; a cut inside a record is not claimed to be detected, since that rests on the strength of AES-GCM.
- The JWT of a VAPID credential and its signature; the model ends with t and k.
- The bridges to other platforms, token caches and registration secrets.
- UTF-8: keys, cells and headers are sequences of characters, and a `from_utf8` error does not arise.
- Regular expressions beyond what `exact` builds.
- Negative value sizes of chunks, which the protocol does not send.
- Cell timestamps and versions: reads and predicates see the latest cell of a column, as the code asks for.
- Backend failures of store calls: a call completes, or, in `Removal` and `Delivery`, stops for good between two steps.
- Wall-clock time, jitter, keep-alives, pings, idle limits and session lifetimes: they end a session, which the runs allow at any time.
- The client's `hello`, `register` and `unregister` frames beyond the store calls they make.
- `Removal`: which keys a scan visits is not fixed, each row is read at its own moment, and channel, push and receipt rows change freely, so its runs include those of the code and more.
- `Removal`: two processes may queue receipts under one number and overwrite each other, since numbers are unique per process only: that a receipt is queued is claimed, not that it stays.
- `Delivery`: what a session does with its channel is in `Session`; the backlog read is its first read of storage, and later batches read what is still stored.
- Agreement.Both: receipts are compared as multisets without their numbers, because the clock and the order of a hash map decide the numbers.
- A withdrawn or replaced message already in a live channel is still sent, and a reader that does not wait may see a receipt that an open stream also writes; nothing is claimed against either.
