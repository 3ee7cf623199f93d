# Verified models of the Sloga backend

This project models the parts of the backend whose correctness depends on long arguments, and
proves what they promise for every input, every interleaving or every run.

- **Bonfire connections** (`Subscriptions`, `ActiveHistory`, `ActiveSet`, `Connection`, `Announcements`,
  `Told`, `MemberTopics`, `Flushing`, `ServerTopics`, `Runs`, `Recalculation`, `HandlerLaws`, `ParentsFirst`,
  `Limits`, `StaleParents`, `BonfireState`, `Listener`). A connection keeps a cache, a set of topics, a queued change and tracked member topics.
  `Connection.Handle` is the event handler as a function; the class `BonfireState.State` is the same
  handler with fields and loops, proved to compute it; `Listener.Listen` is the loop around it. The
  main theorem, `Runs.RunIsFaithful`, says that over every run a channel is subscribed exactly when the
  client has been told about it and that every flush leaves Redis with exactly the wanted topics.
- **Image walkers** (`Bytes`, `WebP`, `Png`, `Gif`, their `...Walker` and their `...Laws` modules). The walkers are loops
  over every byte string, proved total and proved equal to a parse, filter and print; the outputs parse
  back to the filtered input and are fixed points of the walk. Formats: RFC 9649 sections 2.3 to 2.7,
  the W3C PNG specification section 5.3, GIF89a sections 15 to 27.
- **Smaller cores**: `Loot` (reachability over a cyclic graph), `MessageParser` (code spans and
  escapes), `Ratelimit` and `RatelimitOverlap` (interleaved buckets), `Budgets` (shared and local call budgets) and `E2ee`
  (device claims of a connection).

`Sequences` and `Arithmetic` hold what they share. `dafny verify dfyconfig.toml` checks everything.

## How the model reads the program

- Ids are integers, since they are only compared; topics are a datatype with one constructor per
  namespace, so `{server}u`, user, server, channel, private and session topics are disjoint.
- Hash-map iteration order is the parameter `order`; theorems hold for each order that lists the keys.
- The database is an oracle per event (`Db`): one row, many rows, NotFound or failure. The permission
  calculation is the abstract function `Db.view`; a thread takes its parent's answer, from the cache first.
- `told` is obtained by replaying what was forwarded. The client is taken to drop a server's channels
  when it leaves the server or the server is deleted, and a group when it leaves it; Ready carries channels.
- Standing assumptions of the run theorems: a channel's server never changes and rows carry it; a server
  lists only its own channels; a read returns only rows that were asked for, once each; `Bulk` is never
  published; `ServerCreate` carries only channels its role-less member can view. `Limits` and `StaleParents`
  show that the last one, and the agreement of cache and store used for exactness and order, are needed,
  and give the exact conditions.
- The worker only touches the active set, under its lock: a flush, an event and a worker frame are the
  steps of a run, in any order in which each event follows a flush since the last one.
- Clocks are parameters. `Ratelimit` splits a request at every map access and clock reading;
  `Budgets` lets Redis answer, execute without answering at any later time, or never see a command. A
  count that comes back does so within `lag` seconds of its reading, and no increment is executed more
  than `lead` seconds before it by Redis's clock, with `lead + lag` at most five.
- Signature checking is the abstract function `Setup.verify`. The identity listing, the queue and which
  deletions fail are answers carried by the frame that meets them.

## Where code and comments differ

- `State::from` subscribes a privileged user to `global` so that moderation events arrive
  (crates/bonfire/src/events/state.rs:185-191). Ready resets the state and nothing subscribes it again: `Runs.GlobalTopicIsLost`.
- The reconcile comment speaks of member topics a bot inserts at Ready or `ServerCreate`
  (crates/bonfire/src/events/state.rs:294-296); neither inserts any.
- The claim state is introduced as what keeps queued messages from being destroyed without proof and
  acknowledgement (crates/bonfire/src/websocket.rs:865-870). An accepted proof also empties the queue of every other device
  bound to the session (crates/core/database/src/models/e2ee/model.rs:702-722): `E2ee.LostIff` is the exact rule.
- The bound on ratelimit buckets holds only while the clock does not step back over a reset between
  check and charge: `Ratelimit.DeductWithinIff`, `Ratelimit.BackwardClockOverfills`.

## Model

| member | source | states |
|---|---|---|
| `Subscriptions.CallsKeepCoherent` | crates/bonfire/src/events/state.rs:302-432 | over any calls between two flushes, every topic satisfies: in `subscribed` + times queued for removal = in Redis + times queued for addition |
| `Subscriptions.FlushExactIffNoClash` | crates/bonfire/src/events/state.rs:216-233 | a coherent queue is flushed exactly (Redis = replayed `subscribed`) if and only if no topic is queued both ways; then the replay onto `subscribed` changes nothing |
| `Subscriptions.SegmentFlushExactIff` | crates/bonfire/src/events/state.rs:302-432 | for every sequence of calls after a flush: the next flush is exact if and only if no topic was both really inserted and really removed through the non-cancelling pair |
| `Subscriptions.ReinsertedTopicDiverges` | crates/bonfire/src/events/state.rs:388-432 | the condition is needed: removing and re-inserting one topic leaves it live in Redis and absent from `subscribed` |
| `Subscriptions.CleanNeverClashes` | crates/bonfire/src/events/state.rs:388-432 | a queue that adds only topics not held at the last flush and removes only held ones never clashes |
| `ActiveHistory.RunConsistent` | crates/bonfire/src/events/state.rs:26-79 | after every sequence of touch / remove / live_keys: distinct keys, at most `capacity`, each with its last touch time, in last-touch order |
| `ActiveHistory.HeldIffRecent` | crates/bonfire/src/events/state.rs:26-79 | a key touched, not ended and followed by fewer than `capacity` other keys is held; with a monotone clock and no removals only such keys are; reads never extend a lifetime |
| `ActiveHistory.TouchChangesKeysIff` | crates/bonfire/src/websocket.rs:936-957 | a touch changes the set of held keys exactly when the key is new |
| `ActiveHistory.EvictedIsDropped` | crates/bonfire/src/events/state.rs:41-55 | a touch hands back a key exactly for a new key in a full set: the least recently touched, which it drops |
| `ActiveSet.ActiveServers.Touch` | crates/bonfire/src/events/state.rs:41-55 | in-place `touch`: new entries and evicted key as specified, and the object stays the outcome of its whole history |
| `ActiveSet.ActiveServers.Contains` | crates/bonfire/src/events/state.rs:57-60 | true exactly for held keys, expired or not |
| `ActiveSet.ActiveServers.Remove` | crates/bonfire/src/events/state.rs:62-70 | in-place `remove`: drops the key, says whether it was held, keeps the history relation |
| `ActiveSet.ActiveServers.LiveKeys` | crates/bonfire/src/events/state.rs:72-78 | in-place `live_keys`: drops exactly the expired entries, refreshes none, returns the rest in order |
| `ActiveSet.ActiveServers.Subscribe` | crates/bonfire/src/websocket.rs:936-957 | the worker signals the listener exactly when the set of held keys changed |
| `Announcements.RevealSummary` | crates/bonfire/src/events/impl.rs:521-569 | `reveal_channels` over a read: each requested id is cached as stored or forgotten, and subscribed exactly when it is announced |
| `Announcements.RevealGives` | crates/bonfire/src/events/impl.rs:521-569 | the whole `reveal_channels`, with NotFound and failed reads: only requested ids change or are announced, each with the stored row |
| `Announcements.SortSummary` | crates/bonfire/src/events/impl.rs:417-456 | the per-parent memo always equals the direct visibility check, so the classification is by visibility |
| `Announcements.HideSummary` | crates/bonfire/src/events/impl.rs:464-472 | the hidden channels lose their subscription and get one ChannelDelete each, in order |
| `Announcements.AdoptSummary` | crates/bonfire/src/events/impl.rs:474-497 | the listed, uncached, viewable channels are cached, subscribed and announced in order |
| `Announcements.CarrySummary` | crates/bonfire/src/events/impl.rs:831-849 | the channels a `ServerCreate` carries are all cached and subscribed |
| `Announcements.DropSummary` | crates/bonfire/src/events/impl.rs:609-622 | dropping a list of channels unsubscribes and forgets exactly those |
| `Announcements.SweepSummary` | crates/bonfire/src/events/impl.rs:771-795 | the child threads of an updated channel: newly hidden ones are unsubscribed and deleted, newly visible ones collected |
| `Told.RevealKeepsSynced` | crates/bonfire/src/events/impl.rs:521-569 | a reveal of unsubscribed channels keeps "subscribed exactly when told" |
| `Told.RecalculatingKeepsSynced` | crates/bonfire/src/events/impl.rs:417-510 | so does a recalculation around a role, member or server update, whatever the database answers |
| `Told.AccountKeepsSynced` | crates/bonfire/src/events/impl.rs:853-958 | the server, member and role update arms keep it, with or without a recalculation |
| `Told.ServerCreateSyncedIff` | crates/bonfire/src/events/impl.rs:818-852 | `ServerCreate` keeps the invariant if every carried channel is viewable by the blank member it installs, and only if (when reads return just what was asked) |
| `Told.ChannelUpdateKeepsSynced` | crates/bonfire/src/events/impl.rs:682-802 | every path of `ChannelUpdate`, cached or fetched, shown, hidden or unchanged, with its threads, keeps the invariant |
| `Told.ThreadJoinKeepsSynced` | crates/bonfire/src/events/impl.rs:999-1038 | a thread join reveals the thread before the join event, or nothing |
| `Told.LeaveKeepsSynced` | crates/bonfire/src/events/impl.rs:871-907 | leaving or deleting a server drops exactly that server's channels, cached threads included |
| `Told.HandleKeepsSynced` | crates/bonfire/src/events/impl.rs:625-1058 | for every event, every database answer and every hash-map order: a channel is subscribed exactly when replaying the forwarded events leaves it known, and only cached channels are subscribed |
| `ServerTopics.HandleKeepsServers` | crates/bonfire/src/events/impl.rs:818-907 | whatever the event, a server topic is subscribed exactly when the server is cached |
| `ServerTopics.LeaveForgets` | crates/bonfire/src/events/impl.rs:871-907 | after a self-leave or a deletion the server's topic, row, membership, member topic and active entry are gone, and no other server's |
| `HandlerLaws.ChannelUpdateLaw` | crates/bonfire/src/events/impl.rs:682-802 | a cached top-level channel gets the patched content; told and viewable: the update first; told and hidden: a deletion and no subscription; untold and viewable: announced from its row, read again, if viewable; else nothing |
| `HandlerLaws.ThreadUpdateLaw` | crates/bonfire/src/events/impl.rs:682-802 | the same for a thread, viewed as its parent |
| `HandlerLaws.DirectUpdateLaw` | crates/bonfire/src/events/impl.rs:682-802 | a direct channel is patched and its update forwarded |
| `HandlerLaws.UncachedUpdateLaw` | crates/bonfire/src/events/impl.rs:700-735 | an uncached channel is cached from its stored row and announced exactly when viewable |
| `HandlerLaws.RereadLaw` | crates/bonfire/src/events/impl.rs:521-545 | rows are read again together; on NotFound each on its own; on failure not at all |
| `HandlerLaws.FailedReadLaw` | crates/bonfire/src/events/impl.rs:521-545 | a failed read reveals nothing and changes nothing |
| `HandlerLaws.ChannelCreateLaw` | crates/bonfire/src/events/impl.rs:653-681 | a new top-level channel is cached, subscribed and announced exactly when viewable, else left out |
| `HandlerLaws.ThreadCreateLaw` | crates/bonfire/src/events/impl.rs:653-681 | a new thread is cached, and subscribed and announced exactly when its parent is viewable |
| `HandlerLaws.DirectCreateLaw` | crates/bonfire/src/events/impl.rs:653-681 | a new direct channel is always cached, subscribed and announced |
| `HandlerLaws.ChannelDeleteLaw` | crates/bonfire/src/events/impl.rs:803-806 | a deleted channel is unsubscribed and forgotten, nothing else changes |
| `HandlerLaws.ThreadMembershipLaw` | crates/bonfire/src/events/impl.rs:1033-1038 | membership events of a known thread are forwarded, others not |
| `HandlerLaws.OwnThreadJoinLaw` | crates/bonfire/src/events/impl.rs:999-1032 | the own join of an unknown thread is sent behind its announcement exactly when the parent is viewable, else dropped |
| `HandlerLaws.NoThreadJoinLaw` | crates/bonfire/src/events/impl.rs:1009-1012 | the join of what is not stored as a thread is dropped |
| `HandlerLaws.GroupLaw` | crates/bonfire/src/events/impl.rs:807-816 | a joined user is followed; one who leaves stays followed exactly for a relationship or a shared direct channel; the own leave drops the group |
| `HandlerLaws.RelationshipLaw` | crates/bonfire/src/events/impl.rs:971-979 | the relationship is cached and the user followed exactly when there is a reason |
| `HandlerLaws.ForeignLaw` | crates/bonfire/src/events/impl.rs:871-892 | somebody else's leave, and an event not listed, changes nothing and is forwarded |
| `HandlerLaws.RecalculatedLaw` | crates/bonfire/src/events/impl.rs:417-510 | after a settled recalculation each channel of the server is subscribed exactly when the member may view it, threads as their parents; the event is forwarded last |
| `HandlerLaws.ServerCreateLaw` | crates/bonfire/src/events/impl.rs:818-852 | the server and the blank member are installed, the topic held, the event forwarded last |
| `HandlerLaws.MemberUpdateLaw` | crates/bonfire/src/events/impl.rs:908-922 | own roles touched: the row is patched and every channel subscribed exactly as the patched member may view it |
| `HandlerLaws.QuietMemberUpdateLaw` | crates/bonfire/src/events/impl.rs:908-922 | otherwise the own row is patched, another's not, and the event forwarded alone |
| `HandlerLaws.ServerUpdateLaw` | crates/bonfire/src/events/impl.rs:853-867 | the server row is patched; with default permissions the channels follow the new row, else the event goes alone |
| `HandlerLaws.RoleUpdateLaw` | crates/bonfire/src/events/impl.rs:923-947 | the role is patched; ranked and held, the channels follow; else the event goes alone |
| `HandlerLaws.RoleDeleteLaw` | crates/bonfire/src/events/impl.rs:948-958 | the role is gone; held, the channels follow; else the event goes alone |
| `HandlerLaws.UncachedServerLaw` | crates/bonfire/src/events/impl.rs:853-958 | an event about an uncached server changes nothing and is forwarded |
| `MemberTopics.ReconcileIsExact` | crates/bonfire/src/events/state.rs:242-300 | after a reconcile the tracked and subscribed member topics are exactly those of all cached servers (bot) or of live requested cached servers (user); other topics are untouched |
| `MemberTopics.WantedIff` | crates/bonfire/src/events/state.rs:250-273 | wanted means cached and, for a user, asked for less than 900 seconds ago |
| `MemberTopics.ReconcileIsBounded` | crates/bonfire/src/events/state.rs:242-300 | a user tracks at most five member topics |
| `MemberTopics.EqualCountsMeanNoneMissing` | crates/bonfire/src/events/state.rs:276-291 | the equal-count shortcut never skips a missing topic |
| `MemberTopics.ReconcileKeepsCoherent` | crates/bonfire/src/events/state.rs:302-355 | the cancelling pair keeps the queue coherent with Redis |
| `MemberTopics.ReconcileKeepsNoClash` | crates/bonfire/src/events/state.rs:302-355 | and never queues a topic both ways |
| `Flushing.RecalculateTidy` | crates/bonfire/src/events/impl.rs:417-510 | a recalculation queues additions only of topics not held and removals only of held ones |
| `Flushing.ChannelUpdateTidy` | crates/bonfire/src/events/impl.rs:682-802 | so does every path of `ChannelUpdate` |
| `Flushing.LeaveTidy` | crates/bonfire/src/events/impl.rs:871-907 | leaving a server queues cleanly and marks its member topic for removal |
| `Flushing.HandleTidy` | crates/bonfire/src/events/impl.rs:625-1058 | every single event meets the flush condition, given viewable `ServerCreate` channels, and keeps member topics tracked |
| `Runs.ReadyIsGood` | crates/bonfire/src/events/impl.rs:340-395 | the state Ready leaves satisfies the run invariant |
| `Runs.FlushIsExact` | crates/bonfire/src/websocket.rs:659-697 | every flush leaves nothing queued, Redis holding exactly `subscribed`, and the wanted member topics |
| `Runs.RunKeepsGood` | crates/bonfire/src/websocket.rs:659-808 | the invariant holds over every interleaving of flushes, events and worker frames, a frame between a flush and its event included; from a flush to the next event Redis holds exactly `subscribed` |
| `Runs.RunIsFaithful` | crates/bonfire/src/websocket.rs:659-808 | at every point of every run from Ready: subscribed exactly when told, only cached channels subscribed, server topics exactly those of cached servers, the next flush is exact, and member topics are exactly the wanted ones, at most five for a user |
| `Runs.RunIsTraced` | crates/bonfire/src/websocket.rs:659-957 | over every run the active set is that of the touches, leaves and flushes of the run, with capacity five and 900 seconds |
| `Runs.MemberTopicByHistory` | crates/bonfire/src/websocket.rs:659-957 | at every flush of every run a user has a member topic only for a server last asked for less than 900 seconds before, and has it if that is cached, not left since and among the last five |
| `Runs.RunContinues` | crates/bonfire/src/websocket.rs:659-808 | the assumptions never depend on the state reached: after a flush any run continues with any conforming event, a `ServerCreate` filtered for the blank member included, any conforming database and any iteration order |
| `Runs.GlobalTopicIsLost` | crates/bonfire/src/events/state.rs:171-211 | the private and session topics survive every run; the `global` topic of a privileged user is gone once Ready has reset the state |
| `Recalculation.RecalculationAnnouncesChanges` | crates/bonfire/src/events/impl.rs:417-510 | one ChannelCreate for each channel that became subscribed, one ChannelDelete for each that stopped, nothing else named, no repeats |
| `Recalculation.RecalculationIsExact` | crates/bonfire/src/events/impl.rs:417-510 | when reads succeed and rows agree with the cache on visibility: afterwards a channel is subscribed exactly when visible, and no listed visible channel is left out |
| `Recalculation.ExactIsStable` | crates/bonfire/src/events/impl.rs:417-510 | recalculating an exact state changes nothing and leaves the event unwrapped |
| `Recalculation.RecalculationIsIdempotent` | crates/bonfire/src/events/impl.rs:417-510 | a second recalculation, in any hash-map order, leaves its event unwrapped |
| `Recalculation.RevealIsComplete` | crates/bonfire/src/events/impl.rs:521-569 | a reveal of visible channels announces every one that still exists |
| `ParentsFirst.RecalculationInOrder` | crates/bonfire/src/events/impl.rs:464-508 | in every recalculation Bulk, replaying it up to a thread's ChannelCreate leaves the thread's parent known to the client, deletions in the same Bulk included |
| `ParentsFirst.ChannelUpdateInOrder` | crates/bonfire/src/events/impl.rs:771-801 | in every ChannelUpdate Bulk the threads created after the first event are children of the updated channel, which the replay up to each of them leaves known |
| `Limits.ServerCreateFlushIff` | crates/bonfire/src/events/impl.rs:818-852 | the flush after a `ServerCreate` is exact if and only if every channel its recalculation hides was subscribed before the event |
| `Limits.UnfilteredServerCreate` | crates/bonfire/src/events/impl.rs:831-849 | the `ServerCreate` assumption is needed: a carried hidden channel is told, not subscribed, and still live in Redis |
| `StaleParents.ThreadRevealedIff` | crates/bonfire/src/events/impl.rs:545-568 | a stored thread is announced if and only if the parent row at that moment is a channel the member can view: cached or fetched, or the stored one once the list has passed the parent |
| `StaleParents.LeakIff` | crates/bonfire/src/events/impl.rs:545-568 | a reveal announces a thread under a parent whose stored row is hidden if and only if the cached copy is viewable and the list has not passed the parent |
| `StaleParents.RecalculationLeaksIff` | crates/bonfire/src/events/impl.rs:417-510 | the same for a whole recalculation, in terms of the order in which it reveals |
| `StaleParents.StaleParentLeaksThread` | crates/bonfire/src/events/impl.rs:417-510 | the agreement assumption is needed: in one cached server the recalculation announces the thread in one cache order and not in the other |
| `BonfireState.State.constructor` | crates/bonfire/src/events/state.rs:171-211 | the topics a new connection starts with |
| `BonfireState.State.InsertSubscription` | crates/bonfire/src/events/state.rs:388-408 | in-place insert, queueing an addition unless a reset is pending |
| `BonfireState.State.RemoveSubscription` | crates/bonfire/src/events/state.rs:411-432 | in-place removal; called only outside a reset, so the panic is unreachable |
| `BonfireState.State.SubscribeMemberTopic` | crates/bonfire/src/events/state.rs:302-327 | in-place, cancels a pending removal |
| `BonfireState.State.UnsubscribeMemberTopic` | crates/bonfire/src/events/state.rs:329-354 | in-place, cancels a pending addition |
| `BonfireState.State.ReconcileMemberTopics` | crates/bonfire/src/events/state.rs:242-300 | the four loops compute the reconcile specification |
| `BonfireState.State.ApplyQueue` | crates/bonfire/src/events/state.rs:214-233 | reconciles, takes the queue and replays it, additions first |
| `BonfireState.State.RevealChannels` | crates/bonfire/src/events/impl.rs:521-569 | the loop computes the reveal specification, events and state |
| `BonfireState.State.SortByVisibility` | crates/bonfire/src/events/impl.rs:424-456 | the memoised classification loop |
| `BonfireState.State.RecalculateServer` | crates/bonfire/src/events/impl.rs:417-510 | the loops and the Bulk wrapping compute the recalculation specification |
| `BonfireState.State.RemoveServer` | crates/bonfire/src/events/impl.rs:871-907 | unsubscribes and forgets a left or deleted server |
| `BonfireState.State.PropagateToThreads` | crates/bonfire/src/events/impl.rs:771-801 | the child-thread loop and its Bulk |
| `BonfireState.State.UpdateChannel` | crates/bonfire/src/events/impl.rs:682-802 | the whole `ChannelUpdate` arm |
| `BonfireState.State.UpdateAccount` | crates/bonfire/src/events/impl.rs:853-958 | the server, member and role update arms, with the recalculation they may queue |
| `BonfireState.State.UpdateTopic` | crates/bonfire/src/events/impl.rs:803-817 | the arms that move one topic: create, delete, group and relationship events |
| `BonfireState.State.JoinServer` | crates/bonfire/src/events/impl.rs:818-850 | installs the server, the blank member and the carried channels |
| `BonfireState.State.JoinThread` | crates/bonfire/src/events/impl.rs:999-1038 | a thread join |
| `BonfireState.State.HandleIncomingEvent` | crates/bonfire/src/events/impl.rs:625-1058 | the dispatcher computes `Connection.Handle` and never removes during a reset |
| `BonfireState.Subscriber.Flush` | crates/bonfire/src/websocket.rs:659-697 | sends the taken change to Redis, removals first; a reset resubscribes everything |
| `Listener.Receive` | crates/bonfire/src/websocket.rs:699-808 | one event after a flush: handled in place, and what is forwarded |
| `Listener.Listen` | crates/bonfire/src/websocket.rs:659-808 | the loop over any flushes, events and worker frames, each event after a flush, is `Runs.Run`, and what the client knows is the replay of what was forwarded |
| `WebP.ParsePrinted` | crates/core/files/src/sanitize.rs:586-616 | splitting a printed chunk list returns that list |
| `WebP.OutputIsCleanedInput` | crates/core/files/src/sanitize.rs:522-582 | for every accepted input the output's chunks are the input's, filtered to the kept list, VP8X metadata bits cleared, each ANMF reduced to header and image chunks, the rest byte for byte and in order |
| `WebP.WalkIsIdempotent` | crates/core/files/src/sanitize.rs:522-582 | walking the output again returns the same bytes and flag |
| `WebP.OutputLength` | crates/core/files/src/sanitize.rs:566-582 | the size field is the length less eight, the length is even and exceeds the input's RIFF region by at most one byte |
| `WebP.NoLengthTruncated` | crates/core/files/src/sanitize.rs:607-616 | no length was truncated by its cast to 32 bits, neither of a top-level chunk (rebuilt frames included) nor of a chunk pushed inside a rebuilt frame |
| `WebPLaws.OutputHoldsListed` | crates/core/files/src/sanitize.rs:501-582 | the output is a RIFF/WEBP file with exactly the input's chunks of the seven listed codes, in order, no EXIF and no XMP, frames reduced to ALPH, VP8 and VP8L, only the two metadata bits of VP8X cleared; the flag is what ANIM and VP8X say |
| `WebPLaws.AcceptedIff` | crates/core/files/src/sanitize.rs:522-582 | accepted if and only if the announced end lies inside, the chunks split, VP8X is not short, each ANMF fits the canvas and splits, and the result has a 32-bit length |
| `WebPLaws.OutputIsWritten` | crates/core/files/src/sanitize.rs:607-616 | each output chunk is written as code, little-endian size, payload and a zero pad byte when odd |
| `WebPLaws.RefusedAsUndecodable` | crates/core/files/src/sanitize.rs:522-605 | every refusal is the same error |
| `WebPLaws.SplitsIff` | crates/core/files/src/sanitize.rs:584-605 | a region splits into a list if and only if the chunks follow one another in it: code, little-endian size, payload, pad |
| `WebPWalker.SplitChunks` | crates/core/files/src/sanitize.rs:584-605 | the loop over `pos` terminates in range and returns the specified chunk list or error |
| `WebPWalker.PushChunk` | crates/core/files/src/sanitize.rs:607-616 | appends the chunk with its cast size and pad byte |
| `WebPWalker.RebuildFrame` | crates/core/files/src/sanitize.rs:546-563 | rebuilds an ANMF from its header and image chunks |
| `WebPWalker.WalkWebP` | crates/core/files/src/sanitize.rs:522-582 | the chunk loop computes `WebP.Walk` for every byte string, errors and the final size check included |
| `Png.ChunksAreVerbatim` | crates/core/files/src/sanitize.rs:308-383 | the parsed chunks lie in the file verbatim and in order |
| `Png.OutputIsFilteredInput` | crates/core/files/src/sanitize.rs:308-383 | the output parses to the input's chunks up to the first IEND filtered to the kept list, CRCs included, and is no longer than the input |
| `Png.WalkIsIdempotent` | crates/core/files/src/sanitize.rs:308-383 | walking the output again is the identity |
| `Png.AnimationIsRead` | crates/core/files/src/sanitize.rs:339-371 | `animated` is decided by the last acTL before the first IDAT; every fcTL rectangle lies inside the canvas |
| `PngLaws.OutputHoldsListed` | crates/core/files/src/sanitize.rs:284-383 | the output is the signature and exactly the input's chunks of the eighteen listed types, byte for byte |
| `PngLaws.AcceptedIff` | crates/core/files/src/sanitize.rs:308-383 | accepted if and only if the signature is there, the chunks split up to an IEND, no acTL before the data has the wrong length and no fcTL leaves the canvas |
| `PngLaws.AnimatedIff` | crates/core/files/src/sanitize.rs:339-347 | animated if and only if the last acTL before the data announces more than one frame |
| `PngLaws.RefusedAsUndecodable` | crates/core/files/src/sanitize.rs:308-383 | every refusal is the same error |
| `PngLaws.SplitsIff` | crates/core/files/src/sanitize.rs:319-383 | a file splits into a list if and only if the chunks follow one another: big-endian length, type, data, CRC, up to the first IEND |
| `PngWalker.WalkPng` | crates/core/files/src/sanitize.rs:308-383 | the loop terminates in range and computes `Png.Walk` for every byte string |
| `Gif.BlocksAreVerbatim` | crates/core/files/src/sanitize.rs:398-474 | the parsed blocks lie in the file verbatim up to the trailer |
| `Gif.OutputIsCleanedInput` | crates/core/files/src/sanitize.rs:398-474 | header and color table, then exactly the input's blocks in order: images verbatim, control and loop extensions in canonical form in their places, the rest left out; the frame count is the number of images |
| `Gif.WalkIsIdempotent` | crates/core/files/src/sanitize.rs:398-474 | walking the output again is the identity |
| `GifLaws.OutputHoldsKept` | crates/core/files/src/sanitize.rs:385-474 | header, then exactly the images verbatim and the control and loop extensions cut to their first sub-blocks, in order, then the trailer; frames are the images |
| `GifLaws.AcceptedIff` | crates/core/files/src/sanitize.rs:398-474 | accepted if and only if header and table are there and blocks follow up to a trailer |
| `GifLaws.BlockReadIff` | crates/core/files/src/sanitize.rs:416-470 | a block is read if and only if it is an image within the limits or an extension, a graphic control having four bytes; only a frame over the limits is too large |
| `GifLaws.RefusedAs` | crates/core/files/src/sanitize.rs:398-499 | a refusal says too large or undecodable, nothing else |
| `GifLaws.TableLengthIs` | crates/core/files/src/sanitize.rs:476-484 | the color table lengths: none, or 6 to 768 bytes by the low three bits |
| `GifLaws.LaidIsRead` | crates/core/files/src/sanitize.rs:485-499 | a run of sub-blocks and its terminator is read whole |
| `GifLaws.ReadIsLaid` | crates/core/files/src/sanitize.rs:485-499 | and nothing else is |
| `GifWalker.SkipSubBlocks` | crates/core/files/src/sanitize.rs:485-499 | the loop stays in range and ends where the specification says, or refuses |
| `GifWalker.CopyBlock` | crates/core/files/src/sanitize.rs:416-470 | one block copied, rebuilt or dropped |
| `GifWalker.WalkGif` | crates/core/files/src/sanitize.rs:398-474 | the loop terminates in range and computes `Gif.Walk` for every byte string |
| `Bytes.LeU32IsPositional` | crates/core/files/src/sanitize.rs:622-624 | the 32-bit reader gives the number spelled least significant byte first |
| `Bytes.LeU24IsPositional` | crates/core/files/src/sanitize.rs:626-628 | so does the 24-bit one |
| `Bytes.BeU32IsPositional` | crates/core/files/src/sanitize.rs:618-620 | the big-endian reader gives the number spelled most significant byte first |
| `Bytes.LeRoundTrip` | crates/core/files/src/sanitize.rs:622-628 | reading back a little-endian size field gives the number written |
| `Loot.Resolver.Resolve` | scripts/gen-softres-catalog/generate.py:456-482 | whatever was seen before, adds only reachable lists, leaves no followed reference of an added list unseen, returns exactly their direct items, and terminates on cycles |
| `Loot.EdgeIff` | scripts/gen-softres-catalog/generate.py:472-479 | a list leads to another through a reference row of chance zero or at least one percent that is no world-drop list |
| `Loot.ResolveLoot` | scripts/gen-softres-catalog/generate.py:456-482 | a fresh resolution returns exactly the direct items of the lists reachable through followed rows |
| `MessageParser.MessageParserIterator.Next` | crates/core/parser/src/lib.rs:47-75 | each call yields the next token of the recursive parse, or ends |
| `MessageParser.MessageParserIterator.FindClosing` | crates/core/parser/src/lib.rs:57-69 | the loop after an opening marker queues its closing marker or the raw rest |
| `MessageParser.Collect` | crates/core/parser/src/lib.rs:44-83 | collecting `next()` yields the recursive parse of any token list |
| `MessageParser.ParseMessage` | crates/core/parser/src/lib.rs:85-110 | reports a user, role, channel, emoji, everyone or online exactly when the parse yields that mention |
| `MessageParser.Gather` | crates/core/parser/src/lib.rs:88-107 | the loop collects exactly the mentions of the tokens |
| `MessageParser.PlainIsYielded` | crates/core/parser/src/lib.rs:70-73 | a token that is neither escape nor marker is yielded as it is |
| `MessageParser.ParseConcat` | crates/core/parser/src/lib.rs:47-75 | a beginning without unclosed marker or dangling escape is parsed on its own |
| `MessageParser.ClosedSpanIsHidden` | crates/core/parser/src/lib.rs:57-66 | a span closed at its level yields just its two markers |
| `MessageParser.EscapedIsHidden` | crates/core/parser/src/lib.rs:53-56 | an escape drops the next token |
| `MessageParser.TrailingEscape` | crates/core/parser/src/lib.rs:53-56 | an escape at the very end drops nothing |
| `MessageParser.UnclosedMarkerIsRaw` | crates/core/parser/src/lib.rs:66-69 | an unclosed marker is followed by all remaining tokens raw |
| `MessageParser.NoMentionFromClosedSpan` | crates/core/parser/src/lib.rs:85-110 | no mention is reported from inside a closed span |
| `Ratelimit.ChargesWithinIff` | crates/core/ratelimits/src/ratelimiter.rs:49-137 | in every interleaving of requests on a key every bucket charged has 1 <= used <= limit if and only if no charge reads a clock that stepped back over the reset of a full bucket since its check |
| `Ratelimit.StoredWithinLimit` | crates/core/ratelimits/src/ratelimiter.rs:49-137 | under that condition every stored entry has 1 <= used <= limit |
| `Ratelimit.NeverWraps` | crates/core/ratelimits/src/ratelimiter.rs:58-81 | and `limit - used` never underflows and `used + 1` never overflows a u32 |
| `Ratelimit.DeductWithinIff` | crates/core/ratelimits/src/ratelimiter.rs:58-81 | a request that was let through keeps the bound if and only if its clock did not step back over the reset of a full bucket |
| `Ratelimit.BackwardClockOverfills` | crates/core/ratelimits/src/ratelimiter.rs:58-81 | a clock that does step back overfills the bucket, which then offers 2^32 - 1 requests |
| `Ratelimit.RequestIsARun` | crates/core/ratelimits/src/ratelimiter.rs:100-137 | a request on its own is one of the interleavings and computes `Request` |
| `Ratelimit.OverlapIsUnbounded` | crates/core/ratelimits/src/ratelimiter.rs:100-137 | from an empty map any number of overlapping requests pass, whatever the limit, and one is counted |
| `RatelimitOverlap.SavesBounded` | crates/core/ratelimits/src/ratelimiter.rs:100-137 | with at most m requests under way while a window lasts, the stored count becomes v at most m^v times |
| `RatelimitOverlap.OverlapBound` | crates/core/ratelimits/src/ratelimiter.rs:100-137 | so at most m + m^2 + ... + m^limit requests complete; one at a time, at most the limit |
| `Ratelimit.FirstLimitPass` | crates/core/ratelimits/src/ratelimiter.rs:49-137 | of requests in turn within one ten-second window exactly the first limit are let through |
| `Ratelimit.NewWindowPasses` | crates/core/ratelimits/src/ratelimiter.rs:58-81 | a request after the window is let through and starts a new one |
| `Ratelimit.WaitEndsWindow` | crates/core/ratelimits/src/ratelimiter.rs:83-87 | the reported wait is the shortest after which the window is over |
| `Ratelimit.TwiceTheLimit` | crates/core/ratelimits/src/ratelimiter.rs:100-137 | requests run one at a time: any closed ten-second interval admits at most 2 * limit |
| `Ratelimit.TwiceIsReached` | crates/core/ratelimits/src/ratelimiter.rs:58-68 | the bound is reached |
| `Ratelimit.GuardAgreesIff` | crates/core/ratelimits/src/ratelimiter.rs:117-134 | the reported remaining count is that of the saved bucket exactly when the window did not run out in between, or nothing was used |
| `Ratelimit.Storage.From` | crates/core/ratelimits/src/ratelimiter.rs:100-137 | the in-place request: bucket, verdict and guard as specified, other keys unchanged |
| `Budgets.SpecOf` | crates/core/gamedata/src/budget.rs:81-107 | no window is empty |
| `Budgets.BudgetsAreConfigured` | crates/core/gamedata/src/budget.rs:81-107 | each budget has its own limit setting and window |
| `Budgets.StemsAreDistinct` | crates/core/gamedata/src/budget.rs:81-107 | two budgets share a counter only if they are the same |
| `Budgets.LocalBudgets.Take` | crates/core/gamedata/src/budget.rs:40-50 | in-place count of one call; other stems unchanged |
| `Budgets.LocalBudgets.TakeBudgetAt` | crates/core/gamedata/src/budget.rs:110-139 | limit zero refuses, an answer from Redis decides, otherwise the process counts itself |
| `Budgets.CountIsExact` | crates/core/gamedata/src/budget.rs:61-78 | over every run, until no count of a window can come back any more, its key holds the number of its increments; Redis lets through at most limit calls of it, however late it executes increments nobody waits for |
| `Budgets.AnswerIsExact` | crates/core/gamedata/src/budget.rs:61-128 | every count that comes back is the number of increments of its window so far, and the call is let through exactly when fewer than limit came before |
| `Budgets.SlackIsNeeded` | crates/core/gamedata/src/budget.rs:119-119 | the five seconds of slack are exact: with more clock lead and reply delay together, some run of answered calls finds its count reset |
| `Budgets.StretchesAreMaximal` | crates/core/gamedata/src/budget.rs:38-50 | the stretches of a process's windows are those windows again, non-empty and maximal |
| `Budgets.LocalCountIsExact` | crates/core/gamedata/src/budget.rs:38-50 | in any order of windows, a process lets through exactly the sum over its maximal stretches in a window of the smaller of length and limit |
| `Budgets.LocalBoundIff` | crates/core/gamedata/src/budget.rs:38-50 | a process keeps to the limit in a window, for every limit, if and only if its count never returns to that window after another |
| `Budgets.OrderedNeverReturns` | crates/core/gamedata/src/budget.rs:38-50 | windows that never decrease are never returned to |
| `Budgets.DisorderOverspends` | crates/core/gamedata/src/budget.rs:38-50 | windows 5, 6, 5 let two calls through window 5 on a limit of one |
| `Budgets.BudgetBound` | crates/core/gamedata/src/budget.rs:110-139 | whatever Redis answers, loses, refuses or executes too late, N processes whose own counts never return to a window let through at most (N + 1) * limit calls in it |
| `E2ee.Worker.Handle` | crates/bonfire/src/websocket.rs:972-1111 | one frame in place: claim state and effects as specified |
| `E2ee.Worker.Prove` | crates/bonfire/src/websocket.rs:995-1094 | takes the challenge whatever the outcome; binds, sweeps and drains only when accepted |
| `E2ee.Worker.SweepPredecessors` | crates/core/database/src/models/e2ee/model.rs:702-722 | revokes, in order, every other device the listing binds to this session; nothing when the listing is unreadable |
| `E2ee.Worker.Drain` | crates/bonfire/src/websocket.rs:1066-1093 | sends the first 1024 queued envelopes in order until one send fails |
| `E2ee.Worker.Acknowledge` | crates/bonfire/src/websocket.rs:1108-1110 | deletes the first 128 ids for the proven device |
| `E2ee.StateIsExplained` | crates/bonfire/src/websocket.rs:869-1111 | at every point of every connection the pending challenge is the latest unused one, and the proven device that of the latest accepted proof, in both directions |
| `E2ee.ClaimResultIff` | crates/bonfire/src/websocket.rs:1005-1020 | a proof is accepted exactly when it signs the latest challenge, issued for its device and not used since |
| `E2ee.DrainIsProven` | crates/bonfire/src/websocket.rs:1021-1093 | every drain and binding names the device that very frame proved; at most 1024 envelopes, a prefix of the queue |
| `E2ee.AckDeletesIff` | crates/bonfire/src/websocket.rs:1096-1111 | an ack deletes an envelope exactly when its id is in the batch, for the device of the last accepted proof before it |
| `E2ee.SweepRevokesIff` | crates/bonfire/src/websocket.rs:1021-1042 | a device is revoked exactly when this very frame proves another one while the listing binds it to the session; no proof of it is needed |
| `E2ee.AckDeletesBatch` | crates/bonfire/src/websocket.rs:1108-1110 | one ack deletes, in order, the first 128 ids it lists when a device is proven, else nothing |
| `E2ee.DrainIff` | crates/bonfire/src/websocket.rs:1066-1093 | a frame drains exactly when it proves its device and the reply arrives: once, the whole queue up to 1024 envelopes or the first failed send |
| `E2ee.BoundIff` | crates/bonfire/src/websocket.rs:1021-1030 | a frame binds a device exactly when it proves it |
| `E2ee.ChallengedIff` | crates/bonfire/src/websocket.rs:972-994 | a frame issues a nonce exactly when it asks for a challenge |
| `E2ee.ConsumedIff` | crates/bonfire/src/websocket.rs:1001-1003 | a frame uses a nonce up exactly when it tries a proof while its challenge is outstanding |
| `E2ee.OpenIff` | crates/bonfire/src/websocket.rs:982-1093 | a connection ends exactly when a challenge times out, a claim result is not delivered or a drain is cut short |
| `E2ee.NoncesAreSingleUse` | crates/bonfire/src/websocket.rs:1001-1003 | a nonce is consumed or held at most as often as it was issued |
| `E2ee.LostIff` | crates/core/database/src/models/e2ee/ops/reference.rs:66-89 | an envelope is lost over a whole connection if and only if it is the user's and it was acknowledged in a batch while its device was the proven one, or another device was proven while its own was bound to the session (and the deletion succeeded) |
| `E2ee.SecondClaimEmptiesFirst` | crates/core/database/src/models/e2ee/ops/reference.rs:66-89 | two devices claimed in turn, each with its own key, nonce and signature: every envelope of the first is lost without any ack |
| `E2ee.QueueOnlyShrinks` | crates/core/database/src/models/e2ee/ops/reference.rs:222-239 | a connection adds nothing to the queue |

## Left out

- `generate_ready_payload`: its fetching; the state it ends in is the initial state of a run.
- Permission bit arithmetic: kept as an abstract predicate.
- Reads that change while one event is handled: all reads of an event answer from one snapshot.
- One-time keys, MLS key packages and the broadcast of a revoked device: they hold no envelope.
- `UserUpdate` deduplication, `Message` relationship rewriting, presence, typing and ping frames: they move no topic.
- `is_ulid_shaped`: a character test in front of the active set.
- Sockets, timeouts, reconnects and a Redis command that fails (the listener then ends).
- Servers and channels are one value map each; aliasing between rows handed out by the cache is not modelled.
- JPEG and still-PNG re-encoding, first-frame validation, ICC handling, `sniff` and dimension checks of the whole file: foreign decoder calls.
- `checked_add` in the walkers: on 64-bit sizes it cannot fail, so its error is not modelled.
- The lexer of the message parser and the SQL tokenizer of the catalog script: the models start from token lists and loot rows.
- `world_drop_refs`: how the set is computed; loot resolution takes it as given.
- The hash that names a ratelimit bucket, and the resolver that chooses its limit: a key and a fixed limit are given.
- `Budgets.LocalBudgets.TakeBudgetAt`: takes the reply of Redis as a parameter; the run model executes the increments.
- `E2ee.Worker.Drain`: what is queued, and that the database orders it, is a parameter.
- Other repository parts (coalescing service, presence sets, payments, fetchers, configuration): data tables, single-function facts, or guarantees the code does not decide.
