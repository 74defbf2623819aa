# MEDIACTRL in Dafny

A model of the stateful core of the MEDIACTRL media server, with proofs. Where the source changes
fields, lists and buffers in place, the model has a class or a method on arrays, and each such method
is proved equal to a function of the old state; what the server promises is then proved of these
functions, over all inputs and all runs.

- **Mixer** (`MixerNodes`, `MixerLinks`, `JoinRecord`, `JoinLedger`, `MixerTick`, `MixerVolumes`,
  `MixerObjects`): the graph of joined connections and conferences, stored on both sides of every link (the
  joining model of section 4.2.2 of RFC 6505); the record of joins that unjoin notices are taken from; the
  mixing round of a conference, and at which volume everybody hears it.
- **Control channel** (`Transactions`, `Trailer`, `Framing`, `Headers`, `Stream`, `CommaLists`,
  `Negotiation`): the transactions of RFC 6230, sections 6.3.1 and 6.3.2, with their queue, acks and
  refresh timer; reading messages off a connection byte by byte; how a client becomes known; the negotiation
  of packages.
- **RTP sender** (`RtpChannel`): the outgoing timestamp (section 5.1 of RFC 3550), the marker (section 4.1
  of RFC 3551) and the lock of a channel.
- **IVR prompts** (`Timeline`, `PromptLayout`, `Endsync`): the table of steps and tracks that a prompt is read
  into, where each of its files is to be played, and the padding and trimming of the tracks.
- **G.711** (`G711`, `Ulaw`, `Alaw`): both codecs, sample by sample and frame by frame.

Every request, report, ack, send and loop pass is one atomic step. Wall times, what a recv finds, what a
codec makes of a raw frame, and the order in which a map of pointers is walked are inputs.

## Where the code departs from what it is for

The model follows the code. The lemmas named with each of these give inputs on which the code departs, and the
exact condition under which it does what it is for.

- A conference clears 640 bytes of its 160 longs. With longs of 8 bytes the second half keeps the sum of
  all rounds before (`MixerTick.SecondRoundReplays`, `MixerTick.CleanSumIff`, `MixerTick.AllClearedIff`).
- A modify counts a link that sends already once more, so its connection stays registered when it no longer sends
  (`MixerNodes.StaysRegistered`, `MixerNodes.RunRegistered`).
- The key of a join is two ids with `~` between them, and the id of a connection holds a `~` itself: crossed
  links share a key (`JoinLedger.CrossedIdsLoseNotice`, `JoinLedger.JoinToldIff`).
- The refresh timer does not look whether the final 200 is already queued, and reopens the transaction
  (`Transactions.LateReplyReopens`, `Transactions.RunReplies`).
- The trailer automaton drops back to its start on a second CR (`Trailer.DoubledReturnMisses`,
  `Trailer.StopsAtFirstBlankIff`).
- A CONTROL that is refused with 403, 423 or, for want of a Control-Package, 400 leaves its body in the stream,
  where it is read as the next header, and so does any other request with a body (`Stream.TakePrinted`,
  `Stream.NoPackageLeavesBody`, `Stream.InStepIff`).
- Names are searched as substrings, and only one leading comma is removed (`Negotiation.PartIsCut`,
  `Negotiation.PartIsCutTwice`, `Negotiation.CommaStays`, `Negotiation.MeantIff`, `Negotiation.OneMoreIff`,
  `Negotiation.GoesOnIff`, `Negotiation.RepeatedIff`).
- The shortest track of a step is taken over running sums, so it is the shortest first file
  (`Endsync.OwnFirstFileCuts`, `Endsync.ShortestIff`), and a track is padded only from the step on that first
  uses it (`Endsync.LateTrackStartsEarly`, `Endsync.KeepsPaceIff`). Trimming counts frames of 20 ms, so with longer
  frames it pops from an empty list (`Endsync.LongFramesRunOut`, `Endsync.RunsOutIff`).
- The sample -32768 has no negation in 16 bits (`Ulaw.SmallestIsSilence`, `Alaw.SmallestIsSoftest`, and the
  conditions of `ErrorIff` and `OrderIff` in both codecs).

## Model

| member | source | states |
|---|---|---|
| `MixerNodes.RunCounted` | src/packages/MixerPackage.cxx:919-1030 | Over every run of attach, modify and detach on a connection: its sending counter is the number of links it sends on plus the number of modifies that counted such a link again, receiving stays 0, and the package is registered for its frames exactly while the counter is positive |
| `MixerNodes.RunRegistered` | src/packages/MixerPackage.cxx:976-1024 | A connection is registered, in every run, if and only if it sends on some link or some modify was counted again |
| `MixerNodes.StaysRegistered` | src/packages/MixerPackage.cxx:992-1024 | A concrete run after which a connection without any link is still registered |
| `MixerNodes.NeverAlreadyReceiving` | src/packages/MixerPackage.cxx:927-932 | Error -3 (already receiving) never comes out of an attach or a modify, because nothing ever increments receiving |
| `MixerNodes.ReverseInvolution` | src/packages/MixerPackage.cxx:115-125 | Reversing a direction twice gives it back, and swaps sending and receiving |
| `MixerLinks.ReachableStates` | src/packages/MixerPackage.cxx:2674-2925 | In every state reachable by create, join, modifyjoin, unjoin and close, from nothing: b is in a's map exactly if a is in b's, and the stored directions are each other's reverse |
| `MixerLinks.RunKeepsInv` | src/packages/MixerPackage.cxx:863-1357 | Every state of every run keeps the links sound and mirrored on both sides |
| `MixerLinks.StepKeepsInv` | src/packages/MixerPackage.cxx:2674-2925 | Each single request keeps them |
| `MixerLinks.JoinAllOrNothing` | src/packages/MixerPackage.cxx:2674-2763 | A join succeeds exactly if both ends are the requester's, not yet linked, and can carry audio to each other; then both sides store it, else no link is there that was not before |
| `MixerLinks.CoupleAllOrNothing` | src/packages/MixerPackage.cxx:2711-2756 | The same for the two halves of a join on existing nodes; when it fails, every node is as before but for volume and mute entries |
| `MixerLinks.EchoAllOrNothing` | src/packages/MixerPackage.cxx:2711-2741 | The join of a node to itself is stored once, and only by a connection |
| `MixerLinks.SecondHalfFails` | src/packages/MixerPackage.cxx:2726-2741 | Once the first attach of a join has succeeded, the second fails exactly if its node is a conference and the first one carries no audio |
| `MixerLinks.JoinAnswers` | src/packages/MixerPackage.cxx:2674-2763 | A join is answered 403 exactly if an end is a stranger's, 408 exactly if its own ends are linked, 411 exactly if they are not and cannot carry audio to each other |
| `MixerLinks.JoinCreates` | src/packages/MixerPackage.cxx:2685-2706 | The nodes that a join makes, whatever becomes of it, are connections of its requester, under their own ids and media |
| `MixerLinks.RollbackRestores` | src/packages/MixerPackage.cxx:2733-2741 | The detach that rolls a join back restores the first node, except for the volume and mute entries it leaves |
| `MixerLinks.ModifyAllOrNothing` | src/packages/MixerPackage.cxx:2764-2842 | A modifyjoin succeeds exactly if both nodes exist, belong to the requester and are linked; then both directions change together, else nothing does: its missing rollback is never needed |
| `MixerLinks.UnjoinAllOrNothing` | src/packages/MixerPackage.cxx:2843-2925 | An unjoin succeeds exactly under the same condition, then both sides drop the link, and a notice goes out if a key of theirs is on record, else nothing changes |
| `MixerLinks.ModifyAnswers` | src/packages/MixerPackage.cxx:2764-2842 | A modifyjoin is answered 426 exactly if an end that is looked at is not there, 403 exactly if it is a stranger's, 409 exactly if the ends are not linked |
| `MixerLinks.UnjoinAnswers` | src/packages/MixerPackage.cxx:2843-2925 | So is an unjoin |
| `MixerLinks.CreateAnswers` | src/packages/MixerPackage.cxx:2054-2066 | A conference is refused with 405 exactly if its handle is taken; else it is there, empty, and all else is as before |
| `MixerLinks.CloseForgets` | src/packages/MixerPackage.cxx:863-883 | After a connection closes or a conference is destroyed, no map of any remaining node mentions it, and all other links are as before |
| `MixerObjects.MixerNode.Attach` | src/packages/MixerPackage.cxx:919-957 | The attach of both kinds of node, on the fields, is the attach of the model |
| `MixerObjects.MixerNode.Modify` | src/packages/MixerPackage.cxx:959-1004 | The same for modify, with its second increment of the counter |
| `MixerObjects.MixerNode.Detach` | src/packages/MixerPackage.cxx:1006-1030 | The same for detach, which drops a conference's queue for the peer |
| `MixerObjects.MixerNode.AsConnection` | src/packages/MixerPackage.cxx:849-903 | A new connection node: no links, counters at 0, not registered |
| `MixerObjects.MixerNode.AsConference` | src/packages/MixerPackage.cxx:1100-1152 | A new conference node: no links, no queues, no announcements |
| `MixerObjects.MixerPackage.CreateConference` | src/packages/MixerPackage.cxx:1100-1152 | A conference is added under a handle of its own |
| `MixerObjects.MixerPackage.Join` | src/packages/MixerPackage.cxx:2674-2763 | The join on the objects, with its creation of missing nodes and its early exits, has the outcome of the model |
| `MixerObjects.MixerPackage.CoupleNodes` | src/packages/MixerPackage.cxx:2711-2726 | Its first half, the two checks and the first attach |
| `MixerObjects.MixerPackage.CoupleBackNodes` | src/packages/MixerPackage.cxx:2726-2756 | Its second half, with the attach in the reversed direction and the record of the join |
| `MixerObjects.MixerPackage.UndoFirst` | src/packages/MixerPackage.cxx:2733-2741 | Its rollback: the first side is detached again and an unjoin is notified |
| `MixerObjects.MixerPackage.ModifyJoin` | src/packages/MixerPackage.cxx:2764-2842 | The modifyjoin on the objects has the outcome of the model |
| `MixerObjects.MixerPackage.Unjoin` | src/packages/MixerPackage.cxx:2843-2925 | The unjoin on the objects has the outcome of the model |
| `MixerObjects.MixerPackage.Leave` | src/packages/MixerPackage.cxx:1831-1847 | Closing a node: it is forgotten, then its peers are left one by one, in whatever order the map has them |
| `MixerObjects.MixerPackage.LeavePeersOf` | src/packages/MixerPackage.cxx:863-883 | The loop of both destructors over the peers: each is detached and its join notified as ended |
| `MixerObjects.MixerPackage.NotifyUnjoin` | src/packages/MixerPackage.cxx:1866-1893 | A notice goes out exactly if one of the two keys is recorded, and takes that record with it |
| `JoinLedger.RunBalance` | src/packages/MixerPackage.cxx:1866-1893 | In every run, records plus unjoin notices plus merged joins (whose key was there already) equal the successful joins: no join is announced as ended twice |
| `JoinRecord.FairIsTold` | src/packages/MixerPackage.cxx:1866-1893 | If every live link finds an entry of its own, and only two links with the same two entries may swap theirs, then in every order in which the links end each one finds an entry, and nothing but what is to stay is left |
| `JoinRecord.ToldIsFair` | src/packages/MixerPackage.cxx:1866-1893 | And conversely: what goes well in every order has that shape |
| `JoinRecord.NewToldIff` | src/packages/MixerPackage.cxx:2750-2754 | One more entry keeps every link sure of one if and only if its key is new and the record, as it is, cannot be confused by it: a condition on the recorded keys and their order |
| `JoinLedger.NotifyTakes` | src/packages/MixerPackage.cxx:1866-1893 | The notification takes the entry that comes first in the list, from whichever side the link is named; without an entry there is no notice |
| `JoinLedger.LinkEnds` | src/packages/MixerPackage.cxx:1866-1893 | When a live link ends it sends exactly one notice, and all others stay sure of theirs |
| `JoinLedger.JoinToldIff` | src/packages/MixerPackage.cxx:2742-2754 | A successful join of two nodes keeps every live link sure of its unjoin notice, in whatever order the links end, if and only if the join is clear: its key is not on record nor that of a node joined to itself, and no live link that could take the new entry, or lend it its own, finds its entry behind it |
| `JoinLedger.EchoToldIff` | src/packages/MixerPackage.cxx:2718-2754 | The same for the join of a connection to itself |
| `JoinLedger.UnjoinTold` | src/packages/MixerPackage.cxx:2884-2900 | An unjoin keeps every other live link sure of its notice, and sends its own |
| `JoinLedger.CloseTold` | src/packages/MixerPackage.cxx:863-883 | So does a close, with one notice for each of its peers |
| `JoinLedger.UnjoinNotice` | src/packages/MixerPackage.cxx:2884-2900 | The notice of an unjoin names its requester, both ends, and the request as the reason |
| `JoinLedger.CloseNotices` | src/packages/MixerPackage.cxx:863-883 | The notices of a node that closes are one for each peer, to the node's requester, with both ids, as terminated |
| `JoinLedger.RunTold` | src/packages/MixerPackage.cxx:863-2925 | In every run whose joins are clear, every live link is sure of its notice all along, and notices that tell of two nodes plus live links equal the successful joins of two nodes |
| `JoinLedger.KeyCollision` | src/packages/MixerPackage.cxx:876-879 | Two pairs of well-formed ids have the same key only if they are the same pair, or one joins a conference to a connection and the other a connection to a conference |
| `JoinLedger.SharedIsMixed` | src/packages/MixerPackage.cxx:2750-2754 | With well-formed ids, one per node, two links have a key in common only if both are between a conference and a connection |
| `JoinLedger.UnmixedJoinIsTold` | src/packages/MixerPackage.cxx:2742-2754 | So with such ids a join of two conferences or of two connections never costs a notice |
| `JoinLedger.CrossedIdsLoseNotice` | src/packages/MixerPackage.cxx:2750-2754 | A run from the empty server: two conferences are created, each is joined to a connection, both joins are undone; all six requests succeed, and one notice goes out |
| `MixerTick.OwnVoiceCancels` | src/packages/MixerPackage.cxx:1523-1602 | What a listener is handed has its own voice taken out exactly, also when an announcement attenuates all voices by a truncating third |
| `MixerTick.HeardIs` | src/packages/MixerPackage.cxx:1555-1602 | Every sample a listener is handed is a hundredth, rounded towards zero, of (announcements plus all other contributors) times its percentage, or 32767 or -32768 where that lies beyond |
| `MixerTick.FullVolumeIsNearest` | src/packages/MixerPackage.cxx:1570-1602 | At 100 percent that is the short nearest to the sum, and the sum itself if it is a short |
| `MixerTick.HundredthGrows` | src/packages/MixerPackage.cxx:1570-1602 | A larger sum never comes out smaller |
| `MixerTick.ThirdOfMix` | src/packages/MixerPackage.cxx:1539-1547 | While announcements play, the peers are mixed at a third of what they are otherwise, to within two thirds of a step for each |
| `MixerTick.MixedIsLeaving` | src/packages/MixerPackage.cxx:1523-1612 | The frame of a peer that is mixed is the one that leaves its queue as mixed |
| `MixerTick.AnnouncedInOrder` | src/packages/MixerPackage.cxx:1490-1520 | Over any number of rounds, each announcement is heard frame by frame in its order |
| `MixerTick.SumsPileUp` | src/packages/MixerPackage.cxx:1440-1482 | Over any number of rounds, a cell of the sum buffer that is not cleared holds the sum of everything mixed since the start |
| `MixerTick.CleanSumIff` | src/packages/MixerPackage.cxx:1482 | The sum of a round is that of its own voices if and only if its cell is cleared or all earlier rounds cancel out |
| `MixerTick.AllClearedIff` | src/packages/MixerPackage.cxx:1440-1482 | All 160 cells are cleared if and only if a long has at most 4 bytes |
| `MixerTick.SumsFollow` | src/packages/MixerPackage.cxx:1481-1550 | The sum buffers that consecutive rounds leave, as the method's contract relates them, hold these sums |
| `MixerTick.SecondRoundReplays` | src/packages/MixerPackage.cxx:1440-1602 | Two consecutive rounds of a new conference with longs of 8 bytes: nobody speaks in the second, and a listener hears the first one again in its second half |
| `MixerTick.RunConserves` | src/packages/MixerPackage.cxx:1391-1403 | Over any run of feeds, rounds, attaches, modifies and detaches, the frames a participant has fed are, in order, those that left its queue followed by those still in it |
| `MixerTick.RunCounts` | src/packages/MixerPackage.cxx:1604-1612 | Hence frames fed are frames mixed plus frames discarded plus frames queued |
| `MixerTick.OnePerRound` | src/packages/MixerPackage.cxx:1604-1612 | Over any run, no more frames of a peer are mixed or dropped than there were rounds |
| `MixerTick.SidesAgree` | src/packages/MixerPackage.cxx:1032-1070 | On every link of a conference, both sides agree: it mixes the frames of exactly the peers that pass frames to it, and feeds exactly those that pass its frames on |
| `MixerTick.QueuesOfPeers` | src/packages/MixerPackage.cxx:1055-1403 | In every run of requests, frames passed on by connections, and rounds, a conference queues frames of its present peers only |
| `MixerTick.JoinsWithEmptyQueue` | src/packages/MixerPackage.cxx:1328-1357 | So a peer that joins, for the first time or again, starts with nothing queued |
| `MixerTick.ScaledByAHundred` | src/packages/MixerPackage.cxx:1578-1590 | Leaving out the scaling at volume 100 changes nothing |
| `MixerVolumes.JoinHeeds` | src/packages/MixerPackage.cxx:919-957 | After a join the first end has the first volume for its peer and the second end the second: muted exactly if that says so, at its percentage if it gives one, else at 100; no other entry changes |
| `MixerVolumes.ModifyJoinHeeds` | src/packages/MixerPackage.cxx:959-1004 | The same for a modifyjoin, where no percentage keeps the old one, except that a conference that mutes or unmutes resets it to 100 |
| `MixerVolumes.RunHeeds` | src/packages/MixerPackage.cxx:2674-2925 | In every run the entry of every link is what the requests of its own so far want, whatever else is joined, fails, is undone or closes |
| `MixerVolumes.RunListens` | src/packages/MixerPackage.cxx:1555-1562 | In every run, a peer of a conference gets a frame each round if and only if its own side receives and the requests do not want it muted |
| `MixerVolumes.RunContributes` | src/packages/MixerPackage.cxx:1523-1532 | In every run, a peer is mixed if and only if its own side sends and a frame of its waits |
| `MixerVolumes.RunHears` | src/packages/MixerPackage.cxx:1555-1602 | In every run, what a peer is handed is the sum of the others at the percentage that the requests want, so unscaled and clipped for one that joined without a volume |
| `MixerObjects.MixerNode.Round` | src/packages/MixerPackage.cxx:1435-1634 | One round on the buffers: every unmuted listener gets a frame, each sample of it is what it should hear on top of what clearing left, the sum buffer holds the total, and one frame of each queue is used up |
| `MixerObjects.MixerNode.MixFor` | src/packages/MixerPackage.cxx:1555-1602 | The loop over the 160 samples for one listener: own part out, volume, clip |
| `MixerObjects.MixerNode.AddParticipants` | src/packages/MixerPackage.cxx:1523-1550 | The loop over the participants adds the part of each contributor exactly once |
| `MixerObjects.MixerNode.AddAnnouncements` | src/packages/MixerPackage.cxx:1490-1520 | The loop over the announcements adds one frame of each and uses it up |
| `MixerObjects.MixerNode.FeedFrame` | src/packages/MixerPackage.cxx:1391-1403 | A frame goes behind those that its sender has queued |
| `MixerObjects.MixerNode.IncomingFrame` | src/packages/MixerPackage.cxx:1415-1433 | An announcement frame goes behind those of its transaction; the unlocking frame ends that queue, a frame without a transaction is dropped |
| `RtpChannel.RunClock` | src/MediaCtrlRtp.cxx:590-607 | Over any sends at nondecreasing times: the clock is at most 79 ms behind and 19 ms ahead of the wall clock, num is a multiple of 160, and 20*num falls short of the media time by exactly what the silences leave over, at most 19 ms each |
| `RtpChannel.StepMonotone` | src/MediaCtrlRtp.cxx:596-613 | Timestamps never go back, grow exactly when the wall clock has passed the last one, and the marker goes out exactly when they stay or jump by five frames or more |
| `RtpChannel.FirstPacket` | src/MediaCtrlRtp.cxx:590-613 | The first packet of all steps by one frame of 160 and has no marker |
| `RtpChannel.SteppingBackStalls` | src/MediaCtrlRtp.cxx:596-607 | While the wall clock is behind the last timestamp, no number of sends moves the clock |
| `RtpChannel.OnlyOwnerInside` | src/MediaCtrlRtp.cxx:537-618 | Between a lock by an owner and the next unlock, every frame sent is that owner's, and that owner did the unlock |
| `RtpChannel.UniqueLock` | src/MediaCtrlRtp.cxx:405-427 | A history in which locked and unlocked notices alternate, beginning with locked, determines who holds the lock |
| `RtpChannel.SentIff` | src/MediaCtrlRtp.cxx:537-618 | A frame makes exactly one packet, with its own bytes or their encoding, if and only if it is of the channel's medium, there is a port, the channel is free or held by its owner, and there are bytes in the channel's format; a frame of another medium or owner, or without a port, changes nothing |
| `RtpChannel.LockIff` | src/MediaCtrlRtp.cxx:405-427 | The lock is taken exactly by a locking frame of some owner on a free channel, and opened exactly by its holder's unlocking frame |
| `RtpChannel.SendsThemAll` | src/MediaCtrlRtp.cxx:537-618 | As long as nothing moves the lock, over any number of sends all frames that may be sent are, in their order and unchanged |
| `RtpChannel.Channel.SendFrame` | src/MediaCtrlRtp.cxx:537-618 | One send on the fields, with the lock moved before it is known whether the frame can be sent, and with the exact growth of the history of notices and packets |
| `RtpChannel.Channel.Tick` | src/MediaCtrlRtp.cxx:590-613 | The timestamp block on the fields |
| `RtpChannel.Channel.DoLock` | src/MediaCtrlRtp.cxx:405-415 | Locking takes effect exactly on an open channel and an owner |
| `RtpChannel.Channel.Unlock` | src/MediaCtrlRtp.cxx:417-427 | Unlocking takes effect exactly for the owner who holds the lock |
| `Transactions.RunNumbered` | src/CfwStack.cxx:298-308 | In every run all sequence numbers that wait for an ack are different and below seq |
| `Transactions.PumpDelivers` | src/CfwStack.cxx:209-270 | One pass hands every unsent message of the queue to the send step, in queue order, and drops exactly what is acked or does not wait |
| `Transactions.AckDeliversIff` | src/CfwStack.cxx:160-174 | An ack keeps the books right if and only if it names a message that was sent, awaits it, and has not been acked since the last pass |
| `Transactions.RunDelivers` | src/CfwStack.cxx:130-285 | Under a peer that acks in order: in every run each message was sent at most once, in queue order, and is forgotten only when acked or not waiting |
| `Transactions.EndDelivered` | src/CfwStack.cxx:262-270 | A transaction switches itself off only with an empty queue, and by then all messages were sent, each once, and those that wait were acked |
| `Transactions.RunsBegin` | src/CfwStack.cxx:102-128 | Where the runs begin: a transaction whose timer starts with its CONTROL, and one of the server's own, both with everything still to deliver |
| `Transactions.RunReplies` | src/CfwStack.cxx:181-408 | For every interleaving of timer passes, acks, passes of the thread, reports of any status and errors: the replies have their shape if and only if nothing is queued while a 200 is pending. The shape: each reply carries its place as its number and shows it unless it is the first or a 202; updates and terminates wait for their acks and nothing else does; a 202, updates and a terminate, or one 200, with errors anywhere before the last word, and nothing after a 200, a terminate or an error other than 202 and 423 |
| `Transactions.PlainShapeIff` | src/CfwStack.cxx:181-323 | Where no reply is an error, the shape is one 200 without a number, or a 202, updates numbered 1, 2, ... and a terminate with the next number |
| `Transactions.SuccessIsTold` | src/CfwStack.cxx:287-323 | In every run, a 200 that the package reports puts exactly one message more on the queue: the 200 if only passing errors went out, else a terminate with the next number that waits for its ack; then the status is final. Only behind a last word nothing is queued |
| `Transactions.ErrorIsTold` | src/CfwStack.cxx:343-408 | In every run, each known error code, reported or the stack's own, is put on the queue by its code and next number, and is the last word but for 202 and 423; other codes are not |
| `Transactions.Finishes` | src/CfwStack.cxx:209-285 | Once the status is final, a pass, acks for all that waits in any order and number, and another pass end the transaction |
| `Transactions.NotificationEnds` | src/CfwStack.cxx:325-341 | A notification is one CONTROL that a pass hands over, and it ends exactly by an ack for 0 |
| `Transactions.LateReplyReopens` | src/CfwStack.cxx:181-207 | A concrete run in which the timer reopens a transaction that has its final 200 queued |
| `Transactions.RunRefreshed` | src/CfwStack.cxx:150-207 | If passes are at most d ms apart, the last refresh is always less than 8000+d ms ago until the final reply |
| `Transactions.NeverTimesOut` | src/CfwStack.cxx:181-207 | So with d under 2000 the 10 s that are advertised never expire, over runs of any length |
| `Transactions.RefreshIsSent` | src/CfwStack.cxx:181-285 | The refresh that the timer queues is also sent in that same pass |
| `Transactions.CfwTransaction.QueueMessage` | src/CfwStack.cxx:130-148 | Queueing on the fields: the message goes behind all others and may change the status |
| `Transactions.CfwTransaction.AckReceived` | src/CfwStack.cxx:160-174 | The search loop puts the first message with that number on the list to be purged |
| `Transactions.CfwTransaction.Pass` | src/CfwStack.cxx:176-285 | One pass of the thread: timer, purge, sends, deactivation |
| `Transactions.CfwTransaction.SendUnsent` | src/CfwStack.cxx:226-260 | The send loop sends each unsent message of the list once, in its order |
| `Transactions.CfwTransaction.ReportStatus` | src/CfwStack.cxx:287-323 | A package's report: nothing for a 202, an error reply for what is not 200, else the reply that fits the status |
| `Transactions.CfwTransaction.ErrorCode` | src/CfwStack.cxx:343-408 | An error reply: known codes only, without waiting for an ack, with a number where one is due |
| `Trailer.StopsAtFirstBlankIff` | src/MediaCtrlClient.cxx:300-320 | The trailer automaton stops at the first CR LF CR LF if and only if the CRs that lead to it are odd in number |
| `Trailer.StopsOnBlank` | src/MediaCtrlClient.cxx:300-320 | It never stops anywhere else |
| `Trailer.ReadsToBlank` | src/MediaCtrlClient.cxx:300-320 | A header without doubled CRs is read to its end |
| `Trailer.DoubledReturnMisses` | src/MediaCtrlClient.cxx:305-317 | A concrete text whose blank line is missed behind a doubled CR |
| `Framing.Client.ReadHeader` | src/MediaCtrlClient.cxx:237-326 | The byte loop over the growing buffer: a header is handed on exactly if the automaton stops before a recv fails, it is the text up to there as a C string, and not one byte more is taken |
| `Framing.Client.Keep` | src/MediaCtrlClient.cxx:288-299 | Every byte is kept with a NUL behind it, and ten bytes stay spare |
| `Framing.Client.GetContent` | src/MediaCtrlClient.cxx:352-383 | The body loop: it ends exactly if len bytes arrive, over any sizes of recv and any failures in between, and takes exactly those |
| `Framing.CStringIff` | src/MediaCtrlClient.cxx:324 | A text survives its passage through a C string exactly if it holds no NUL |
| `Framing.StopIff` | src/MediaCtrlClient.cxx:240-322 | The stop that is computed is the one the automaton defines |
| `Headers.NumberOfDecimal` | src/CfwStack.cxx:1462 | Reading the printed Content-Length gives the length |
| `Headers.NumberAppend` | src/CfwStack.cxx:1462 | Its digits count tenfold from the right |
| `Headers.LinesOfBlock` | src/CfwStack.cxx:1235-1237 | Cutting a printed header at its CR LFs gives its lines back and then an empty one |
| `Headers.BlockStops` | src/MediaCtrlClient.cxx:300-320 | The reader stops exactly where a printed header of any lines ends, whatever follows |
| `Headers.FieldsPrinted` | src/CfwStack.cxx:1413-1441 | The three printed lines of a CONTROL are read back as its package name, without the version, its MIME type and its length |
| `Headers.StartedPrinted` | src/CfwStack.cxx:1239-1255 | A printed start line is read back as its transaction id and what stands behind it |
| `Headers.StartedIff` | src/CfwStack.cxx:1239-1255 | A start line is read exactly if it is CFW in any case, a space, a transaction of word characters, a space and a request |
| `Headers.DirectedIff` | src/CfwStack.cxx:1240-1255 | A request without digits is read in upper case, and digits as these exactly if a comment is all that follows |
| `Headers.CommentIff` | src/CfwStack.cxx:1240 | A comment behind a code is nothing, or begins with white space, goes on behind it, and has no two of it in a row |
| `Headers.FollowingIff` | src/CfwStack.cxx:1413-1441 | A line is read as a prefix and a value exactly if it is the prefix in any case and the value behind it |
| `Headers.FieldIff` | src/CfwStack.cxx:1424-1441 | A line of a CONTROL sets its one of three fields exactly if its value has the form for it |
| `Headers.PackageNameIff` | src/CfwStack.cxx:1434 | A Control-Package names a package exactly by its name without digits, with or without a version |
| `Headers.SyncFieldIff` | src/CfwStack.cxx:1321-1352 | A line of a SYNC sets its one of three fields exactly if its value has the form for it |
| `Headers.HelloPrinted` | src/CfwStack.cxx:1321-1352 | The three lines of a printed SYNC are read back |
| `Headers.AckLast` | src/CfwStack.cxx:1274-1292 | Of several Seq lines in an ack the last one counts, and any other line spoils it |
| `Headers.ReadSyncFields` | src/CfwStack.cxx:1321-1352 | The loop over the lines of a SYNC |
| `Headers.ReadFields` | src/CfwStack.cxx:1413-1441 | The loop over the header lines stops at the first line that matches nothing |
| `Stream.TakePrinted` | src/CfwStack.cxx:1235-1474 | What becomes of a printed CONTROL, ack, keep-alive or SYNC in any context: heard, or refused with its code, with its body read or left in the stream |
| `Stream.InStepIff` | src/CfwStack.cxx:1235-1465 | Behind any printed header whose lines announce a body of its length, the stream is read on from the next message if and only if the body is empty or the header is a CONTROL with a Control-Package, from a known client and with a new transaction |
| `Stream.NoPackageLeavesBody` | src/CfwStack.cxx:1443-1448 | A new CONTROL of a known client without a Control-Package is refused with 400 and its body is left in the stream |
| `Stream.RefusedIff` | src/CfwStack.cxx:1256-1484 | Behind any printed header: 403 comes out exactly for a client that is not known and a request other than SYNC, 405 exactly for a request there is not, 423 exactly for a known transaction of a SYNC or a CONTROL, 481 exactly for an ack of an unknown one |
| `Stream.HeadWrong` | src/CfwStack.cxx:1256-1448 | 400 comes out exactly for an unreadable ack, a keep-alive with lines or a CONTROL without a package, and the dialog ends exactly for an unreadable CONTROL or SYNC (400) and a SYNC with a wrong or missing value (481) |
| `Stream.AdmittedIff` | src/CfwStack.cxx:1312-1369 | A client becomes known exactly by a SYNC with a new transaction that names the dialog, whatever its other lines are worth |
| `Stream.SyncComesFirst` | src/CfwStack.cxx:1256-1261 | Whatever bytes come, a client that is not known is heard with no CONTROL, ack or keep-alive before a SYNC of its was accepted |
| `Stream.ListenPrinted` | src/CfwStack.cxx:325-341 | Reading inverts printing: from any number of printed CONTROLs, acks, keep-alives and SYNCs with anything behind them, exactly these are heard, in order, and then the rest, whatever transactions are freed in between, as long as no body is left in the stream and no SYNC ends the dialog |
| `Stream.FreshInStep` | src/CfwStack.cxx:1402-1410 | The messages of a known client whose requests have transactions of their own always do, whatever is freed in between |
| `Stream.SessionInStep` | src/CfwStack.cxx:1312-1401 | So is a whole session that begins with an acceptable SYNC of a client that is not known yet |
| `Stream.WelcomeLines` | src/CfwStack.cxx:1377-1396 | The answer to such a SYNC can be cut in three lines: the keep-alive in 16 bits, what was asked for, what else there is |
| `Stream.UnmatchedLines` | src/CfwStack.cxx:1392-1401 | A SYNC whose packages cannot be had is told which there are |
| `Stream.ReusedIff` | src/CfwStack.cxx:1135-1141 | A transaction may be used again exactly if it has ended and was freed in between |
| `Stream.BodiesIff` | src/MediaCtrlClient.cxx:379 | The bodies of CONTROLs for supported packages come back whole if and only if none holds a NUL |
| `Stream.HearSteady` | src/MediaCtrlClient.cxx:235-383 | On a connection without failing recvs, what is heard depends on the bytes alone, however they are chopped up |
| `Stream.HearPrinted` | src/CfwStack.cxx:325-341 | So any number of printed messages, chopped up in any way, is heard as written, one after the other |
| `Stream.Connection.Pass` | src/MediaCtrlClient.cxx:235-383 | One message on the objects, over any sizes of recv and any failures in between: the event, the known transactions and the bytes that are left |
| `Stream.Connection.Serve` | src/MediaCtrlClient.cxx:215-330 | All messages of a connection, until nothing is left to read or it is lost, with the transactions freed that have ended before each of them |
| `Stream.Connection.FreeEnded` | src/CfwStack.cxx:1135-1141 | The loop over the list of ended transactions forgets exactly these |
| `Stream.Connection.OnRequest` | src/CfwStack.cxx:1256-1484 | The branches by request on the fields: who may ask, acks, keep-alives, SYNC, CONTROL and 405 |
| `Stream.Connection.OnSync` | src/CfwStack.cxx:1312-1401 | The SYNC branch on the fields: its exits in their order, the client known in the middle of them, and the negotiation |
| `Stream.Connection.OnControl` | src/CfwStack.cxx:1402-1465 | The CONTROL branch on the fields: its four early exits and what it asks for |
| `CommaLists.Cleanup` | src/CfwStack.cxx:811-835 | The cleanup loop terminates, since each pass but the last erases a comma, and gives one normal form whatever the order of its erasures: no comma behind a comma or space, none at the end |
| `CommaLists.CleanupJoin` | src/CfwStack.cxx:811-835 | On a list with blanked names it gives the list of the others, with a comma in front exactly if the first two are blank and another is left |
| `CommaLists.JoinInjective` | src/CfwStack.cxx:461-469 | A comma list of names can be read in one way only |
| `Negotiation.MatchPackages` | src/CfwStack.cxx:761-838 | The negotiation on strings, with find and erase, has the outcome of striking names off a list |
| `Negotiation.FindIsStrike` | src/CfwStack.cxx:790-806 | Erasing the first occurrence from the string is cutting it out of the first name that contains it |
| `Negotiation.WantedJoined` | src/CfwStack.cxx:767-776 | A request of names is read as these names, in their order |
| `Negotiation.WantedStops` | src/CfwStack.cxx:767-776 | An empty name ends the list, whatever stands behind it |
| `Negotiation.FormatIff` | src/CfwStack.cxx:781-789 | A name is well formed exactly if it is a name without white space, a slash, a digit, a point and a digit |
| `Negotiation.ReplyLines` | src/CfwStack.cxx:816-838 | An accepted request is answered with two lines, one for what was asked for and one for what else there is |
| `Negotiation.MeantIff` | src/CfwStack.cxx:761-838 | A request for supported names, each once, is answered with the request and the list of the others if and only if no name that is still there in front of a requested one contains it, and the first two names do not both go while another stays |
| `Negotiation.WholeIffAligned` | src/CfwStack.cxx:790-806 | Every requested name is cut out of its own place if and only if no such name is in front of it |
| `Negotiation.MetIffFair` | src/CfwStack.cxx:778-810 | If no requested name is a part of another supported one, the reply is known for every request: it succeeds exactly if the names are well formed, supported and not repeated |
| `Negotiation.OneMoreIff` | src/CfwStack.cxx:790-797 | Behind a request that is fair and meets every name in its own place, one more name is accepted if and only if it is well formed and occurs somewhere in a name that is left, whether it is a supported name or not |
| `Negotiation.GoesOnIff` | src/CfwStack.cxx:786-810 | A request that goes on behind such a name is accepted if and only if it can do without that part of the first name that contains it |
| `Negotiation.RepeatedIff` | src/CfwStack.cxx:786-810 | A name asked for n times is accepted if and only if it is well formed and can be cut n times, one cut after the other, out of the supported names |
| `Negotiation.CommaStays` | src/CfwStack.cxx:814-815 | A concrete request whose reply begins its list of supported packages with a comma |
| `Negotiation.PartIsCut` | src/CfwStack.cxx:790 | A concrete request that cuts the end off another package's name |
| `Negotiation.PartIsCutTwice` | src/CfwStack.cxx:790 | So the same name is accepted twice, and not three times |
| `Timeline.RunReads` | src/packages/IvrPackage.cxx:2645-2753 | Over any prompt, refused additions among them: the four tracks and endsync stay equally long, every row of lists is square, the slots in use are the first ones, and reading the table step by step, slot by slot gives the accepted rows, each once, in order |
| `Timeline.AddKeeps` | src/packages/IvrPackage.cxx:2645-2753 | One addition: an accepted row is placed behind all others, a refused one changes nothing |
| `Timeline.NoRoomIff` | src/packages/IvrPackage.cxx:2678-2691 | 435 comes out exactly if a new slot is needed in the open step and all four are in use |
| `Timeline.FreeIsNext` | src/packages/IvrPackage.cxx:2679-2688 | The free slot that the loop finds is the one behind the current slot |
| `Timeline.ParIsOneStep` | src/packages/IvrPackage.cxx:2667-2704 | Whatever is inside one parallel element shares at most one step, whose endsync is that of the element, and without a step nothing was accepted |
| `PromptLayout.PromptIsLaidOut` | src/packages/IvrPackage.cxx:6052-6505 | Every prompt as it is written, out of media, variables and parallel elements with media, variables and sequences in them, ends in the table as it is to be played: a step for each part with something to play, and in a parallel one a track for each such child, up to four, with that child's files one after the other |
| `Timeline.UnsupportedIff` | src/packages/IvrPackage.cxx:2649-2652 | A file is refused with 422 exactly if .mp3 and .ogg are in its name somewhere, and .wav nowhere |
| `Timeline.AddAnswers` | src/packages/IvrPackage.cxx:2645-2753 | An addition is answered -1 exactly for an unknown way of adding, 422 exactly for such a file |
| `Timeline.StepAnswers` | src/packages/IvrPackage.cxx:6052-6505 | An element is answered 0 exactly if all its rows were accepted, else the first of them were |
| `Timeline.IvrDialog.AddFilename` | src/packages/IvrPackage.cxx:2645-2753 | The addition on the lists and the current slot |
| `Timeline.IvrDialog.OnElement` | src/packages/IvrPackage.cxx:6052-6190 | The elements of a prompt, with the flags they set before and after their additions |
| `Timeline.IvrDialog.OnParMedia` | src/packages/IvrPackage.cxx:6373-6448 | A media element inside a parallel one |
| `Timeline.IvrDialog.AddVariable` | src/packages/IvrPackage.cxx:6492-6505 | The files of a variable, up to the first that is refused |
| `Endsync.KeepsPaceIff` | src/packages/IvrPackage.cxx:2328-2377 | Padding: a track ends within 10000 of the longest if and only if it has frames, of this step or an earlier one, or the step lasts at most 10000 |
| `Endsync.PaddedTogether` | src/packages/IvrPackage.cxx:2361-2376 | Two padded tracks end less than one frame of 20000 apart |
| `Endsync.SyncedKeepsFront` | src/packages/IvrPackage.cxx:2328-2377 | Padding adds silence behind a track and trimming drops frames at its end; the front stays as it was |
| `Endsync.TrimmedBound` | src/packages/IvrPackage.cxx:2331-2360 | Trimming of regular frames: no track runs out of frames, and every track with a list ends within 10000 of the bound |
| `Endsync.RunsOutIff` | src/packages/IvrPackage.cxx:2335-2345 | The trimming of a step pops from an empty list if and only if some track is longer than the first file of some track by so much that the difference, rounded to frames of 20000, is more frames than the track holds |
| `Endsync.LongFramesRunOut` | src/packages/IvrPackage.cxx:2335-2345 | A concrete step that does: one track with two files of one frame of 60 ms |
| `Endsync.ShortestIff` | src/packages/IvrPackage.cxx:2313-2316 | The bound for trimming is the duration of the shortest track if and only if some track has one file only, and that lasts no longer than the first file of any other track; it is never above it |
| `Endsync.OwnFirstFileCuts` | src/packages/IvrPackage.cxx:2315-2316 | A concrete track of two files that is cut down to its first though it is the only track |
| `Endsync.RunDrift` | src/packages/IvrPackage.cxx:1991-2385 | Over any number of steps, padded or trimmed, no track runs out of frames and the ends of two tracks that both have frames drift apart by at most one frame a step (trimmed steps of regular frames) |
| `Endsync.LateTrackStartsEarly` | src/packages/IvrPackage.cxx:2328-2330 | A concrete prompt in which a track that enters in the second step is behind by all of the first |
| `Endsync.IndexedMeasures` | src/packages/IvrPackage.cxx:2266-2316 | What indexing computes: each track's duration, the longest of them, and the shortest of the first files |
| `Endsync.IvrDialog.IndexFile` | src/packages/IvrPackage.cxx:2249-2316 | The loop that indexes a file frame by frame and brings the bounds up to date |
| `Endsync.IvrDialog.Pad` | src/packages/IvrPackage.cxx:2363-2373 | The padding loop pushes the difference over 20000, rounded to the nearest |
| `Endsync.IvrDialog.Trim` | src/packages/IvrPackage.cxx:2333-2345 | The trimming loop pops as many, and runs out exactly if there are fewer |
| `Endsync.IvrDialog.PrepareStep` | src/packages/IvrPackage.cxx:1991-2385 | A step on the lists: index all files, then sync the four tracks |
| `Ulaw.ErrorIff` | src/codecs/UlawCodec.cxx:121-193 | The error of one hop is at most 2^(segment+2) if and only if the sample is within 32636 |
| `Ulaw.OrderIff` | src/codecs/UlawCodec.cxx:180-193 | Hops keep the order of two samples, except that the smallest sample comes back above all that come back negative |
| `Ulaw.FramesSettle` | src/codecs/UlawCodec.cxx:233-281 | After the first hop, no number of further hops changes a frame of any length |
| `Ulaw.SmallestIsSilence` | src/codecs/UlawCodec.cxx:182-190 | The smallest sample has no negation: it is coded as 0x7F and comes back as 0 |
| `Ulaw.DecompressIs` | src/codecs/UlawCodec.cxx:144-178 | The table of 256 values: each is the middle of the cell that its code names |
| `Ulaw.EncodeIs` | src/codecs/UlawCodec.cxx:180-193 | The code of a sample names its sign and the cell that holds its biased size |
| `Alaw.ErrorIff` | src/codecs/AlawCodec.cxx:121-201 | The error of one hop is at most 2^(segment+2), and 8 in segment 0, if and only if the sample is not the smallest one |
| `Alaw.OrderIff` | src/codecs/AlawCodec.cxx:180-201 | Hops keep the order of two samples, except that the smallest sample comes back as -8 |
| `Alaw.FramesSettle` | src/codecs/AlawCodec.cxx:241-289 | After the first hop, no number of further hops changes a frame of any length |
| `Alaw.SmallestIsSoftest` | src/codecs/AlawCodec.cxx:187-200 | The smallest sample is coded as 0x55 and comes back as -8 |
| `Alaw.DecodeIs` | src/codecs/AlawCodec.cxx:144-178 | The table of 256 values, read under the mask: each is the middle of the cell that its code names |
| `Alaw.EncodeIs` | src/codecs/AlawCodec.cxx:180-201 | The code of a sample names its sign and the cell that holds its size, under the mask 0x55 |
| `G711.EncodeFrame` | src/codecs/UlawCodec.cxx:233-257 | The frame encoder of both codecs codes 160 samples, each by its table |
| `G711.DecodeFrame` | src/codecs/UlawCodec.cxx:259-281 | The frame decoder of both codecs takes frames of 160 bytes only and looks each up |
| `G711.CodecIsHop` | src/codecs/UlawCodec.cxx:233-281 | Encoding and decoding a frame is one hop of each sample |

## Left out

- Mixer nodes are named by the handle of their connection, not by pointers, and the list of joins is a set,
  since the source sorts it and drops doubles. Which endpoint an id names is an input of a request.
- Joins without audio on one or both ends (the branches for a NULL audio node), streams other than audio, and
  the closing of a subconnection of an endpoint.
- A conference that detaches a peer erases its queue through an iterator that it has just erased
  (src/packages/MixerPackage.cxx:1344-1345); in the model the iterator still names the peer.
- What memory holds in the cells of the sum buffer before the first round is an input.
- The scaling of a frame that passes straight from one connection to another, active-talkers-notify and
  conferenceexit events, tones and video layouts.
- MixerNodes.RunCounted: the counters are integers without a width, so the wrap-around of a counter that is
  incremented two thousand million times is not modelled.
- RtpChannel.RunClock: times are milliseconds without the wrap of 32 bits, and only the audio settings (20 ms, 160
  ticks) are modelled.
- Transactions: messages are named by their place in the order of queueing, a send always succeeds, and the
  texts of messages are not modelled, but for the lines of a printed request and of the answer to a SYNC.
- Headers: a Content-Length, a Seq and a Keep-Alive are read as numbers without a width, and only the Keep-Alive is
  then cut to 16 bits; an empty header text counts as an empty start line.
- Stream: nothing is read behind the end of a dialog, though the source reads on until the dialog is taken down.
- Stream: transactions are freed between two messages and not while one is read; which of them have ended by then is
  an input.
- TLS, poll, the keep-alive timer and the reopening of a connection.
- Timeline: the check for playable files is kept as it is coded, though it refuses only a name with both `.mp3` and
  `.ogg` and without `.wav` in it (src/packages/IvrPackage.cxx:2649-2652).
- Timeline: the attributes of elements and their checks, and how a variable becomes a list of files.
- Endsync: fetching, opening and decoding files; a file is the list of its frames' durations, and one without frames
  or without duration is the error the source ends the preparation with. Durations have no width.
- Playing the prepared prompts, digit collection, recording and the rest of the IVR package.
- GSM, SIP and SDP, endpoints, configuration, the remote monitor, logging and XML.
- Threads and mutexes: every step is atomic.
