# MiepMiep: a verified model of its reliable stream, job system, sessions and codec

MiepMiep is a UDP networking library for games. Its core is a reliable, ordered, fragmenting,
acknowledged message stream, one per link and channel, on top of datagrams that get lost,
duplicated and reordered. This project models that stream down to the bytes on the wire, together
with the job scheduler that drives it, the sessions and the handshake above it, and the serializer
below it, and proves what the library promises about each of them. `dafny verify dfyconfig.toml`
checks everything.

## How the model is laid out

| part | modules |
|---|---|
| machine words, wrapping sequence numbers, byte order | `Words`, `ByteOrder`, `Chunking` |
| fragmenting and reassembling | `Packets`, `Reassembly` |
| the components of a link | `Sender`, `Receiver`, `Acks`, `Link` |
| the stream as a whole | `Layout`, `StreamReceiver`, `Stream`, `StreamTheorems`, `StreamRecovery`, `StreamLimits`, `Channels` |
| job scheduler | `JobSystem` |
| sessions and handshake | `MasterSession`, `LinkState`, `SessionBuffer`, `SessionSteps`, `SessionStanding`, `SessionRuns`, `SessionRaces`, `SessionFragments`, `SessionUnbuffered`, `TornStream` |
| wire codec | `Codec`, `Serializer`, `Addresses` |

Objects whose fields the library updates are classes here (`ReliableSend`, `ReliableRecv`,
`ReliableAckSend`, `Link`, `JobQueue`, `Master`, `LinkStateComponent`, `SessionBase`,
`BinSerializer`, `AddressList`); every method is tied by its postcondition to a function on values,
and the theorems are about those functions. Everything concurrent is a step system, a run is any
sequence of enabled steps, and the theorems hold in the last state of every run. Where the library
locks (the stream, the job system, the link state) a step is one locked section. Where it does not
(sessions) the steps are the parts of an operation that other threads can come between, and what
remains assumed is said below.

**The stream.** `Stream.Sys` holds the two endpoints and sets of datagrams under way. A datagram,
once sent, stays in its set: it may arrive never, once or many times, in any order. `Link::receive`
of a data datagram is two steps, because it adds the ack and hands the packet on under two different
locks; in between the datagram is in hand, and acks may be sent, travel and be processed. Jobs that
drain the receiver interleave freely. The proof has two layers. `StreamReceiver` shows that the
receiver with wrapping u32 numbers and two maps refines a receiver that only knows which messages
and fragments it has (`Arrive`, `Advance`); `Stream` then keeps an invariant that ties both ends,
the datagrams and the acks together. `Channels` puts both directions and all eight channels on one link,
with the components of an end shared as in the code and every datagram shown to all of them, and shows
that the sixteen streams are exactly sixteen such streams.

**Sessions.** `SessionBase`, `Session`, `MasterSession` and `Network::sendReliable` take no lock. In
`SessionSteps` a buffered send buffers, visits the links one by one and ends, and an `addLink`
replays the buffered packets one by one, each under the lock of the link's send queue, and then
enters the link; all of these interleave with each other and with sends to single links. Left out is
only what C++ does not define: a channel is not buffered on while a replay is inside it, and a list
of links that changes under a walk is walked as one would expect. Mutual exclusion of whole
operations, which the comments in the source ask for, is the separate assumption
`SessionRuns.Serial`. The operations of a master session are taken to be atomic.

**Assumptions on the environment of the stream**, stated in `Stream.Enabled`: when it arrives and
when it is received, a data datagram is less than 2^30 numbers ahead of and at most 3 * 2^30 behind
the number expected; an ack does not arrive after its number was reused; fewer than 2^32 numbers lie
between the oldest number the receiver remembers and the newest one assigned; relay is off. The
library has no sender window, so nothing in it enforces these. `Words.NewerRangeIsTight`,
`StreamLimits.TooFarAheadIsLost`, `StreamLimits.LateAckLoses` and
`StreamLimits.StaleFragmentCorrupts` show what the code does outside them.

## Where the code and its intent differ

The model follows the code. Each difference has its own lemma.

- `receive` reads an id byte from every fragment, but only first fragments carry one. Everything
  about the stream is proved for the receive as written (`OnEveryFragment`) and for one that matches
  the sender (`OnFirstOnly`). As written, a message comes back unchanged if and only if it fits one
  fragment (`StreamTheorems.AsWrittenRoundTrip`).
- The relay bit lies inside the channel mask: the channel decodes if and only if relay is off or
  the channel already has that bit (`Packets.FlagsDecode`).
- An ack can reach the sender before the receiver has the packet it acknowledges
  (`StreamLimits.AckOvertakesPacket`): a number is in none of the four places where one would look
  for it exactly while its ack has been processed and its datagram is still in hand
  (`StreamTheorems.NowhereExactly`).
- A fragment received again after its message was put together and before it was handed over is
  kept (`StreamLimits.StaleFragmentReached`), and from the hand-over on for ever (`StaleForEver`);
  this is the only way to get a stale fragment (`StaleExactly`), and 2^32 numbers later it corrupts a
  message (`StaleFragmentCorrupts`).
- Spurious wakeups leave the job system's count of sleepers too high, so it can reach its maximum
  and wrap, and then a wakeup is lost (`JobSystem.WakeupLost`); without that none is
  (`JobSystem.NoLostWakeup`).
- When the last member leaves a master session, `m_Host` keeps naming it
  (`MasterSession.LastMemberLeaves`); after the host left, `m_Host` is a member if and only if a
  remaining member has a positive score (`MasterSession.HostAfterLeave`).
- A peer joining a mesh is also told, twice, to connect to itself (`MasterSession.FullMesh`).
- `accept` revives a disconnected end that was accepted before (`LinkState.AcceptRevives`); in the
  handshake this never happens. An end that is disconnected before it was connected tells nobody
  (`LinkState.SilentDisconnectLeavesHalfOpen`).
- While the buffered packets are replayed to a new link, a send to that link can fall between two
  fragments of one message. This is the only way to tear a message (`SessionFragments.TornExactly`),
  and a stream that begins with a torn message never hands over anything
  (`TornStream.TornStreamIsStuck`).
- Buffered sends and adds of different threads are not atomic: a link added between the halves of
  a send gets the message twice, one that is half added can miss it, and two sends can overtake each
  other. A buffered send that excludes a member leaves it behind. `SessionRuns.MemberConsistentIff`
  says exactly when a member has what was buffered.
- The metadata reader counts with a u16, so more than 65535 entries can be written but never read
  (`Codec.MetaRoundTrip`). Strings with a NUL can be written but come back cut
  (`Codec.TextRoundTrip`). Address lists have no count and can only come last
  (`Addresses.ListRoundTrip`).

## Model

| member | source | states |
|---|---|---|
| `Words.NewerIsGreaterOrEqual` | MiepMiep/PacketHelper.cpp:256-260 | on the u32 images of unbounded numbers, isSeqNewer decides the true order exactly, from 3 * 2^30 behind to just under 2^30 ahead, across the wrap |
| `Words.NewerRangeIsTight` | MiepMiep/PacketHelper.cpp:256-260 | the first number on either side of that range is misjudged |
| `Words.WrapInjective` | MiepMiep/ReliableSend.cpp:17-34 | numbers less than 2^32 apart have different u32 images |
| `ByteOrder.HtonsInvolution` | MiepMiep/Util.cpp:31-38 | swapping a 16-bit word twice gives it back |
| `ByteOrder.HtonlInvolution` | MiepMiep/Util.cpp:22-29 | swapping a 32-bit word twice gives it back |
| `ByteOrder.HtonllInvolution` | MiepMiep/Util.cpp:10-20 | the three-stage 64-bit swap applied twice gives the word back |
| `ByteOrder.HtonllReverses` | MiepMiep/Util.cpp:10-20 | the 64-bit swap reverses the bytes in memory |
| `ByteOrder.StoredInNetworkOrder16` | MiepMiep/BinSerializer.cpp:123-130 | storing a swapped 16-bit word on a little-endian machine leaves its number in network byte order |
| `ByteOrder.StoredInNetworkOrder32` | MiepMiep/BinSerializer.cpp:132-139 | the same for 32 bits |
| `ByteOrder.StoredInNetworkOrder64` | MiepMiep/BinSerializer.cpp:141-148 | the same for 64 bits |
| `ByteOrder.LoadedFromNetworkOrder16` | MiepMiep/BinSerializer.cpp:157-163 | loading and swapping two bytes gives the number they spell in network byte order |
| `ByteOrder.LoadedFromNetworkOrder32` | MiepMiep/BinSerializer.cpp:165-171 | the same for 32 bits |
| `ByteOrder.LoadedFromNetworkOrder64` | MiepMiep/BinSerializer.cpp:173-179 | the same for 64 bits |
| `Packets.FlagsMatchBitOperations` | MiepMiep/PacketHelper.cpp:91-100 | the arithmetic flag byte equals the original's bit expression |
| `Packets.ChannelMaskMatches` | MiepMiep/Link.cpp:186 | the arithmetic channel of a flag byte equals masking it |
| `Packets.FirstMaskMatches` | MiepMiep/ReliableRecv.cpp:62 | the arithmetic FIRST test equals the bit test |
| `Packets.LastMaskMatches` | MiepMiep/ReliableRecv.cpp:62 | the arithmetic LAST test equals the bit test |
| `Packets.FlagsDecode` | MiepMiep/PacketHelper.cpp:91-100 | first, last and system bits always read back; the channel reads back if and only if relay is off or the channel already has the relay bit |
| `Packets.FragmentationConserves` | MiepMiep/PacketHelper.cpp:128-192 | for any bytes, none included: the fragment bodies concatenate to them, there are max(1, ceil(total / room)) fragments, only the first says FIRST and only the last LAST, and every payload is at most max - 3 bytes |
| `Packets.CreateNormalPacket` | MiepMiep/PacketHelper.cpp:128-192 | the loops over several serializers, empty ones included, produce exactly the fragments of the concatenated bytes; fails exactly when the fragment size is too small |
| `Packets.NextFragment` | MiepMiep/PacketHelper.cpp:153-190 | one turn of the main loop takes the next bytes, sets LAST exactly when none are left, and clears FIRST afterwards |
| `Packets.TakeBytes` | MiepMiep/PacketHelper.cpp:172-188 | the inner loop takes exactly the wanted bytes from the front of what is left, across serializer borders |
| `Reassembly.TryReassembleBigPacket` | MiepMiep/PacketHelper.cpp:194-222 | both wrapping walks terminate while some key is absent, and find the nearest FIRST below and LAST above; on failure the map is unchanged |
| `Reassembly.ReAssembleBigPacket` | MiepMiep/PacketHelper.cpp:225-254 | concatenates the bodies of the range in order, with id and flags of the first, and erases exactly the keys of the range, also across the wrap |
| `Reassembly.FindBeginIs` | MiepMiep/PacketHelper.cpp:194-222 | the downward walk stops at the first gap or FIRST fragment |
| `Reassembly.FindEndIs` | MiepMiep/PacketHelper.cpp:194-222 | the upward walk stops at the first gap or LAST fragment |
| `Receiver.ReliableRecv.Receive` | MiepMiep/ReliableRecv.cpp:46-93 | new state, pending job and failure of one receive: window filter, single packets, duplicate fragments, reassembly |
| `Receiver.NeverReplaces` | MiepMiep/ReliableRecv.cpp:62-93 | in any state and for any bytes, receive replaces no packet or fragment that is held, and adds a job whenever it changes anything |
| `Receiver.ReliableRecv.ProceedRecvQueue` | MiepMiep/ReliableRecv.cpp:97-118 | the drain loop hands over and removes exactly what the recursive drain says, and uses up one job |
| `Sender.ReliableSend.EnqueuePacket` | MiepMiep/ReliableSend.cpp:17-23 | the packet is queued under the next number |
| `Sender.ReliableSend.EnqueuePackets` | MiepMiep/ReliableSend.cpp:25-34 | a vector is queued packet by packet |
| `Sender.ReliableSend.Resend` | MiepMiep/ReliableSend.cpp:36-52 | every un-acked packet goes out once behind its number, and nothing else |
| `Sender.ReliableSend.AckList` | MiepMiep/ReliableSend.cpp:54-65 | exactly the acked numbers leave the queue; unknown and repeated acks change nothing |
| `Sender.EnqueueAllNumbers` | MiepMiep/ReliableSend.cpp:25-34 | the packets of one vector get consecutive wrapping numbers in order, and older entries stay as they were |
| `Acks.ReliableAckSend.AddAck` | MiepMiep/ReliableAckSend.cpp:16-20 | the ack is appended |
| `Acks.ReliableAckSend.Resend` | MiepMiep/ReliableAckSend.cpp:22-46 | the fill-and-flush loop sends the list cut into datagrams and clears it |
| `Acks.ReadAcks` | MiepMiep/ReliableAckRecv.cpp:15-31 | the reading loop decodes the whole body or fails |
| `Acks.AcksRoundTrip` | MiepMiep/ReliableAckRecv.cpp:15-31 | decoding an encoded ack list gives it back |
| `Acks.DecodesWholeNumbers` | MiepMiep/ReliableAckRecv.cpp:15-31 | exactly the bodies made of whole numbers are accepted, and read number by number |
| `Link.AckBatching` | MiepMiep/ReliableAckSend.cpp:22-46 | for every ack list and mtu, decoding the datagrams in order gives back exactly the list, on the same channel and with the system bit; none is empty, each is shorter than mtu + 4, and all but the last have the mtu |
| `Link.Link.Receive` | MiepMiep/Link.cpp:177-218 | a channel that the datagram does not name, and every channel on a datagram that is too short or of another kind, stays as it is; data adds its number to the ack list of its channel, readable or not, before it comes to the receiver, and leaves the sender alone; of an ack datagram exactly the listed numbers leave the queue of its channel, or none if it is not made of whole numbers, and nothing else changes |
| `Link.OtherChannelsOfData` | MiepMiep/Link.cpp:186-194 | a data datagram of one channel leaves the components of every other channel as they are |
| `Link.OtherChannelsOfAcks` | MiepMiep/Link.cpp:206-207 | so does an ack datagram |
| `StreamReceiver.FilterExact` | MiepMiep/ReliableRecv.cpp:50-54 | within the window the filter lets a fragment through exactly when its message has not been handed over |
| `StreamReceiver.ReassemblyExact` | MiepMiep/PacketHelper.cpp:194-254 | on a well-formed stream, reassembly after inserting a fragment succeeds exactly when all fragments of its message are held; it returns the true bounds and the whole packet and erases exactly that message's keys, whatever neighbours or stale fragments are held |
| `StreamReceiver.ReceiveRefines` | MiepMiep/ReliableRecv.cpp:46-93 | receive on wrapping numbers and maps does what the receiver without numbers does; whenever anything changed a drain job was added |
| `StreamReceiver.DrainRefines` | MiepMiep/ReliableRecv.cpp:97-118 | the drain hands over exactly the next complete messages in order and stops at the first incomplete one, also across the wrap |
| `Stream.StepInv` | MiepMiep/Link.cpp:177-218 | every step keeps the stream invariant; adding the ack and receiving the packet are separate steps |
| `Stream.RunInv` | MiepMiep/ReliableRecv.cpp:46-118 | the invariant holds at the end of every run |
| `Stream.ResendIsResend` | MiepMiep/ReliableSend.cpp:36-52 | the datagrams a resend step puts on the network are exactly those the component sends |
| `StreamTheorems.FragmentThenReceive` | MiepMiep/ReliableRecv.cpp:56-88 | fragmenting any message and reassembling it, with either way of reading ids, gives exactly the packet described: for the receive as written the original without the first body byte of each continuation |
| `StreamTheorems.IntendedRoundTrip` | MiepMiep/PacketHelper.cpp:128-192 | with ids read on first fragments only, id, channel, system bit and every byte of every message come back |
| `StreamTheorems.AsWrittenRoundTrip` | MiepMiep/ReliableRecv.cpp:58-60 | with the receive as written one byte per continuation fragment is lost, so a message comes back unchanged if and only if it has at most 1894 bytes |
| `StreamTheorems.DeliveryInOrder` | MiepMiep/ReliableRecv.cpp:46-118 | in every run the packets given to handlePacket are a prefix of the messages enqueued: in order, none skipped, none twice |
| `Channels.ChannelsIndependent` | MiepMiep/Link.cpp:177-218 | on a link with both directions and all eight channels, any interleaving of runs of the sixteen streams, and nothing else, is a run of the link, and it leaves each stream where its own run alone would have left it |
| `Channels.MoveInv` | MiepMiep/Link.cpp:177-218 | a step on any channel and in any direction keeps the invariant of every stream of the link |
| `Channels.EveryChannelInOrder` | MiepMiep/ReliableRecv.cpp:46-118 | at either end and on every channel, the packets given to handlePacket are a prefix of the messages enqueued on that channel at the other end, whatever the other channels carry |
| `StreamTheorems.NothingLost` | MiepMiep/ReliableSend.cpp:54-65 | in every reachable state each number ever assigned is in the send queue with its packet, in the map of fragments, covered by an entry of the map of packets, below the expected number, or in the hand of a Link::receive that has acked it; while none is under way, in one of the first four |
| `StreamTheorems.NowhereExactly` | MiepMiep/Link.cpp:191-194 | in every run a number is in none of the four places if and only if an ack for it was delivered and its datagram was not received |
| `StreamTheorems.AcksEraseOnlyKept` | MiepMiep/ReliableSend.cpp:54-65 | in every run, a number that an ack datagram erases from the send queue is at the receiver or in hand, and at the receiver exactly if its datagram was received |
| `StreamTheorems.NothingStuck` | MiepMiep/ReliableRecv.cpp:79-118 | in every reachable state: if the expected number is a key of the map of packets a drain job is pending; of every message whose numbers were not reused some number is absent from the map of fragments; every key of the map of packets starts a message that was not handed over, inside the window |
| `StreamTheorems.WalksEndInRuns` | MiepMiep/PacketHelper.cpp:194-222 | whenever a datagram of the stream may be received, some number besides its own is absent from the map of fragments, so the walks end |
| `StreamTheorems.CleanRoundDelivers` | MiepMiep/ReliableRecv.cpp:46-118 | from any state, if every un-acked fragment arrives, in any order and with any other steps in between, and in the end no Link::receive is half done and no job pending, every message enqueued before has been handed over |
| `StreamTheorems.CleanRoundEmptiesQueue` | MiepMiep/Link.cpp:191-194 | if then the acks arrive, the send queue is empty, because stale datagrams are acked too |
| `StreamRecovery.RecoveryPossible` | MiepMiep/ReliableSend.cpp:36-52 | from every state whose outstanding numbers are recent, whatever was lost and whatever is half received, there is a continuation that hands over every message and empties the queue |
| `StreamRecovery.ShortStreamsAreRecent` | MiepMiep/PacketHelper.cpp:256-260 | streams of at most 2^30 numbers always qualify for recovery |
| `StreamLimits.AckOvertakesPacket` | MiepMiep/Link.cpp:191-194 | for every message of one fragment, a run at whose end its number is acked and erased and the receiver has never seen it |
| `StreamLimits.StaleStepIff` | MiepMiep/ReliableRecv.cpp:69-88 | a step leaves a stale fragment behind if and only if it receives a fragment of a message of several fragments that is complete and not handed over |
| `StreamLimits.StaleExactly` | MiepMiep/ReliableRecv.cpp:69-88 | a run is free of stale fragments throughout if and only if it has no such step |
| `StreamLimits.StaleFragmentReached` | MiepMiep/ReliableRecv.cpp:69-118 | for every message of two fragments, a run that hands it over and leaves its first fragment in the map |
| `StreamLimits.StaleForEver` | MiepMiep/ReliableRecv.cpp:46-118 | such a fragment is in the map after every continuation |
| `StreamLimits.StaleFragmentCorrupts` | MiepMiep/PacketHelper.cpp:194-254 | after that run and 2^32 - 2 more packets, the first fragment of the next message is dropped and its second one is joined with the stale one |
| `StreamLimits.ShortRunsStayInHorizon` | MiepMiep/ReliableRecv.cpp:69-88 | streams of fewer than 2^32 numbers never leave the horizon |
| `StreamLimits.TooFarAheadIsAckedAndDropped` | MiepMiep/Link.cpp:191-194 | a datagram 2^30 or more ahead is acked and dropped |
| `StreamLimits.TooFarAheadIsLost` | MiepMiep/Link.cpp:191-194 | from two new ends: of 2^30 + 1 packets the last arrives alone, the receiver keeps nothing of it, and its ack erases it from the queue |
| `StreamLimits.LateAckLoses` | MiepMiep/ReliableSend.cpp:54-65 | after a run in which a number was acked, and 2^32 - 1 more packets, the old ack erases the packet that has the number now |
| `StreamLimits.TornMessageWedges` | MiepMiep/ReliableRecv.cpp:46-118 | a receiver whose number 0 is a first fragment and whose number 1 is another message never hands over anything, in any sequence of arrivals and drains |
| `JobSystem.NoLostWakeup` | MiepMiep/JobSystem.cpp:33-56 | in every interleaving, spurious wakeups included: the counter covers the waiting workers at every point, and the queued jobs never outnumber the woken workers while one waits, if and only if no worker goes to sleep with the counter at its maximum |
| `JobSystem.FewSleepsNeverWrap` | MiepMiep/JobSystem.cpp:129-138 | with fewer than 2^32 sleeps that does not happen |
| `JobSystem.CounterReaches` | MiepMiep/JobSystem.cpp:33-56 | every counter value below 2^32 is reached by a run of one worker that wakes up spuriously |
| `JobSystem.WakeupLost` | MiepMiep/JobSystem.cpp:90-138 | a run from the start after which a job is queued, the only worker waits and nobody was notified |
| `JobSystem.StepInv` | MiepMiep/JobSystem.cpp:33-151 | every step keeps the workers in their loops until closing and lets nobody wait while closing; it keeps the counter right if and only if it is not a sleep that wraps it |
| `JobSystem.JobsFifo` | MiepMiep/JobSystem.cpp:33-151 | in every run the jobs given to addJob are, in order, those the workers have started, then those stop threw away, then those still queued; so the jobs started are a prefix of those added, each started once |
| `JobSystem.StepWorkers` | MiepMiep/JobSystem.cpp:33-56 | a step starts a job only on the worker whose step it is, namely the one at the front of the queue, and all other workers go on with what they run |
| `JobSystem.WorkersStay` | MiepMiep/JobSystem.cpp:33-56 | in every run without a stop no worker leaves its loop |
| `JobSystem.ClosingStep` | MiepMiep/JobSystem.cpp:140-151 | once closing, every step of a worker decreases the measure and no other step increases it |
| `JobSystem.ClosingProgress` | MiepMiep/JobSystem.cpp:33-56 | once closing, a worker that has not exited can take a step |
| `JobSystem.ShutdownTerminates` | MiepMiep/JobSystem.cpp:118-151 | once closing, nobody waits again, each worker starts at most one more job, and after at most three steps per worker all have exited |
| `JobSystem.JobQueue.AddJob` | MiepMiep/JobSystem.cpp:90-116 | the job is at the end of the queue in any case; with a positive counter one waiter is notified and the counter decremented |
| `JobSystem.JobQueue.ExtractJob` | MiepMiep/JobSystem.cpp:118-127 | the oldest job, or none |
| `JobSystem.JobQueue.Turn` | MiepMiep/JobSystem.cpp:33-46 | the top of the worker loop: exit, run the job that was at the front, or count itself and wait |
| `JobSystem.JobQueue.AfterWait` | MiepMiep/JobSystem.cpp:43-56 | after the wait the job at the front is run, or with none the loop goes back to the top |
| `JobSystem.JobQueue.Close` | MiepMiep/JobSystem.cpp:143-146 | closing is set and every waiter woken |
| `JobSystem.JobQueue.Clear` | MiepMiep/JobSystem.cpp:148-149 | the queue is emptied and nothing else changes |
| `MasterSession.ElectFirstMax` | MiepMiep/MasterSession.cpp:117-169 | the election picks the first member of maximal score; without a positive score nothing changes |
| `MasterSession.HostAfterLeave` | MiepMiep/MasterSession.cpp:117-169 | after the host leaves, the recorded host is a member if and only if a remaining member has a positive score, and then it is the first member of maximal score |
| `MasterSession.OthersLeaveQuietly` | MiepMiep/MasterSession.cpp:117-132 | when another member leaves, exactly that one is gone, the host stays and nobody is told anything; a stranger changes nothing |
| `MasterSession.ToldOnce` | MiepMiep/MasterSession.cpp:98-164 | when the host leaves, each remaining member and the new host are told who is host exactly once, when a link joins that link is, and nobody else |
| `MasterSession.LastMemberLeaves` | MiepMiep/MasterSession.cpp:117-169 | when the last member leaves, the session stays and its host still names that member |
| `MasterSession.HostAgreement` | MiepMiep/MasterSession.cpp:67-78 | in every run that keeps a member the host is a member, and once all messages are processed exactly the host believes it is boss and all others name it |
| `MasterSession.FullMesh` | MiepMiep/MasterSession.cpp:220-241 | in every reachable peer-to-peer session each ordered pair of distinct members has had its connect request exactly once; a member other than the first was told twice to connect to itself |
| `MasterSession.ToldToConnectToHost` | MiepMiep/MasterSession.cpp:234-240 | in every reachable client-server session, how often a link was told to connect to another is how often it joined while that one was host, so once per join and to the host of the moment; never to itself |
| `MasterSession.JoinableExactly` | MiepMiep/MasterSession.cpp:210-213 | in every run the members are those who registered or joined and have not left since, in order, and the session can be joined if and only if it was not started or registered as open after the start, and is client-server or was left by nobody |
| `MasterSession.NoJoinAfterLeave` | MiepMiep/MasterSession.cpp:210-213 | after the first leave a peer-to-peer session is never joined again, in any run, and its members only become fewer |
| `MasterSession.NoJoinAfterStart` | MiepMiep/MasterSession.cpp:210-213 | after the start of a session not open after the start, no run joins it, and its members only become fewer |
| `MasterSession.Master.Join` | MiepMiep/MasterSession.cpp:98-115 | refused exactly when canJoin is false; otherwise the link is a member and told who is host |
| `MasterSession.Master.RequestConnects` | MiepMiep/MasterSession.cpp:220-241 | two requests per member in a peer-to-peer session, otherwise one, to the new link, naming the host |
| `MasterSession.Master.Remove` | MiepMiep/MasterSession.cpp:117-169 | members, leave flag, host and announcements after a removal; a stranger changes nothing |
| `MasterSession.RegisterHostOk` | MiepMiep/MatchMakerData.cpp:70-89 | registering makes the link host and first member, and tells it so |
| `MasterSession.JoinMeshed` | MiepMiep/MatchMakerData.cpp:111-130 | joining extends the mesh by exactly the missing requests |
| `LinkState.HandshakeSafe` | MiepMiep/LinkState.cpp:137-221 | in every interleaving the client is connected only if the host accepted, each end accepts at most once, and disconnect returns true at most once per end |
| `LinkState.DisconnectedAbsorbs` | MiepMiep/LinkState.cpp:205-282 | within the handshake a disconnected end stays disconnected |
| `LinkState.QuietAgreement` | MiepMiep/LinkState.cpp:74-177 | when everything sent was handled the ends agree on the state of the link if and only if no end was disconnected before it was connected, or disconnect was called on both |
| `LinkState.QuietConnected` | MiepMiep/LinkState.cpp:74-282 | when everything sent was handled both ends are connected if and only if connect was called and disconnect on neither end |
| `LinkState.SilentDisconnectLeavesHalfOpen` | MiepMiep/LinkState.cpp:243-282 | a run in which the client disconnects while connecting and the host stays connected |
| `LinkState.AcceptRevives` | MiepMiep/LinkState.cpp:205-221 | accept brings a disconnected end back exactly when it had been accepted before |
| `LinkState.LinkStateComponent.TryConnect` | MiepMiep/LinkState.cpp:190-203 | succeeds exactly from Unknown |
| `LinkState.LinkStateComponent.TryAccept` | MiepMiep/LinkState.cpp:205-221 | succeeds exactly when accepted before, unknown or connecting |
| `LinkState.LinkStateComponent.CanReceiveConnect` | MiepMiep/LinkState.cpp:223-241 | succeeds once, and not after a disconnect |
| `LinkState.LinkStateComponent.TryDisconnect` | MiepMiep/LinkState.cpp:243-282 | returns true exactly when it found the link connected |
| `SessionBuffer.SessionBase.BufferMessage` | MiepMiep/SessionBase.cpp:53-61 | the packets are appended to that channel's buffer only |
| `SessionBuffer.SessionBase.Add` | MiepMiep/SessionBase.cpp:63-80 | the new link is given the buffered packets of all eight channels and becomes a member |
| `SessionBuffer.SessionBase.ForLink` | MiepMiep/SessionBase.cpp:93-113 | erasing expired links while walking, every living link but the excluded one is given the packets, once and in order |
| `SessionBuffer.SessionBase.Send` | MiepMiep/Network.cpp:225-255 | the packets are appended to the buffer of that channel exactly if buffering was asked for, no other buffer changes, and forLink gives them to the links; the result is Fine exactly when a living member other than the excluded one exists |
| `SessionBuffer.SessionBase.SendToLink` | MiepMiep/Network.cpp:244-254 | without a session the named link is given the packets on that channel and every other link and channel nothing; nothing is sent exactly when no link is named |
| `SessionBuffer.SessionBase.Remove` | MiepMiep/Session.cpp:57-74 | the link and all expired links leave the list, the others keep their order |
| `SessionRuns.MemberConsistentIff` | MiepMiep/SessionBase.cpp:53-113 | in every interleaving of the parts of sends and adds, a member's history restricted to buffered packets equals the session's buffer if and only if, since its replay, no buffered send passed it over, came to it on top of the replay or overtook another, it was not replayed to twice, and none still has to come to it |
| `SessionRuns.LateJoinConsistency` | MiepMiep/SessionBase.cpp:63-80 | when operations do not overlap, buffered sends exclude nobody and a link is added once, every member, early or late, was given exactly the buffered packets in order |
| `SessionRaces.AddedBetweenHalves` | MiepMiep/Network.cpp:234-242 | after any run that allows the two calls, a link added between bufferMsg and forLink of a send ends up inconsistent |
| `SessionRaces.PassedOverWhileJoining` | MiepMiep/SessionBase.cpp:69-77 | after any run that allows the two calls, whoever is a member, a send that comes and goes between the replay and the entry in the list leaves the new link inconsistent |
| `SessionRaces.OvertakenSend` | MiepMiep/Network.cpp:234-242 | after any run in which nothing is owed to a member, two sends that overlap can leave it inconsistent though it got both |
| `SessionRaces.ExcludedMemberMisses` | MiepMiep/Network.cpp:225-243 | after any run that allows the call, a buffered send that excludes a member leaves it inconsistent |
| `SessionRaces.SendAlone` | MiepMiep/Network.cpp:225-255 | undisturbed, the parts of a buffered send make up the whole operation |
| `SessionUnbuffered.SendUnbufferedAlone` | MiepMiep/Network.cpp:225-255 | after any run, a send without buffering is one step that changes no buffer |
| `SessionUnbuffered.ReachesMembersOfTheMoment` | MiepMiep/Network.cpp:234-251 | in every run, at every later moment, an un-buffered send has given its packets whole, once and in order to the living members of its moment but the excluded one (or to the one link named), and to nobody else, links added later included |
| `SessionRaces.AddAlone` | MiepMiep/SessionBase.cpp:63-80 | undisturbed, the parts of addLink make up the whole operation |
| `SessionFragments.FragmentsContiguous` | MiepMiep/SessionBase.cpp:63-80 | in every run, on every link and channel no replay is inside of, the fragments of every message, live or replayed, are neighbours in order with consecutive wrapping sequence numbers if and only if no send to the link has fallen inside a message that was being replayed to it |
| `SessionFragments.TornExactly` | MiepMiep/SessionBase.cpp:72-75 | at every moment of every run a link has been given a torn message if and only if a send to it has fallen inside a message that was being replayed to it |
| `SessionFragments.TornRun` | MiepMiep/SessionBase.cpp:72-75 | for every message of two fragments and every other message, a run from the start in which the new member has been given the second between the fragments of the first |
| `TornStream.TornStreamIsStuck` | MiepMiep/PacketHelper.cpp:194-222 | on that member's channel nothing is ever handed over, whatever arrives and however often the jobs drain |
| `Codec.TextRoundTrip` | MiepMiep/BinSerializer.cpp:274-285 | a string that could be written is read back before any suffix if and only if it has no NUL |
| `Codec.ScanReads` | MiepMiep/BinSerializer.cpp:274-285 | whatever string is read from any bytes is NUL-free, shorter than the buffer, and its encoding was there |
| `Codec.MetaRoundTrip` | MiepMiep/BinSerializer.cpp:286-298 | whatever the iteration order, metadata is read back before any suffix if and only if it is NUL-free and has at most 65535 entries |
| `Codec.TooManyNeverRead` | MiepMiep/BinSerializer.cpp:291-296 | with a count above 65535 reading fails on any bytes |
| `Codec.WriteMapAll` | MiepMiep/BinSerializer.cpp:327-337 | a map is written completely if and only if its strings are short and it fits, and then it is the map's encoding |
| `Codec.AddressRoundTrip` | MiepMiep/BinSerializer.cpp:263-273 | an optional address is read back before any suffix |
| `Codec.U64RoundTrip` | MiepMiep/BinSerializer.cpp:173-179 | a 64-bit integer is read back before any suffix |
| `Codec.CodecRoundTrip` | MiepMiep/BinSerializer.cpp:249-337 | any sequence of integers, strings, metadata and optional addresses that could be written is read back, stopping exactly at the suffix, if and only if each value survives |
| `Codec.DecodedFaithful` | MiepMiep/BinSerializer.cpp:249-298 | from any bytes only such values are read |
| `Serializer.BinSerializer.GrowTo` | MiepMiep/BinSerializer.cpp:235-244 | for any capacity picked above the required size, what is written stays; foreign memory never grows |
| `Serializer.BinSerializer.WriteBytes` | MiepMiep/BinSerializer.cpp:196-203 | all bytes are appended, or nothing; fails exactly when foreign memory is too small |
| `Serializer.BinSerializer.Write32` | MiepMiep/BinSerializer.cpp:132-139 | the network-order bytes are appended |
| `Serializer.BinSerializer.WriteText` | MiepMiep/BinSerializer.cpp:322-326 | the characters and a NUL are appended; refused above 4095 characters |
| `Serializer.BinSerializer.WriteMeta` | MiepMiep/BinSerializer.cpp:327-337 | in whatever order the map iterates, count and strings are written up to the first string that is too long or does not fit, and success means that none was refused |
| `Serializer.BinSerializer.WriteAddress` | MiepMiep/BinSerializer.cpp:315-320 | presence byte and address are appended; with too little foreign memory it fails and at most the presence byte is |
| `Serializer.BinSerializer.ReadBytes` | MiepMiep/BinSerializer.cpp:188-194 | the next bytes, or failure without moving |
| `Serializer.BinSerializer.Read32` | MiepMiep/BinSerializer.cpp:165-171 | agrees with the pure reader on value, failure and position |
| `Serializer.BinSerializer.ReadText` | MiepMiep/BinSerializer.cpp:274-285 | the character loop agrees with the pure reader on value, failure and position |
| `Serializer.BinSerializer.ReadMeta` | MiepMiep/BinSerializer.cpp:286-298 | the entry loop with its wrapping counter terminates and agrees with the pure reader; existing entries are kept |
| `Serializer.BinSerializer.ReadAddress` | MiepMiep/BinSerializer.cpp:263-273 | agrees with the pure reader |
| `Addresses.ListRoundTrip` | MiepMiep/Endpoint.cpp:75-98 | a written address list is read back if and only if every entry survives and nothing follows it |
| `Addresses.AddressList.Write` | MiepMiep/Endpoint.cpp:77-84 | the entries are appended one after the other; owned memory fails exactly on an overlong string |
| `Addresses.AddressList.Read` | MiepMiep/Endpoint.cpp:85-98 | the loop until read meets write agrees with the pure reader and appends the entries |

## Left out

- Sockets, select loops, name resolution, logging, memory tracing and the pointer mechanics of shared and weak pointers: the network is a set of datagrams, a link is its identity, an expired link is one that left the set of living links.
- Resend timing, latency, rates: a resend may happen at any step.
- RPC dispatch by name and user callbacks: `handlePacket` appends to a list, `callRpc` to a log.
- Relayed packets: the stream theorems take relay to be off; `Packets.FlagsDecode` says when a relayed channel would decode.
- The second `beginUnfragmented` and `Util::cluster`: unused.
- `GroupCollection`, `Group`, `NetVariable`, `ReliableNew`, `Unreliable` and the `deprecated` directory: unfinished or empty.
- `BinSerializer` copy, move, `resetTo`, `setWrite`, nested serializers: ownership of memory, or no round trip by design. Signed integers, `bool`, `char` and floating-point numbers are written as the unsigned word of their size and add nothing.
- Positions and sizes of a serializer are unbounded here: a stream of 4 GiB, where the original's u32 positions would overflow, is not modelled. Likewise the growth factor, a float expression, is any capacity above the required size.
- An address is its 28 bytes (the size of the Windows SOCKADDR_INET); the Endpoint comparisons are not modelled.
- Metadata is a map whose iteration order is arbitrary, which covers the sorted order of the original.
- Link.Link.Receive: components are not created lazily here; each of the eight channels has its components from the start, and acks for a channel nobody sends on change nothing.
- MasterSession.HostAgreement: scores are unbounded and positive, and removals leave at least one member; what happens otherwise is `MasterSession.HostAfterLeave` and `MasterSession.LastMemberLeaves`.
- SessionUnbuffered.ReachesMembersOfTheMoment: a send without buffering to a whole session is one step here, while the original gives its packets to one link after the other, so a link that leaves or comes during that walk is not modelled.
- Searching for a session, result callbacks and session listeners of the matchmaker: plain lookups.
- LinkState.HandshakeSafe: the handshake of a client-server session over links that deliver each RPC exactly once; kick reasons, address lists in the accept message and peer-to-peer reconnects are not modelled.
- StreamTheorems.CleanRoundDelivers: like all liveness here, stated for runs in which the datagrams do arrive; nothing forces the network to deliver.
