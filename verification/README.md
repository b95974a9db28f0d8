# A verified model of OpenVBus

OpenVBus simulates Ethernet and CAN buses in a daemon, records and replays their traffic, paces
benchmark senders and shows packets in a GUI. This project models the five parts of it that carry
real invariants and proves what they promise, for all inputs, all runs and every order in which
commands, sends and drains can interleave.

| part | files |
|---|---|
| the bus engine as a state machine: scheduler, hubs, taps, control pipes | `Engine`, `FiringOrder`, `Sends`, `Overtaking`, `SendOrder`, `Taps`, `Recording`, `Disk`, `Fanout`, `Forwarding`, `PipeOwners`; the delay arithmetic in `Delay` |
| the engine's objects, up to the whole daemon | `Scheduler`, `Buses`, `Registry`, `Subscribers`, `Recorders`, `Clocks`, `Daemon`, `DaemonRuns` |
| the glob matcher, the filters and the GUI's packet rings | `Glob`, `Filters`, `Gui` |
| the VBUSCAP capture format | `Bytes`, `Capture` |
| the token-bucket pacer | `Pacer` |
| timed replay | `Replay`, `ReplaySync`, and `EndToEnd` for record-then-replay |
| the way of a command line from `vbusctl` to the daemon | `CommandLine` |

`Arith` holds arithmetic and list facts that several of them use.

## How it is built

**The engine.** `Engine.Run` folds a list of events (commands, pipe openings and hang-ups, sends,
drains, the firing of one delivery, its reception by one endpoint) into a state. `Engine.Valid`
says which lists can happen: the clock never runs backwards, a drain takes what
`Engine.IsDrain` allows, deliveries that a drain took are fired one by one and each is handed to
its targets one by one; anything else, including sends by an endpoint from inside its own
reception, may come in between. A drain may have read its time before other threads read later ones. Theorems about the engine quantify over all such lists. The
priority queue is used by its contract only: among items of equal time any may come first.

Objects are identified by the number of the step that made them, which stands for their address.

**The daemon.** `Daemons.Daemon` is the daemon as objects on the heap: the scheduler's queue, the
registry with its bus and sink objects, the SubInfo objects that queued deliveries share with it, and
the recorders that they keep open. Its methods are the commands, the sends and the drain loop, in
which endpoints may send from inside their own reception. A ghost trace lists the events they
realise, and the invariant `Ready` says that the objects amount to `Run(trace)` for a valid trace, as
long as the clock is within its 63 bits. So every theorem about runs holds of every daemon object;
`DaemonRuns` says so for the state, the recorders' files and the SubInfos.

Some definitions of `Daemons` are folded behind `Unfold`, a predicate that is always true and only
tells the verifier where to apply them. `Pacer.Lapse` is another such predicate.

**Clocks and widths.** `Clock.Now` returns some value not below the last. An Ethernet hub reads it
first for the time stamp and then for the delivery time, a CAN bus the other way round. Readings in a
run are below 2^63, as the clock's type has it; the delay product and quotient, the sum of reading
and delay, time stamps, tags and the replay subtraction wrap at 64 bits, payload lengths in a capture
at 32 bits, packet sizes in the GUI at 16 bits.
A ghost field of the clock counts the time slept for.

**What the functions compute** is said a second time without them. What methods and state machine
share as specification (the stamping of a frame, its due time, the text and the numbers of a filter,
a packet's fields, the end of a sender's run, the bytes of a header) has a law of its own in plain
numbers: `Sends`, `Filters.VlanRule`, `Gui.AcceptedShows`, `Pacer.CountersAreSends`,
`Capture.OpensExactly` and their neighbours. What recorders, sinks and subscribers get is stated
with the tags and payloads of the send commands.

**Properties that hold only under a condition** are stated with the exact condition: the matcher is
right for all patterns exactly on text without `*`; a capture reads back exactly when every payload
is under 2^32 bytes; the delivery time is exact exactly when nothing overflows; a frame can fire after
one that is due later exactly when its own delivery time overflows; of two waiting frames the first
sent fires first in every continuation exactly when it is due strictly earlier; a sorted replay never
goes back exactly when its end does not leave 64 bits, and keeps the captured spacing exactly when
the first frame is stamped or the second is not, on the same side of 2^64; a synchronised replay does
not wrap exactly when all captures start after time zero or none gives an origin; `vbusctl` arguments
arrive exactly when each is a word and the command fits the daemon's buffer. For delivery times and
replays, lemmas give inputs that fail the condition, and `Glob.SafeTexts` finds a pattern that fails
for every text with a `*`.

**Where the code and its documentation differ** the model follows the code. The record header of a
capture is not packed and has 32 bytes with padding, where `docs/protocol.md:234` has 24. A frame's
time stamp is the time of its send, where the same table has the time of its delivery. A recorder
that is switched off still writes the frames in flight, where `docs/protocol.md:71` closes the file.
`replay-udp` and `replay-sync` send every frame, where `docs/protocol.md:148` and
`docs/protocol.md:166` have only UDP frames. An Ethernet hub stamps every frame ETH2, whatever it
was.

## Model

| member | source | states |
|---|---|---|
| `Glob.GlobMatch` | `vbus-gui/src/model.cpp:27-43` | the matcher's loop terminates, returns what the step semantics `Scan` says, and reports how often it went round |
| `Glob.ScanDecidesMatches` | `vbus-gui/src/model.cpp:26-43` | on text without `*` the matcher agrees with the declarative meaning of `*` and `?`: remembering only the last star loses no match |
| `Glob.SafeTexts` | `vbus-gui/src/model.cpp:31-34` | the texts on which it is right for every pattern are exactly those without `*`, for each of the others some pattern fails |
| `Glob.LoopBound` | `vbus-gui/src/model.cpp:30-40` | on text without `*` the main loop goes round at most (pattern length + 1) times text length times |
| `Glob.LoopsAtLeast` | `vbus-gui/src/model.cpp:30-40` | and an accepted text takes at least one iteration per character |
| `Filters.PassesFilters` | `vbus-gui/src/model.cpp:45-56` | a packet passes exactly when every Include rule matches its text and no Exclude rule does, in the declarative sense of matching |
| `Filters.TextHasNoStar` | `vbus-gui/src/model.cpp:47-49` | the text handed to the matcher is always one on which the matcher is right |
| `Filters.TextIsWhole` | `vbus-gui/src/model.cpp:47-48` | the 48-byte buffer never cuts a packet's text |
| `Filters.TextDeterminesVlanAndSize` | `vbus-gui/src/model.cpp:47-49` | two packets have the same text exactly when they agree in VLAN and size |
| `Filters.LiteralPattern` | `vbus-gui/src/model.cpp:27-43` | a pattern without wildcards matches itself and nothing else |
| `Filters.LiteralRuleSelects` | `vbus-gui/src/model.cpp:45-56` | a rule spelled as one packet's text matches exactly the packets of that VLAN and size |
| `Filters.VlanRule` | `vbus-gui/src/model.cpp:45-56` | for every string of digits, the rule `vlan:` with it and ` *` selects exactly the packets of the VLAN it is the numeral of, whatever their size, and none if it has leading zeros |
| `Filters.SizeRule` | `vbus-gui/src/model.cpp:45-56` | so does `* size:` with the digits for the size, whatever the VLAN |
| `Filters.OrderIrrelevant` | `vbus-gui/src/model.cpp:50-54` | acceptance does not depend on the order of the rules |
| `Gui.AcceptedSplits` | `vbus-gui/src/model.cpp:173-189` | what a bus accepts from two queues in turn is what it accepts from each, the later in front |
| `Gui.AcceptedShows` | `vbus-gui/src/model.cpp:177-186` | the packets that a bus gains show, one for one, its frames that its rules let through |
| `Gui.SizeRuleSelects` | `vbus-gui/src/model.cpp:177-186` | a bus whose only rule asks for a size gains exactly its frames of that length modulo 2^16 |
| `Gui.PushKeepsRecent` | `vbus-gui/src/model.cpp:187-188` | pushing in front and dropping the oldest past 4096 keeps the ring the first 4096 of the history |
| `Gui.RingHolds` | `vbus-gui/src/model.cpp:187-188` | a ring is the first 4096 packets of its history, or all of a shorter one |
| `Gui.Model.DeleteBus` | `vbus-gui/src/model.cpp:95-114` | the one bus of that id goes, with its subscription; an unknown id changes nothing |
| `Gui.Model.DrainQueue` | `vbus-gui/src/model.cpp:167-189` | the queue is emptied and each bus gains exactly its own frames that its rules let through, newest first; each packet gained has its frame's time stamp and protocol, no VLAN, the length modulo 2^16 as size, and a preview of the first 64 bytes, zero beyond the end |
| `Gui.Model.MockTraffic` | `vbus-gui/src/model.cpp:191-207` | without the daemon, each enabled unsubscribed bus gains its mock packet if its rules accept it, and otherwise nothing changes |
| `Gui.Model.Tick` | `vbus-gui/src/model.cpp:150-208` | after any run of ticks each ring is the newest 4096 of all packets its bus ever accepted; a tick adds exactly the packets that show the frames let through, and in front of them at most one mock packet with the tick's time |
| `Bytes.Le4ReadsBack` | `vbus/src/taps/recorder.h:23` | a 32-bit field reads back from its four bytes |
| `Bytes.Le8ReadsBack` | `vbus/src/taps/recorder.h:21-22` | a 64-bit field reads back from its eight bytes |
| `Bytes.LowestFirst` | `vbus/src/taps/recorder.h:23` | four bytes are read lowest first, and are the only four that read so |
| `Bytes.LowestFirst8` | `vbus/src/taps/recorder.h:21-22` | so are eight |
| `Capture.Recorder.Open` | `vbus/src/taps/recorder.cpp:7-16` | a new recorder's file is the 16-byte header; a file that cannot be created leaves the recorder failed |
| `Capture.Recorder.Write` | `vbus/src/taps/recorder.cpp:23-36` | appends exactly one encoded record to an open recorder, and after a close or a failure leaves the file alone |
| `Capture.Recorder.Close` | `vbus/src/taps/recorder.cpp:18-21` | what was written stays; a failed stream is not closed |
| `Capture.Replayer.Open` | `vbus/src/taps/recorder.cpp:38-51` | succeeds exactly on a file that is there, is long enough for the header, and has the magic and version 1 |
| `Capture.OpensExactly` | `vbus/src/taps/recorder.cpp:42-50` | the files that open are exactly those of 16 bytes or more that begin with the letters VBUSCAP and have the bytes 1, 0, 0, 0 from the ninth on |
| `Capture.Replayer.Next` | `vbus/src/taps/recorder.cpp:53-67` | reads one whole record or fails for good, whatever the caller's frame held before |
| `Capture.Replayer.ReadAll` | `vbus/src/daemon/vbusd.cpp:304-313` | calling `Next` until it fails yields exactly the frames of the rest of the file |
| `Capture.HeaderFields` | `vbus/src/taps/recorder.h:17-24` | each field of the 32-byte record header reads back from its own offset, whatever is in the padding, and the flags and the reserved field are 0 |
| `Capture.ReadOneWritten` | `vbus/src/taps/recorder.cpp:23-67` | one written record reads back as its frame, with the payload kept up to its length modulo 2^32, and leaves what follows |
| `Capture.RoundTrip` | `vbus/src/taps/recorder.cpp:7-67` | reading a written capture yields the frames written exactly when every payload is shorter than 2^32 bytes |
| `Capture.WholeFile` | `vbus/src/taps/recorder.cpp:7-67` | a written file opens, and its contents are the frames written |
| `Capture.CutCapture` | `vbus/src/taps/recorder.cpp:53-67` | records cut at any byte read as the longest run of whole records, then nothing |
| `Capture.CutFile` | `vbus/src/taps/recorder.cpp:38-67` | a file cut at any byte opens exactly when the header is whole, and then reads as the longest run of its frames that is whole |
| `Capture.CutIsPrefix` | `vbus/src/taps/recorder.cpp:53-67` | cutting arbitrary bytes anywhere never invents or alters a frame: what is read is a prefix of what the whole would give |
| `Capture.ReadingConsumes` | `vbus/src/taps/recorder.cpp:53-67` | on arbitrary bytes every frame read takes at least a record header, so a read loop ends within a bound on the file's length |
| `Capture.FileAppend` | `vbus/src/taps/recorder.cpp:23-36` | appending a record to the file of a list of frames gives the file of the longer list |
| `Delay.DelayExact` | `vbus/src/bus/eth_bus.cpp:25-26` | the 64-bit delay is the exact one if and only if neither product nor quotient overflows |
| `Delay.DueExact` | `vbus/src/bus/eth_bus.cpp:25-27` | the delivery time is the reading plus the exact delay if and only if the signed sum does not overflow either |
| `Delay.DueMonotone` | `vbus/src/bus/can_bus.cpp:23-27` | within that range a frame no shorter and read no earlier is due no earlier, strictly later if read strictly later, and none before its reading |
| `Delay.GibibyteFits` | `vbus/src/bus/eth_bus.cpp:25-27` | every payload under a gibibyte is within range on any bus at any rate, for the first 19 years of the clock |
| `Delay.NegativeExactly` | `vbus/src/bus/eth_bus.cpp:26` | a delay comes out negative if and only if the rate is one bit per second and the wrapped product has its top bit set |
| `Delay.PastExactly` | `vbus/src/bus/can_bus.cpp:26-27` | a frame is due before the reading its time is computed from if and only if its delay is negative or the sum reaches 2^63 |
| `Delay.PastOnSlowBus` | `vbus/src/bus/eth_bus.cpp:25-27` | the inputs: on an Ethernet bus of one bit per second a payload of 1152921487 bytes at any reading, or of one byte less from 4854775808 ns on |
| `Clocks.Clock.WaitUntil` | `vbus/src/daemon/vbusd.cpp:309-310` | polling ends, and not before the given time; it sleeps if and only if its first look at the clock comes before that time, in steps of 100 µs, and less than one step longer than was missing then |
| `Scheduling.Scheduler.Collect` | `vbus/src/core/scheduler.cpp:13-20` | takes, in order of time, exactly the queued items that are due, for every way of breaking ties, and leaves the rest |
| `Scheduling.Scheduler.RunUntil` | `vbus/src/core/scheduler.cpp:11-23` | a drain calls exactly what was due at entry, sorted; what the calls themselves post is queued and not called, even if due |
| `Scheduling.Scheduler.Run` | `vbus/src/core/scheduler.cpp:25-36` | calls everything queued at entry, sorted, and ends even when every call posts again |
| `Scheduling.MoveLeast` | `vbus/src/core/scheduler.cpp:16-19` | moving some least item from the heap to the end of the list keeps the list sorted, nothing left earlier than it, and no item lost |
| `Scheduling.TakesExactlyDue` | `vbus/src/core/scheduler.cpp:16-19` | a drain is one that takes, sorted by time, every delivery exactly as often as it is queued if its time has come, and otherwise not at all |
| `Buses.Bus.Send` | `vbus/src/bus/eth_bus.cpp:20-62` | posts the one delivery of the bus as it is now, with the tag and payload it was given, the protocol number of the bus and a reading of the clock as time stamp, and names the forward callback to run at once |
| `Buses.Bus.SendEth` | `vbus/src/bus/eth_bus.cpp:20-44` | the delivered frame has protocol 1, the given tag and payload, and the first of two readings as its stamp; the second gives the delivery time |
| `Buses.Bus.SendCan` | `vbus/src/bus/can_bus.cpp:20-47` | the delivered frame stays protocol 3 or becomes 2, with the given tag and payload and the second of two readings as its stamp; the first gives the delivery time |
| `Buses.Bus.OtherThan` | `vbus/src/bus/eth_bus.cpp:38-40` | collects every connection except the sender's, in order |
| `Fanout.OthersInOrder` | `vbus/src/bus/eth_bus.cpp:38-40` | the targets keep the order of the connections |
| `Buses.UdpSink.Start` | `vbus/src/net/udp_sink.cpp:20-60` | sets the bus's forward callback to this sink exactly when it starts; a failed or repeated start changes nothing on the bus |
| `Buses.UdpSink.Stop` | `vbus/src/net/udp_sink.cpp:62-75` | clears the forward callback if and only if the sink was active |
| `Registries.AttachRecorder` | `vbus/src/daemon/vbusd.cpp:108-122` | detaches the old recorder, and leaves owner and callback naming the new one or, when the file cannot be opened, none |
| `Registries.DetachRecorder` | `vbus/src/daemon/vbusd.cpp:54-63` | owner and callback are both cleared and nothing else changes |
| `Registries.StartForward` | `vbus/src/daemon/vbusd.cpp:370-374` | stops the old sink, and leaves owner and callback naming the new one or, when it fails to start, none |
| `Registries.StopForward` | `vbus/src/daemon/vbusd.cpp:384` | stops the sink, clearing owner and callback |
| `Registries.Registry.Create` | `vbus/src/daemon/vbusd.cpp:146-162` | a new bus, without taps, under a name not in use; a name in use is refused and changes nothing; all other buses stay as they are |
| `Registries.Registry.Delete` | `vbus/src/daemon/vbusd.cpp:165-176` | exactly the named bus goes, its callbacks cleared and its sink stopped; an unknown name is refused and changes nothing |
| `Registries.Registry.RecordOn` | `vbus/src/daemon/vbusd.cpp:186-192` | changes one bus as the state machine says, keeping every bus's owners and callbacks in agreement |
| `Registries.Registry.RecordOff` | `vbus/src/daemon/vbusd.cpp:193-208` | the same for switching a recorder off |
| `Registries.Registry.ForwardOn` | `vbus/src/daemon/vbusd.cpp:366-377` | the same for starting a sink, failed starts included |
| `Registries.Registry.ForwardOff` | `vbus/src/daemon/vbusd.cpp:380-387` | the same for stopping one |
| `Registries.Registry.Subscribe` | `vbus/src/daemon/vbusd.cpp:528-536` | the subscription callback of the named bus is set; an unknown name is refused and changes nothing |
| `Registries.Registry.Connect` | `vbus/src/bus/eth_bus.cpp:10-13` | one more occurrence of the endpoint on the named bus, no other bus touched |
| `Registries.Registry.Disconnect` | `vbus/src/bus/eth_bus.cpp:15-18` | every occurrence of the endpoint goes, the others keep their order |
| `Subscribers.PipeServer.Attach` | `vbus/src/daemon/vbusd.cpp:67-74` | on the SubInfo object: the pipe held before is closed and the new one passes from its thread to it; the table of all pipes changes as the state machine says |
| `Subscribers.PipeServer.Detach` | `vbus/src/daemon/vbusd.cpp:101-105` | the SubInfo object lets go of its pipe, which is closed once; no other SubInfo changes |
| `Subscribers.PipeServer.Write` | `vbus/src/daemon/vbusd.cpp:86-92` | a message goes to the pipe held now; a failed write closes it and empties the SubInfo object; without a pipe nothing happens |
| `Subscribers.PipeServer.Accept` | `vbus/src/daemon/vbusd.cpp:562-586` | a connected pipe is served by a thread, any other is closed; the SubInfos stay as they are |
| `Subscribers.PipeServer.Leave` | `vbus/src/daemon/vbusd.cpp:568-583` | a pipe whose read loop ends is closed by its thread; the SubInfos stay as they are |
| `Recorders.RecorderPool.Open` | `vbus/src/daemon/vbusd.cpp:108-114` | a recorder whose file can be created joins those that are open, with a file that is the header alone; no other file changes |
| `Recorders.RecorderPool.Write` | `vbus/src/daemon/vbusd.cpp:115-121` | one record is appended to the file of that recorder and to no other |
| `Daemons.Daemon.Change` | `vbus/src/daemon/vbusd.cpp:186-208` | connect, disconnect, record off and stop-forward: the trace grows by the event and the daemon's objects are in the state the longer trace leads to |
| `Daemons.Daemon.RecordOn` | `vbus/src/daemon/vbusd.cpp:186-192` | the same, with the file that is opened |
| `Daemons.Daemon.ForwardOn` | `vbus/src/daemon/vbusd.cpp:366-377` | the same, with the sink that is started |
| `Daemons.Daemon.Create` | `vbus/src/daemon/vbusd.cpp:146-162` | the same, with a new bus and SubInfo; a name in use is refused and changes nothing |
| `Daemons.Daemon.Delete` | `vbus/src/daemon/vbusd.cpp:165-176` | the same, with the pipe closed and the taps released; an unknown name is refused |
| `Daemons.Daemon.Subscribe` | `vbus/src/daemon/vbusd.cpp:528-536` | the same, with the pipe handed to the bus's SubInfo; an unknown name is refused |
| `Daemons.Daemon.Send` | `vbus/src/daemon/vbusd.cpp:232-241` | the same, with the delivery posted, counted and forwarded; on an unknown bus nothing is sent |
| `Daemons.Daemon.Drain` | `vbus/src/core/scheduler.cpp:11-20` | the same, with what is due at a time read earlier taken out of the queue, whatever was sent since that reading |
| `Daemons.Daemon.Fire` | `vbus/src/bus/eth_bus.cpp:51-56` | the same, with the record written by the recorder the delivery carries and the message offered to the SubInfo of its bus |
| `Daemons.Daemon.Deliver` | `vbus/src/bus/eth_bus.cpp:57-60` | the same, with the next target reached and counted |
| `Daemons.Daemon.RunUntil` | `vbus/src/core/scheduler.cpp:11-23` | a whole drain, whose endpoints send as they receive: what fired is exactly a sorted drain of the queue at entry for the given time, what was not due and what was sent meanwhile stays queued, and the trace goes on from the old one |
| `Daemons.Daemon.Turn` | `vbus/src/daemon/vbusd.cpp:598-601` | one turn of the main loop, to be followed by commands and further turns: a reading of the clock made in it, and the drain for that reading |
| `DaemonRuns.TraceIsRun` | `vbus/src/daemon/vbusd.cpp:590-601` | a daemon object whose clock is in range is in the state its trace leads to, and the trace can happen |
| `DaemonRuns.RecorderHolds` | `vbus/src/daemon/vbusd.cpp:108-122` | the file of a recorder object is the header and the records of exactly the fired frames sent while it was attached |
| `DaemonRuns.SubInfoHolds` | `vbus/src/daemon/vbusd.cpp:67-106` | the SubInfo object of a bus holds the pipe of the last to subscribe, unless a write to it has failed |
| `FiringOrder.ExactlyOnce` | `vbus/src/core/scheduler.cpp:6-23` | in every run each accepted send is, exactly once, pending, about to fire or fired, as the delivery made at its own moment, and nothing else ever is |
| `FiringOrder.FiresInTurn` | `vbus/src/core/scheduler.cpp:11-23` | a frame whose delivery time is not before its own readings never fires after one due later, over all drains and whatever the other sends are |
| `FiringOrder.FiredInOrder` | `vbus/src/core/scheduler.cpp:11-23` | in a run none of whose frames is due before its readings, delivery times never decrease over all drains, and nothing pending is due before what fired |
| `FiringOrder.EarlierFiresFirst` | `vbus/src/core/scheduler.cpp:11-23` | of two sends the one due strictly earlier fires before the other, if it was sent first or is not due before its own readings |
| `FiringOrder.NotBeforeItsTime` | `vbus/src/core/scheduler.cpp:16-22` | a delivery that fires was posted before the latest drain and was due by the time that drain read; none is fired early or by the drain that runs when it is posted |
| `Sends.DeliversAsSent` | `vbus/src/bus/can_bus.cpp:20-30` | in every run each accepted send posts one delivery of the bus its name stood for, with the tag and payload it was given; on an Ethernet hub as protocol 1 with the first reading as stamp, on a CAN bus as protocol 3 if it was 3 and else 2, with the second |
| `Sends.DueAfterStamp` | `vbus/src/bus/eth_bus.cpp:22-27` | within 64 bits an Ethernet frame is due its (payload + 18) * 8 bit times after the reading made after its stamp, a CAN frame its 43 (CAN FD 67) bits and its payload after the reading made before its stamp |
| `Sends.SentAgain` | `vbus/src/bus/can_bus.cpp:28-30` | a delivered frame sent again on a bus of the same kind, in any run, is delivered with the same protocol, tag and payload |
| `Taps.CallbackIsTap` | `vbus/src/daemon/vbusd.cpp:108-122` | in every run a bus's record (forward) callback targets the recorder (sink) last attached and not since detached, and is not set otherwise |
| `Taps.TapsCoherent` | `vbus/src/daemon/vbusd.cpp:164-208` | after every command sequence, failures included, owners and callbacks of each bus agree, and pipes are held only for live buses whose subscription callback is set |
| `Recording.SentToRecorder` | `vbus/src/bus/eth_bus.cpp:41-54` | which recorder a delivery writes to is decided when it is sent |
| `Recording.RecordingWindow` | `vbus/src/daemon/vbusd.cpp:54-122` | for any interleaving, what a recorder writes is byte for byte the header and the records of exactly the fired frames sent between its attach and its detach, in firing order, in-flight frames included and later ones not, each with the tag and payload of its send; as a file of its own it opens and reads as those frames |
| `Disk.RecordingOnDisk` | `vbus/src/daemon/vbusd.cpp:108-122` | so does the file at its path, as long as nobody opens the path again or writes to it through another recorder |
| `Disk.OwnPath` | `vbus/src/daemon/vbusd.cpp:108-114` | which is so if no other recorder of the run is given the path |
| `Disk.SharedPath` | `vbus/src/daemon/vbusd.cpp:54-63` | the input: recording a bus twice to one path with a frame in flight leaves a frame in the second file that was sent before it |
| `Overtaking.OutOfTurnExactly` | `vbus/src/bus/eth_bus.cpp:25-27` | a given frame, on a bus of a given kind and rate and at a given reading, fires after a delivery due later in some run if and only if its delivery time overflows |
| `Overtaking.LongFrameOutOfTurn` | `vbus/src/bus/eth_bus.cpp:25-27` | the inputs: for a payload of 1152921487 bytes, or one byte less after five seconds, on a bus of one bit per second there is such a run |
| `Overtaking.OrderExactly` | `vbus/src/core/scheduler.h:20-24` | of two frames waiting in any run, on whatever buses, the one sent first fires first in every continuation if and only if it is due strictly earlier |
| `Overtaking.SendOrderExactly` | `vbus/src/bus/can_bus.cpp:20-62` | so do two frames sent one right after the other in any run, whatever else the daemon is doing |
| `SendOrder.LaterIsDueLater` | `vbus/src/bus/eth_bus.cpp:20-27` | on one bus a frame read strictly later, of the same class, not shorter and with a delivery time in range, is due strictly later |
| `SendOrder.DeliveredInSendOrder` | `vbus/src/bus/can_bus.cpp:20-62` | so it fires later, in every run, whatever the other frames are |
| `SendOrder.CaptureIsSorted` | `vbus/src/taps/recorder.cpp:23-36` | a recording of such traffic has strictly increasing time stamps, the precondition of a timed replay |
| `Fanout.TargetsAreConnections` | `vbus/src/bus/eth_bus.cpp:36-40` | the targets of a frame are the connections counted over all Connect and Disconnect commands before the send, the sender's excepted |
| `Fanout.FanOut` | `vbus/src/bus/eth_bus.cpp:57-60` | a fired frame reaches each endpoint exactly as often as it was connected at Send time, and its sender not at all |
| `Fanout.AlwaysReaching` | `vbus/src/bus/eth_bus.cpp:57-60` | frames are received in firing order, each by its targets in their order |
| `Fanout.NothingUnfired` | `vbus/src/bus/eth_bus.cpp:51-61` | nobody receives a frame that has not fired |
| `Fanout.TxConserved` | `vbus/src/bus/eth_bus.cpp:29` | Tx is the number of the bus's frames pending plus the number fired |
| `Fanout.RxConserved` | `vbus/src/bus/eth_bus.cpp:57-60` | Rx is the sum of the target counts of the fired frames, less what the one under way has still to reach |
| `Forwarding.ForwardsInSendOrder` | `vbus/src/net/udp_sink.cpp:49-83` | a sink sends exactly the non-empty frames sent on its bus between its start and its stop, once each, in send order, with the tags and payloads of the sends |
| `PipeOwners.OneOwner` | `vbus/src/daemon/vbusd.cpp:549-588` | in every run each opened pipe is served by a thread, held by exactly one bus, or closed exactly once |
| `PipeOwners.ClosedIsSilent` | `vbus/src/daemon/vbusd.cpp:86-92` | a closed pipe stays closed, is not closed again and is never written to, not even by deliveries already queued |
| `PipeOwners.HolderIsSubscriber` | `vbus/src/daemon/vbusd.cpp:67-106` | in every run a bus's SubInfo holds the pipe of the last to subscribe, as the commands say, until the bus is deleted or a write fails |
| `PipeOwners.SubscribeReplaces` | `vbus/src/daemon/vbusd.cpp:69-74` | when a bus that has a subscriber gets a new one, the old one's pipe is closed exactly once and is never written to nor anyone's subscriber again, in any continuation |
| `PipeOwners.SubCallback` | `vbus/src/daemon/vbusd.cpp:94-106` | a live bus's subscription callback is set exactly when some subscription was made to it since it was created |
| `PipeOwners.SubscriberGets` | `vbus/src/daemon/vbusd.cpp:75-93` | the frames written to a pipe are exactly those that fired on a bus, sent since someone first subscribed to it, while the pipe was its subscriber as the commands and failed writes say, when the write went through, in firing order and with the tags and payloads of their sends |
| `Pacer.PacketsAreFew` | `vbus/src/cli/vbus_bench.cpp:68-74` | a faster rate never gets smaller packets, and up to 19.8 Gbit/s no rate needs more than 38147 packets a second |
| `Pacer.FloorRefill` | `vbus/src/cli/vbus_bench.cpp:193-195` | refilling by the exact floor never pays more than was earned and loses less than a bit |
| `Pacer.NothingFromNothing` | `vbus/src/cli/vbus_bench.cpp:188-232` | what is in the bucket and what was sent never exceed what was in it and what was earned, over any run, partial TCP sends included |
| `Pacer.WindowBound` | `vbus/src/cli/vbus_bench.cpp:173-217` | in any window of any run the bits sent are at most four packets (one from the start) plus the rate times the window's length |
| `Pacer.FourAtOnce` | `vbus/src/cli/vbus_bench.cpp:197-209` | four packets in no time do happen: after a pause that fills the bucket, of any four or more sends at one moment exactly four leave |
| `Pacer.StartsWithOne` | `vbus/src/cli/vbus_bench.cpp:175-176` | of any number of sends at the very start exactly one leaves |
| `Pacer.ExactLedger` | `vbus/src/cli/vbus_bench.cpp:188-217` | bucket plus what was paid for sending is exactly the start plus the rounded refills less what the cap took; what was paid is what was sent, but for UDP packets cut short |
| `Pacer.PaidExactly` | `vbus/src/cli/vbus_bench.cpp:302-306` | UDP pays a whole packet for each send that succeeds, however much of it was sent; TCP pays what was sent |
| `Pacer.RateAchieved` | `vbus/src/cli/vbus_bench.cpp:188-217` | a sender that keeps up falls behind its rate by at most a packet and one bit per turn |
| `Pacer.Starves` | `vbus/src/cli/vbus_bench.cpp:191-195` | a loop that always comes round within one bit time earns nothing and never sends again once short |
| `Pacer.WaitIsTight` | `vbus/src/cli/vbus_bench.cpp:219-224` | the wait earns at most the deficit, one nanosecond more earns at least it, and the wait itself earns it exactly when the division is even |
| `Pacer.WaitFits` | `vbus/src/cli/vbus_bench.cpp:221-224` | no product of the pacing arithmetic leaves 64 bits for the packet sizes the code picks |
| `Pacer.RunSender` | `vbus/src/cli/vbus_bench.cpp:275-321` | the sender's loop, UDP or TCP, stops exactly at the first turn at or past the duration or after the first that finds the connection gone; every turn taken comes within the duration, so the bytes of a whole run are at most one packet and what the rate allows up to its end; bucket, tokens and counters are those of the turns taken |
| `Pacer.TallyIsSent` | `vbus/src/cli/vbus_bench.cpp:302-311` | the byte counter is exactly the bits that the window bounds speak of |
| `Pacer.CountersAreSends` | `vbus/src/cli/vbus_bench.cpp:207-217` | the packet and error counters are the numbers of the turns that had a packet's tokens and whose send succeeded or failed |
| `Pacer.NoDropExactly` | `vbus/src/cli/vbus_bench.cpp:302-311` | a run goes without a drop exactly if it is UDP or no send it tried returned an error |
| `Pacer.TotalBound` | `vbus/src/cli/vbus_bench.cpp:288-306` | the bytes of a whole run with a duration are at most one packet and the rate times the time from the first filling to the end of the duration |
| `Replay.Replay` | `vbus/src/daemon/vbusd.cpp:298-314` | every mode sends all frames of the capture, each once and in file order, at readings of the clock none before the start; no timed frame goes before its time, which counts from the start, a reading made after the file was opened, and none whose time has come is slept for; burst mode never sleeps |
| `Replay.ReadingsInOrder` | `vbus/src/daemon/vbusd.cpp:304-313` | such a log has times that never decrease and lie between the two readings it was made between |
| `Replay.SortedFromOrigin` | `vbus/src/daemon/vbusd.cpp:306-307` | in a sorted capture no frame lies before the origin, so its offset does not wrap |
| `Replay.ExactTime` | `vbus/src/daemon/vbusd.cpp:306-308` | in exact mode the time is the start plus the signed distance from the origin, modulo 2^64, for any capture |
| `Replay.ScaledBetween` | `vbus/src/daemon/vbusd.cpp:307` | an offset is the distance times the factor, rounded down |
| `Replay.Later` | `vbus/src/daemon/vbusd.cpp:307-308` | of two offsets the larger is due no earlier if and only if both sums with the start leave 64 bits or neither does, and then the two are the scaled distance apart |
| `Replay.SortedReplay` | `vbus/src/daemon/vbusd.cpp:304-313` | in a sorted capture, with offsets that scale within 64 bits, a later frame is due no earlier if and only if both sums leave 64 bits or neither does |
| `Replay.NeverBackExactly` | `vbus/src/daemon/vbusd.cpp:304-313` | under the same proviso the times of a whole sorted capture never decrease if and only if the last of them does not leave 64 bits |
| `Replay.GoesBack` | `vbus/src/daemon/vbusd.cpp:308` | the input: time stamps 1 and 2^64-1, from any start after 1 |
| `Replay.SpacingKept` | `vbus/src/daemon/vbusd.cpp:306-308` | between two frames on the same side of 2^64 the time elapsed is the distance of their offsets times the factor, to a nanosecond; that distance is the captured one if and only if the first is stamped or the second is not |
| `Replay.SpacingExactly` | `vbus/src/daemon/vbusd.cpp:306-308` | in exact mode two frames of a sorted capture are sent as far apart as captured if and only if the first is stamped or the second is not, and both lie on the same side of 2^64 |
| `Replay.ZeroStart` | `vbus/src/daemon/vbusd.cpp:306` | the input: in a capture that starts at time zero the first stamped frame is due at the start, like the unstamped ones |
| `ReplaySync.FindOrigin` | `vbus/src/daemon/vbusd.cpp:465-477` | stops at the first file that does not open, and otherwise finds the smallest positive first time stamp of all files, or 0 |
| `ReplaySync.OriginIsLeast` | `vbus/src/daemon/vbusd.cpp:470-477` | the origin is the least positive first time stamp of the captures, and 0 exactly if none gives one |
| `ReplaySync.Stream` | `vbus/src/daemon/vbusd.cpp:484-519` | a stream sends all its frames in order, at readings of the clock in order, none before the common start, no timed one before its time; once the start has come, burst mode never sleeps and no frame whose time has come is slept for |
| `ReplaySync.WrapsExactly` | `vbus/src/daemon/vbusd.cpp:473-509` | for sorted captures no subtraction wraps if and only if all start after time zero or none gives an origin |
| `ReplaySync.ZeroBesideLater` | `vbus/src/daemon/vbusd.cpp:474-510` | the input: a capture from time zero beside a later one wraps, and from an early start is due some 2^64 ns late |
| `ReplaySync.Aligned` | `vbus/src/daemon/vbusd.cpp:505-513` | when no subtraction wraps, across all streams and at any scale within 64 bits, the frame captured later is due no earlier if and only if both sums leave 64 bits or neither does, and then as far apart as captured times the factor |
| `ReplaySync.AlignedExactly` | `vbus/src/daemon/vbusd.cpp:505-513` | in exact mode two frames of any streams are due exactly as far apart as captured if and only if their signed times lie in the same stretch of 2^64 ns, whether or not a subtraction wraps |
| `EndToEnd.ReplaysAsSent` | `vbus/src/daemon/vbusd.cpp:304-313` | a recording of non-shrinking traffic holds the tags and payloads of its sends and replays in send order; under the same exact conditions its times never decrease and, in exact mode, are as far apart as the sends |
| `EndToEnd.ReplayRedelivers` | `vbus/src/daemon/vbusd.cpp:304-313` | a frame of a recording, sent again in any run on a bus of the same kind, is delivered with the tag, the protocol number and the payload modulo 2^32 of one of the recorded sends |
| `CommandLine.Join` | `vbus/src/cli/vbusctl.cpp:33-38` | the arguments, with one space between each two |
| `CommandLine.Split` | `vbus/src/daemon/vbusd.cpp:132-138` | the words of the line as `>>` extracts them |
| `CommandLine.Chomp` | `vbus/src/daemon/vbusd.cpp:571-572` | drops all line ends at the end of a message |
| `CommandLine.ChompedExactly` | `vbus/src/daemon/vbusd.cpp:571-572` | what is dropped is line ends, and none is left at the end |
| `CommandLine.SendCommand` | `vbus/src/cli/vbusctl.cpp:10` | the joined arguments with a newline after them |
| `CommandLine.ReadCommand` | `vbus/src/daemon/vbusd.cpp:568-574` | a message that fits the buffer is read as the words of its line; a longer one ends the thread of the pipe |
| `CommandLine.ArgumentsArrive` | `vbus/src/cli/vbusctl.cpp:33-38` | the daemon sees exactly the given arguments if and only if each is non-empty and free of white space, and the joined command is shorter than 65535 characters |
| `CommandLine.PrintableArrive` | `vbus/src/daemon/vbusd.cpp:132-138` | arguments of characters above the space arrive as given if the command is shorter than 65535 characters |

## Left out

- `Engine.Run`: steps are atomic. One `Send` reads the clock, snapshots and posts as one step, as do commands; real thread races, such as a callback running between two statements of `attachSub`, are not modelled. The reading of a drain's time and its collection are separate.
- `Daemons.Daemon`: counters, the sinks' logs and the messages are values of the daemon rather than objects of their own, and a bus's SubInfo is looked up by the bus's identity when a delivery fires. The object's clock is unbounded; once it passes 2^63 ns nothing is claimed.
- `Scheduling.Scheduler`: no order is promised among items of equal time, as the source promises none.
- `Clocks.Clock`: what happens when the clock itself passes 2^63 ns, some 292 years after it starts, is not modelled. Sums of readings and delays do wrap.
- `Delay.Due`: the signed sum is taken to wrap when it overflows, which the language leaves open.
- `Fanout.TxConserved`: counters do not wrap at 64 bits, and the counters of a deleted bus are kept. Using a bus after its deletion, by a pending delivery or a replay thread, is assumed not to fail.
- `Disk.RecordingOnDisk`: no exact condition is given, since a second recorder may happen to write the very bytes that are there. Records reach the disk when they are written; buffering in the stream, failing writes and the frames still queued when the daemon quits are not modelled.
- `Replay.Replay`: the scale is a non-negative ratio and offsets round down exactly; floating-point rounding, negative or unparsable scales are not modelled, nor offsets that scale beyond 64 bits, whose conversion the language leaves open. The same loop serves `replay` and `replay-udp`; the sockets and the bus at its other end are a log.
- `ReplaySync.Stream`: the common start is a parameter; it is a reading of the clock plus 50 ms.
- `Pacer.RunSender`: the refill is the exact floor; double rounding is not modelled, and the results of the socket calls and the times of the turns are inputs. Every theorem about windows holds for any refill that never overpays.
- `Glob.LoopBound`: no bound is given for text that contains `*`; the loop terminates there too, but the matcher's only caller never gives it such text.
- `Gui.Model.Tick`: the log, and subscribing all buses of a loaded project when the daemon comes up, are left out. Frames received while a tick runs wait for the next one.
- `Capture.Recorder.Write`: the writes of an open stream are assumed to succeed.
- The GUI's client for live subscriptions: it reads a packed 24-byte header where the daemon sends the unpacked record header, so that round trip does not hold of the code.
- `RingBuffer` of the GUI is not used by it.
- UDP and TCP capture endpoints, socket and pipe system calls, the panels, project files and JSON: input, output and user interface.
- The command parser of the daemon beyond splitting into words, `list`, `stats`, the hex decoder and the responses: easy members.
- CAN arbitration and bus errors: the code has none.
