# A verified model of the POM68K peripherals

POM68K is a 68k Macintosh emulator. This project models its most intricate device and service code in Dafny and proves
what that code is for. It covers, in this order: the DART archive decoder, the AFP file server's catalogue with its
write-ahead journal, the AppleTalk Transaction Protocol engine, the DAFB frame clock, the microcontroller clock bridges
and the bit-serial ADB wire, the ATA drive, the CD layout, and the CD-audio ring. `dafny verify dfyconfig.toml` checks
all of it.

How the parts are laid out:

- `HuffmanTree`, `LzhStream`, `LzhTokens`: what a compressed chunk means, as values. `DartLzh` is the decoder over flat
  arrays and a ring window. `DartImage` is the container around it, and `DartArchive` says which archives there are.
- `AfpPath`, `AfpCatalog`, `AfpCodec`: paths, the catalogue, and the catalogue file. `AfpServer` holds the object whose
  loops change the catalogue. `AfpRuns` lets it run among lost commits, restarts, power failures and outside changes to
  the folder. `AfpJournal` takes moves and deletions one step at a time, with a kill or a power failure allowed between
  any two, and `AfpStray` holds the runs that go wrong, from concrete folders.
- `AtpPackets`, `AtpResponder`, `AtpRequester`: the two halves of the transaction engine, each as a step function over
  its tables and as an object whose methods refine that function.
- `Dafb`, `ClockBridge`, `AdbLine`, `AtaDisk`, `CdImage`, `CdAudioSource`: one device each.

The same pattern recurs. A state is a datatype and a step is a function on it. The source's loops and in-place updates
are methods of a class, proved equal to the step function. The theorems are about every run of the steps. Every lemma
carries `{:induction false}`, so inductions are written out.

Parameters stand for what the model does not see. The host folder is a map from path to object identity, with atomic
rename and removal. A catalogue commit either is lost, reaches the disk without being known durable, or is durable; one
that is not durable may be taken back by a power failure. A microcontroller is a stream of instruction costs of at
least one cycle. What an ATP handler does with a request, what an ADB device answers, and what IDENTIFY DEVICE reports
are arguments.

## Where the code falls short of what it sets out to do

Each of these is a theorem with its exact condition.

- A look-up can hand out a CNID under which its path is not catalogued: exactly when it reuses a CNID that is no longer
  the CNID of its own path (`IssuedIsKnown`). `LookUpsGoAstray` reaches it from an empty catalogue by look-ups, one move
  and one rename outside the server. If a move of that object is then interrupted, or a deletion that has not removed it
  yet, every restart refuses it, in the recovery or in the loader itself (`LookUpDecidesRecovery`, `RefusedForGood`,
  `SavedLoads`).
- A move keeps the two maps of the catalogue inverse to each other exactly when no rewritten path lands on a surviving
  entry: `MoveKeepsTwoWay`, with the same run as its instance.
- A deletion that is given up does not always leave the folder as it was. The sidecars inside a folder are removed before
  the folder is, and nothing restores them (src/AfpHostMutation.cpp:133-140): they are lost exactly when that step had
  begun to remove them (`GivenUpIsIntact`). `KilledDeletionLosesSidecars` gives the run, for every folder that holds
  one, and `LeftoverIsLost` an instance. The object, its own sidecar and its CNIDs stay together all the same.
- A kill between the rename (or removal) of an object and its directory sync, followed by a power failure while the
  restarted server recovers, can part an object from its sidecar: recovery moves the sidecar before it syncs the data
  directories (src/AfpHostMutation.cpp:91-105). `CrashIsHarmless` gives the exact condition for every crash, in
  recovery too, and `KillThenPowerLossSplits` the run.
- A CNID told after a restart, from a catalogue file whose replacement was never synced, can be issued again after a
  power failure: exactly when an older version of the file that may come back has not seen it (`ToldIsSafe`). A look-up
  whose commit is not synced, a restart and the same look-up again lead there (`UnsyncedIsUncovered`), and a run from an
  empty catalogue goes on to tell the CNID for two objects (`UnsyncedIsToldTwice`).
- Exactly-once service is lost exactly when an older transaction of the same client and number, already released or
  expired, can still be answered by its handler: `ProtectedUnlessStale`, reached by `ReleaseLeavesStale`.
- A requester takes packets it did not ask for. A success delivers just what was asked for exactly when it took no
  other, and it has a gap exactly when some packet from there up to the last one delivered was never taken
  (`DeliveryIsWhole`, `GapIsDelivered`).
- A single tick of exactly the time `cyclesToNextEvent` announces raises no VBL interrupt if the beam is already on the
  line the tick ends on: `ExactTickRaisesVbl`. It is so after every interrupt that was met exactly: `NextFrameIsMissed`.
- A tick of the ADB line more than 2^30 cycles past its timer stops the sender for good: `TickIsIdeal`.
- In an ADB Listen a byte after an even number of bytes is taken exactly when its first low is short:
  `NextByteIsTaken`.
- Reading the ATA data register during a write command can leave a state the save-state loader refuses, exactly when
  the buffer position is at the end of the sector: `RunIsLoadable`.

## Model

| member | source | states |
|---|---|---|
| HuffmanTree.StartGood | src/DartLzh.h:84-96 | The constructor's tree has the sibling property, each symbol weighs one and the root 314. |
| HuffmanTree.LeaderFacts | src/DartLzh.h:31-36 | The node an update exchanges with has equal weight, lies below the parent and is never an ancestor; the scan stops before the sentinel. |
| HuffmanTree.BumpLinks | src/DartLzh.h:34-46 | One level of an update keeps child and parent links mutually inverse with every parent above its children. |
| HuffmanTree.BumpWeights | src/DartLzh.h:31-38 | One level of an update keeps weights sorted and moves the one-count shortfall of the pair sums to the parent of the counted node. |
| HuffmanTree.Climb | src/DartLzh.h:31-48 | Climbing to the root ends in a good tree whose root is one heavier, and only the climbed symbol's leaf has gained. |
| HuffmanTree.Update | src/DartLzh.h:27-49 | Adapting to a symbol keeps the sibling property, adds one to that symbol's weight and to no other. |
| HuffmanTree.CodeIsUnique | src/DartLzh.h:50-60 | The decoder reads a symbol off a bit string if and only if the string starts with that symbol's code, and consumes just that. |
| HuffmanTree.LeavesCountOccurrences | src/DartLzh.h:27-49 | After any run each leaf weighs its start plus the symbol's occurrences. |
| HuffmanTree.ChunkTreesAreGood | src/DartLzh.h:27-30 | After at most 20960 symbols the tree is good and its root is below 0x8000, so the sentinel is never crossed. |
| HuffmanTree.DecodeEncode | src/DartLzh.h:50-60 | From any tree with room, coding a run of symbols and decoding it gives the run back, whatever bits follow. |
| HuffmanTree.ChunkRoundTrip | src/DartLzh.h:21-60 | The same from the starting tree, for every sequence of at most 20960 symbols. |
| LzhStream.DistanceIsCode | src/DartLzh.h:61-82 | The distance reader accepts only distance codes, so only offsets 0..4095 come out of it. |
| LzhStream.DistanceRoundTrip | src/DartLzh.h:61-82 | Every offset 0..4095 is read back from its canonical code. |
| LzhTokens.CopyReachesBack | src/DartLzh.h:111-120 | Every byte of a match, overlapping ones included, is the byte offset+1 positions back or a zero from before the start. |
| LzhTokens.ParseIsCode | src/DartLzh.h:101-111 | A token is read exactly off its own encoding. |
| LzhTokens.InflateEncoded | src/DartLzh.h:97-123 | Decoding an encoded token stream that fills a chunk yields what the tokens mean, clipped to the chunk. |
| LzhTokens.InflatedIsEncoded | src/DartLzh.h:97-123 | Nothing else is accepted: bits that decode are the encoding of such a token stream. |
| LzhTokens.PackedChunkRoundTrip | src/DartLzh.h:97-123 | The same through packed bytes, whatever bytes follow. |
| DartLzh.MirrorsPush | src/DartLzh.h:104-106 | Writing at the ring's head keeps the ring equal to the last 4096 bytes of the unbounded history. |
| DartLzh.Decoder.constructor | src/DartLzh.h:84-96 | The two loops over the flat arrays build the starting tree. |
| DartLzh.Decoder.Adapt | src/DartLzh.h:27-49 | The in-place update of the arrays is the value-level update, and terminates. |
| DartLzh.Decoder.Symbol | src/DartLzh.h:50-60 | Reads one symbol off the stream and adapts to it, or reports the end of the input. |
| DartLzh.Decoder.Distance | src/DartLzh.h:61-82 | Reads one distance, or reports the end of the input. |
| DartLzh.Decoder.Expand | src/DartLzh.h:97-123 | The ring-window decoder refines the unbounded-history meaning of the stream, for every input. |
| DartImage.ExpandCodes | src/DartImage.h:42-64 | A run-length chunk coded from pieces expands to what they mean if they fill exactly 20960 bytes, else it is refused. |
| DartImage.ExpandedIsCodes | src/DartImage.h:42-64 | Every accepted run-length chunk is such a coding, all of its declared bytes consumed. |
| DartImage.ExpandRuns | src/DartImage.h:42-64 | The loop over a block in place is that expansion. |
| DartImage.ReadChunk | src/DartImage.h:34-65 | Stored, compressed and run-length chunks become the block their bytes mean. |
| DartImage.Image.UnpackArchive | src/DartImage.h:19-76 | Unpacking replaces both buffers by what the archive holds, or changes neither. |
| DartImage.WriteArchive | src/DartImage.h:79-98 | Writes an archive exactly for the disk sizes and tag lengths it supports. |
| DartImage.WriteThenUnpack | src/DartImage.h:19-98 | Unpacking what was written returns the same data and tags. |
| DartImage.UnpackedIsWritable | src/DartImage.h:19-98 | Whatever unpacks can be written back, and unpacks to the same again. |
| DartArchive.CodingReads | src/DartImage.h:34-65 | A chunk that is kept, coded as runs, or compressed is read as the block it stands for, whatever follows. |
| DartArchive.TakenIsCoding | src/DartImage.h:34-65 | And every chunk that is read is one of these. |
| DartArchive.ArchiveUnpacks | src/DartImage.h:19-76 | An archive whose chunks are coded in any of the ways its kind allows unpacks to what the chunks mean, in order. |
| DartArchive.UnpackedIsArchive | src/DartImage.h:19-76 | Nothing else unpacks: whatever does is such an archive, all its bytes accounted for. |
| AfpPath.ValidCatalogPath | src/AfpCatalog.cpp:37-49 | Accepts exactly the nonempty lists of acceptable names joined with a slash. |
| AfpPath.ResolvePath | src/AfpServer.cpp:289-326 | For any bytes: fails, or yields the root or a catalogue path, the one the pathname's elements and parent hops mean. |
| AfpCatalog.DropIsSound | src/AfpCatalog.cpp:224-234 | Dropping a subtree keeps the catalogue's invariants and the two-way map. |
| AfpCatalog.MoveKeepsIds | src/AfpCatalog.cpp:236-253 | Every catalogued descendant of a moved path keeps its CNID under its rewritten path, in both maps. |
| AfpCatalog.MoveKeepsOthers | src/AfpCatalog.cpp:236-253 | No other path is touched unless a rewritten one lands on it. |
| AfpCatalog.MoveIsSound | src/AfpCatalog.cpp:236-253 | A move keeps the catalogue's invariants. |
| AfpCatalog.MoveKeepsTwoWay | src/AfpCatalog.cpp:236-253 | A move keeps the two-way map if and only if it lands on no surviving entry. |
| AfpCatalog.MoveToFreePlaceKeepsTwoWay | src/AfpCatalog.cpp:236-253 | Nothing catalogued at or under the destination, other than what moves, is enough for that. |
| AfpCodec.SavedLoads | src/AfpCatalog.cpp:91-177 | The loader accepts a file of the writer if and only if its journal is clear or names a catalogued source and a fitting destination; it then rebuilds maps, identities, next ID and journal. |
| AfpCodec.NormalIsSound | src/AfpCatalog.cpp:156-177 | What a file cannot hold are CNIDs without a path; a catalogue comes back unchanged if and only if it is two-way. |
| AfpCodec.LoadedIsSound | src/AfpCatalog.cpp:91-153 | Whatever bytes it is given, a catalogue the loader accepts satisfies the invariants and is two-way. |
| AfpServer.IssuedIsBound | src/AfpCatalog.cpp:188-222 | The CNID handed out is bound to the object's identity, is an old one or the next new one, and no other binding changes. |
| AfpServer.IssuedIsKnown | src/AfpCatalog.cpp:188-222 | The path is then catalogued under that CNID, and bound to the object there, if and only if the CNID is new or still the CNID of its own path. |
| AfpServer.Catalogue.Save | src/AfpCatalog.cpp:156-177 | A commit that reports success left a file that loads back to this catalogue and journal, or that the loader refuses if the journal is not valid; one that fails left the old file or such a one. |
| AfpServer.Catalogue.Load | src/AfpCatalog.cpp:85-152 | Loads what the file means, or refuses it and keeps everything as it is. |
| AfpServer.Catalogue.DropId | src/AfpCatalog.cpp:224-233 | The erasing loop forgets exactly the subtree. |
| AfpServer.Catalogue.MoveIds | src/AfpCatalog.cpp:236-252 | Collecting, dropping and reinserting is exactly the rewriting of the subtree. |
| AfpServer.Catalogue.PathForId | src/AfpCatalog.cpp:179-186 | A path is served only while the object there is the one the CNID was issued for. |
| AfpServer.Catalogue.IdForPath | src/AfpCatalog.cpp:188-222 | Returns the CNID the catalogue rules give, and only once the catalogue with it is committed; without a commit only if the path is bound as it stands and nothing changes. |
| AfpServer.Catalogue.FindDisplaced | src/AfpCatalog.cpp:201-208 | Finds the only displaced CNID with an identity, or none if there is none or more than one. |
| AfpRuns.OneObjectPerId | src/AfpCatalog.cpp:179-253 | In every run with lost and undurable commits, restarts, moves, deletions and outside changes, a CNID stands for one host object and none is issued twice; with power failures too, if no CNID is told that a version which may come back has not seen. |
| AfpRuns.ToldIsSafe | src/AfpCatalog.cpp:174-253 | That condition is exact: a CNID just told stays that of one object in every such continuation if and only if it is met. |
| AfpRuns.UnsyncedIsUncovered | src/AfpCatalog.cpp:156-222 | A look-up whose commit is not known durable, a restart and the look-up again tell a CNID the older file has not seen. |
| AfpRuns.UnsyncedIsToldTwice | src/AfpCatalog.cpp:156-222 | A run from an empty catalogue that goes on from there to tell one CNID for two objects. |
| AfpJournal.OperationIsAtomic | src/AfpHostMutation.cpp:28-161 | Interrupted anywhere, in recovery and in commits too, a move or deletion that ends, ends with object, its sidecar and CNIDs all old or all new and the journal clear, unless a restart takes it up in an exposed state. |
| AfpJournal.KillsAreHarmless | src/AfpHostMutation.cpp:28-161 | Kills alone, however many, never split an object from its sidecar or CNIDs. |
| AfpJournal.GivenUpIsIntact | src/AfpHostMutation.cpp:54-73 | An operation given up in a run of kills and refusals is all old, and the folder is as it was if and only if no step of the run removed a sidecar inside the deleted folder; none can if none is there. |
| AfpJournal.OldIsIntact | src/AfpHostMutation.cpp:133-140 | In every state of an operation with object, sidecar and CNIDs old, the folder is as it was if and only if no inner sidecar is gone. |
| AfpJournal.KilledDeletionLosesSidecars | src/AfpHostMutation.cpp:67-140 | For every deletion of a folder the catalogue traces, with sidecars in it: killed after removing them and restarted, it is given up with the folder there and every one of them lost. |
| AfpJournal.CrashIsHarmless | src/AfpHostMutation.cpp:54-108 | Whether in the operation or in a recovery, a crash can do no harm if and only if it did not catch the object's change undurable with a sidecar to follow, or the catalogue does not trace the object. |
| AfpJournal.KillThenPowerLossSplits | src/AfpHostMutation.cpp:40-105 | A concrete run, for every operation with a sidecar, in which object and sidecar part if and only if the catalogue traces the object. |
| AfpJournal.RecoveryCompletes | src/AfpHostMutation.cpp:54-108 | A recovery left alone completes if and only if the journal is clear, or the catalogue binds the source to the object, or a deletion has removed its object and the source is catalogued. |
| AfpJournal.LookUpDecidesRecovery | src/AfpHostMutation.cpp:35-66 | For the journal's source just looked up, that is if and only if the look-up did not go astray, or the deletion's object is gone. |
| AfpJournal.RefusedForGood | src/AfpHostMutation.cpp:57-66 | Otherwise no number of restarts, with whatever crashes between them, completes the operation or gives it up, if and only if every version of the file that may come back holds its journal. |
| AfpJournal.LoaderRefuses | src/AfpCatalog.cpp:138-143 | The loader refuses the file of a pending operation if and only if its source is not catalogued. |
| AfpStray.LookUpsGoAstray | src/AfpCatalog.cpp:188-253 | From an empty catalogue, with every commit durable: a move lands on a surviving entry, a look-up goes astray and leaves its path bound to another object, and the next leaves it uncatalogued. |
| AfpStray.InterruptedMoveIsRefused | src/AfpHostMutation.cpp:35-66 | A move of that object, killed once its journal is committed, is refused for good: by the recovery after the first look-up, by the loader after the second. |
| AfpStray.LeftoverIsLost | src/AfpHostMutation.cpp:67-140 | A folder with a sidecar left in it comes back from such a deletion without the sidecar. |
| AfpJournal.Volume.MoveHostPath | src/AfpHostMutation.cpp:28-52 | The error code of a move in every case, a rename the host refuses included; success leaves object, sidecar and CNIDs at the new path, in memory and in the file, an error leaves the folder, and a throw leaves a state that `RecoverCatalog` can be given. |
| AfpJournal.Volume.DeleteHostPath | src/AfpHostMutation.cpp:110-146 | The same for a deletion: success leaves object, sidecar and CNIDs gone; a removal the host refuses leaves all old but for exactly the inner sidecars already removed; every other error leaves the folder. |
| AfpJournal.Volume.CleanFolder | src/AfpHostMutation.cpp:133 | The removal of the sidecars inside a folder takes all of them, or those it got to before the host refused, and nothing else. |
| AfpJournal.Volume.GiveUp | src/AfpHostMutation.cpp:136-140 | After a refusal the journal is cleared and committed without touching the folder again: object, sidecar and CNIDs are all old, or the method throws in a recoverable state. |
| AfpJournal.Volume.RecoverCatalog | src/AfpHostMutation.cpp:54-88 | From any interrupted state, loading and recovering ends all old or all new with the journal clear, or throws; what is not recoverable is refused and left as it is. |
| AfpJournal.Volume.FinishCatalog | src/AfpHostMutation.cpp:90-108 | Finishing a move leaves object, sidecar and CNIDs changed and durable and the journal clear, or throws in a recoverable state; so does finishing a deletion (src/AfpHostMutation.cpp:148-161). |
| AfpJournal.Volume.LookUp | src/AfpHostMutation.cpp:35 | The source gets the CNID and the catalogue that `idForPath` gives it, committed, or the operation throws. |
| AtpPackets.AskedIsExact | src/AtalkStack.cpp:469-485 | A reply to a bitmap is the asked packets of that reply, all of them and nothing else. |
| AtpPackets.SendResponses | src/AtalkStack.cpp:469-485 | The sending loop emits exactly those, in order. |
| AtpResponder.KeysAreDistinct | src/AtalkStack.h:213-216 | Two transactions share a key if and only if they are the same. |
| AtpResponder.ExactlyOnce | src/AtalkStack.cpp:493-539 | Before its release or expiry an exactly-once request, however duplicated, runs its handler once, and all that is sent is from one reply. |
| AtpResponder.ProtectedUnlessStale | src/AtalkStack.cpp:455-467 | That is guaranteed if and only if no older transaction of the same key is still unanswered. |
| AtpResponder.ReleaseLeavesStale | src/AtalkStack.cpp:577-583 | A request whose handler keeps it, and its release, lead there. |
| AtpResponder.Engine.HandleRequest | src/AtalkStack.cpp:493-539 | A request is answered from the cache, dropped while pending, or made a transaction. |
| AtpResponder.Engine.RespondTo | src/AtalkStack.cpp:455-467 | A first response is sent, cached for exactly-once requests, and ends the wait. |
| AtpResponder.Engine.HandleRelease | src/AtalkStack.cpp:577-583 | A release forgets the cached reply and the pending entry of that transaction only. |
| AtpResponder.Engine.Sweep | src/AtalkStack.cpp:194-199 | The sweeps drop exactly the entries that have expired. |
| AtpResponder.SweepExpired | src/AtalkStack.cpp:194-199 | The loop that both sweeps run keeps an entry if and only if it has not expired. |
| AtpRequester.RequestsAreBounded | src/AtalkStack.cpp:200-218 | In every run each transaction transmits at most five times and completes at most once, and every transmission asks for exactly the missing packets. |
| AtpRequester.DeliveryIsWhole | src/AtalkStack.cpp:540-576 | If the responses taken are packets of one reply, in any order and number, a success delivers exactly the asked ones in order if and only if no other had been taken, and has no gap if and only if every one from the number asked for up to the last delivered had been. |
| AtpRequester.GapIsDelivered | src/AtalkStack.cpp:540-566 | Asked for two packets and sent 3, 0 and 1 of four, a transaction reports success with nothing in place of packet 2. |
| AtpRequester.Engine.Start | src/AtalkStack.cpp:589-625 | Starts a transaction, or completes a fire-and-forget one at once. |
| AtpRequester.Engine.HandleResponse | src/AtalkStack.cpp:540-576 | Takes a response for the first matching transaction and completes it when nothing is missing. |
| AtpRequester.TakePacket | src/AtalkStack.cpp:551-558 | Growing the list, storing the body and clearing the bits one by one is what the value-level transaction does with a packet. |
| AtpRequester.Engine.Retry | src/AtalkStack.cpp:200-218 | The retry loop transmits again or gives up, in queue order. |
| Dafb.LineReached | src/Dafb.cpp:442-453 | A line is reached exactly from its first position on. |
| Dafb.Cell.Tick | src/Dafb.cpp:399-473 | The memoised tick moves position, frame count, line and interrupt bits exactly as one that derives and divides every time. |
| Dafb.Cell.Write | src/Dafb.cpp:139-154 | Register writes and acknowledgements keep the caches consistent. |
| Dafb.Cell.Replay | src/Dafb.cpp:399-473 | The same for every sequence of ticks and register writes. |
| Dafb.Cell.CyclesToNextEvent | src/Dafb.cpp:475-499 | The cached positions give the distance to the nearest enabled event. |
| Dafb.ShortMove | src/Dafb.cpp:455-471 | A move short of a target crosses it neither forwards nor by wrapping around. |
| Dafb.EarlyTicksAreQuiet | src/Dafb.cpp:475-499 | With settled geometry no sequence of ticks shorter than the announced time raises an interrupt. |
| Dafb.ExactTickRaisesVbl | src/Dafb.cpp:455-499 | A tick of exactly that time raises the VBL bit if and only if it ends on another line than it began. |
| Dafb.NextFrameIsMissed | src/Dafb.cpp:442-499 | With the beam at the start of line 480 and the interrupt acknowledged, a whole frame is announced and one tick of it raises nothing. |
| Dafb.FrameGoesUnnoticed | src/Dafb.cpp:399-499 | Such a state is reached from a reset at 25 MHz: enable, tick to the first interrupt, acknowledge. |
| ClockBridge.SlicingDoesNotMatter | src/CudaLle.cpp:344-365 | The law of time determines accumulator, debt and instruction boundary, so slicing cannot change them. |
| ClockBridge.NextInstructionIsDue | src/CudaLle.cpp:367-372 | A tick runs another instruction if and only if it is at least the announced time. |
| ClockBridge.CudaBridge.Tick | src/CudaLle.cpp:344-365 | Every tick leaves cycles run equal to floor(T*rate/hz) plus the carried debt, on the first boundary after it. |
| ClockBridge.CudaBridge.CyclesToNextEvent | src/CudaLle.cpp:367-372 | Returns exactly that time, which is at least one cycle. |
| ClockBridge.PicBridge.Tick | src/AdbVia.cpp:128-154 | The borrowing accumulator obeys the same law. |
| ClockBridge.PicBridge.SyncTo | src/AdbVia.cpp:156-163 | Synchronising to an absolute clock advances the PIC by the difference, and never back. |
| ClockBridge.PicBridge.CyclesToNextEvent | src/AdbVia.cpp:306-312 | Returns the time to the next PIC instruction. |
| AdbLine.TickIsIdeal | src/AdbLine.cpp:124-135 | A tick catches up every due step if and only if it is at most 2^30 cycles past the timer. |
| AdbLine.SlicesAgree | src/AdbLine.cpp:124-135 | However time is sliced into ticks of at most 2^30 cycles, the sender ends in the same state with the same levels and armed times. |
| AdbLine.SendsReply | src/AdbLine.cpp:215-254 | The steps of the sender add exactly the waveform of the reply bytes to what the line has carried. |
| AdbLine.ReplyIsDriven | src/AdbLine.cpp:124-254 | So does any sequence of such ticks that is long enough, and the line is released. |
| AdbLine.ReplyTakes | src/AdbLine.cpp:124-254 | A reply of n bytes takes the wait, a start bit, 12512n cycles of bits and a stop bit. |
| AdbLine.EdgeKeepsReady | src/AdbLine.cpp:138-212 | No edge of the host, in any state and of any length, takes the sender out of a state in which it can be ticked. |
| AdbLine.CommandIsAnswered | src/AdbLine.cpp:124-254 | A command put on an idle line is heard as its byte; once the time of its answer has passed, in any slices, the line has carried the answer's waveform and is idle, and a listener reads the answer's bytes off it. |
| AdbLine.CellsLast | src/AdbLine.cpp:227-247 | Every bit cell is a low then a high and lasts 1564 cycles. |
| AdbLine.DecodesReply | src/AdbLine.cpp:227-247 | Thresholding the low times at the bit midpoint gives the reply bytes back. |
| AdbLine.HearsCommand | src/AdbLine.cpp:150-175 | Attention, sync and eight bits of any lengths within the thresholds decode to exactly the byte they spell. |
| AdbLine.HearsListen | src/AdbLine.cpp:138-175 | Listened bytes arrive in order, up to the eight the device holds. |
| AdbLine.NextByteIsTaken | src/AdbLine.cpp:138-148 | The next listened byte is taken if and only if an odd number has come or its first low is short. |
| AdbLine.AdbDevice.constructor | src/AdbLine.h:113-126 | A new line is idle, released and ready to be ticked. |
| AdbLine.AdbDevice.TimerTick | src/AdbLine.cpp:215-254 | One step of the sender changes line, timer and buffer position as the value-level step behind `SendsReply` does. |
| AdbLine.AdbDevice.Tick | src/AdbLine.cpp:124-135 | The loop takes the steps of the value-level tick behind `TickIsIdeal`, and the clock moves by the tick. |
| AdbLine.AdbDevice.SetHostDrive | src/AdbLine.cpp:109-122 | The host's level is seen only as a change of the wired-AND line, timed from the last edge, and leaves the sender in a state that can be ticked. |
| AdbLine.AdbDevice.Receive | src/AdbLine.cpp:138-212 | One edge changes the receiver as the value-level edge behind `HearsCommand` and `HearsListen` does, in every state and for every length. |
| AtaDisk.AddressShown | src/AtaDisk.h:232-248 | In LBA mode the task file shows the LBA it was set to. |
| AtaDisk.NextIsSafe | src/AtaDisk.h:167-188 | No register write, command or data access, in any order, makes the drive reach outside its buffer or its image. |
| AtaDisk.NextIsLoadable | src/AtaDisk.h:167-206 | From a loadable state an action leaves one the loader refuses if and only if it reads a word in a write command with the position at the end of the sector. |
| AtaDisk.RunIsLoadable | src/AtaDisk.h:195-206 | Every state of a run passes the loader's checks if and only if no action of the run is such a read. |
| AtaDisk.PoliteRunIsLoadable | src/AtaDisk.h:195-206 | Reading data only outside write commands is enough for that. |
| AtaDisk.ReadsInWriteBreak | src/AtaDisk.h:167-178 | Reading on in a write command gets past the end, and further reads never repair it. |
| AtaDisk.WritesSectors | src/AtaDisk.h:388-440 | Writing n sectors stores them and nothing else, and DRQ drops exactly after the last word. |
| AtaDisk.ReadsSectors | src/AtaDisk.h:359-386 | Reading n sectors gives the words of the image, and DRQ drops exactly after the last word. |
| AtaDisk.WriteThenRead | src/AtaDisk.h:167-188 | Words written are read back the same. |
| AtaDisk.Disk.ReadData | src/AtaDisk.h:167-178 | Reads a word, low byte first, and after a sector's last word loads the next sector or ends the transfer, as the value-level drive does in every state. |
| AtaDisk.Disk.WriteData | src/AtaDisk.h:180-188 | Takes a word, and with a sector's last word stores it and goes on or ends, as the value-level drive does in every state. |
| AtaDisk.Disk.Execute | src/AtaDisk.h:257-317 | Every command code does to task file, buffer, status and interrupt what the value-level drive does; unknown codes and a missing medium abort. |
| CdImage.Image.LayOut | src/CdImage.cpp:260-311 | Accepts exactly the acceptable sheets; the spans then tile 0..lead-out, hold every file sector once and in order, and the rest are the sheet's gaps. |
| CdImage.Image.Extent | src/CdImage.cpp:266-281 | The source sectors a track owns, or its refusal, exactly as the sheet and its neighbours determine. |
| CdImage.SpanCovers | src/CdImage.cpp:340-346 | The span the search picks is the only one that can hold the address, and holds it exactly below the lead-out. |
| CdImage.Image.UpperBound | src/CdImage.cpp:341-342 | The binary search finds the first span that starts after the address. |
| CdImage.Image.ReadRawSector | src/CdImage.cpp:340-352 | Reads what the disc holds at an address: file bytes, or zeros for a gap; refuses files without raw sectors and addresses past the lead-out. |
| CdImage.ReadSource | src/CdImage.cpp:313-338 | Whole sectors with silence after the data and Motorola bytes swapped, or nothing. |
| CdAudioSource.EveryInterleaving | src/CdAudioSource.h:93-134 | In every interleaving, stale loads included: drained is a prefix of published, at most 32767 frames are held, none is overwritten or raced for, and offered equals published plus dropped plus in hand. |
| CdAudioSource.DroppedWhenFull | src/CdAudioSource.h:124-134 | A frame is dropped exactly when the producer's view of the ring is full. |
| CdAudioSource.DryWhenEmpty | src/CdAudioSource.h:100-103 | The consumer stops exactly when its view of the ring is empty. |
| CdAudioSource.BufferedCounts | src/CdAudioSource.h:112-115 | The two indices give the number of frames held. |
| CdAudioSource.Source.Push | src/CdAudioSource.h:124-134 | Undisturbed, a push appends or counts a drop. |
| CdAudioSource.Source.MixStereo | src/CdAudioSource.h:93-109 | Undisturbed, mixing drains frames in order, each added under both volumes, silenced or not. |

## Left out

- Host files, locks, fsync calls, Windows branches and directory creation: the folder is a map and a sync a step.
- The catalogue formats POMCNID1 to POMCNID3 and their migration.
- AfpJournal.Volume.MoveHostPath: of the host's failures, only a refused rename and a catalogue that outgrows its file are results of this method; the others that the source throws are steps of the run (`Refuse`).
- AfpJournal.Volume.DeleteHostPath: the same.
- AfpJournal.OperationIsAtomic: one operation at a time; the versions of the file that a power failure may bring back are those of the operation under way.
- AfpCodec.SavedLoads: the records stand in any order, where the source writes them sorted by path.
- AtpRequester.DeliveryIsWhole: assumes that every packet the transaction took is of one reply, which transaction numbers that wrap around to one still in flight could break.
- AtpResponder.ExactlyOnce: callbacks that call back into the engine from within a handler, other than to reply.
- Dafb.Cell.Tick: the CPU clock is at least 60 Hz and no register holds the cache's reset key.
- Dafb register decoding, the clock generators and snapshot loading.
- AdbLine.AdbDevice.Receive: what the addressed device does with a command is an argument, so device registers and resets are not modelled.
- AtaDisk.Disk.Execute: the contents IDENTIFY DEVICE reports are an argument, and the cylinder count, which nothing else here depends on, is not kept; the write-back file and the save-state history are not modelled.
- CdImage.Image.LayOut: starts from the parsed sheet; the cue sheet's text and the WAVE header are not parsed.
- CdAudioSource reset, which writes both indices, and the resampler; samples are real numbers.
- 64-bit and 32-bit overflow of cycle counters and accumulators.
- The processor cores, VIA, sound cells, memory maps, user interface, and the rest of the AppleTalk and AFP services.
