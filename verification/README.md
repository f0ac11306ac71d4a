# EdgeGrid: a verified model of its two protocols

EdgeGrid is a peer-to-peer node without a server. Nodes send each other files (blobs) and small
tasks over direct connections. This project models both protocols and proves what they are for:

* **A blob arrives whole or not at all.** `BlobManifest`, `Landing`, `Transfer`, `Duplex` and
  `DuplexCode` model the manifest, the receiver's bookkeeping, `Send` and `Receive` as loops on live
  connections, the two of them side by side over bounded pipes, and why those two are that code. `Utf8`,
  `SafeName`, `Resanitised`, `Inbox`, `BlobReceive` and
  `Registry` model what the node does around a transfer: the name, the reservation, the clean-up, the
  history row, the list of transfers.
* **A task has one outcome, and both nodes know it.** `TaskStore`, `TaskNode`, `RunningRows` and
  `TaskHost` model the executing node: the table, a step system in which any number of handlers, runs,
  prunes and restarts interleave, how many rows can be running, and the handler's code, shown to be a
  sequence of those steps. `TaskResult`, `Dispatch`
  and `Network` model the dispatcher, the result exchange and many nodes together.
* **The small parts the two rest on.** `Wire` (every frame), `Stream` (a connection that reads and
  writes in pieces and can fail at any byte), `Output` (capped buffers, base64), `Trim`, `TrimText`,
  `Rfc3339` and `AclStore` (the access lists), `Bytes`, `Wrappers`.

Code that changes things in place is a class or a method with loops here too, and each such method is
proved against a specification about which the lemmas then speak. In `TaskNode` and `Network`, where
goroutines of many connections interleave, the form is a step relation; `TaskHost.Host` is the same
handler as sequential code, and `CourseIsRun` and `RunIsRun` tie the two together.

How the outside is modelled:

* SHA-256 is a function parameter, and nothing is assumed of it. Where a result would need a hash
  without collisions, it says instead that otherwise two byte strings with one hash have been found
  (`Landing.Collided`).
* JSON is a pair of functions per message type (`Codec`). Lemmas about a conversation ask that the
  messages sent in it survive (`Keeps`), and of no others: a file name that is not well-formed text
  does not. Length prefixes, tags and version bytes are concrete. The body of a done response is
  concrete as well (`Output.DoneBody`).
* Times in the access lists are seconds, and RFC 3339 is a pair of functions that agree on the years
  0 to 9999, the ones it can write (`AclStore.Clock`). `Rfc3339` is such a pair, calendar included, so
  what is said of every sound clock is said of something.
* Disk and database calls may fail at any time, by a free choice in the method; a `reliable` flag marks
  stores that do not, and contracts say what holds in either case. Time, scheduling, dialling and what a
  process does are free choices or parameters.
* The accept callback of `Receive` is the node's own policy, inlined (`BlobNode.Accept`).
* A node without a database is `hasStore == false`: it admits no task, so in the step system it is a
  node that supports no kind.
* Task IDs are fresh: a dispatcher never offers two tasks under one ID (`task.New` draws a random UUID).
* Upper-casing in `SafeName` is modelled for ASCII. Of all other characters only U+0131 and U+017F
  upper-case to ASCII letters, to I and S, and no device name contains an I or an S.

Where the code and its own comments part ways, the model follows the code:

* `SafeName` trims dots, "no trailing dot on Windows" (internal/blob/manifest.go:118), but before it
  cuts: `DotOnlyFromCut` says exactly when the promise holds, `DotLeftBehind` has a name that breaks it.
* Sanitising a sanitised name can change it, because white space is trimmed before dots and both before
  the cut (internal/blob/manifest.go:117-128). `SanitisedTwice` says exactly when it does not;
  `DotLeftBehind` and `SpaceLeftBehind` are names for which it does, with and without a cut.
* More than one received row can be running at once, though never more than one task (`SlotSafety`).
  There are two ways: a handler that lost its accept frees the slot before it settles its row
  (internal/node/task_receive.go:75-76), and a row stays running when the write that should settle it
  fails (internal/node/task_receive.go:102-108). `OneRunningRow` says exactly when there is at most one,
  in any reachable state; `OneRunningRowInRun` over whole runs in which those writes work, where only
  the first way is left; `TwoRunningRows` and `TwoRunningRowsNoneLost` are a run for each.
* A trusted peer whose recorded hostname is longer than the line reader takes is refused:
  `DecisionIsLastEdit` has the exact condition, for every history at every sound clock,
  `LongHostnameDenies` the shortest such name, at the clock of `Rfc3339`.
* `BuildManifest` can produce a manifest its own `Validate` refuses: `BuiltIsValid` has the exact
  condition, `BuiltAndRefused` a file of 4 TiB and one byte at the default chunk size.

## Model

| member | source | states |
|---|---|---|
| Stream.Conn.ReadFull | internal/blob/chunk.go:53-68 | However reads are cut up, the buffer gets the next bytes of the stream, and the error tells a clean end, a short one and a failure apart |
| Wire.ParseOfPrint | internal/blob/wire.go:13-51 | A printed frame reads back as itself with exactly the rest left over, if and only if its body is within the cap; a longer one is refused with the body unread |
| Wire.PrintOfParse | internal/blob/wire.go:30-51 | Whatever a reader accepts is the print of what it returns plus the rest: no second encoding of any frame |
| Wire.PrefixIsShort | internal/task/result.go:114-134 | Every proper prefix of a frame is an end-of-stream error |
| Wire.StreamRoundTrip | internal/blob/chunk.go:86-97 | Any mix of in-limit frames back to back is read back aligned, with the exact remainder |
| Wire.StreamPrefixIsShort | internal/blob/chunk.go:51-69 | A stream cut inside its last frame never passes for a whole one |
| Wire.ReadRaw | internal/task/task.go:104-125 | The live reader, under any fragmentation, returns what the parser returns on the pending bytes and leaves what it leaves |
| Wire.ChunkRoundTrip | internal/blob/chunk.go:51-84 | Index and data of a chunk frame survive the wire exactly up to 64 MiB of data |
| Wire.ReadChunk | internal/blob/chunk.go:51-69 | Reading a chunk from a connection agrees with the parser, errors and leftovers included |
| Wire.ChunkOnTheWire | internal/blob/chunk.go:71-79 | Byte by byte: the index and the length, each in four bytes with the most significant first, then the data |
| Wire.OneChunkOnTheWire | internal/blob/chunk.go:71-79 | Chunk 1 with the byte 7 is 00 00 00 01 00 00 00 01 07 |
| Wire.WriteChunk | internal/blob/chunk.go:73-84 | The connection takes a prefix of the frame, all of it exactly when no error is reported, and then those bytes |
| Wire.VerdictOnTheWire | internal/blob/verdict.go:36-60 | An accept is three zeros; a refusal is a one, two bytes of length and at most 1024 bytes of reason |
| Wire.VerdictRoundTrip | internal/blob/verdict.go:41-85 | An accept reads as an accept; a refusal comes back with the first 1024 bytes of its reason |
| Wire.ReadVerdict | internal/blob/verdict.go:63-85 | The live verdict reader agrees with the parser |
| Wire.WriteVerdict | internal/blob/verdict.go:41-60 | The connection takes a prefix of the verdict, all of it exactly when no error is reported |
| Wire.JsonRoundTrip | internal/discovery/hello.go:51-88 | Hello, manifest, task and result messages that survive their encoding survive the wire exactly when their body is within the cap of their kind |
| Wire.MessageOnTheWire | internal/task/task.go:78-101 | Hello and manifest are four bytes of length, the most significant first, and the body; task, request and response have the version byte 1 in front |
| Wire.MessageLimits | internal/task/result.go:17-19 | The limits in figures: 64 KiB for a hello or a task, 64 MiB for a manifest, 128 KiB for a request or response |
| Bytes.BeByte | internal/blob/chunk.go:73-76 | Byte i of a big-endian number of any width is the digit to base 256 that weighs 256^(width-1-i) |
| Wire.ReadJson | internal/blob/wire.go:30-51 | The live reader of every JSON message agrees with the parser |
| Wire.WriteJson | internal/task/task.go:88-101 | The connection takes a prefix of the message, all of it exactly when no error is reported |
| Utf8.EncodedIsValid | internal/blob/manifest.go:126-133 | Encoded characters always pass ValidString |
| Utf8.EncodedBits | internal/blob/manifest.go:109-116 | How many bytes a character takes by its range, and which of its bits are where (section 3 of RFC 3629) |
| Utf8.DecodedIsEncoded | internal/blob/manifest.go:109-116 | Well-formed is exactly what starts with the encoding of a character; anything else is one byte, read as U+FFFD |
| Utf8.SplitCharacter | internal/blob/manifest.go:126-133 | Text that ends inside a character never passes ValidString, whatever stands before it |
| BlobManifest.Validate | internal/blob/manifest.go:147-173 | Accepts exactly the manifests whose chunks are numbered in order, non-empty, within the limits, without gap or overlap, and add up to the size; otherwise names the first fault |
| BlobManifest.BuildManifest | internal/blob/manifest.go:38-89 | However the file is read, the manifest describes it: chunks tile it, all have the chunk size asked for, or 4 MiB when none is, and only the last may be short, every hash is of its own slice and the last of the whole; it fails exactly when reading fails |
| BlobManifest.SlicesJoin | internal/blob/manifest.go:55-80 | The slices of a tiling, one after the other, are the file |
| BlobManifest.CutCount | internal/blob/manifest.go:55-80 | The number of chunks is the size over the chunk size, rounded up |
| BlobManifest.CutUnique | internal/blob/manifest.go:38-89 | A file, a hash and a chunk size determine the chunk list |
| BlobManifest.BuiltIsValid | internal/blob/manifest.go:137-173 | A manifest the node builds passes its own check if and only if no chunk is over 64 MiB and the file is at most 2^20 chunks long |
| BlobManifest.ManifestExists | internal/blob/manifest.go:38-89 | Every file has a manifest for every chunk size |
| BlobManifest.BuiltAndRefused | internal/blob/manifest.go:137-150 | A file of 4 TiB and one byte, cut at the default size, has a true manifest that Validate refuses |
| BlobManifest.OwnerOf | internal/blob/manifest.go:155-170 | Every byte position of a tiled file belongs to a chunk |
| BlobManifest.ChunksInOrder | internal/blob/manifest.go:155-170 | Chunks do not overlap and stand in the order of their numbers |
| Landing.LandAllMeaning | internal/blob/chunk.go:189-220 | A sequence of arrivals is accepted if and only if each is a listed chunk with its length and hash and none comes twice; then the file has the full size, holds each arrived chunk at its place and zeros elsewhere |
| Landing.WriteAtInside | internal/blob/chunk.go:211-213 | A chunk written at its offset keeps the length of the file and everything outside the chunk |
| Landing.OrderIndependent | internal/blob/chunk.go:188-220 | Any reordering of an accepted sequence is accepted and leaves the same file, indices and byte count |
| Landing.FullLanding | internal/blob/chunk.go:188-226 | As many accepted chunks as the manifest lists are all of them (pigeonhole): every index seen, every slice with its hash, byte count equal to the size |
| Landing.SlicesDecide | internal/blob/chunk.go:204-213 | Two files of the tiled size that agree on every chunk are equal |
| Landing.FullLandingIsSource | internal/blob/chunk.go:188-234 | For any hash: what as many accepted chunks as there are leave is the file the manifest describes, if and only if no two different chunks with one hash are among them; and then the whole-file check passes |
| Transfer.OfferManifest | internal/blob/chunk.go:99-104 | The sender goes on exactly when the whole manifest went out and an accept came back, and reports a refusal exactly when one came back |
| Transfer.SendChunk | internal/blob/chunk.go:115-124 | A chunk goes out exactly when the file still has it and the connection has room for its whole frame; a file too short stops it before a byte is written, a full connection has taken a prefix of the frame |
| Transfer.SendChunks | internal/blob/chunk.go:112-131 | Purely sequential reads put the slice at each offset into each frame; all of it goes out exactly when the file is long enough and there is room, and otherwise the connection has taken exactly a prefix of the chunks the file holds |
| Transfer.Send | internal/blob/chunk.go:98-132 | Returns nil exactly when the receiver accepted, the file is long enough and there is room; the bytes on the connection are always a prefix of manifest and, after an accept, chunks; a refusal is passed on with its reason |
| Transfer.ReadOffer | internal/blob/chunk.go:143-154 | Only a valid manifest gets through; an invalid one is answered with a refusal, an unreadable one not at all |
| Transfer.WantedChunks | internal/blob/chunk.go:165-168 | The lookup table holds every chunk of the manifest under its index and nothing else |
| Transfer.CreateSized | internal/blob/chunk.go:170-179 | The file is there with its final size, all zeros, and no other file changed |
| Transfer.TakeChunk | internal/blob/chunk.go:190-215 | One frame is landed exactly as the specification lands it, or the file is as it was and the error is that of the check that failed |
| Transfer.TakeFrames | internal/blob/chunk.go:181-220 | After exactly as many frames as the manifest lists, the file, the seen indices, the byte count and the reports are those of the accepted sequence; it stops early only on a stream that delivers nothing |
| Transfer.TakeAll | internal/blob/chunk.go:165-226 | The loop takes exactly as many frames as promised, every write stays in the file, and it succeeds only on streams that can be delivered |
| Transfer.ReceiveChunks | internal/blob/chunk.go:165-236 | Against any byte stream: success if and only if the stream delivers the manifest's blob (on a disk that works), then the file is that blob, no other file changed, and exactly the promised frames were consumed |
| Transfer.VerifyWhole | internal/blob/chunk.go:228-257 | Passes exactly the files with the manifest's hash |
| Transfer.PartialVolume | internal/blob/chunk.go:182-226 | Bytes done stay below the size until all chunks are in and are the size then |
| Transfer.RejectionIsFinal | internal/blob/chunk.go:189-213 | Once a frame has been rejected no continuation of the stream delivers |
| Transfer.HonestFrames | internal/blob/chunk.go:114-125 | What a sender writes parses back as the chunks of the file in order |
| Transfer.SentIsDelivered | internal/blob/chunk.go:98-238 | Round trip: what Send writes after the verdict, Receive turns into the file, with no assumption on the hash |
| Transfer.DeliveredIsSource | internal/blob/chunk.go:143-238 | For any hash and any stream: accepted frames leave the file the manifest describes if and only if no chunk collides, and then the whole-file check turns them not away; another file is only ever delivered with a collision of chunks and one of whole files |
| Duplex.StepKeepsInv | internal/blob/chunk.go:86-238 | Every byte moved and every turn taken by either side keeps both where the bytes say they are |
| Duplex.StepDecreases | internal/blob/chunk.go:98-238 | Every step makes progress, so every run ends |
| Duplex.NoDeadlock | internal/discovery/hello.go:92-120 | With pipes of any size from one byte up, hello, manifest, verdict and chunks never leave both sides waiting |
| Duplex.HonestRunsDeliver | internal/blob/chunk.go:98-238 | For every file, cut, pair of pipe sizes and interleaving: a bounded run that ends on both sides, with the sender's file at the receiver and success on both, or the refusal understood |
| DuplexCode.DialerIsSend | internal/blob/chunk.go:98-132 | What the stepped dialer puts into its pipe is the hello and exactly what Send writes |
| DuplexCode.ListenerIsReceive | internal/blob/chunk.go:165-236 | On any stream in any pieces, the stepped listener ends with success and file f if and only if Receive would deliver f |
| SafeName.SafeName | internal/blob/manifest.go:100-135 | For every name: at most 120 bytes of valid UTF-8, no separator, control or reserved character, not hidden, no device name, and equal to the longest fitting prefix of the cleaned name |
| SafeName.AfterSeparators | internal/blob/manifest.go:104-106 | What stands after the last slash or backslash |
| SafeName.ForbiddenAre | internal/blob/manifest.go:110-113 | The characters taken out are the controls and `<>:"\|?*`, and no others |
| SafeName.DevicesAre | internal/blob/manifest.go:120-125 | What is guarded against are CON, PRN, AUX, NUL, COM1 to COM9 and LPT1 to LPT9 in upper or lower case, and nothing else |
| SafeName.TrimParts | internal/blob/manifest.go:117-118 | Trimming takes what it should off both ends and nothing else |
| SafeName.KeepAllowed | internal/blob/manifest.go:108-116 | The characters of the name that are not control or reserved, in order, with an ill-formed byte read as U+FFFD |
| SafeName.CutToFit | internal/blob/manifest.go:126-133 | Cutting bytes off until the text is valid finds the longest run of whole characters that fits |
| SafeName.CutLength | internal/blob/manifest.go:126-133 | The cut drops at most 3 bytes more than it must |
| SafeName.GuardedIsSafe | internal/blob/manifest.go:118-135 | The guarded name is safe, after the cut too |
| SafeName.PlainIsKept | internal/blob/manifest.go:100-135 | A good name is not changed, only cut |
| SafeName.DeviceIsMarked | internal/blob/manifest.go:120-133 | A good name that is a device's gets one underscore in front |
| SafeName.DotOnlyFromCut | internal/blob/manifest.go:118-133 | The result ends in a dot if and only if the first character that does not fit follows a dot |
| SafeName.DotLeftBehind | internal/blob/manifest.go:118-133 | A name whose sanitised form ends in a dot and changes when sanitised again |
| Resanitised.SanitisedTwice | internal/blob/manifest.go:117-133 | Sanitising again changes nothing if and only if what fits of the trimmed and guarded name has no white space in front and neither white space nor a dot where it is cut |
| Resanitised.SpaceLeftBehind | internal/blob/manifest.go:117-124 | ". CON" becomes " CON", which a second pass changes, with nothing cut |
| Inbox.CandidatesDiffer | internal/node/blob_receive.go:126-149 | The numbered candidates of a name are pairwise distinct |
| Inbox.CandidatesAre | internal/node/blob_receive.go:126-136 | Candidate 0 is the name itself, candidate n has " (n)" in front of its last dot, or at its end when it has none |
| Inbox.DecimalIs | internal/node/blob_receive.go:133-136 | The number is written without leading zeros, the highest digit first |
| Inbox.CandidateIsSafe | internal/node/blob_receive.go:126-149 | Every candidate of a safe name is itself safe: well-formed, no separator or harmful byte, not hidden, no device name, at most six bytes longer than the limit |
| Inbox.Inbox.Reserve | internal/node/blob_receive.go:126-149 | Reserves the first free candidate, so the name itself when nothing has it and "blob" for an empty one, and touches nothing else; "too many" only when all 1000 exist |
| Inbox.SceneStepKeepsInv | internal/node/blob_receive.go:126-149 | One atomic create, write or remove of one transfer keeps all reservations apart |
| Inbox.ReservationsNeverClash | internal/node/blob_receive.go:126-149 | In every interleaving of any number of transfers the held names are distinct and were free, and what was in the inbox is unchanged |
| BlobReceive.BlobNode.RecordStart | internal/db/transfers.go:31-42 | A new row under an ID never used before, in progress, without a hash |
| BlobReceive.BlobNode.RecordFinish | internal/node/transfers.go:131-146 | The row of this transfer, if there is one, becomes terminal; a hash is kept only when done |
| BlobReceive.BlobNode.ReconcileStale | internal/db/transfers.go:65-74 | After a restart no row is in progress and finished rows are as they were |
| BlobReceive.BlobNode.Accept | internal/node/blob_receive.go:59-78 | A refusal leaves the inbox alone and gives the policy's reason, or that there is no place; an accept has reserved one new empty file named after the offer, whose name has no separator or harmful byte, is not hidden and no device, and on a working disk with a free name there is one whenever the policy agrees |
| BlobReceive.BlobNode.TakeDelivery | internal/blob/chunk.go:156-236 | The sender gets the verdict that fits, at most the one reserved file is touched, and the blob is in it on success, which is certain when nothing on this side stands in the way and the stream delivers |
| BlobReceive.NamedIsSafe | internal/node/blob_receive.go:69-74 | Whatever name is offered, the file it gets in the inbox has a safe name |
| BlobReceive.BlobNode.ReceiveBlob | internal/node/blob_receive.go:23-118 | Every sender whose manifest can be read is answered. Frame: every file that was there is unchanged, and a new one has a safe name, which is the sanitised one itself when that is free; success leaves exactly one new file with the verified content, failure none; success is certain on a working disk with policy, place, room and a stream that delivers; the history row names the sender and is terminal, done iff success, refused iff policy said no, with a hash only when done |
| BlobReceive.DeadlinesMoveForward | internal/node/transfers.go:24-30 | Deadlines never move back and never pass the ceiling |
| BlobReceive.DeadlinesAre | internal/node/transfers.go:24-30 | The first deadline is 15 seconds after the start; every report makes it 60 seconds from then, or 30 minutes after the start when that comes first |
| Registry.Registry.Start | internal/node/transfers.go:161-168 | A new entry at the end of the list under a fresh ID |
| Registry.Entry.Report | internal/node/transfers.go:96-104 | A progress report replaces the one before, and nothing else of the entry |
| Registry.Registry.Finish | internal/node/transfers.go:172-176 | The transfer is done with its error, and still listed |
| Registry.Registry.Remove | internal/node/transfers.go:178-188 | The timer takes out its own transfer, wherever it stands by then, and no other |
| Registry.Registry.Snapshot | internal/node/transfers.go:190-203 | The list shows every transfer under way, once, in starting order |
| TaskStore.Store.RecordTaskStart | internal/db/tasks.go:53-63 | Inserts a running row exactly when the key is free |
| TaskStore.Store.RecordTaskFinish | internal/db/tasks.go:67-90 | Settles the row whatever its status; output survives only on a done row of at most 64 KiB, a larger one becomes a failure |
| TaskStore.Store.ReceivedTaskFor | internal/db/tasks.go:101-105 | Only the dispatcher bound to a row finds it |
| TaskStore.Store.ReconcileStaleTasks | internal/db/tasks.go:133-142 | No row goes; every running row, in either role, becomes interrupted with "node restarted" and keeps the rest; every settled row is as it was |
| TaskStore.Store.PruneTasks | internal/db/tasks.go:146-152 | A row goes if and only if it is settled and started before the cutoff; all others are as they were |
| TaskNode.TaskSlot.TryClaim | internal/node/task_slot.go:14-23 | Exactly one claim of a free slot wins |
| TaskNode.TaskSlot.Release | internal/node/task_slot.go:26-30 | Frees the slot whoever holds it |
| TaskNode.StepKeepsInv | internal/node/task_receive.go:40-98 | Every step of every handler, run, poll or restart, failures included, keeps the node's invariant |
| TaskNode.SlotSafety | internal/node/task_receive.go:54-98 | In every reachable state at most one task runs, the slot is busy exactly when one handler or run holds it, and whoever is through has released what it claimed, once |
| TaskNode.AcceptHasRow | internal/node/task_receive.go:58-64 | An accept only goes out for a row that exists, is running and is bound to that dispatcher |
| TaskNode.RowLifecycle | internal/db/tasks.go:67-152 | One step leaves a received row alone, settles it once, or prunes it once settled; a running row is never pruned |
| TaskNode.RestartSettlesAll | internal/node/node.go:157-165 | A restart that reconciles leaves no running row and every settled one as it was |
| TaskNode.NeverStuck | internal/node/task_receive.go:40-98 | A handler that is not through can always take its next step |
| TaskNode.OwnStepsRunOut | internal/node/task_receive.go:40-98 | Each claim is released after a bounded number of its owner's steps, on every path |
| TaskNode.OthersLeaveAlone | internal/node/task_receive.go:40-98 | Nobody else moves a handler |
| TaskNode.RunInv | internal/node/task_receive.go:23-98 | The invariant holds after every run of the node |
| TaskNode.SettledForGood | internal/db/tasks.go:64-90 | Over any run a settled received row keeps its one outcome for as long as it is kept |
| TaskNode.ExecutedOnce | internal/node/task_receive.go:58-98 | Over any run, with repeated offers and restarts, a task is executed at most once while its row is kept |
| TaskNode.WorkWasLetIn | internal/node/task_receive.go:40-68 | Over any run, with the access list changing at any time: whoever is past the policy was on the list at the moment it was read |
| TaskNode.ExecutedWasLetIn | internal/node/task_receive.go:40-98 | And so was the dispatcher of everything that was ever executed |
| RunningRows.OneRunningRow | internal/node/task_receive.go:69-98 | In every reachable state at most one received row is running if and only if no handler with a lost accept stands beside another owner of a row and no abandoned row beside another running one |
| RunningRows.StepKeepsAttended | internal/node/task_receive.go:69-108 | As long as the writes that settle rows work, every running row has the handler that will settle it |
| RunningRows.OneRunningRowInRun | internal/node/task_receive.go:69-108 | Over whole runs in which they do, at most one row is running if and only if no handler with a lost accept stands beside another owner |
| RunningRows.TwoRunningRows | internal/node/task_receive.go:72-77 | A run with a lost accept after which two rows are running |
| RunningRows.TwoRunningRowsNoneLost | internal/node/task_receive.go:102-108 | A run in which no accept is lost and one outcome cannot be stored, after which two rows are running |
| TaskHost.CourseIsRun | internal/node/task_receive.go:40-85 | Whatever way an offer goes in the handler's code is a sequence of steps of the node system with the same effect on slot and table |
| TaskHost.RunIsRun | internal/node/task_receive.go:83-96 | So is the background run |
| TaskHost.Host.Accept | internal/node/task_receive.go:41-67 | Refuses for the first of ACL, kind, database, slot and row that fails, leaving no trace; otherwise slot and row are this task's |
| TaskHost.Host.ReceiveTask | internal/task/task_process.go:15-38 | An unreadable offer is an error, answered only when its version is wrong; an invalid one is refused for its first fault; neither changes anything. An offer is taken up exactly when it has an ID that is a UUID, a kind, and no negative demand for cores or memory; it then takes a course of the handler: refused for the first check that fails, accepted, or accepted and lost, with slot, table, result and verdict as that course has them |
| TaskHost.Host.TakeUp | internal/node/task_receive.go:40-81 | The same from a valid offer on; the accept counts as delivered exactly when the connection took all of it, and then of the other rows the settled ones from more than seven days before go, and no others |
| TaskHost.Host.RunTask | internal/node/task_receive.go:83-108 | The outcome is stored as the run ended, then the slot is free |
| TaskHost.Host.RunProcess | internal/executor/bare.go:20-41 | From what a process wrote to its row: done if and only if it exited cleanly and all it wrote fits in 64 KiB, with exactly that output; otherwise failed or interrupted without any; no other row changes |
| TaskResult.OnlyTheDispatcherSees | internal/node/task_result.go:38-55 | A requester gets anything but unknown if and only if it is named and dispatched the task; then it learns the row's outcome as it will store it |
| TaskResult.StatusServed | internal/node/task_result.go:38-55 | Status by status: what is served, whether it ends the polling, and what it is stored as; unknown ends it and is stored as failed |
| TaskResult.StatusWords | internal/task/result.go:21-42 | Each status travels as its word, and no other word is a status |
| TaskResult.WriteResult | internal/task/result.go:97-112 | A body over the cap is not sent at all; otherwise all of the frame exactly when no error is reported |
| TaskResult.AskResult | internal/task/result.go:138-150 | A response comes back exactly when the request went out and a whole answer with a known status came in |
| TaskResult.ServeResult | internal/task/result.go:154-164 | What is written is what the table shows this requester, or unknown for an ID that is no UUID or a table that cannot be read |
| TaskResult.ExchangeRoundTrip | internal/task/result.go:97-164 | A request arrives as asked and a response as served |
| TaskResult.HalfAnswerIsNoAnswer | internal/task/result.go:114-134 | A cut response is an error, never a result |
| Network.EventKeepsInv | internal/node/task_await.go:37-115 | Over many nodes, with peers that answer anything and lost messages, every event keeps the invariant |
| Network.DoneMeansExecuted | internal/node/task_await.go:101-115 | A sent row that is done with output o means: the node it names ran exactly the offered task for this dispatcher and produced o |
| Network.AnswersWereTrue | internal/node/task_result.go:38-55 | Every answer of one of our nodes was true of its table at some moment of the run, and went to a dispatcher whose task it had taken, or its table could not be read |
| Network.AcceptedRow | internal/node/task_receive.go:58-85 | Over whole runs of many nodes: a node that sent an accept has the dispatcher's row, or had it, settled it and then pruned it |
| Network.Agreement | internal/node/task_await.go:37-115 | Two-node agreement over whole runs: any settled outcome a dispatcher has recorded is its own restart, or the settled row the executor's table held at some moment, or "no record", and that only if the executor's table could not be read or had the row, settled it and pruned it |
| Network.SettledStays | internal/db/tasks.go:64-152 | No event anywhere changes a settled received row that is kept |
| Network.StillShows | internal/db/tasks.go:64-152 | What the executor showed once it still shows at the end of the run, if it kept the row |
| Network.NodesCanStep | internal/node/task_receive.go:40-98 | Whatever step a node's handlers can take, they can take among the other nodes |
| Network.AcceptCanArrive | internal/node/task_dispatch.go:33-64 | An accept that was sent can arrive, and its dispatcher then has a running row that names the node |
| Network.CanLearn | internal/node/task_await.go:37-115 | From wherever a run has come to: once the executor has settled its row, three events are enough for the dispatcher to hold that outcome |
| Output.CappedBuffer.Write | internal/executor/bare.go:52-61 | After any writes the buffer is exactly the first `limit` bytes of them and overflow tells exactly whether that is not all |
| Output.Run | internal/executor/bare.go:20-41 | Success exactly on a clean exit with at most 1 MiB of output, and then it is the complete stdout; a failed process is quoted with the first 4 KiB of stderr |
| Output.DoneIsComplete | internal/db/tasks.go:65-74 | A row as a run leaves it is done if and only if the process exited cleanly and its whole output fits in 64 KiB, and then it holds all of it; `Host.RunProcess` has it of the stored row |
| Output.AlphabetIs | internal/task/result.go:51-55 | The 64 letters of table 1 of RFC 4648, by value |
| Output.GroupBits | internal/task/result.go:51-55 | Four letters are the 24 bits of three bytes, the highest first |
| Output.Vectors | internal/task/result.go:51-55 | Three of the test vectors of section 10 of RFC 4648 |
| Output.DoneText | internal/task/result.go:49-55 | The JSON body of a done response, for one output and for none |
| Output.DecodeOfEncode | internal/task/result.go:51-55 | base64 (section 4 of RFC 4648) loses nothing |
| Output.EncodedLength | internal/task/result.go:17-19 | Four letters for every three bytes begun |
| Output.DoneFits | internal/task/result.go:17-19 | A done response fits its frame exactly up to 98280 bytes of output |
| Output.DoneIsServable | internal/task/result.go:97-134 | Every output a row can hold is accepted by writer and reader alike and arrives unchanged |
| Trim.TrimEitherWay | internal/node/aclstore.go:58-67 | Trimming white space from left then right is trimming from right then left |
| Trim.TrimIsDone | internal/node/aclstore.go:58-67 | Trimmed text has no white space at either end and trims to itself |
| Trim.TrimParts | internal/node/aclstore.go:58-67 | What trimming takes off is white space and nothing else |
| Trim.TrimsTo | internal/node/aclstore.go:127-131 | A text trims to a word if and only if it is that word between white space |
| TrimText.TrimAgrees | internal/blob/manifest.go:117 | Trimming characters, as the sanitiser does, and trimming bytes, as the access lists do, agree on well-formed text |
| AclStore.KeyValueOfLine | internal/node/aclstore.go:58-67 | A printed line reads back as its key and trimmed value |
| AclStore.SaysNothing | internal/node/aclstore.go:58-65 | Blank lines, comments and lines without `=` say nothing |
| AclStore.KeyValueOfSpaced | internal/node/aclstore.go:58-67 | White space around key and value is not part of them |
| AclStore.LastAllowDecides | internal/node/aclstore.go:56-82 | In a file of any short lines the last one with the key `allow` decides, and allows only when it says `true`; without one the entry denies |
| AclStore.PrintText | internal/node/aclstore.go:94-99 | The file `set` writes, letter by letter |
| AclStore.ValidIdsAre | internal/node/aclstore.go:13-35 | A stable ID is 1 to 64 letters, digits and dashes |
| Rfc3339.FormatRoundTrip | internal/node/aclstore.go:68-100 | Every second of the years 0 to 9999 is written in 20 printing bytes that read back as it |
| Rfc3339.TimeRoundTrip | internal/node/aclstore.go:68-100 | Every date and time of day of these years is that of one second and of no other |
| Rfc3339.YearStartFormula | internal/node/aclstore.go:96-100 | The years of the calendar, by the closed formula for leap days |
| Rfc3339.MonthStartFormula | internal/node/aclstore.go:96-100 | The months, by a closed formula for their lengths |
| Rfc3339.TextOf | internal/node/aclstore.go:96-100 | The written time, character by character |
| AclStore.UtcIsSound | internal/node/aclstore.go:68-100 | There is a sound clock, the one of `Rfc3339` |
| AclStore.ParseOfPrint | internal/node/aclstore.go:41-107 | At any sound clock, what `set` writes `lookup` reads: decision, hostname on one line and trimmed, time; for every hostname and every time with a four-digit year, unless the line of the hostname is too long, and then the entry is unreadable as a whole |
| AclStore.AclFiles.LookUp | internal/node/aclstore.go:41-82 | The scanning loop agrees with the specification; a read failure is an error, never "no entry" |
| AclStore.AclFiles.Set | internal/node/aclstore.go:86-107 | Every call is one edit of the histories below: it replaces the entry whole, or fails, leaves every entry as it was and anything in the temporary file; an invalid ID changes nothing |
| AclStore.AclFiles.List | internal/node/aclstore.go:110-124 | Lists only entries that can be looked up, as they are looked up; on a working disk all of them, and none when the directory cannot be read |
| AclStore.AclFiles.CheckTaskAccept | internal/node/task_acl.go:54-73 | Lets in only whom the task list trusts, and on a working disk everyone it trusts; without an entry only when the default file is there and says `allow` with nothing but white space around it |
| AclStore.AclFiles.CheckAccept | internal/node/acl.go:90-115 | Lets in only whom the file list trusts, within the size limit and the free space, and on a working disk all of these; the default as for tasks |
| AclStore.LookupIsLastEdit | internal/node/aclstore.go:41-107 | After any history of edits to both lists, failed ones included, an entry reads as the last edit of it wrote it |
| AclStore.DecisionIsLastEdit | internal/node/task_acl.go:54-73 | The decision is the last one recorded in that list and never the other list's, else the default; an allow with an unreadably long hostname denies |
| AclStore.NobodyUntilAllowed | internal/node/aclstore.go:127-131 | Without a default file and an earlier entry: after any history a peer gets in if and only if the last edit of it allows and can be read |
| AclStore.LongHostnameDenies | internal/node/aclstore.go:86-107 | At the clock of `Rfc3339`: an allow with a hostname of 65527 bytes denies, one with 65526 allows |
| Dispatch.ExchangeAsDialer | internal/discovery/hello.go:92-103 | The whole hello goes out before anything is read, and what is read is the peer's hello |
| Dispatch.Offer | internal/task/task.go:137-142 | Accepted exactly when the whole offer went out and an accept verdict came back |
| Dispatch.TryPeer | internal/node/task_dispatch.go:33-45 | A dialled peer counts as accepting exactly when it said hello and took the whole offer |
| Dispatch.DispatchTask | internal/node/task_dispatch.go:21-64 | The first willing peer gets the task, no peer after it is touched, and the sent row names it; failure only when nobody is willing |
| Dispatch.WaitClosedForm | internal/node/task_await.go:57-79 | Wait 0 is `first`, wait k is the smaller of first·2^k and `max` |
| Dispatch.AwaitResult | internal/node/task_await.go:52-80 | Terminates; an answer is the first finished one there is; it gives up only when the window is over, and then every ask that would have brought one comes too late; it asks again only while the window is open; an error names the last failed poll |
| Dispatch.EndsAre | internal/node/task_await.go:53-54 | The window ends with the plan or, if that is earlier, with the caller's context |
| Dispatch.DefaultSchedule | internal/node/task_await.go:23-27 | The default plan waits 1, 2, 4, 8 and then 10 seconds, for 10 minutes |
| Dispatch.DefaultPollBound | internal/node/task_await.go:23-27 | The default plan polls at most 64 times |
| Dispatch.AwaitAndRecord | internal/node/task_await.go:37-49 | A finished answer, and only that, is stored on the sent row |

## Left out

- The terminal interface, command line, machine gauges, profiles, tokens and schema migration: no protocol state.
- Tailscale clients, membership and the accept loop of the listener: a peer's stable ID is a given.
- JSON syntax, SHA-256, UUID syntax and SQL: a codec, a function, a predicate and a table with atomic updates.
- The forms of RFC 3339 that `time.Parse` takes and nothing here writes (zones, fractions of seconds): `Rfc3339` reads what is written.
- Process execution, work directories, panics and artifacts: a run is a free outcome; `Output.Run` starts from what the process wrote.
- Free space and file permissions: `CheckAccept` takes the size limit and the space check as parameters.
- The atomics behind the progress callbacks: a report is one update.
- Duplex.HonestRunsDeliver: speaks of connections that stay up and messages within their size caps; a connection that breaks is covered on the receiver's side by `Transfer.ReceiveChunks`, which takes any stream.
- TaskHost.Host.ReceiveTask: takes the accept phase of one connection without others in between; their interleaving is in `TaskNode`, whose steps `CourseIsRun` shows it to be.
- BlobReceive.BlobNode.ReceiveBlob: does not set deadlines; one that passes is a connection that fails, which the contract covers.
- SafeName.SafeName: speaks of the names listed as devices; what a file system makes of trailing spaces is not part of it.
- Network.Agreement: does not speak of polls that never get an answer; the sent row then stays running until a restart.
- Two concurrent `set` calls for one ACL entry share one temporary name; only sequential edits are modelled.
- Sender-side history rows and the file the sender opens by path: `Send` starts from a readable file.
- base64 input with line breaks in it: Go's decoder skips them, no encoder here writes them.
- Identifiers grow without bound here; `uint64` transfer IDs and 64-bit times are not wrapped.
- Log texts and the exact wording of refusals: reasons are values, turned into bytes by a parameter.
