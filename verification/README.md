# Verified models of the dash-cam application

A Dafny model of the hard core of the recorder: the protocols between its threads, the data structures it changes in
place, and its numeric kernels. Each `.dfy` file models one component; classes and methods follow the source's fields
and loops and are proved against value-level functions, and the properties are lemmas about those functions and about
step systems in which the threads interleave. `dafny verify dfyconfig.toml` checks everything.

| file | what it models |
|---|---|
| `MessageQueue.dfy` | the FIFO through which clients talk to the encoder thread |
| `EncoderModel.dfy` | reference counting of the shared encoders, one handled message at a time, on values |
| `EncodeHandler.dfy` | the same operations on heap objects, refining `EncoderModel` |
| `EncoderProtocol.dfy` | any number of clients and the encoder thread interleaved: start, stop, cancel, wait, notify |
| `OutputBuffers.dfy` | output buffers lent to packets that outlive the call |
| `PacketQueue.dfy` | the player's packet list with seek epochs |
| `SeekSafety.dfy` | demuxer and decoder interleaved around that list |
| `FrameRing.dfy` | the single-producer, single-consumer frame ring and the ownership of picture handles |
| `Crc32.dfy` | the table-driven checksum against division of the bit string |
| `LineRaster.dfy` | line drawing in four octant loops against the nearest points of the ideal line |
| `AudioReblock.dfy` | two audio queues around a fixed-block voice library |
| `DisplayList.dfy` | the doubly linked list of windows on screen |
| `NmeaSplit.dfy` | the NMEA 0183 field splitter and the digits of the track record |
| `Kalman.dfy` | the parking detector's filter over exact reals |
| `Yuyv.dfy` | planar to interleaved pixel repacking |
| `Thermal.dfy` | the six-level thermal machine |

Results of the outside world (allocation, encoder and muxer initialisation, file and sensor access) are parameters, and
the theorems hold for every value of them. The protocols are step systems in which each step is one critical section or
one access to shared memory, so a run is any interleaving.

Where a promise does not hold of the code as it stands, the code is kept and the exact condition is proved. These have a
concrete failing run or input:

- a stop cancels queued starts by message id alone, so a detach may cancel another muxer's attach
  (`DetachCancelsAnotherAttach`, `CancelledStopExact`, `VictimExact`);
- two clients that record at once break an assert (`SecondStartBreaksAssert`, `StartFindsClosed`);
- five messages unbalance the encoder counts, of which two are shown (`FailedRestartLeaks`, `StopAfterFailedStartUnrefs`,
  `ReattachExact`, `HandleExact`);
- buffer flags share memory words and are set without the lock that clears them, so a buffer a muxer still reads can be
  overwritten (`OverlappingMarkIsLost`, `MarkInsideReleaseIsLost`, `ReleaseInsideMarkLeaks`);
- a seek between the test of a picture's serial and its display lets an old picture through (`OldPictureIsShown`,
  `DisplayedPictureExact`);
- after a short read an audio call queues stale bytes and delivers over what it delivered (`StaleBytesQueued`,
  `ShortReadsExactly`, `QueuesWhatItReadsExactly`, `BufferHoldsDeliveredExactly`).

For these the exact condition says which inputs fail:

- the bounds test of `yuv420_draw_point` accepts one column and one row too many (`FrameKeptExactly`);
- a field of an NMEA sentence can overrun its buffer (`Parse`);
- the audio queues reject data for some request sizes (`NeverRejectsExactly`), and copies inside them overlap for small
  ones (`MovesApartExactly`);
- repacking shifts the rows of pictures whose width is not divisible by four (`LumaKeptExactly`, `ChromaKeptExactly`);
- flipping an upright panel maps no window at all (`ShownExactly`);
- an alarm file that cannot be opened takes the thermal state below the levels, where thresholds are read outside their
  tables (`LevelKeptExactly`, `ComesBackExactly`), and some targets have limits that are never programmed
  (`ProgrammableExactly`).

## Model

| member | source | states |
|---|---|---|
| `MessageQueues.MessageQueue.Push` | av_wrapper/message_queue.h:51-57 | the message joins at the back, nothing else changes |
| `MessageQueues.MessageQueue.PopFront` | av_wrapper/message_queue.h:58-64 | front message and remaining queue together are the old queue |
| `MessageQueues.MessageQueue.PopMessageOfId` | av_wrapper/message_queue.h:65-79 | the erase-while-iterating loop leaves exactly the messages of other ids in order and appends those of the id, in order, to the caller's list |
| `MessageQueues.MessageQueue.Empty` | av_wrapper/message_queue.h:80-83 | true exactly when nothing is queued |
| `MessageQueues.PopPartitions` | av_wrapper/message_queue.h:65-79 | pulling out an id splits the queue in two parts: together they are a permutation of it, one has only that id, the other never |
| `MessageQueues.WithoutKeepsOrder` | av_wrapper/message_queue.h:65-79 | what stays is a subsequence of the queue, by increasing indices |
| `MessageQueues.OfIdKeepsOrder` | av_wrapper/message_queue.h:65-79 | and so is what is pulled out |
| `EncoderModel.HandleKeepsWellFormed` | encode_handler.cpp:515-791 | for every command and every outcome of the outside world: a live encoder has a positive count, the audio thread id is set exactly while the audio encoder exists, muxers never point at encoders not made yet |
| `EncoderModel.BalancedPointers` | encode_handler.cpp:515-626 | when counts equal holders, the video pointer is NULL exactly when nobody holds it, and the audio thread id is set exactly while somebody holds the audio encoder |
| `EncoderModel.HandleExact` | encode_handler.cpp:892-1009 | one handled message keeps every reference count equal to the number of live holders if and only if it is not one of five named unpaired messages, a start that fills a muxer slot again included |
| `EncoderModel.AttachBalanced` | encode_handler.cpp:628-668 | an attach of a muxer that is not attached, whether it succeeds or fails at any of its stages, keeps counts equal to holders |
| `EncoderModel.DetachExact` | encode_handler.cpp:670-684 | a detach keeps them if and only if its muxer is attached or points at no live encoder; a muxer that is not attached can still point at one after a late failed attach, or after an earlier detach when its next attach was pulled or failed early |
| `EncoderModel.ReattachExact` | encode_handler.cpp:628-668 | attaching an attached muxer keeps them if and only if the attach fails before it overwrites the pointers, fails late with as many pointers as before, or the muxer held none |
| `EncoderModel.FailedRestartLeaks` | encode_handler.cpp:747-767 | counterexample: a restart whose init_uri fails leaves both counts at 1 with no holder |
| `EncoderModel.StopAfterFailedStartUnrefs` | encode_handler.cpp:892-900 | counterexample: stopping an encode whose start failed releases the encoder a user muxer still holds |
| `EncoderModel.AttachTakes` | encode_handler.cpp:628-648 | an attach takes the video encoder if and only if video was asked for and one is there or can be made, the audio encoder if and only if audio was asked for, there is a capture device, and one is there or can be made and its thread started; what was not asked for is not touched |
| `EncoderModel.AttachHolds` | encode_handler.cpp:628-668 | after a successful attach the muxer points at exactly the live encoders it asked for and that could be had, each with one reference more; a failed one takes no reference, and one whose address fails stores nothing |
| `EncoderModel.DetachGivesBack` | encode_handler.cpp:670-684 | a detach keeps the stored pointers, and takes one reference from each encoder that they still point at |
| `EncoderModel.BothExactly` | encode_handler.cpp:612-621 | both encoders are had if and only if the video encoder is there or can be made and, with a capture device, the audio encoder too |
| `EncoderModel.AllocExactly` | encode_handler.cpp:702-737 | a muxer is started if and only if both encoders are had and it can be created, addressed and started |
| `EncoderModel.CommandExactly` | encode_handler.cpp:892-1009 | for every command and outcome, which of the encodes, the two muxer slots and the user muxers change, and that no other does |
| `EncoderModel.AudioLoopFollows` | encode_handler.cpp:584-610 | the audio loop is enabled by the first reference to the audio encoder and stopped by the last, and no other reference touches it |
| `EncodeHandlers.VideoObject.Ref` | av_wrapper/video_common.cpp:21-23 | the count rises by one |
| `EncodeHandlers.VideoObject.Unref` | av_wrapper/video_common.cpp:24-32 | the count falls by one and the answer says whether the object lives on |
| `EncodeHandlers.EncodeHandler.H264EncoderRef` | encode_handler.cpp:544-572 | heap objects move as the value specification says, new encoder or shared one, failure included |
| `EncodeHandlers.EncodeHandler.H264EncoderUnref` | encode_handler.cpp:574-582 | last reference gone: pointer NULL; otherwise one less |
| `EncodeHandlers.EncodeHandler.EncodeStartAudioThread` | encode_handler.cpp:486-501 | thread id and audio_enable after a successful or failed start |
| `EncodeHandlers.EncodeHandler.EncodeStopAudioThread` | encode_handler.cpp:503-512 | the loop is stopped and its id cleared |
| `EncodeHandlers.EncodeHandler.AudioEncoderRef` | encode_handler.cpp:584-598 | encoder and thread come together or not at all |
| `EncodeHandlers.EncodeHandler.AudioEncoderUnref` | encode_handler.cpp:599-610 | the thread stops exactly when the last reference goes |
| `EncodeHandlers.EncodeHandler.H264AudioEncoderRef` | encode_handler.cpp:612-621 | both encoders are referenced or, on failure, neither |
| `EncodeHandlers.EncodeHandler.H264AudioEncoderUnref` | encode_handler.cpp:623-626 | both references go |
| `EncodeHandlers.EncodeHandler.MuxerAlloc` | encode_handler.cpp:702-737 | a muxer is handed out exactly when init and job start succeed; otherwise the references taken for it are given back |
| `EncodeHandlers.EncodeHandler.AttachRefs` | encode_handler.cpp:628-648 | what is asked for and could be had is referenced and returned, the rest is NULL: refines the function that `EncoderModel.AttachTakes` pins by the two flags |
| `EncodeHandlers.EncodeHandler.AttachUndo` | encode_handler.cpp:655-668 | references taken for a failed attach are given back |
| `EncodeHandlers.EncodeHandler.AttachUserMuxer` | encode_handler.cpp:628-668 | the whole attach refines its value specification, for every outcome; `EncoderModel.AttachHolds` says by the flags what the muxer then holds |
| `EncodeHandlers.EncodeHandler.DetachUserMuxer` | encode_handler.cpp:670-684 | a detach drops the references of the muxer's live pointers and marks it detached |
| `EncodeHandlers.EncodeHandler.FileEncodeStartJob` | encode_handler.cpp:747-767 | success keeps the file muxer; a failed init_uri drops it without touching the counts |
| `EncodeHandlers.EncodeHandler.StartEncode` | encode_handler.cpp:893-896 | a start of encoding takes both encoders or reports failure |
| `EncodeHandlers.EncodeHandler.StopEncode` | encode_handler.cpp:897-900 | a stop gives both back |
| `EncodeHandlers.EncodeHandler.StartMuxer` | encode_handler.cpp:901-947 | cache and file start: slot filled exactly on success |
| `EncodeHandlers.EncodeHandler.StopMuxer` | encode_handler.cpp:918-975 | cache and file stop: slot emptied, both encoders released once |
| `EncodeHandlers.EncodeHandler.HandleMessage` | encode_handler.cpp:892-1009 | the message switch over heap objects refines the value-level handler for every command, so the exactness results apply to it |
| `EncoderProtocol.StartFindsClosed` | encode_handler.cpp:702-706 | over every interleaving of clients, encoder steps and frame restarts, with clients free to start and stop anything at any time, the asserts of MUXER_ALLOC and of START_RECODEFILE hold at every handled start whose kind was always called in turn: started while off and stopped by the client that started it |
| `EncoderProtocol.SecondStartBreaksAssert` | encode_handler.cpp:925-926 | counterexample run: two clients start recording one after the other, and the assert of START_RECODEFILE fails |
| `EncoderProtocol.StartHandlerFindsClosed` | encode_handler.cpp:925-926 | a start handler never finds what it opens already open, for a kind called in turn and, if it is a user muxer, from which no cancel strayed before |
| `EncoderProtocol.QuietOutsideCalls` | encode_handler.cpp:276-356 | outside a start-stop pair nothing of that kind is queued, being handled or open, under the same two conditions |
| `EncoderProtocol.WaitedStopReturnsQuiet` | encode_handler.cpp:311-316 | a stop call that waited returns with no start of its kind queued or being handled and nothing open, for every kind and muxer called in turn, strayed or not, even if the start failed |
| `EncoderProtocol.CancelledStopExact` | encode_handler.cpp:351-356 | a stop call that cancelled returns quiet if and only if its own start was still queued (always so for encodes, cache and recording), had failed, or was itself pulled by another client |
| `EncoderProtocol.DetachCancelsAnotherAttach` | encode_handler.cpp:276-290 | counterexample run: because messages are pulled by id only, one client's detach cancels another client's attach and leaves its own muxer attached |
| `EncoderProtocol.VictimExact` | encode_handler.cpp:276-290 | a queued attach is lost exactly when the detach of another muxer looks into the queue while it is there; otherwise it stays until the encoder thread takes it |
| `EncoderProtocol.PulledStaysQuiet` | encode_handler.cpp:276-290 | a pulled start is never handled: its kind stays quiet until its client's own stop |
| `EncoderProtocol.NotifyFindsSleeper` | encode_handler.cpp:835-843 | no lost wakeup: when the handler notifies, the sender is asleep on its condition |
| `EncoderProtocol.OneMessagePerCall` | encode_handler.cpp:245-265 | each synchronous call has exactly one message under way until it is answered once; after it returned nobody touches its mutex or condition |
| `EncoderProtocol.MutexHolders` | encode_handler.cpp:256-265 | a sender's mutex is held by the sender from before the push until it sleeps, by the encoder only around the notify |
| `EncoderProtocol.WaitersAreNotStuck` | encode_handler.cpp:245-265 | while a sender waits, the encoder thread can take its next step from message to message, or the one client it is about to notify can release its mutex by going to sleep |
| `EncoderProtocol.EveryStepServes` | encode_handler.cpp:245-265 | a measure of what stands before a waiting sender never rises, whatever any thread does, and falls with every such step until the sender is notified |
| `EncoderProtocol.NotifiedInTime` | encode_handler.cpp:245-265 | so in every run, whatever else is queued, cancelled or called, the sender is notified by the time six such steps for each message queued when it began to wait, and five more, were made |
| `EncoderProtocol.CountsMatchHolders` | encode_handler.cpp:515-791 | in every run without an unpaired command, stray cancels included, both reference counts equal the live holders, and a pointer is NULL exactly at zero holders |
| `EncoderProtocol.FirstUnpairedUnbalances` | encode_handler.cpp:515-791 | and the first unpaired command, or failed frame restart, is exactly where that ends |
| `EncoderProtocol.CleanAttachIsPaired` | encode_handler.cpp:628-668 | an attach is unpaired only for a muxer that an earlier cancel strayed from or that was called out of turn |
| `EncoderProtocol.StepInv` | encode_handler.cpp:245-375 | the protocol invariant is kept by every step of every thread |
| `EncoderProtocol.RunInv` | encode_handler.cpp:245-375 | hence by every run |
| `OutputBuffers.FirstFree` | encode_handler.cpp:799-806 | the selected buffer is the first one not being read, or none |
| `OutputBuffers.FirstFreeUnique` | encode_handler.cpp:799-806 | and that description has one solution |
| `OutputBuffers.BufferPool.GetWriteableEdb` | encode_handler.cpp:793-825 | the search loop returns that index, or that it must wait |
| `OutputBuffers.BufferPool.SetEbdWriteable` | encode_handler.cpp:827-833 | exactly the given buffer becomes writeable |
| `OutputBuffers.EncodedPacket.constructor` | encode_handler.cpp:1198-1206 | dispatch marks exactly the packet's buffer as being read |
| `OutputBuffers.EncodedPacket.Unref` | av_wrapper/video_common.cpp:24-32 | the buffer is given back by the release callback exactly at the last reference |
| `OutputBuffers.CallbackOnceAtTheEnd` | av_wrapper/video_common.cpp:24-32 | in every run, however flag updates overlap, each packet's callback runs once and only after its last reference is gone |
| `OutputBuffers.WrittenBufferIsFree` | encode_handler.cpp:793-818 | in every run in which no mark is written while a release is between its read and its write of the flag word, the buffer being written is one no live packet refers to, and every live packet's buffer is marked |
| `OutputBuffers.MarkInsideReleaseIsLost` | encode_handler.cpp:827-833 | and a mark written inside a release is lost every time, whatever comes in between: its packet is live and its buffer unmarked |
| `OutputBuffers.MarkedMeansLive` | encode_handler.cpp:1202-1206 | in every run without overlapping flag updates a buffer is marked exactly while an unreleased packet refers to it |
| `OutputBuffers.ReleaseInsideMarkLeaks` | encode_handler.cpp:1202-1206 | and a release that writes inside a marking is undone every time: its buffer stays marked with no packet left to release it |
| `OutputBuffers.OverlappingMarkIsLost` | encode_handler.cpp:1202-1206 | counterexample from the initial state with three buffers: a run after which the encoder chooses a buffer that a packet held by a muxer still refers to |
| `PacketQueues.PacketQueue.PutPrivate` | videoplay.c:575-605 | append through the tail pointer; a flush packet opens a new serial; counters equal list length and summed size; refused when aborted |
| `PacketQueues.PacketQueue.FlushAll` | videoplay.c:653-668 | every queued packet is released once, in order, and the counters return to zero |
| `PacketQueues.PacketQueue.Get` | videoplay.c:697-751 | the front entry with its serial, empty or aborted told apart |
| `PacketQueues.PacketQueue.Abort` | videoplay.c:677-686 | only the abort flag changes |
| `PacketQueues.PacketQueue.Start` | videoplay.c:688-694 | abort cleared and a flush packet queued |
| `PacketQueues.TotalSizeAppend` | videoplay.c:596-599 | the size counter's increment is the growth of the summed size |
| `PacketQueues.FetchCurrent` | videoplay.c:762-793 | the fetch loop skips exactly flush packets and packets of older epochs, flushing the codec once per flush packet, and accepts only a packet of the queue's serial |
| `PacketQueues.SerialCountsEpochs` | videoplay.c:575-605 | over every run of puts, gets, flushes, aborts and starts: the queue refuses exactly while it is not running, its serial is the number of epochs opened, and queued serials rise by one exactly at flush packets |
| `PacketQueues.SizeIsBytes` | videoplay.c:596-599 | a queued data packet counts its bytes and its node, a flush packet its node alone |
| `SeekSafety.EpochsAreSeparated` | videoplay.c:753-793 | over every interleaving of seeks and decoding, any two packets of different serials given to the codec have a codec flush between them |
| `SeekSafety.SettlesOnRecentPacket` | videoplay.c:762-793 | a packet the decoder settles on has the queue's serial at that check and was read after the last completed seek |
| `SeekSafety.PicturesAreLabelled` | videoplay.c:2390-2391 | the serial under which a picture is queued is the serial of everything fed to the codec since its last flush |
| `SeekSafety.StepInv` | videoplay.c:3138-3149 | every step of demuxer and decoder keeps the serial invariant |
| `SeekSafety.RunInv` | videoplay.c:3138-3149 | hence every run |
| `SeekSafety.AtMostOneOldFeed` | videoplay.c:753-810 | in every run after a seek, until the next one, at most one packet of an older epoch is still given to the codec, and only if the decoder had it in hand when the seek came |
| `FrameRings.FrameQueue.constructor` | videoplay.c:869-895 | an empty ring of the given size |
| `FrameRings.FrameQueue.PeekWritable` | videoplay.c:943-983 | nothing when aborted, else a slot that holds none of the queued frames |
| `FrameRings.FrameQueue.PeekReadable` | videoplay.c:985-1026 | nothing when aborted, else the slot of the first queued frame not shown yet |
| `FrameRings.FrameQueue.Push` | videoplay.c:1028-1036 | the frame in the write slot joins the queued frames at the end; index and size advance in the two parts the interleaving splits |
| `FrameRings.FrameQueue.Next` | videoplay.c:1038-1052 | the first call with a kept last frame only marks it shown; the others take exactly the first queued frame out |
| `FrameRings.FrameQueue.Prev` | videoplay.c:1055-1060 | the shown frame becomes readable again |
| `FrameRings.FrameQueue.FreePicture` | videoplay.c:1100-1108 | the slot's handle is released and the slot forgets it |
| `FrameRings.FrameQueue.VideoImageDisplay` | videoplay.c:1146-1198 | the front handle moves to the screen and the one shown before is freed; a frame without handle changes nothing |
| `FrameRings.FrameQueue.Destroy` | videoplay.c:897-908 | every handle in the ring is freed exactly once |
| `FrameRings.FillThenPush` | videoplay.c:1028-1036 | the write slot holds no queued frame, so filling it changes none of them, and pushing queues it last |
| `FrameRings.NextUnlinksFirst` | videoplay.c:1038-1052 | unlinking takes out exactly the first queued frame |
| `FrameRings.DisplayedPictureExact` | videoplay.c:1577-1656 | a displayed picture had the packet queue's serial when it was tested, and is of an older epoch when displayed if and only if a seek fell between the test and the display |
| `FrameRings.OldPictureIsShown` | videoplay.c:1577-1656 | counterexample: from the initial state of every ring a run that queues a picture, tests it, seeks, and displays it after the serial has risen |
| `FrameRings.FilledSlotIsNotRead` | videoplay.c:943-1052 | with index and size updates as separate steps of two threads, the slot being filled is never one holding an unread or last-shown frame |
| `FrameRings.FramesInOrder` | videoplay.c:985-1052 | frames come out in the order they went in, each once, except for a deliberate second look at the kept one |
| `FrameRings.SizeInBounds` | videoplay.c:1028-1066 | size stays in its range and never counts less than what is readable |
| `FrameRings.TakenFrameIntact` | videoplay.c:2494-2503 | the audio frame stays intact in its slot after frame_queue_next until another is taken |
| `FrameRings.NextSparesTakenExact` | videoplay.c:1038-1052 | frame_queue_next spares the frame just taken if and only if the ring keeps its last frame |
| `FrameRings.FreedAtMostOnce` | videoplay.c:1087-1108 | a handle is never freed twice, nor while a slot or the screen has it |
| `FrameRings.RefilledSlotHoldsNoHandle` | videoplay.c:1713-1755 | a slot about to be refilled holds no handle |
| `FrameRings.CloseFreesEverythingOnce` | videoplay.c:1227-1232 | after close every handle ever queued was freed exactly once over the whole run |
| `FrameRings.StepInv` | videoplay.c:917-1066 | every step of the two threads keeps the ring invariant |
| `FrameRings.RunInv` | videoplay.c:917-1066 | hence every run |
| `Crc32.TableIsShift8` | wifi_ota_interface.c:43-108 | all 256 table entries are eight division steps by the reflected polynomial 0xEDB88320 (section 8 of RFC 1952) |
| `Crc32.TableStepIsFeed` | wifi_ota_interface.c:127-128 | one table step equals dividing in the eight bits of the byte |
| `Crc32.FeedIsShift` | wifi_ota_interface.c:125-133 | up to 32 bits can be xored in as a word and then shifted out |
| `Crc32.WindowInjective` | wifi_ota_interface.c:125-133 | from one register value, different words of at most 32 bits lead to different registers |
| `Crc32.BurstChangesRegister` | wifi_ota_interface.c:125-133 | messages that differ only within 32 consecutive bits, at any bit offset, end in different registers |
| `Crc32.FourByteWindowDetected` | wifi_ota_interface.c:110-135 | files of equal length differing only within at most four consecutive bytes never share a checksum |
| `Crc32.FeedBlock` | wifi_ota_interface.c:126-129 | the inner loop continues the bitwise division over one block |
| `Crc32.FileCrc32` | wifi_ota_interface.c:110-135 | the result is the bitwise CRC of the whole file for every split into reads; a file that cannot be opened gives -1 |
| `Crc32.Residue` | wifi_ota_interface.c:110-135 | a file followed by its own checksum, low byte first, always leaves the register at 0xDEBB20E3, which fixes initial value and final complement |
| `Crc32.CheckValues` | wifi_ota_interface.c:110-135 | the empty file has checksum 0 and the digits 1 to 9 have 0xCBF43926 |
| `LineRaster.MinorIsNearest` | show.c:268-334 | the reference position is the ideal one rounded to nearest |
| `LineRaster.NearestUnique` | show.c:268-334 | and rounding has one correct result, so the loops' decisions are forced |
| `LineRaster.ErrorDecides` | show.c:268-334 | the sign of the integer error term decides the rounding correctly, and its update is the next error term (nonlinear invariant) |
| `LineRaster.LineReachesEnd` | show.c:268-334 | a line starts and ends exactly on its end points and stays in their bounding box |
| `LineRaster.HalfPixel` | show.c:268-334 | every point lies within half a pixel of the ideal line on the minor axis |
| `LineRaster.LineConnected` | show.c:268-334 | successive points are neighbours |
| `LineRaster.DrawingTurns` | show.c:270-333 | one turn of any octant loop plots the next point of the line |
| `LineRaster.DrawingStops` | show.c:270-333 | each loop's guard fails exactly at the end point |
| `LineRaster.DrawGentleUp` | show.c:268-283 | octant loop, slope in (0, 1]: the picture after it is the whole line plotted |
| `LineRaster.DrawSteepUp` | show.c:285-300 | slope above 1 |
| `LineRaster.DrawGentleDown` | show.c:302-317 | slope in [-1, 0) |
| `LineRaster.DrawSteepDown` | show.c:319-334 | slope below -1 |
| `LineRaster.DrawVline` | show.c:164-194 | vertical lines plot every point but the first up to the first rejected one, and report whether there was one |
| `LineRaster.DrawHline` | show.c:196-226 | the same for horizontal lines |
| `LineRaster.DrawTline` | show.c:228-337 | the dispatch by octant draws the reference line between any two points, in memory that goes on behind the frame at least as far as is written |
| `LineRaster.LineColours` | show.c:129-162 | on pixels: after a slanted line whose accepted points lie in the frame, the luma at (x, y) is the colour's if and only if a visible point rounds down to (x, y), the chroma of a block if and only if one lies in the block; all others are as before |
| `LineRaster.RunColours` | show.c:164-226 | the same for vertical and horizontal lines |
| `LineRaster.VerticalPixels` | show.c:164-194 | a vertical line between two points of the frame sets the even rows from one end to the other in its column rounded down, and no other luma |
| `LineRaster.HorizontalPixels` | show.c:196-226 | the same for a horizontal line |
| `LineRaster.LeadingExactly` | show.c:185-194 | how far the straight loops get: to the edge of the frame, or nowhere when the point after the first end is outside |
| `LineRaster.PointColours` | show.c:129-162 | on pixels: an accepted point in the frame sets the luma of the one pixel at its even coordinates and the chroma of the two-by-two block it lies in, and nothing else; a rejected one sets nothing |
| `LineRaster.DrawPoint` | show.c:129-162 | bounds test, rounding to even coordinates and the three writes, also where they lie behind the frame; `PointColours` says which pixels these are |
| `LineRaster.DrawableFits` | show.c:129-162 | for accepted drawable points all three writes are in the frame, luma and chroma in their own planes |
| `LineRaster.FrameKeptExactly` | show.c:129-162 | a point leaves everything behind the frame alone, for every picture and colour, if and only if it is rejected or drawable: not on row height, and not on column width in the last two rows |
| `LineRaster.AnythingIsWritable` | show.c:228-337 | no write goes further behind the frame than one row and two bytes, so with that much memory the operation is defined between any two points |
| `LineRaster.DrawableExactly` | show.c:129-162 | the bounds test also accepts x == width and y == height: exactly the points that are not drawable make a write leave the frame |
| `LineRaster.InsideIsDrawable` | show.c:228-337 | between end points left of and above the far edges everything can be drawn inside the frame |
| `LineRaster.DrawRun` | show.c:185-194 | the straight loops plot exactly the points before the first one the bounds test rejects |
| `LineRaster.LeadingStops` | show.c:185-194 | once a point is rejected no later one is drawn |
| `AudioReblock.Queue.Put` | alsa_capture.c:166-196 | a buffer is queued whole or rejected whole |
| `AudioReblock.Queue.Drop` | alsa_capture.c:390-393 | the front leaves and the rest moves to the start |
| `AudioReblock.Capture.Split` | alsa_capture.c:363-369 | left and right samples of one block are separated |
| `AudioReblock.Double` | alsa_capture.c:380-385 | one channel is laid out on both sides |
| `AudioReblock.StereoIsMono` | alsa_capture.c:380-385 | what is handed on plays the same samples left and right |
| `AudioReblock.Capture.ProcessBlock` | alsa_capture.c:350-387 | one block goes through the voice library, whose state carries over, and is queued |
| `AudioReblock.Capture.Turn` | alsa_capture.c:344-406 | one turn refines the value specification: what was queued, processed, delivered and kept |
| `AudioReblock.Capture.Doing` | alsa_capture.c:307-411 | the whole call, with short reads, errors and the repeated turns, refines its value specification |
| `AudioReblock.FullReadIsOnePass` | alsa_capture.c:307-411 | a call that reads all its frames at once is one turn over exactly the sound read |
| `AudioReblock.CallIsRun` | alsa_capture.c:307-411 | a call with short reads, errors and repeats leads to the state that the turns over the buffers it offers lead to, so the results about runs of turns hold for calls |
| `AudioReblock.LibrarySeesQueued` | alsa_capture.c:344-393 | whatever is refused, the voice library has seen exactly the whole blocks of what the input queue took, in order, and the queue holds the rest |
| `AudioReblock.QueuesWhatItReadsExactly` | alsa_capture.c:319-347 | no turn of a call is refused and exactly the sound it reads enters the input queue if and only if it reads nothing, or its first read is full and there is room for it |
| `AudioReblock.ShortReadsExactly` | alsa_capture.c:319-347 | for requests of at most 11009 bytes nothing is refused: a call queues exactly what it reads if and only if its first read is full or gives nothing |
| `AudioReblock.StaleBytesQueued` | alsa_capture.c:319-347 | counterexample: two frames read one at a time; the call reports both, queues four bytes that were never read between them, and hands back a buffer without the first frame |
| `AudioReblock.BufferHoldsDeliveredExactly` | alsa_capture.c:319-405 | no turn of a call is short and the caller's buffer ends up holding exactly what its turns delivered if and only if the call makes one turn, which is not short; a second turn delivers to the front again |
| `AudioReblock.CallAnswers` | alsa_capture.c:319-410 | a call returns its size once its reads make up the request, else the error or the 0 of the read that came before |
| `AudioReblock.SoundChannels` | alsa_capture.c:363-387 | on bytes: a library that returns its first input gives back the right sample of every frame on both sides, one that returns its second the left sample, so the microphone is the right channel and the reference the left one |
| `AudioReblock.DeliveredChannels` | alsa_capture.c:344-406 | and so in what is delivered, frame by frame, in every run in which the queues take everything |
| `AudioReblock.ProcessedSplit` | alsa_capture.c:349-388 | processing in several turns equals processing the whole sound from the state the library was left in |
| `AudioReblock.StreamOrder` | alsa_capture.c:344-406 | while nothing is rejected, delivered bytes followed by waiting bytes are the processed form of all whole blocks heard, for turns of any sizes |
| `AudioReblock.Backlog` | alsa_capture.c:344-406 | what waits equals the short turns times the request, under one request plus one block; the first turn is short exactly when the request is no multiple of 1280 |
| `AudioReblock.FixedRequest` | alsa_capture.c:344-406 | for 1280 <= B and 2B <= 12288: at most the first turn is short, each other delivers the next B processed bytes, under 1280 bytes of input and at most B bytes in all wait, nothing is rejected |
| `AudioReblock.SmallRequest` | alsa_capture.c:344-406 | for smaller requests: at most 1 + 1278/B short turns |
| `AudioReblock.NeverRejectsExactly` | alsa_capture.c:166-196 | neither queue ever rejects data, over all runs, if and only if B <= 6144, or B is a multiple of 1280 up to 12288 |
| `AudioReblock.MovesApartExactly` | alsa_capture.c:389-402 | the copies inside the queues never have overlapping ranges, in any run in which the queues take everything, if and only if a request is at least one block |
| `AudioReblock.LastTurnOverruns` | alsa_capture.c:166-196 | for every other B a queue overruns within 1280 turns |
| `DisplayList.MapTurnsPixels` | display.c:106-131 | which way windows turn, pixel by pixel: at 90 pixel (x, y) goes to column W - 1 - y and row x, at 270 to column y and row H - 1 - x |
| `DisplayList.CornersAndBack` | display.c:106-131 | the corner (0, 0) goes to the top right at 90 and to the bottom left at 270, and turning by 90 and then by 270 is where one began |
| `DisplayList.ShownExactly` | display.c:106-131 | a rotation shows windows if and only if it is not 180 degrees in all, so an upright panel that is flipped shows none |
| `DisplayList.ShowsExactly` | display.c:330-453 | a position is listed after it was shown exactly if it was before or the layout has it, last and undone by taking it off; during a change of layout nothing can be shown |
| `DisplayList.ComposeKeepsOrder` | display.c:165-181 | the windows behind window 0 are drawn in list order |
| `DisplayList.Screen.AddNode` | display.c:57-75 | tail walk and linking: the list is the old one with the node last |
| `DisplayList.Screen.DeleteNode` | display.c:77-104 | search and the four unlink cases: exactly that node leaves; a node not in the list changes nothing |
| `DisplayList.Screen.UnlinkMiddle` | display.c:95-99 | bypassing an inner node keeps both directions of the list consistent |
| `DisplayList.Screen.Find` | display.c:392-397 | the first node of a position, or none |
| `DisplayList.Screen.DisplayTheWindow` | display.c:373-427 | a new position is appended exactly when it is in range and everything it needs succeeds, an existing one is reused, and a node is drawn into exactly in these two cases |
| `DisplayList.Screen.ShieldTheWindow` | display.c:429-453 | exactly the shown position leaves |
| `DisplayList.Screen.ClearWindows` | display.c:330-351 | the reset loop empties the list and the layout |
| `DisplayList.Screen.InstallWindows` | display.c:356-370 | the new layout and the rotation angle |
| `DisplayList.Screen.Compose` | display.c:165-181 | a pass draws window 0 first, then the others in list order |
| `DisplayList.RunKeepsDistinct` | display.c:330-453 | over every run of show, shield and reset, positions are pairwise distinct and non-negative, and a shielded position is gone |
| `DisplayList.ComposeDrawsEachOnce` | display.c:165-181 | a pass draws every node exactly once if and only if position 0 occurs at most once |
| `DisplayList.EveryPassDrawsAll` | display.c:165-181 | so in every reachable list each window is drawn exactly once, window 0 first |
| `DisplayList.MapFits` | display.c:106-131 | a rotated window lies on the panel exactly when the window lies on the rotated panel, unsigned wrap-around included |
| `DisplayList.MapKeepsApart` | display.c:106-131 | rotation keeps non-overlapping windows apart and overlapping ones overlapping |
| `NmeaSplit.JoinOfFields` | gps/nmea_parse.cpp:252-281 | fields and unterminated rest, joined, are the sentence |
| `NmeaSplit.SplitUnique` | gps/nmea_parse.cpp:252-281 | and no other comma-free fields and rest make up that sentence |
| `NmeaSplit.Parse` | gps/nmea_parse.cpp:232-284 | on the comma fields: all closed fields are handed on in order with their number, an empty one as "0", and 0 is returned; of a position sentence whose field 2 is empty or begins with '0' exactly the first three, and -1; the buffer is overrun if and only if a field handed on has 100 characters or more, or the rest more than 100 |
| `NmeaSplit.DecodeEncode` | gps/nmea_parse.cpp:317-340 | digits read back give the number modulo the room, the number itself if and only if it fits |
| `NmeaSplit.EncodeDigits` | gps/nmea_parse.cpp:317-340 | the digit loops write exactly these digits and no other byte |
| `NmeaSplit.EncodedIsAscii` | gps/nmea_parse.cpp:317-340 | every byte of an encoded number, xored with 0xAA, is the ASCII digit of its decimal place |
| `Kalman.GainBounds` | parking_monitor/kalman_filter.c:27-37 | the gain lies strictly between Q / (Q + R) and 1 |
| `Kalman.ShrunkStaysAbove` | parking_monitor/kalman_filter.c:27-37 | P strictly falls and stays above the root of p*p + Q*p == R*Q |
| `Kalman.VarianceFalls` | parking_monitor/kalman_filter.c:27-37 | so over every run: P and gain fall strictly and never reach their limits |
| `Kalman.EstimateInRange` | parking_monitor/kalman_filter.c:27-37 | every estimate lies in the range spanned by the first estimate and the samples seen |
| `Kalman.FromStart` | parking_monitor/kalman_filter.c:19-37 | the source's initial state meets the conditions of both: from it, after any samples, P and gain are below their start and above their limits, and the estimate lies between any bounds of gravity and the samples |
| `Kalman.Contracts` | parking_monitor/kalman_filter.c:27-37 | one sample brings the estimate closer by at least the factor R / (Q + R) |
| `Kalman.ConvergesToConstant` | parking_monitor/kalman_filter.c:27-37 | under a constant sample the error decays geometrically |
| `Kalman.MeanIsBest` | parking_monitor/kalman_filter.c:62-66 | the mean minimises the summed squared distance |
| `Kalman.VarianceInRange` | parking_monitor/kalman_filter.c:62-66 | the variance of values within h of some value is at most h*h |
| `Kalman.QuietIsParked` | parking_monitor/kalman_filter.c:62-72 | samples that stay within h, with h*h at most the threshold, are judged parked |
| `Kalman.Filter.KalmanFilter` | parking_monitor/kalman_filter.c:27-37 | the in-place step refines the value step |
| `Kalman.Filter.Smooth` | parking_monitor/kalman_filter.c:56-61 | the first loop leaves the state after all samples, the estimates and their sum |
| `Kalman.SpreadOf` | parking_monitor/kalman_filter.c:63-65 | the second loop sums the squared distances |
| `Kalman.Filter.SlidingFilter` | parking_monitor/kalman_filter.c:43-75 | too long: -1 and nothing changes; otherwise the verdict of the variance rule and the state after all samples, negative and zero lengths included |
| `Kalman.Filter.constructor` | parking_monitor/kalman_filter.c:19-25 | the initial values |
| `Kalman.VarianceIsPairs` | parking_monitor/kalman_filter.c:62-66 | n * n times the variance is the sum of the squared distances of all pairs of estimates |
| `Kalman.MovesExactly` | parking_monitor/kalman_filter.c:67-72 | the verdict is 1 if and only if the squared distances of all pairs exceed n * n times the threshold |
| `Kalman.AtRest` | parking_monitor/kalman_filter.c:19-75 | samples of 9.8 leave the estimate at 9.8 and are judged parked, and the first gain is 10.01 / 20.01 |
| `Yuyv.FirstLanes` | yuv.c:28-29 | byte lanes of the first output word |
| `Yuyv.SecondLanes` | yuv.c:30-31 | byte lanes of the second output word |
| `Yuyv.LaneIsByte` | yuv.c:17-36 | the lanes of a word read are the four bytes it covers |
| `Yuyv.ReadsFit` | yuv.c:17-36 | for every width and height all reads stay in the picture, luma and chroma in their own planes |
| `Yuyv.PackedAt` | yuv.c:17-36 | group g of row r goes to its place in the output |
| `Yuyv.PackedBytes` | yuv.c:17-36 | for every width, which bytes of the picture an output pixel shows |
| `Yuyv.PixelsKept` | yuv.c:17-36 | for widths divisible by four and every height, each output pixel carries the source luma at its place and the chroma pair of its two-by-two block |
| `Yuyv.LumaKeptExactly` | yuv.c:17-36 | an output pixel shows the luma of its place in every picture if and only if the width is divisible by four or it lies in the first row |
| `Yuyv.ChromaKeptExactly` | yuv.c:17-36 | it shows the chroma of its block in every picture if and only if the width is divisible by four or it lies in the first two rows |
| `Yuyv.RepackRow` | yuv.c:27-34 | the inner loop writes one row, each word once |
| `Yuyv.Repack` | yuv.c:17-36 | the nested loops, with the chroma pointer moved back before odd rows, write the whole interleaved picture and nothing behind it |
| `Thermal.SensedMovesByOne` | power/thermal.c:101-163 | in every step with readable alarms the level moves by at most one, in the direction its own limits say, and record and sensor keep agreeing with the level |
| `Thermal.WindowInDegrees` | power/thermal.c:428-438 | for each level, at which degrees from the target it rises, falls or stays |
| `Thermal.SensorTakes` | power/thermal.c:165-185 | what an update gives to the sensor: nothing, the lower limit, or both; never zero or limits out of order, and nothing more after a failed first write |
| `Thermal.SensorStaysOrdered` | power/thermal.c:165-185 | so in every run whose writes succeed together the sensor's limits stay in order and non-zero, stray record values included |
| `Thermal.NoReverse` | power/thermal.c:101-163 | a temperature that moved the level one way cannot move it back |
| `Thermal.HeldMoves` | power/thermal.c:385-402 | a constant temperature moves the level always the same way until it rests |
| `Thermal.HeldSettles` | power/thermal.c:385-402 | the level settles within five steps and never moves again |
| `Thermal.ProgrammableExactly` | power/thermal.c:165-173 | the limits of all six levels can be programmed if and only if the target is none of six values |
| `Thermal.InitSettles` | power/thermal.c:425-459 | configuration leaves record and sensor agreeing with level 0 |
| `Thermal.LevelKeptExactly` | power/thermal.c:101-163 | a step leads to a level if and only if the alarm files it opens exist |
| `Thermal.LostCounts` | power/thermal.c:101-163 | below the levels the state only counts: -1 at the last unreadable alarm, then the steps the alarms ask for |
| `Thermal.ComesBackExactly` | power/thermal.c:101-163 | after an unreadable alarm a run reaches a level again if and only if some readable stretch of it asks for more steps up than down; thresholds read outside the tables are arbitrary |
| `Thermal.StepRepairs` | power/thermal.c:101-163 | the first alarm at a level gives the record the limits of its new level, whatever was there |
| `Thermal.ThermalDevice.ParseCfg` | power/thermal.c:404-459 | an unreadable target leaves the record empty; a readable one is capped, fills both tables and programs level 0, failing writes included |
| `Thermal.ThermalDevice.Program` | power/thermal.c:165-185 | which limits reach the sensor, failing writes included |
| `Thermal.ThermalDevice.ReadState` | power/thermal.c:101-163 | new state and limits refine the specification |
| `Thermal.ThermalDevice.UpdateState` | power/thermal.c:385-402 | the update refines the specification, with stray thresholds and failing writes |

## Left out

- Device and library calls: sockets, ioctl, ALSA, the video encoder, scaler and memory allocator, FFmpeg decoding, the
  voice library, files and `system()`; their results are parameters or uninterpreted functions.
- Motion-detection processors: ATTACH_USER_MDP and DETACH_USER_MDP (encode_handler.cpp:1011-1021) and the rate change
  sent to them do not touch the encoder counts and are messages without effect here.
- External audio encoders passed with a start (encode_handler.cpp:902-906, 933-938): only the handler's own encoder is
  reference counted here.
- Saving cached data (encode_handler.cpp:976-995) is a message that opens nothing; the contents of the cache muxer and
  the jobs muxers run on their own threads are not modelled.
- Fewer than two output buffers (encode_handler.cpp:795, 1202), where no buffer is lent or marked.
- Object identity: a freed encoder's address may be reused by a new one; encoders carry a generation number instead, so
  comparing a stale pointer with a new encoder at the same address is not modelled.
- Spurious wakeups, out-of-memory paths of the message queue, and liveness that depends on frames arriving.
- OutputBuffers.WrittenBufferIsFree: assumes that no mark is written inside a release, since the source sets the flag
  without the lock; `MarkInsideReleaseIsLost` shows that the property is lost otherwise, every time.
- OutputBuffers.MarkedMeansLive: assumes that flag updates do not overlap; `MarkInsideReleaseIsLost` and
  `ReleaseInsideMarkLeaks` show what each kind of overlap breaks.
- OutputBuffers.BufferPool.GetWriteableEdb: one pass of the search under the lock; the wait of up to a second between
  passes, and giving up after it, are not modelled.
- EncodeHandlers.EncodeHandler.HandleMessage: messages whose asserts hold (`Admissible`); `EncoderModel.HandleExact` covers
  the others too, as if the asserts were compiled out.
- EncoderProtocol.StartFindsClosed: assumes that the kind was always called in turn; `SecondStartBreaksAssert` shows why.
  The flag with which the recorder serialises its own start and stop calls is not part of this model.
- EncoderProtocol.StartHandlerFindsClosed: the same, and for a user muxer it assumes that no cancel strayed from that
  muxer before, as the muxer is still attached then.
- EncoderProtocol.QuietOutsideCalls: the same two assumptions.
- EncoderProtocol.WaitedStopReturnsQuiet: assumes that the kind was always called in turn.
- EncoderProtocol.CancelledStopExact: for a kind called in turn and, if it is a user muxer, as long as no earlier cancel
  strayed from it.
- EncoderProtocol.VictimExact: the same.
- EncoderProtocol.PulledStaysQuiet: the same.
- EncoderProtocol.NotifiedInTime: counts steps of the encoder thread, which handles one message per frame; that frames
  keep arriving is not modelled.
- EncoderProtocol.CountsMatchHolders: assumes no unpaired command so far; `FirstUnpairedUnbalances` shows that the first
  one is exactly where the counts go wrong.
- SeekSafety.EpochsAreSeparated: one queue with its one decoder thread; end of stream and empty packets behave as data.
- PacketQueues.PacketQueue.Get: one look into the queue; the wait for a packet is a step that is not enabled in
  `SeekSafety`, and is not part of the method.
- FrameRings.FrameQueue.PeekWritable: once a slot is free or the queue aborted; the wait is a step that is not enabled in
  the interleaved model, and is not part of the method.
- FrameRings.FrameQueue.PeekReadable: once a frame is readable or the queue aborted; the wait as above.
- FrameRings.CloseFreesEverythingOnce: the configuration in which the decoder's buffers are shown directly.
- Audio and video clock arithmetic of the player (videoplay.c:1600-1650): whether a frame is shown, dropped or waited for
  is a free choice of the step system.
- The pixels copied when a picture is displayed, and builds in which the decoder's buffers are not shown directly.
- NmeaSplit.Parse: what the field handlers store (numbers from text, time zone, speed) is not modelled, only whether they
  refuse; neither is what happens after the field buffer was overrun.
- NmeaSplit.EncodeDigits: how degrees become the integer that is encoded is floating point and not modelled.
- LineRaster.DrawPoint: the memory behind the frame, if any, must reach as far as the point is written; one row and two bytes
  are always enough (`AnythingIsWritable`). The frame's width and height are even and positive; a missing image and
  negative sizes are not modelled.
- LineRaster.DrawTline: the same of all points drawn, and so for the four octant loops, DrawVline, DrawHline and DrawRun.
- Text and rectangle drawing of show.c.
- AudioReblock.FixedRequest: requests of one size, each read in full (`FullReadIsOnePass`); StreamOrder covers turns of any
  sizes while the queues take everything. A copy inside a queue is modelled as a move, which the C library promises only
  when the ranges do not overlap; `MovesApartExactly` says for which requests they do not.
- AudioReblock.MovesApartExactly: in runs in which the queues take everything.
- DisplayList.Screen.DisplayTheWindow: the start and end of the compose thread, and the picture copied into a window, are
  not modelled. Every operation is one critical section, the reset is two.
- Kalman.Filter.SlidingFilter: floating-point rounding; the filter is proved over exact reals.
- Crc32.FileCrc32: the register is 32 bits wide, as `unsigned long` is on the target.
- Yuyv.Repack: sizes whose byte count does not overflow an `int`.
- Thermal.ThermalDevice.UpdateState: what a level switches on and off (backlight, memory clock, wireless, frame rate) is
  not modelled.
- Thermal.ThermalDevice.ParseCfg: the brightness, frame rate and memory clock it also reads are not modelled.
- Networking, configuration menus, USB modes, face capture, collision detection and coordinate transforms: plumbing or
  floating-point geometry without a property of this kind.
