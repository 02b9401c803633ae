# Verified model of decoder, demuxer, graphics and audio cores

A Dafny model of the parts of the PS3 firmware emulation where threads, rings and tables meet, with
proofs of what they keep. `dafny verify dfyconfig.toml` checks all of it.

- **Demuxer.** `RingLayout`, `AccessUnitQueue` and `ElementaryStream` hold the ring allocator of an
  elementary stream: its layout, its refinement of a FIFO of access units over every run of pushes,
  obtains, releases and resets, and the class whose methods update guest memory. `AtxSplitter`,
  `PesHeaders`, `VideoUnits` and `PacketFraming` hold the splitting of ATRAC data, the headers, the
  cutting of video into units and the packet loop, `ProgramStreams` what that makes of streams as
  they are written.
- **Audio decoder.** `AdecFrames` and `AdecContext` hold the index-linked frame list,
  `AdecHandshake` the interleavings of sender, decoder and consumer, `AdecResets` those that
  break it, `AdecQueues` its two output queues, `AdecOrder` what comes out of them in which order,
  `PtsInterpolation` the 33-bit stamps, `LpcmClose` and `AtracXdecClose` the shutdown of the two
  decoder threads, `LpcmConversion`, `DvdConversion` and `LpcmChannels` the sample conversion and the
  in-place channel reordering.
- **Graphics memory.** `GcmPageTables`, `RsxIoMap` and `GcmConfig` hold the offset tables, the kernel's
  own IO map and the calls that keep them in step; `GcmCommandRing` the command ring shared by PPU
  and RSX.
- **Smaller cores.** `StaticHleCrc` and `StaticHle` hold the checksum and the pattern matching,
  `AudioEvents` the decimated audio events. `Runs` holds what is common to all machines: runs,
  invariants, counting and queues along them.

Objects whose methods update fields are classes, loops over buffers are loops over arrays or
sequences; what they compute is stated by functions, and the theorems are about those. Threads that
share state are machines whose steps are the critical sections of the source and, where it takes no
lock, single accesses to what other threads use; a theorem about
"every interleaving" is about every sequence of such steps. Integer widths are explicit. Samples are
reals: they have at most 24 bits and the scale is a power of two, so single precision loses nothing.

## What the code does and its comments do not say

- The ring of an elementary stream adds the alignment gap to its size, so it leaves the caller's
  buffer unless that buffer is 128-aligned (`RegionInsideCallerBuffer`).
- The frame list is correct only because at most two frames are ever linked (`UnlinkHeadExact`,
  `ThreeFramesBreak`, `OwnershipIsSound`).
- Unlinking the last of several frames leaves a `next` that points to it (`UnlinkTailBreaks`); only
  the head is ever unlinked.
- `reset_frame` takes no lock and frees a frame before it clears its links. A sender that claims the
  frame in between can have it decoded and linked first; then the list loses it, and unlinking can
  write outside the pool (`BrokenFromTheStart`, `StrayFromTheStart`, `ResettingIsUnsafeExactly`).
- A refused time stamp leaves the output locked for good (`WedgedIffRefused`).
- Time stamps are read with two wrong shifts (`StampsReadExactly`).
- An empty ring accepts units of any size (`EmptyRingOverrun`).
- Polling for PCM data with an empty queue can leave a stale item, exactly when a frame or its item
  can still be queued (`AskingIsUnsafeExactly`).
- The DVD 24-bit loop drops the last two mono samples of an odd number of groups (`MonoUnpacks`).
- The search for IO pages bounds the start of a run but not its end (`FirstFitUnreserved`).
- Addresses above 0xC0000000 that are not local are looked up behind `ioAddress`
  (`AddressesAboveAlias`).
- The comment on `isInCommandBufferExcept` says that positions outside the buffer give false; they
  give true (`OutsideIsAccepted`).
- With more than 64 due mixing keys the audio thread would store queues behind its arrays
  (`AllDueFitExactly`); registration has no limit.
- For an unmapped IO page unmapping reads outside the block table (`StaysInTableExactly`).
- The RSX is started at word 0, inside the 4 KB reserved at the start of the command buffer, and the
  wait of the callback does not count those as part of the first fragment. A PPU that comes round
  while the RSX is still there overwrites commands that were never read; otherwise all is well
  (`RingIsSafe`, `EnteringIsUnsafeExactly`, `UnsafeInReserve`).

## Model

| member | source | states |
|---|---|---|
| `RingLayout.BlocksDisjoint` | app/src/main/cpp/rpcsx/ps3fw/cellDmux.cpp:774-860 | live blocks never overlap, whichever side of the wrap they lie on |
| `RingLayout.PushKeepsLayout` | app/src/main/cpp/rpcsx/ps3fw/cellDmux.cpp:813-860 | placing a unit that fits keeps all live blocks 128-aligned, inside the ring, in order and with the free space contiguous round the ring |
| `RingLayout.FitsExactly` | app/src/main/cpp/rpcsx/ps3fw/cellDmux.cpp:774-805 | the test for room holds exactly when the place of the new unit, behind the newest one or at the start, touches no live block, in every layout that can arise |
| `RingLayout.ReleaseKeepsFit` | app/src/main/cpp/rpcsx/ps3fw/cellDmux.cpp:774-805 | releasing only makes room: what fitted before still fits |
| `RingLayout.FitIsStable` | app/src/main/cpp/rpcsx/ps3fw/cellDmux.cpp:774-811 | the answer "not full" survives any number of releases |
| `RingLayout.RegionInsideCallerBuffer` | app/src/main/cpp/rpcsx/ps3fw/cellDmux.cpp:769-772 | the ring lies inside the buffer the caller gave exactly when that buffer is 128-aligned, because the alignment gap is added to the size |
| `RingLayout.UnalignedBufferOverrun` | app/src/main/cpp/rpcsx/ps3fw/cellDmux.cpp:769-860 | for any other buffer an accepted unit ends behind the caller's buffer by twice the gap |
| `RingLayout.EmptyRingOverrun` | app/src/main/cpp/rpcsx/ps3fw/cellDmux.cpp:774-826 | an empty ring accepts a unit of any size, which stays inside exactly when it fits with its headers |
| `AccessUnitQueue.StoredReadsBack` | app/src/main/cpp/rpcsx/ps3fw/cellDmux.cpp:825-850 | whoever follows either header of a stored unit, the long one or the short one at +64, to the stamps, the spec word and the bytes at the address in it, gets the unit that was written |
| `AccessUnitQueue.StepKeepsInv` | app/src/main/cpp/rpcsx/ps3fw/cellDmux.cpp:774-938 | every operation, including the window between storing a unit and queueing its entry, keeps stored bytes, entries, blocks and counters in step |
| `AccessUnitQueue.FullExactly` | app/src/main/cpp/rpcsx/ps3fw/cellDmux.cpp:774-805 | so with no entry on its way "full" has one of two reasons: no entry is left, or the place is taken |
| `AccessUnitQueue.OthersKeepRoom` | app/src/main/cpp/rpcsx/ps3fw/cellDmux.cpp:774-811 | other threads that release or obtain cannot turn "not full" into "full" |
| `AccessUnitQueue.RoomIsStable` | app/src/main/cpp/rpcsx/ps3fw/cellDmux.cpp:807-818 | over any interleaved run of those the check inside `push_au` cannot fail |
| `AccessUnitQueue.RunIsFifo` | app/src/main/cpp/rpcsx/ps3fw/cellDmux.cpp:813-938 | over every run of pushes, obtains, releases and resets the units held are those pushed since the last reset, in order, less the oldest ones released, and the counters number them |
| `AccessUnitQueue.RunKeepsCounters` | app/src/main/cpp/rpcsx/ps3fw/cellDmux.cpp:813-926 | over every run released <= got <= put, and the entry count is put minus released minus the entry on its way |
| `AccessUnitQueue.CountersCount` | app/src/main/cpp/rpcsx/ps3fw/cellDmux.cpp:813-938 | over every run the three counters are the numbers of pushes, obtains and releases since the last reset |
| `AccessUnitQueue.ResetIsFresh` | app/src/main/cpp/rpcsx/ps3fw/cellDmux.cpp:928-938 | a reset gives back the stream as it was opened, but for the memory and the last stamps |
| `AccessUnitQueue.ObtainedUnitIsPushedUnit` | app/src/main/cpp/rpcsx/ps3fw/cellDmux.cpp:898-938 | the unit an application obtains is the one pushed at that position since the last reset, with the bytes that were pushed |
| `AccessUnitQueue.NothingPushedYet` | app/src/main/cpp/rpcsx/ps3fw/cellDmux.cpp:928-938 | a stream with no unit counted holds none and the history begins empty |
| `AccessUnitQueue.RunKeepsBlocksApart` | app/src/main/cpp/rpcsx/ps3fw/cellDmux.cpp:813-896 | over every run live blocks are aligned, inside the ring and pairwise disjoint |
| `ElementaryStreams.ElementaryStream.IsFull` | app/src/main/cpp/rpcsx/ps3fw/cellDmux.cpp:774-811 | answers "full" exactly when there are units and either no entry is left or the place the new unit would get touches one of them |
| `ElementaryStreams.ElementaryStream.StoreUnit` | app/src/main/cpp/rpcsx/ps3fw/cellDmux.cpp:818-857 | writes the headers and the payload at the place the ring gives, wrapping if needed, and takes the bytes off the raw data |
| `ElementaryStreams.ElementaryStream.PushAu` | app/src/main/cpp/rpcsx/ps3fw/cellDmux.cpp:813-860 | appends exactly the cut unit to the queue |
| `ElementaryStreams.ElementaryStream.Release` | app/src/main/cpp/rpcsx/ps3fw/cellDmux.cpp:873-896 | drops the oldest unit, and only one that was obtained |
| `ElementaryStreams.ElementaryStream.Peek` | app/src/main/cpp/rpcsx/ps3fw/cellDmux.cpp:898-926 | gives addresses at which decoding either header leads to the oldest unit not yet obtained, counting it as obtained only on request |
| `ElementaryStreams.ElementaryStream.Reset` | app/src/main/cpp/rpcsx/ps3fw/cellDmux.cpp:928-938 | empties the queue, the raw data and the counters |
| `ElementaryStreams.ElementaryStream.PushRaw` | app/src/main/cpp/rpcsx/ps3fw/cellDmux.cpp:862-871 | appends the bytes to the raw data and changes nothing else |
| `AtxSplitter.FrameSizeIsNBytes` | app/src/main/cpp/rpcsx/ps3fw/cellDmux.cpp:404-407 | the frame length the demuxer reads is the one the decoder computes from the same header |
| `AtxSplitter.AtxUnitIs` | app/src/main/cpp/rpcsx/ps3fw/cellDmux.cpp:396-412 | an ATRAC unit is 0x0f 0xd0, ..., as long as its third and fourth byte say |
| `AtxSplitter.CutOne` | app/src/main/cpp/rpcsx/ps3fw/cellDmux.cpp:396-421 | cuts a unit of 8 plus the announced number of bytes when one is complete and fits, else changes nothing |
| `AtxSplitter.SplitAtx` | app/src/main/cpp/rpcsx/ps3fw/cellDmux.cpp:389-421 | the loop ends, stops only for one of its three reasons, and new units joined with the rest are the bytes that were there |
| `AtxSplitter.PushAtxPayload` | app/src/main/cpp/rpcsx/ps3fw/cellDmux.cpp:380-421 | the same for a packet: units cut and raw data left are the old raw data and the payload |
| `AtxSplitter.BytesConserved` | app/src/main/cpp/rpcsx/ps3fw/cellDmux.cpp:389-421 | over any run, resets included: all units cut since the last reset, in order, and the raw data left are exactly the bytes appended since then |
| `PesHeaders.StandardHeaders` | app/src/main/cpp/rpcsx/ps3fw/cellDmux.cpp:704-767 | the header forms of section 2.4.3.6 of ISO/IEC 13818-1 are recognised, with their stamps, for any amount of stuffing |
| `PesHeaders.StampsReadExactly` | app/src/main/cpp/rpcsx/ps3fw/cellDmux.cpp:93-102 | a stamp is read as section 2.4.3.7 of ISO/IEC 13818-1 means it exactly when its bits 15 to 29 are zero |
| `PesHeaders.StampsRoundTrip` | app/src/main/cpp/rpcsx/ps3fw/cellDmux.cpp:93-102 | from the five bytes of any 33-bit stamp exactly bits 15 to 29 come out wrong: the upper eight of them one place too low, the lower six one place too high and joined by or where they meet, the one between lost |
| `PesHeaders.WithAllFlags` | app/src/main/cpp/rpcsx/ps3fw/cellDmux.cpp:716-766 | whole fields are no error, and say that there is a stamp exactly when one of them is one |
| `PesHeaders.MissingDtsIsAnError` | app/src/main/cpp/rpcsx/ps3fw/cellDmux.cpp:716-766 | a header is an error exactly when behind whole fields comes a PTS that announces a DTS, with bytes enough for one, and no DTS is there |
| `PesHeaders.EveryHeaderParses` | app/src/main/cpp/rpcsx/ps3fw/cellDmux.cpp:716-766 | any bytes are whole fields followed by bytes that begin with none |
| `PesHeaders.ScanOfItems` | app/src/main/cpp/rpcsx/ps3fw/cellDmux.cpp:716-766 | the scan passes over whole fields, the last stamp of each kind counting, and is decided by what follows them |
| `PesHeaders.ReadPesHeader` | app/src/main/cpp/rpcsx/ps3fw/cellDmux.cpp:704-767 | consumes exactly three bytes and the announced length whatever the header holds, and fails only where the data ends |
| `PesHeaders.ReadStamps` | app/src/main/cpp/rpcsx/ps3fw/cellDmux.cpp:716-766 | the loop over the optional fields consumes exactly the announced length and computes the specified flags and stamps |
| `PacketFraming.SkipPacket` | app/src/main/cpp/rpcsx/ps3fw/cellDmux.cpp:294-328 | skips exactly the six header bytes and the announced length, or fails |
| `PacketFraming.OpenPacket` | app/src/main/cpp/rpcsx/ps3fw/cellDmux.cpp:330-364 | leaves the stream exactly at the payload of an accepted packet |
| `VideoUnits.UnitsAreGroups` | app/src/main/cpp/rpcsx/ps3fw/cellDmux.cpp:489-511 | the units of a video stream are its packets in order, grouped: a unit goes on up to the next stamp or the size limit and carries the stamps of its first packet or, without any there, the last ones before |
| `VideoUnits.LastStampsAre` | app/src/main/cpp/rpcsx/ps3fw/cellDmux.cpp:489-511 | the last stamps are those of the last packet that carries some |
| `PacketFraming.FeedVideo` | app/src/main/cpp/rpcsx/ps3fw/cellDmux.cpp:476-512 | cuts a new unit exactly at a time stamp or the size limit, with the stamps kept before this packet, appends the whole packet, keeps its stamps, reports back-pressure exactly when full |
| `PacketFraming.FeedAtx` | app/src/main/cpp/rpcsx/ps3fw/cellDmux.cpp:366-421 | back-pressure exactly above the limit and then nothing fed; bad data exactly when shorter than three bytes or when what is left lacks the sync word; what is fed is the payload behind the three bytes, and units are cut, with the last stamps seen, until no whole unit that fits is left |
| `PacketFraming.Demuxer.VideoPacket` | app/src/main/cpp/rpcsx/ps3fw/cellDmux.cpp:431-519 | back-pressure exactly when the enabled slot could not take its raw data as a unit, and then nothing moves; else the stream moves by the packet and the enabled slot is fed exactly the packet |
| `PacketFraming.Demuxer.PrivatePacket` | app/src/main/cpp/rpcsx/ps3fw/cellDmux.cpp:330-429 | back-pressure exactly when the enabled slot holds more than the limit; throws exactly for packets not accepted, too short or spoiled; else the slot is fed exactly the payload and cut until no whole unit that fits is left |
| `PacketFraming.Demuxer.DemuxPacket` | app/src/main/cpp/rpcsx/ps3fw/cellDmux.cpp:247-533 | every branch: by how much the stream advances, exactly when it waits or throws, what each open slot is fed, and how far video and ATRAC slots are cut |
| `PacketFraming.Demuxer.DemuxAll` | app/src/main/cpp/rpcsx/ps3fw/cellDmux.cpp:247-533 | the loop ends at a packet boundary of the input; it waits only before a packet whose slot has no room, throws only before one that is not accepted or whose data is spoiled, is done only with less than a start code left; and every open slot has been fed exactly its packets or payloads in order, each video slot cut as its packets demand and each ATRAC slot until no whole unit that fits is left |
| `PacketFraming.FedByStep` | app/src/main/cpp/rpcsx/ps3fw/cellDmux.cpp:247-533 | what a slot is fed, and which video packets it gets, over the packets up to a boundary grows by what the next packet gives to it |
| `ProgramStreams.UnitIsTaken` | app/src/main/cpp/rpcsx/ps3fw/cellDmux.cpp:247-533 | whatever follows, a pack, system header, padding, private or video packet as it is written is taken as one, and gives its bytes or its payload to exactly the slot of its channel |
| `ProgramStreams.StreamDecodes` | app/src/main/cpp/rpcsx/ps3fw/cellDmux.cpp:247-533 | demultiplexing inverts multiplexing: from any sequence of such packets each slot gets exactly what is meant for it, in order |
| `ProgramStreams.NoStartCode` | app/src/main/cpp/rpcsx/ps3fw/cellDmux.cpp:523-532 | bytes that begin no start code are skipped one by one |
| `ProgramStreams.OtherStartCode` | app/src/main/cpp/rpcsx/ps3fw/cellDmux.cpp:523-532 | every other start code is refused |
| `PacketFraming.ReceivedUnits` | app/src/main/cpp/rpcsx/ps3fw/cellDmux.cpp:489-511 | a video stream that held nothing has afterwards exactly the units that its packets, grouped, make up |
| `AdecFrames.LinkAppends` | app/src/main/cpp/rpcsx/ps3fw/cellAdec.cpp:1174-1206 | linking appends to a list of any length |
| `AdecFrames.UnlinkHeadExact` | app/src/main/cpp/rpcsx/ps3fw/cellAdec.cpp:1208-1258 | unlinking the head drops it exactly when the list has at most two frames or the stale `prev` of the head names none of the others |
| `AdecFrames.UnlinkMiddleKeeps` | app/src/main/cpp/rpcsx/ps3fw/cellAdec.cpp:1250-1254 | unlinking a frame with others on both sides drops exactly it, whatever is stale |
| `AdecFrames.UnlinkTailBreaks` | app/src/main/cpp/rpcsx/ps3fw/cellAdec.cpp:1245-1249 | unlinking the last of several frames breaks the list: the frame that is last then still points to it |
| `AdecFrames.Refusals` | app/src/main/cpp/rpcsx/ps3fw/cellAdec.cpp:1174-1234 | linking and unlinking a free frame is refused, and so is unlinking from an empty list or one frame from a list that is another |
| `AdecFrames.ResetKeepsChain` | app/src/main/cpp/rpcsx/ps3fw/cellAdec.cpp:1260-1267 | resetting an unlinked frame leaves the list alone |
| `AdecFrames.ResetInStores` | app/src/main/cpp/rpcsx/ps3fw/cellAdec.cpp:1260-1267 | a reset is the store that gives the frame back and those that clear its two links |
| `AdecFrames.GiveBackExact` | app/src/main/cpp/rpcsx/ps3fw/cellAdec.cpp:1262-1264 | that store keeps the list exactly when the frame is not in it |
| `AdecFrames.ClearNextExact` | app/src/main/cpp/rpcsx/ps3fw/cellAdec.cpp:1265 | so does clearing `next` |
| `AdecFrames.ClearPrevExact` | app/src/main/cpp/rpcsx/ps3fw/cellAdec.cpp:1266 | and clearing `prev` |
| `AdecFrames.ReuseHistory` | app/src/main/cpp/rpcsx/ps3fw/cellAdec.cpp:1174-1267 | a history of links, an unlink and reuse leads to three linked frames with a harmful stale `prev` |
| `AdecFrames.ThreeFramesBreak` | app/src/main/cpp/rpcsx/ps3fw/cellAdec.cpp:1208-1258 | unlinking from those three breaks the chain |
| `AdecFrames.FourFramesLoseTheOrder` | app/src/main/cpp/rpcsx/ps3fw/cellAdec.cpp:1208-1258 | with a fourth frame a consumed one is offered again |
| `AdecContexts.AdecContext.GetNewPcmHandle` | app/src/main/cpp/rpcsx/ps3fw/cellAdec.cpp:1096-1109 | claims the lowest free frame, or fails exactly when none is free |
| `AdecContexts.AdecContext.LinkFrame` | app/src/main/cpp/rpcsx/ps3fw/cellAdec.cpp:1174-1206 | changes the arrays as the list model says, or fails without change |
| `AdecContexts.AdecContext.UnlinkFrame` | app/src/main/cpp/rpcsx/ps3fw/cellAdec.cpp:1208-1258 | changes the arrays as the list model says, or fails without change |
| `AdecContexts.AdecContext.ResetFrame` | app/src/main/cpp/rpcsx/ps3fw/cellAdec.cpp:1260-1267 | changes the one frame as the list model says |
| `AdecContexts.AdecContext.CorrectPtsValue` | app/src/main/cpp/rpcsx/ps3fw/cellAdec.cpp:1269-1360 | assigns the stamp and remembers it as the interpolation model says, or takes status and stamp from the function of the codec and remembers nothing |
| `AdecHandshake.AtMostTwoLinked` | app/src/main/cpp/rpcsx/ps3fw/cellAdec.cpp:344-355 | one output at a time leaves at most two frames linked |
| `AdecHandshake.StepKeepsOneOutput` | app/src/main/cpp/rpcsx/ps3fw/cellAdec.cpp:344-355 | every step keeps it so that a frame on its way out implies a locked output |
| `AdecHandshake.StepKeepsExclusive` | app/src/main/cpp/rpcsx/ps3fw/cellAdec.cpp:1964-2079 | every step keeps each frame in use in exactly one hand (claimed, queued, with the decoder, linked, held or lost) and every free frame in none |
| `AdecHandshake.OwnershipIsSound` | app/src/main/cpp/rpcsx/ps3fw/cellAdec.cpp:1964-2079 | in every interleaving without exception at most two frames are linked and each frame in use has exactly one owner |
| `AdecHandshake.StepKeepsInv` | app/src/main/cpp/rpcsx/ps3fw/cellAdec.cpp:1260-1267 | a step keeps handshake, ownership and list together exactly when it is not a reset clearing a link of a frame that is linked again |
| `AdecHandshake.ListIsSound` | app/src/main/cpp/rpcsx/ps3fw/cellAdec.cpp:2064-2079 | a run keeps the list threading the linked frames in order exactly when no reset in it clears a link of a linked frame; then linking and unlinking never fail |
| `AdecHandshake.PatientIsClean` | app/src/main/cpp/rpcsx/ps3fw/cellAdec.cpp:1096-1109 | so it is in every interleaving in which no frame is claimed between the stores of its reset |
| `AdecResets.ResettingIsUnsafeExactly` | app/src/main/cpp/rpcsx/ps3fw/cellAdec.cpp:1260-1267 | in a reset the list can break exactly when the frame can come to be linked first |
| `AdecResets.UnsafeAfterGivingBack` | app/src/main/cpp/rpcsx/ps3fw/cellAdec.cpp:1262 | right after the frame is given back: exactly when the decoder is idle, the output consumed, no decode queued, and no other frame claimed whose send cannot fail |
| `AdecResets.BrokenFromTheStart` | app/src/main/cpp/rpcsx/ps3fw/cellAdec.cpp:2064-2079 | from the initial state some run breaks the list exactly when the pool has a frame, even with a consumer that keeps to the guard |
| `AdecResets.StrayFromTheStart` | app/src/main/cpp/rpcsx/ps3fw/cellAdec.cpp:1240-1244 | and some run makes unlinking write outside the pool exactly when it has two |
| `AdecHandshake.WedgedExactly` | app/src/main/cpp/rpcsx/ps3fw/cellAdec.cpp:1452-1460 | exactly a refused time stamp or a failed link leads to where the output is locked with no frame to release it; nothing leads out, and nothing is decoded or queued any more |
| `AdecHandshake.WedgedIffFailed` | app/src/main/cpp/rpcsx/ps3fw/cellAdec.cpp:1452-1460 | over every run that is so exactly when one of the two has happened |
| `AdecHandshake.WedgedIffRefused` | app/src/main/cpp/rpcsx/ps3fw/cellAdec.cpp:1452-1455 | over every run in which the list works, exactly when a stamp was refused |
| `AdecOrder.CommandsInOrder` | app/src/main/cpp/rpcsx/ps3fw/cellAdec.cpp:318-405 | in every interleaving commands are taken in the order queued |
| `AdecOrder.FramesInOrder` | app/src/main/cpp/rpcsx/ps3fw/cellAdec.cpp:2045-2050 | frames leave the PCM queue in the order they went in |
| `AdecOrder.ItemsInOrder` | app/src/main/cpp/rpcsx/ps3fw/cellAdec.cpp:2039-2098 | items are fetched or dropped in the order queued |
| `AdecOrder.DecodesInOrder` | app/src/main/cpp/rpcsx/ps3fw/cellAdec.cpp:1452-1476 | and, as long as nothing fails, into it in the order in which their commands were taken |
| `AdecQueues.QueuesAreSound` | app/src/main/cpp/rpcsx/ps3fw/cellAdec.cpp:2039-2098 | with a consumer that asks when a frame is queued with its item or when none can come, and even where the list breaks: queued handles are distinct frames in use, the item queue is a suffix of the PCM queue, and the head comparison is true exactly when no item was fetched ahead |
| `AdecQueues.PollingLeavesStaleItem` | app/src/main/cpp/rpcsx/ps3fw/cellAdec.cpp:2039-2062 | a poll whose two reads straddle the two pushes of a linked frame takes the frame and leaves its item |
| `AdecQueues.ComesToLinked` | app/src/main/cpp/rpcsx/ps3fw/cellAdec.cpp:318-405 | from every state of a poll of the empty queues in which something can still be queued the sender and the decoder alone bring one to that point |
| `AdecQueues.AskingIsUnsafeExactly` | app/src/main/cpp/rpcsx/ps3fw/cellAdec.cpp:2039-2062 | in every state in which the queues agree a call that begins there can leave a stale item exactly when it is not guarded |
| `AdecQueues.AskingAtTheStart` | app/src/main/cpp/rpcsx/ps3fw/cellAdec.cpp:2039-2062 | from the initial state exactly when the pool has a frame |
| `PtsInterpolation.InterpolationIsAddition` | app/src/main/cpp/rpcsx/ps3fw/cellAdec.cpp:1307-1360 | one step is addition on the 33-bit clock, refused exactly at the reserved low word |
| `PtsInterpolation.RunAdvances` | app/src/main/cpp/rpcsx/ps3fw/cellAdec.cpp:1307-1360 | the k-th unit without stamp gets base plus k adjustments modulo 2^33, up to the first refused one |
| `PtsInterpolation.RefusalIsPermanent` | app/src/main/cpp/rpcsx/ps3fw/cellAdec.cpp:1307-1360 | once refused, every later unit without stamp would be refused |
| `PtsInterpolation.WithoutInterpolation` | app/src/main/cpp/rpcsx/ps3fw/cellAdec.cpp:1307-1358 | a stamp that comes with a unit is kept and remembered, half a stamp is refused, and with none to go on from a unit without one is let through |
| `PtsInterpolation.CountsFromTheLastGiven` | app/src/main/cpp/rpcsx/ps3fw/cellAdec.cpp:1307-1358 | in any sequence of units with and without stamps the ones behind a given stamp get what interpolation from it gives, whatever was before |
| `PtsInterpolation.EveryUnit` | app/src/main/cpp/rpcsx/ps3fw/cellAdec.cpp:1307-1358 | that is the last given stamp plus one adjustment a unit since, modulo 2^33, as long as none was refused |
| `PtsInterpolation.CountsFromTheStart` | app/src/main/cpp/rpcsx/ps3fw/cellAdec.cpp:1307-1358 | with none given so far they go on from the stamp remembered at the start |
| `PtsInterpolation.NothingToGoOn` | app/src/main/cpp/rpcsx/ps3fw/cellAdec.cpp:1315-1318 | before any stamp is given none is made up |
| `PtsInterpolation.AdjustIsDuration` | app/src/main/cpp/rpcsx/ps3fw/cellAdec.cpp:1322-1336 | each adjustment is the duration of the samples of one unit in ticks of 90 kHz, to the nearest tick |
| `LpcmClose.StepKeepsInv` | app/src/main/cpp/rpcsx/ps3fw/cellAdec.cpp:318-405 | every step keeps the ticket count, the place of `close` and the wake-ups |
| `LpcmClose.DecoderIsSafe` | app/src/main/cpp/rpcsx/ps3fw/cellAdec.cpp:318-405 | in every interleaving the decoder never pops an empty queue, sleeps only on a locked output, and semaphore plus held ticket is the queue length outside the gap |
| `LpcmClose.RankDecreases` | app/src/main/cpp/rpcsx/ps3fw/cellAdec.cpp:946-989 | once closing has begun every decoder or closer step lowers a measure that nobody raises |
| `LpcmClose.NeverStuck` | app/src/main/cpp/rpcsx/ps3fw/cellAdec.cpp:946-989 | until the decoder has exited one of the two can move |
| `LpcmClose.CloseTerminates` | app/src/main/cpp/rpcsx/ps3fw/cellAdec.cpp:946-989 | every run holds at most that many of their steps, and with that many the decoder has exited |
| `LpcmClose.CloseCanBegin` | app/src/main/cpp/rpcsx/ps3fw/cellAdec.cpp:946-975 | closing can begin from any reachable state once a sender in the gap has released its ticket |
| `AtracXdecClose.StepKeepsInv` | app/src/main/cpp/rpcsx/ps3fw/cellAtracXdec.cpp:286-434 | every step keeps the pending wake-ups, the cleared flag and the queue in step |
| `AtracXdecClose.DecoderIsSafe` | app/src/main/cpp/rpcsx/ps3fw/cellAtracXdec.cpp:286-434 | in every interleaving no wake-up is lost on either condition and the command switch never meets `close` |
| `AtracXdecClose.RankDecreases` | app/src/main/cpp/rpcsx/ps3fw/cellAtracXdec.cpp:811-837 | with `run_thread` cleared every decoder or closer step lowers a measure that no sender or client raises |
| `AtracXdecClose.NeverStuck` | app/src/main/cpp/rpcsx/ps3fw/cellAtracXdec.cpp:811-837 | no reachable state leaves the decoder waiting: a step that lowers the measure is always possible until it has exited |
| `AtracXdecClose.CloseTerminates` | app/src/main/cpp/rpcsx/ps3fw/cellAtracXdec.cpp:670-715 | every run holds at most that many decoder and closer steps, and with that many the decoder has exited |
| `AtracXdecClose.OnlyTheDecodeInProgress` | app/src/main/cpp/rpcsx/ps3fw/cellAtracXdec.cpp:415-434 | after the flag is cleared exactly the decode already in progress still completes |
| `LpcmClose.CommandsInOrder` | app/src/main/cpp/rpcsx/ps3fw/cellAdec.cpp:318-405 | until closing rewrites the queue, commands are taken in the order queued and none is lost |
| `LpcmClose.OutputsAreConsumed` | app/src/main/cpp/rpcsx/ps3fw/cellAdec.cpp:344-355 | over every run each decode but the first is preceded by a release of the output before it |
| `AtracXdecClose.CommandsInOrder` | app/src/main/cpp/rpcsx/ps3fw/cellAtracXdec.cpp:296-321 | commands are taken in the order queued and none is lost |
| `AtracXdecClose.OutputsAreConsumed` | app/src/main/cpp/rpcsx/ps3fw/cellAtracXdec.cpp:391-411 | over every run each decode but the first is preceded by a release of the output before it |
| `LpcmConversion.TopOfWord` | app/src/main/cpp/rpcsx/ps3fw/cellAdec.cpp:479-494 | a sample shifted to the top of a word and scaled by 2^-31 is the sample over full scale |
| `LpcmConversion.ExactInSinglePrecision` | app/src/main/cpp/rpcsx/ps3fw/cellAdec.cpp:479-522 | every result is an integer of at most 24 bits over a power of two, in [-1, 1) |
| `LpcmConversion.Convert16` | app/src/main/cpp/rpcsx/ps3fw/cellAdec.cpp:471-501 | the blocks of eight and the tail write exactly sample over full scale for every sample and nothing else |
| `LpcmConversion.Convert24` | app/src/main/cpp/rpcsx/ps3fw/cellAdec.cpp:502-522 | the same for 24 bits with blocks of four |
| `LpcmConversion.Encoded16Converts` | app/src/main/cpp/rpcsx/ps3fw/cellAdec.cpp:479-501 | of any 16-bit numbers written big-endian each comes out over 2^15 |
| `LpcmConversion.Encoded24Converts` | app/src/main/cpp/rpcsx/ps3fw/cellAdec.cpp:502-522 | of any 24-bit numbers each comes out over 2^23 |
| `DvdConversion.WholeFrames` | app/src/main/cpp/rpcsx/ps3fw/cellAdec.cpp:652-686 | complete frames are all converted |
| `DvdConversion.ConvertDvd16` | app/src/main/cpp/rpcsx/ps3fw/cellAdec.cpp:652-686 | writes exactly channels 0 and 1 of every frame and nothing else |
| `DvdConversion.FrontsOfFrames` | app/src/main/cpp/rpcsx/ps3fw/cellAdec.cpp:652-686 | of frames of numbers written big-endian the two front channels come out, in order, over 2^15 |
| `DvdConversion.ConvertDvd24` | app/src/main/cpp/rpcsx/ps3fw/cellAdec.cpp:731-755 | writes exactly what the collected bytes stand for and nothing else |
| `DvdConversion.PackedAt` | app/src/main/cpp/rpcsx/ps3fw/cellAdec.cpp:731-745 | where the two-frame packing puts the three bytes of each sample |
| `DvdConversion.DvdUnpacks` | app/src/main/cpp/rpcsx/ps3fw/cellAdec.cpp:731-755 | for packed frames the loop puts out channels 0 and 1 of every frame: it inverts the packing |
| `DvdConversion.MonoUnpacks` | app/src/main/cpp/rpcsx/ps3fw/cellAdec.cpp:731-755 | for mono it puts the samples out in order, all of them exactly when their number is a multiple of four |
| `LpcmChannels.PositionIsDocumented` | app/src/main/cpp/rpcsx/ps3fw/cellAdec.cpp:526-533 | the permutation of each layout is the one between the documented speaker orders, without the dummy |
| `LpcmChannels.PassExtends` | app/src/main/cpp/rpcsx/ps3fw/cellAdec.cpp:551-602 | a pass that puts one frame in place without touching earlier output or later input extends the reordered part |
| `LpcmChannels.ReorderMono` | app/src/main/cpp/rpcsx/ps3fw/cellAdec.cpp:537-544 | every other sample is kept |
| `LpcmChannels.Reorder30` | app/src/main/cpp/rpcsx/ps3fw/cellAdec.cpp:551-557 | overlapping stores put every frame in place, channels 1 and 2 exchanged, dummy dropped |
| `LpcmChannels.Reorder21` | app/src/main/cpp/rpcsx/ps3fw/cellAdec.cpp:559-564 | the same without exchange |
| `LpcmChannels.Reorder31` | app/src/main/cpp/rpcsx/ps3fw/cellAdec.cpp:566-573 | channels 1 and 2 of every frame exchanged |
| `LpcmChannels.Reorder32Lfe` | app/src/main/cpp/rpcsx/ps3fw/cellAdec.cpp:566-573 | the same with six channels |
| `LpcmChannels.Reorder32` | app/src/main/cpp/rpcsx/ps3fw/cellAdec.cpp:575-582 | six channels in, five out |
| `LpcmChannels.Reorder34` | app/src/main/cpp/rpcsx/ps3fw/cellAdec.cpp:584-592 | eight channels in, seven out, with the rear and side channels moved |
| `LpcmChannels.Reorder34Lfe` | app/src/main/cpp/rpcsx/ps3fw/cellAdec.cpp:594-602 | eight channels reordered in place |
| `LpcmChannels.Reorder` | app/src/main/cpp/rpcsx/ps3fw/cellAdec.cpp:524-605 | for every layout and sample count the result is the documented permutation and no index reaches seven beyond the count |
| `GcmPageTables.MapKeepsInverse` | app/src/main/cpp/rpcsx/ps3fw/cellGcmSys.cpp:1021-1046 | mapping keeps the two tables mutually inverse exactly when what it overwrites on one side is what it overwrites on the other |
| `GcmPageTables.MapKeepsTiling` | app/src/main/cpp/rpcsx/ps3fw/cellGcmSys.cpp:1037-1044 | mapping onto free pages keeps the recorded blocks a tiling of the mapped pages |
| `GcmPageTables.HeadFits` | app/src/main/cpp/rpcsx/ps3fw/cellGcmSys.cpp:1146-1166 | the block found at a page of the table lies in range, so the kernel call does not fail |
| `GcmPageTables.UnmapKeepsGood` | app/src/main/cpp/rpcsx/ps3fw/cellGcmSys.cpp:1146-1166 | unmapping keeps the tables inverse and tiled |
| `GcmPageTables.UnmapUndoesMap` | app/src/main/cpp/rpcsx/ps3fw/cellGcmSys.cpp:1146-1166 | mapping onto free pages and unmapping restores every cell |
| `GcmPageTables.StaysInTableExactly` | app/src/main/cpp/rpcsx/ps3fw/cellGcmSys.cpp:1146-1148 | unmapping looks only at the 0xC00 cells of the block table exactly when the entry of the IO page is at most 0xBFF; in good tables exactly when the page is mapped |
| `GcmPageTables.RunKeepsGood` | app/src/main/cpp/rpcsx/ps3fw/cellGcmSys.cpp:112-122 | over any run of maps onto free pages and unmaps from the initial tables they stay inverse and tiled |
| `GcmPageTables.MappedAddresses` | app/src/main/cpp/rpcsx/ps3fw/cellGcmSys.cpp:955-986 | an address below 0xC0000000 has an offset exactly when its page is mapped |
| `GcmPageTables.AddressRoundTrip` | app/src/main/cpp/rpcsx/ps3fw/cellGcmSys.cpp:955-1019 | an offset leads back to its address exactly for non-zero addresses below 0xC0000000 |
| `GcmPageTables.OffsetRoundTrip` | app/src/main/cpp/rpcsx/ps3fw/cellGcmSys.cpp:100-110 | an offset that has an address is the offset of that address, and which offsets have one |
| `GcmPageTables.AddressesAboveExactly` | app/src/main/cpp/rpcsx/ps3fw/cellGcmSys.cpp:969-981 | a non-local address from 0xC0000000 up to 0xE0000000 is given an offset exactly when the entry of `eaAddress` it hits is also an IO page number |
| `GcmPageTables.AddressesAboveAlias` | app/src/main/cpp/rpcsx/ps3fw/cellGcmSys.cpp:971-977 | such an address that is not mapped can be given an offset |
| `GcmPageTables.LocalAddresses` | app/src/main/cpp/rpcsx/ps3fw/cellGcmSys.cpp:955-967 | an address in the local memory has its distance from the start of it as offset, whatever is mapped |
| `RsxIoMaps.SoundAfterMap` | app/src/main/cpp/rpcsx/kernel/cellos/src/sys_rsx.cpp:432-443 | the kernel map stays sound even where it overwrites |
| `RsxIoMaps.RsxIoMap.MapsExactly` | app/src/main/cpp/rpcsx/kernel/cellos/src/sys_rsx.cpp:395-400 | the ranges accepted are those of at least one page that begin on a page on both sides and end within both |
| `RsxIoMaps.RsxIoMap.Iomap` | app/src/main/cpp/rpcsx/kernel/cellos/src/sys_rsx.cpp:386-444 | refuses exactly the ranges out of bounds, keeps its tables sound, and on free pages stays in agreement with the offset tables |
| `RsxIoMaps.RsxIoMap.Iounmap` | app/src/main/cpp/rpcsx/kernel/cellos/src/sys_rsx.cpp:452-487 | the same for taking a range away |
| `GcmConfigs.FirstFitUnreserved` | app/src/main/cpp/rpcsx/ps3fw/cellGcmSys.cpp:1098-1120 | the run found lies in the unreserved range exactly when some run does; only its start is bounded |
| `GcmConfigs.FirstFitInReserve` | app/src/main/cpp/rpcsx/ps3fw/cellGcmSys.cpp:1098-1120 | a run that ends in the reserved range is found |
| `GcmConfigs.GcmConfig.constructor` | app/src/main/cpp/rpcsx/ps3fw/cellGcmSys.cpp:112-122 | the initial tables are empty, inverse, tiled and in agreement with the kernel |
| `GcmConfigs.GcmConfig.MapEaIoAddress` | app/src/main/cpp/rpcsx/ps3fw/cellGcmSys.cpp:1021-1046 | succeeds exactly on ranges both sides accept, then updates both tables and the block table, else changes nothing |
| `GcmConfigs.GcmConfig.FindFree` | app/src/main/cpp/rpcsx/ps3fw/cellGcmSys.cpp:1097-1122 | the one-pass search returns the lowest start below the bound with all pages vacant, or none exactly when there is none |
| `GcmConfigs.GcmConfig.MapMainMemory` | app/src/main/cpp/rpcsx/ps3fw/cellGcmSys.cpp:1087-1123 | maps at the first fit; reports a full table exactly when there is no fit, a kernel error only when the first fit is refused |
| `GcmConfigs.GcmConfig.UnmapIoAddress` | app/src/main/cpp/rpcsx/ps3fw/cellGcmSys.cpp:1146-1200 | reads outside the block table exactly when the entry of the page is none; otherwise unmaps the block at a block head and fails elsewhere |
| `GcmConfigs.GcmConfig.UnmapEaIoAddress` | app/src/main/cpp/rpcsx/ps3fw/cellGcmSys.cpp:1168-1190 | succeeds exactly on the first page of a recorded block |
| `GcmConfigs.GcmConfig.ReserveIoMapSize` | app/src/main/cpp/rpcsx/ps3fw/cellGcmSys.cpp:1125-1144 | the reserved size stays within the IO range |
| `GcmConfigs.GcmConfig.UnreserveIoMapSize` | app/src/main/cpp/rpcsx/ps3fw/cellGcmSys.cpp:1202-1221 | the reserved size does not go below zero |
| `GcmConfigs.HeadOfPage` | app/src/main/cpp/rpcsx/ps3fw/cellGcmSys.cpp:1168-1190 | a page heads a block exactly when its IO page does |
| `GcmCommandRing.NextBufferIsNextFragment` | app/src/main/cpp/rpcsx/ps3fw/cellGcmSys.cpp:1428-1435 | from anywhere in a fragment the bounds of the cyclically next one |
| `GcmCommandRing.OutsideIsAccepted` | app/src/main/cpp/rpcsx/ps3fw/cellGcmSys.cpp:1444-1460 | the first test can never hold, so a position outside the buffer is accepted, not rejected |
| `GcmCommandRing.StepKeepsSound` | app/src/main/cpp/rpcsx/ps3fw/cellGcmSys.cpp:1462-1498 | wherever up to the end of the reserved words the RSX started, every step of PPU or RSX keeps the lap (contiguous segments in different fragments, their words in memory, the jumps between them, reader and writer in place), but for the PPU entering the first fragment while the RSX is in the reserved words |
| `GcmCommandRing.RingIsSafe` | app/src/main/cpp/rpcsx/ps3fw/cellGcmSys.cpp:1462-1498 | for every start up to the end of the reserved words, zero included, and every interleaving in which the PPU does not enter the first fragment while the RSX is in them: what the RSX has read is the rest of them and a prefix of what the PPU has written, the jump slot is free, and unread finished segments lie outside the PPU's fragment |
| `GcmCommandRing.BehindReserveIsPrompt` | app/src/main/cpp/rpcsx/ps3fw/cellGcmSys.cpp:437-444 | every interleaving is one of those when the RSX starts behind the reserved words |
| `GcmCommandRing.EnteringIsUnsafeExactly` | app/src/main/cpp/rpcsx/ps3fw/cellGcmSys.cpp:1482-1495 | a PPU that goes on into the first fragment can lose a word afterwards exactly when the RSX is still in the reserved words, provided that anything was written |
| `GcmCommandRing.IdleMeansCaughtUp` | app/src/main/cpp/rpcsx/ps3fw/cellGcmSys.cpp:1470-1480 | for every such start the RSX stops only when it has read all that was published |
| `GcmCommandRing.NeverStuck` | app/src/main/cpp/rpcsx/ps3fw/cellGcmSys.cpp:1482-1495 | for every such start a waiting PPU goes on at once, and safely, or the RSX can read |
| `GcmCommandRing.WaitEnds` | app/src/main/cpp/rpcsx/ps3fw/cellGcmSys.cpp:1482-1495 | for every such start: until the PPU goes on only the RSX moves, each step lowers the number of words and jumps left by one, and with none left the PPU may go on safely |
| `GcmCommandRing.SafeExactlyBehindReserve` | app/src/main/cpp/rpcsx/ps3fw/cellGcmSys.cpp:437-444 | the prefix property holds for all runs exactly when the RSX starts behind the reserved words |
| `GcmCommandRing.UnsafeInReserve` | app/src/main/cpp/rpcsx/kernel/cellos/src/sys_rsx.cpp:291-293 | from any earlier start, such as the zero set there, some run loses a word |
| `StaticHleCrc.GenCrc16` | app/src/main/cpp/rpcsx/ps3fw/StaticHLE.cpp:97-123 | computes the frame check sequence, complemented and byte-swapped, in 16 bits; zero for nothing |
| `StaticHleCrc.IsFcs` | app/src/main/cpp/rpcsx/ps3fw/StaticHLE.cpp:99-118 | the bit-by-bit register is the table-driven one of Appendix C.2 of RFC 1662 |
| `StaticHleCrc.GoodFcs` | app/src/main/cpp/rpcsx/ps3fw/StaticHLE.cpp:97-123 | a message with its checksum behind it, high byte first, leaves the good value 0xF0B8 of Appendix C.2 of RFC 1662 |
| `StaticHleCrc.ByteStep` | app/src/main/cpp/rpcsx/ps3fw/StaticHLE.cpp:105-117 | the eight bit steps of a byte are one table step |
| `StaticHleCrc.WindowTellsApart` | app/src/main/cpp/rpcsx/ps3fw/StaticHLE.cpp:107-117 | different strings of at most 16 bits leave different registers |
| `StaticHleCrc.BurstChangesChecksum` | app/src/main/cpp/rpcsx/ps3fw/StaticHLE.cpp:97-123 | messages whose bits differ only within 16 consecutive ones have different checksums |
| `StaticHleCrc.AdjacentBytesChangeChecksum` | app/src/main/cpp/rpcsx/ps3fw/StaticHLE.cpp:97-123 | so have messages that differ in one byte or in two adjacent ones |
| `StaticHle.FindPattern` | app/src/main/cpp/rpcsx/ps3fw/StaticHLE.cpp:125-151 | returns the first pattern that matches, or none exactly when none does |
| `StaticHle.CheckAgainstPatterns` | app/src/main/cpp/rpcsx/ps3fw/StaticHLE.cpp:125-175 | only the first match counts: nothing is replaced when its module is missing, an exception when its function is, else the target is that function |
| `StaticHle.MatchesPattern` | app/src/main/cpp/rpcsx/ps3fw/StaticHLE.cpp:129-149 | decides length, start with wildcards and checksum |
| `StaticHle.OwnPatternMatches` | app/src/main/cpp/rpcsx/ps3fw/StaticHLE.cpp:129-149 | a function matches a pattern made from it at that length or more, as does any with the same given bytes and checked part, but none with another given byte |
| `StaticHle.NothingChecked` | app/src/main/cpp/rpcsx/ps3fw/StaticHLE.cpp:143-148 | without a checked part the checksum in the pattern does not matter |
| `StaticHle.NoTwoNeighboursMatch` | app/src/main/cpp/rpcsx/ps3fw/StaticHLE.cpp:145-148 | no pattern matches two functions whose checked parts differ only in two adjacent bytes |
| `AudioEvents.MaskIsCongruence` | app/src/main/cpp/rpcsx/ps3fw/cellAudio.cpp:597-602 | the masked exclusive or of the 8-bit counters is congruence |
| `AudioEvents.DueAfter` | app/src/main/cpp/rpcsx/ps3fw/cellAudio.cpp:584-602 | n periods after registration a key is due exactly when n is a multiple of its periods, despite the wrap of the counter |
| `AudioEvents.DueCountIs` | app/src/main/cpp/rpcsx/ps3fw/cellAudio.cpp:573-608 | in n periods it is due floor(n / p) times |
| `AudioEvents.OneEventAPeriod` | app/src/main/cpp/rpcsx/ps3fw/cellAudio.cpp:575-608 | each queue gets at most one event a period |
| `AudioEvents.EventsOverRun` | app/src/main/cpp/rpcsx/ps3fw/cellAudio.cpp:573-608 | over any run within the slots in which it stays registered while others come and go it receives floor(n / p) events |
| `AudioEvents.EventsByBits` | app/src/main/cpp/rpcsx/ps3fw/cellAudio.cpp:582-602 | in terms of the flag bits: n periods give n events with neither, n / 2 with 0x08000000 alone, n / 4 with 0x10000000 alone, n / 8 with both |
| `AudioEvents.RegisteredReceives` | app/src/main/cpp/rpcsx/ps3fw/cellAudio.cpp:1741-1763 | so it is for a key from its registration on |
| `AudioEvents.DueNamesTheKeys` | app/src/main/cpp/rpcsx/ps3fw/cellAudio.cpp:604-606 | an event names the queue and the source of its key, and the source a second time exactly before the mix |
| `AudioEvents.SetAddsKey` | app/src/main/cpp/rpcsx/ps3fw/cellAudio.cpp:1741-1763 | registering keeps the keys of live queues in order and adds the new one last, counting from the current period |
| `AudioEvents.SweptExactly` | app/src/main/cpp/rpcsx/ps3fw/cellAudio.cpp:1741-1756 | the sweep erases exactly the keys of destroyed queues before the first key of that queue |
| `AudioEvents.RemovedExactly` | app/src/main/cpp/rpcsx/ps3fw/cellAudio.cpp:1792-1819 | a removal that succeeds takes out that key alone |
| `AudioEvents.FewKeysStayInSlots` | app/src/main/cpp/rpcsx/ps3fw/cellAudio.cpp:570-606 | a run with never more than 64 mixing keys stays within the slots |
| `AudioEvents.AllDueFitExactly` | app/src/main/cpp/rpcsx/ps3fw/cellAudio.cpp:570-606 | with all mixing keys due the slots suffice exactly up to 64 of them |
| `AudioEvents.CellAudio.Advance` | app/src/main/cpp/rpcsx/ps3fw/cellAudio.cpp:569-616 | sends exactly the due events in the order of registration, or leaves its 64 slots exactly when a mixing key is met after 64 due ones |
| `AudioEvents.CellAudio.FillSlots` | app/src/main/cpp/rpcsx/ps3fw/cellAudio.cpp:573-608 | fills the slots with exactly those, or finds none left under that condition |
| `AudioEvents.CellAudio.SetNotifyEventQueue` | app/src/main/cpp/rpcsx/ps3fw/cellAudio.cpp:1732-1767 | succeeds exactly for a live queue without a key; erases only keys of destroyed queues; the new key starts at the current period |
| `AudioEvents.CellAudio.RemoveNotifyEventQueue` | app/src/main/cpp/rpcsx/ps3fw/cellAudio.cpp:1792-1819 | removes exactly the key of that live queue and those flags |

## Left out

- Save states: the early returns on a pending state save and the resumption from them are not modelled.
- Error codes of the mutex, condition and semaphore calls: those calls succeed in the model.
- User callbacks: they are steps of the client or nothing at all.
- Header structures in guest memory: a cell of the ring holds a whole unit header or one payload byte; the field offsets are not part of this model.
- Addresses of the ring near 2^32: the ring and its largest block lie below 2^32, and the unit counters stay below it.
- The demuxer's task queue, the open and close calls and the stubs around them.
- DVD samples of 20 bits: a shift is missing there on purpose, so they have no value specification; FFmpeg decoding and IEEE rounding elsewhere are not part of this model.
- Word sizes that the source leaves unconverted.
- AdecQueues.QueuesAreSound: one sender and one consumer thread. A consumer that asks while a frame or its item can still come is excluded because the property is false then, as `AskingIsUnsafeExactly` says.
- AdecHandshake.ListIsSound: runs in which a reset clears a link of a linked frame are excluded because the list is lost in them, as `AdecResets.BrokenFromTheStart` says.
- AccessUnitQueue.StepKeepsInv: a unit that is pushed fits into the ring with its headers; the source has no such test, see `RingLayout.EmptyRingOverrun`. Likewise the rings of `PacketFraming` have room for the largest unit.
- PacketFraming.Demuxer.DemuxAll: the application neither obtains nor releases units while the loop runs; `AccessUnitQueue.RunIsFifo` is about those interleavings.
- Which ATRAC unit is cut at which packet: that depends on what the application has released by then.
- AdecHandshake.StepKeepsExclusive: a frame claimed for a command that cannot be queued, or whose stamp is refused, is never given back, as in the source; it counts as lost.
- AdecContexts.AdecContext.CorrectPtsValue: what the time stamp functions of the codecs compute is a parameter.
- The start and end of sequences are commands that decode nothing.
- LpcmClose.CloseTerminates: termination is stated as a bound on the steps of decoder and closer; that the scheduler lets them run is not part of this model.
- AtracXdecClose.CloseTerminates: the same.
- GcmPageTables.MapKeepsTiling: maps onto pages in use are excluded, because the source overwrites their entries but not their blocks; `MapKeepsInverse` says what happens to the tables.
- GcmConfigs.GcmConfig.UnmapIoAddress: what happens after the block table was read outside its cells.
- RsxIoMaps.RsxIoMap.Iomap: the checks of the memory pages behind a range are one parameter; locks and waiting are left out.
- GcmCommandRing.RingIsSafe: `get` is where the RSX reads, not a published position that lags behind it; subroutine calls of the RSX, `put += cmd_size` and unchecked writers are left out, and the buffer is mapped in one piece and has at least two fragments. Runs in which the PPU enters the first fragment while the RSX is in the reserved words are excluded because words are lost in them, as `EnteringIsUnsafeExactly` says.
- The local-memory calls, tiles, zcull, flips, cursor and the interrupt thread of GCM: easy or stubs.
- Loading the patterns from text, and the four instructions written over a matched function.
- AudioEvents.CellAudio.Advance: what happens after a store behind the last slot; the mixing itself is left out.
- The public `Ex` calls and their flag check, port volumes, tags and the mixing of samples.
- `set_config_info` and the configuration of the ATRAC decoder, beyond the frame length of a header.
