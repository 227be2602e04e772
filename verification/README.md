# Verification of roc-toolkit's queues, tables and audio path

Dafny models of the parts of roc-toolkit whose correctness is hardest to see, and proofs of what they promise.

- **Queue** (`MpscQueue*.dfy`): the lock-free queue of many producers and one consumer. Every atomic operation is one
  step, every thread has a program counter, and results hold for every interleaving and every number of threads.
- **Seqlock** (`Seqlock.dfy`): concurrent loads and stores of a value octet by octet, with the 32-bit version.
- **Hash map** (`Hashmap*.dfy`): the intrusive map with incremental rehash. `HashmapModel` and `HashmapRuns` treat it as
  values and as runs of operations; `HashmapRing` and `HashmapImpl` are the linked nodes and buckets, proved to do what
  the values do; `HashmapClient` runs any operations on them.
- **PCM** (`PcmCodes`, `PcmMapper`, `PcmSamples`, `Codecs`, `Blocks`, `PcmDecoder`, `PcmEncoder`): sample conversion down
  to shifts and casts, buffers, and the decoder and encoder objects.
- **Packets** (`Chopping`, `Packetizer`): cutting frames into RTP packets, against a reference that takes one group of
  samples at a time.
- **Timeline** (`Timeline*`, `StreamTime`, `Depacketizer`): turning packets with 32-bit timestamps back into a continuous
  stream, against a reference with an unbounded clock.
- **End to end** (`EndToEnd`, `Reach`, `Relay`): sender, lossy network and listener.
- **Smaller machines** (`DecimationResampler`, `Watchdog`, `Profiler`): the resampler's accumulator, the two timeouts,
  and the moving average.

A group is one sample per channel. Lengths in groups are turned into samples by repeated addition (`Times`, `Wholes`).

## Model

| member | source | states |
|---|---|---|
| `MpscQueueSteps.StepKeepsInv` | src/internal_modules/roc_core/mpsc_queue_impl.cpp:27-135 | Every atomic step of every thread keeps the queue's invariant: the nodes from `head_` to `tail_` are the tail of the order of exchanges, each link is stored or is held by exactly one push between its exchange and its store, and exactly the queued nodes are owned. |
| `MpscQueueTheorems.PopsFollowExchanges` | src/internal_modules/roc_core/mpsc_queue_impl.cpp:46-91 | In every run, the nodes popped so far are a prefix of the nodes in the order of their exchanges of `tail_`; nothing is lost, repeated or overtaken. |
| `MpscQueueTheorems.CallsBecomeExchanges` | src/internal_modules/roc_core/mpsc_queue_impl.cpp:40-44 | In every run, what a producer has exchanged followed by what it still has to exchange is what it called `push_back` with. |
| `MpscQueueTheorems.PopsFollowCalls` | src/internal_modules/roc_core/mpsc_queue_impl.cpp:27-91 | Per-producer order: the pops of one producer's nodes are a prefix of its calls. |
| `MpscQueueTheorems.ChainHasNoRepeats` | src/internal_modules/roc_core/mpsc_queue_impl.cpp:40-91 | The chain runs from `head_` to `tail_` and holds no node twice, the stub included. |
| `MpscQueueTheorems.PoppedNodeIsFree` | src/internal_modules/roc_core/mpsc_queue_impl.cpp:32-91 | When a pop returns a node, no link of a queued node, no thread and no owner field refers to it any more: it can be pushed again or destroyed. |
| `MpscQueueTheorems.NullOnlyWhenDrained` | src/internal_modules/roc_core/mpsc_queue_impl.cpp:46-127 | A pop returns NULL only if every exchanged node has been popped, or if it must not spin and a push is between its exchange and its link store. |
| `MpscQueueTheorems.SpinEndsWithoutPushes` | src/internal_modules/roc_core/mpsc_queue_impl.cpp:99-109 | A spinning pop leaves its loop at its next step once the push it waits for has linked. |
| `MpscQueueTheorems.OnlyDoublePushPanics` | src/internal_modules/roc_core/mpsc_queue_impl.cpp:129-135 | Whatever callers do, the owner check fails only in a push of a node that is queued. |
| `MpscQueueTheorems.DisciplinedNeverPanics` | src/internal_modules/roc_core/mpsc_queue_impl.cpp:129-135 | If callers push only nodes that are in no queue and in no other push, no run panics. |
| `SeqlockTheorems.InvAlways` | src/internal_modules/roc_core/seqlock.h:130-206 | The invariant of all loads and stores holds in every state of every run. |
| `SeqlockTheorems.OneWriterAtATime` | src/internal_modules/roc_core/seqlock.h:130-160 | The version is odd exactly while one store is between its mark and its last version write; never are there two; the version counts two changes per store, modulo 2^32. |
| `SeqlockTheorems.StoreReportsItsVersion` | src/internal_modules/roc_core/seqlock.h:130-160 | A store that reports success is in the history of values, under the version it reports. |
| `SeqlockTheorems.LoadIsWholeAndFresh` | src/internal_modules/roc_core/seqlock.h:162-206 | A successful load returns one whole stored value under its version, no older than the last one published before the load began, if fewer than 2^31 stores complete between its version reads. |
| `SeqlockTheorems.TornLoadAfterWrap` | src/internal_modules/roc_core/seqlock.h:184-193 | Finding: with exactly 2^31 stores in between, a load succeeds with octets of two values. |
| `HashmapRuns.RunRefinesOrderedMap` | src/internal_modules/roc_core/hashmap_impl.cpp:108-175 | At every stage of every run, an insert, remove or growth does to the members what it does to an insertion-ordered map, or without memory nothing at all; migration is not visible. |
| `HashmapRuns.AlwaysGood` | src/internal_modules/roc_core/hashmap_impl.cpp:108-175 | Every table of every run is well formed and has room: twice the inserts before the next growth cover the nodes still to be migrated. |
| `HashmapRuns.InsertKeepsGood` | src/internal_modules/roc_core/hashmap_impl.cpp:108-138 | An insert keeps the table well formed, appends the node, and migrates at most two nodes; exactly one if that is enough to finish in time. |
| `HashmapRuns.RemoveKeepsGood` | src/internal_modules/roc_core/hashmap_impl.cpp:140-154 | A remove keeps the table well formed, and migrates at most one node besides the one it takes out. |
| `HashmapRuns.RehashEndsBeforeGrowth` | src/internal_modules/roc_core/hashmap_impl.cpp:203-207 | In no run does a growth find nodes that wait for migration: the check on the remaining nodes never fails. |
| `HashmapRuns.PosCheckFailsExactlyAfterOrphaning` | src/internal_modules/roc_core/hashmap_impl.cpp:203-207 | Finding: the check that the scan position is zero fails at a growth if and only if an earlier remove took out the last waiting node while the scan had left the first bucket. |
| `HashmapStaleScan.PosCheckCanFail` | src/internal_modules/roc_core/hashmap_impl.cpp:206 | Finding: from an empty table, inserts and removes lead to an insert that trips that check. |
| `HashmapMigrations.MigrationsAreBounded` | src/internal_modules/roc_core/hashmap_impl.cpp:322-376 | In every run each insert, also one that grows the table, migrates at most two nodes, each remove at most one and a growth none; what leaves the old table is in the current one. |
| `HashmapGrowth.NextCountGrows` | src/internal_modules/roc_core/hashmap_impl.cpp:378-417 | The next bucket count is bigger and leaves room for a rehash to end before the following growth. |
| `HashmapGrowth.GetNextBucketSize` | src/internal_modules/roc_core/hashmap_impl.cpp:378-417 | The two scans of the table of primes, as loops, compute the next bucket count. |
| `HashmapImpl.Hashmap.constructor` | src/internal_modules/roc_core/hashmap_impl.cpp:14-29 | A new map is valid and empty. |
| `HashmapImpl.Hashmap.Insert` | src/internal_modules/roc_core/hashmap_impl.cpp:108-138 | On linked nodes and buckets: the new state and the status are those of the value model, which is grown first if it is full; a node that is in some map and a key that some member has are the panics of the source, and nothing else is refused but for memory or a failed check. The map takes in the node and fresh buckets only. |
| `HashmapImpl.Hashmap.Remove` | src/internal_modules/roc_core/hashmap_impl.cpp:140-154 | On linked nodes and buckets: the new state is the remove of the value model, with and without the rehash step; the node is in no bucket, and the map takes in nothing. |
| `HashmapImpl.Hashmap.Grow` | src/internal_modules/roc_core/hashmap_impl.cpp:156-175 | On linked nodes and buckets: the new state and the result are the growth of the value model. |
| `HashmapImpl.Hashmap.FindNode` | src/internal_modules/roc_core/hashmap_impl.cpp:58-77 | Finds a member if and only if one has that hash and key, in whichever table it is, and then the only one; nothing changes. |
| `HashmapImpl.Hashmap.FindInBucket` | src/internal_modules/roc_core/hashmap_impl.cpp:177-197 | One trip around the ring finds a node with that hash and key if and only if there is one. |
| `HashmapImpl.Hashmap.Front` | src/internal_modules/roc_core/hashmap_impl.cpp:79-84 | The member inserted first, or none. |
| `HashmapImpl.Hashmap.Back` | src/internal_modules/roc_core/hashmap_impl.cpp:86-91 | The member inserted last, or none. |
| `HashmapImpl.Hashmap.NextOf` | src/internal_modules/roc_core/hashmap_impl.cpp:93-106 | The member inserted next, wherever a rehash has put either. |
| `HashmapImpl.Hashmap.ContainsIff` | src/internal_modules/roc_core/hashmap_impl.cpp:46-56 | A node whose bucket field only maps have set is contained if and only if it is a member. |
| `HashmapClient.Perform` | src/internal_modules/roc_core/hashmap_impl.cpp:108-175 | One operation on the linked map: a success is a step of the value model and does to the members what it does to an insertion-ordered map; each kind of refusal has its reason in the table; nodes outside stay outside. |
| `HashmapClient.RunAll` | src/internal_modules/roc_core/hashmap_impl.cpp:108-175 | Any sequence of operations on one linked map, for any nodes, keys, hashes and allocation failures, until one panics: the map follows a run of the value model, its members are those of an insertion-ordered map that saw the successful operations, and a failed check means that an earlier remove orphaned the scan position. |
| `HashmapImpl.Hashmap.ProceedRehash` | src/internal_modules/roc_core/hashmap_impl.cpp:322-368 | The rehash step on linked nodes follows the value model, and its two checks hold. |
| `HashmapImpl.Hashmap.MigrateNode` | src/internal_modules/roc_core/hashmap_impl.cpp:370-376 | Moves one node from the ring of its old bucket to that of its new one, and changes nothing else. |
| `HashmapImpl.Hashmap.BucketInsert` | src/internal_modules/roc_core/hashmap_impl.cpp:264-285 | The node joins the end of the ring that its hash selects; no other ring changes. |
| `HashmapImpl.Hashmap.BucketRemove` | src/internal_modules/roc_core/hashmap_impl.cpp:287-307 | The node leaves its ring; the count of waiting nodes drops exactly if the ring was in the old table. |
| `HashmapImpl.Hashmap.AllListInsert` | src/internal_modules/roc_core/hashmap_impl.cpp:309-315 | The node joins the end of the list of all nodes. |
| `HashmapImpl.Hashmap.AllListRemove` | src/internal_modules/roc_core/hashmap_impl.cpp:317-320 | The node leaves the list of all nodes. |
| `HashmapRing.Bucket.Insert` | src/internal_modules/roc_core/hashmap_impl.cpp:270-285 | The node becomes the last of a doubly linked ring. |
| `HashmapRing.Bucket.Remove` | src/internal_modules/roc_core/hashmap_impl.cpp:287-307 | The node leaves the ring, whose other nodes stay linked in order. |
| `PcmCodes.UnpackPack` | src/internal_modules/roc_audio/pcm_funcs_gen.py:735-793 | Packing and unpacking gives the value of the low bits: the sample itself exactly if it is in range. |
| `PcmCodes.PackUnpack` | src/internal_modules/roc_audio/pcm_funcs_gen.py:735-793 | Unpacking and packing gives the octets again if padding bits are zero. |
| `PcmCodes.SignRoundTrip` | src/internal_modules/roc_audio/pcm_funcs_gen.py:525-568 | The converters between signed and unsigned are inverse. |
| `PcmCodes.ClipPoint` | src/internal_modules/roc_audio/pcm_funcs_gen.py:619-628 | The converter clips exactly the samples whose rounded value is out of range. |
| `PcmCodes.ConvertBits` | src/internal_modules/roc_audio/pcm_funcs_gen.py:570-647 | The shifts and casts of the converter compute the bits of the ideal conversion, for every pair of codes. |
| `PcmCodes.StoredSample` | src/internal_modules/roc_audio/pcm_funcs_gen.py:570-758 | Converting a sample and writing it out stores exactly the ideal conversion. |
| `PcmCodes.IdealRoundTrip` | src/internal_modules/roc_audio/pcm_funcs_gen.py:570-647 | Converting to a code at least as wide and back gives the sample again. |
| `PcmCodes.CodesAreAligned` | src/internal_modules/roc_audio/pcm_funcs_gen.py:123-436 | The integer codes of the table that are whole octets meet the conditions of all conversion results. |
| `PcmMapper.MappedSamples` | src/internal_modules/roc_audio/pcm_funcs_gen.py:798-813 | The mapped buffer holds the ideal conversion of every sample. |
| `PcmMapper.MapRoundTrip` | src/internal_modules/roc_audio/pcm_mapper.cpp:61-86 | Mapping to a format at least as wide and back reproduces a buffer if and only if it is whole samples with zero padding bits. |
| `PcmMapper.TableRoundTrip` | src/internal_modules/roc_audio/pcm_funcs_gen.py:123-436 | The round trip, for every pair of those codes and any byte orders. |
| `PcmMapper.CountsAreInverse` | src/internal_modules/roc_audio/pcm_mapper.cpp:37-59 | The sample count of a byte count is the identity, also for widths that are not whole octets. |
| `PcmMapper.Map` | src/internal_modules/roc_audio/pcm_mapper.cpp:61-86 | Maps as many samples as both buffers have room for, advances both offsets by as much, and changes nothing else in the output. |
| `PcmSamples.FloatRoundTrip` | src/internal_modules/roc_audio/pcm_funcs_gen.py:599-613 | Every sample of a code survives conversion to a number and back. |
| `PcmSamples.QuantizedClose` | src/internal_modules/roc_audio/pcm_funcs_gen.py:599-613 | Storing a number from -1 to 1 moves it toward zero by less than one step. |
| `PcmSamples.QuantizedTwice` | src/internal_modules/roc_audio/pcm_funcs_gen.py:599-613 | Storing a number twice is storing it once. |
| `PcmSamples.FormatIsLawful` | src/internal_modules/roc_audio/pcm_mapper.cpp:17-27 | Every format is a codec with samples of fixed size that quantizes as its code does. |
| `Codecs.ReadStored` | src/internal_modules/roc_audio/pcm_decoder.cpp:62-86 | Reading back what was stored gives every sample once through the codec. |
| `PcmDecoder.ReachedIs` | src/internal_modules/roc_audio/pcm_decoder.cpp:62-103 | The bit offset is at all times the groups consumed, times channels, times sample width. |
| `PcmDecoder.ShiftThenRead` | src/internal_modules/roc_audio/pcm_decoder.cpp:62-103 | Skipping groups and reading gives the tail of reading all of them. |
| `PcmDecoder.PcmDecoder.Begin` | src/internal_modules/roc_audio/pcm_decoder.cpp:45-60 | The decoder holds the whole groups of the payload, at the packet's timestamp. |
| `PcmDecoder.PcmDecoder.Read` | src/internal_modules/roc_audio/pcm_decoder.cpp:62-86 | Reads as many groups as asked for and available, from where the last call ended; position, rest and output agree. |
| `PcmDecoder.PcmDecoder.Shift` | src/internal_modules/roc_audio/pcm_decoder.cpp:88-103 | Skips as many groups as asked for and available. |
| `PcmDecoder.PcmDecoder.End` | src/internal_modules/roc_audio/pcm_decoder.cpp:105-115 | The decoder holds nothing, and its position stays. |
| `PcmEncoder.PcmEncoder.Write` | src/internal_modules/roc_audio/pcm_encoder.cpp:44-61 | Writes as many samples as fit behind those written before, and says how many whole groups that were. |
| `Chopping.FeedSplit` | src/internal_modules/roc_audio/packetizer.cpp:60-94 | What packets are cut depends on the samples, not on how they are split into frames. |
| `Chopping.FeedJoined` | src/internal_modules/roc_audio/packetizer.cpp:60-94 | No sample is lost, repeated or reordered. |
| `Chopping.FeedFull` | src/internal_modules/roc_audio/packetizer.cpp:60-94 | Without a flush only full packets are sent, and packets once sent stay. |
| `Chopping.FeedPieces` | src/internal_modules/roc_audio/packetizer.cpp:60-158 | Packets are whole groups, never empty and never longer than a full one. |
| `Chopping.WireSteps` | src/internal_modules/roc_audio/packetizer.cpp:126-144 | Sequence numbers step by one and timestamps by durations, wrapping at 2^16 and 2^32. |
| `Packetizer.Packetizer.constructor` | src/internal_modules/roc_audio/packetizer.cpp:19-54 | A new packetizer is valid, with no packet begun and nothing sent. |
| `Packetizer.Packetizer.Write` | src/internal_modules/roc_audio/packetizer.cpp:60-94 | Cuts a frame as the reference does one group at a time, as far as packets can be allocated; each allocation serves at least one group. |
| `Packetizer.Packetizer.FlushPacket` | src/internal_modules/roc_audio/packetizer.cpp:96-100 | Sends the packet being filled as it is. |
| `Packetizer.Packetizer.BeginPacket` | src/internal_modules/roc_audio/packetizer.cpp:102-124 | Begins a packet with the next number and timestamp, or fails and changes nothing. |
| `Packetizer.Packetizer.EndPacket` | src/internal_modules/roc_audio/packetizer.cpp:126-158 | Sends the samples written, in a payload of exactly their size. |
| `TimelineTheorems.ReadKeepsInv` | src/internal_modules/roc_audio/depacketizer.cpp:84-204 | A read advances the unbounded clock by its length, and packets accepted before stay as they were. |
| `TimelineTheorems.ReadIsHeard` | src/internal_modules/roc_audio/depacketizer.cpp:84-277 | Every read plays, at each clock position, the accepted packet that covers it, and silence where none does. |
| `TimelineTheorems.ReadIsFromSupply` | src/internal_modules/roc_audio/depacketizer.cpp:206-277 | Everything accepted is a packet of the supply, placed at a clock position with the packet's own timestamp. |
| `TimelineTheorems.FaultIs` | src/internal_modules/roc_audio/depacketizer.cpp:225-276 | Finding: a packet makes the shift check panic if and only if it is empty and 2^31 away from the clock. |
| `TimelineTheorems.ReadFaultsIff` | src/internal_modules/roc_audio/depacketizer.cpp:206-277 | Finding: a read panics if and only if one of the packets that it judges is such a packet. |
| `TimelineTheorems.ReadCanFault` | src/internal_modules/roc_audio/depacketizer.cpp:274 | Finding: a read that panics. |
| `TimelineTheorems.ReadNeverFaults` | src/internal_modules/roc_audio/depacketizer.cpp:206-277 | With no empty packets no read panics, wherever timestamps are and however often they wrap. |
| `TimelineTheorems.ReadDropsIff` | src/internal_modules/roc_audio/depacketizer.cpp:214-245 | A read counts drops if and only if one of the packets that it judges has ended or ends more than 2^31 ahead. |
| `TimelineTheorems.ReadConserves` | src/internal_modules/roc_audio/depacketizer.cpp:206-277 | Every packet is accepted, dropped or not taken yet. |
| `TimelineRuns.ReadSplit` | src/internal_modules/roc_audio/depacketizer.cpp:84-100 | Reading in two parts is reading at once. |
| `StreamTime.VerdictIs` | src/internal_modules/roc_packet/units.h:43-52 | The wrapping comparison of a packet's end with the stream position gives the verdict of the unbounded clock. |
| `StreamTime.DistanceIs` | src/internal_modules/roc_packet/units.h:43-47 | The wrapping difference is the distance on the unbounded clock, both ways. |
| `Depacketizer.Depacketizer.constructor` | src/internal_modules/roc_audio/depacketizer.cpp:35-59 | A new depacketizer stands at the start of the timeline, with the invariant. |
| `Depacketizer.Depacketizer.ReadWithFlags` | src/internal_modules/roc_audio/depacketizer.cpp:84-321 | With 32-bit timestamps, a frame holds at each clock position the accepted packet that covers it, or silence; the flags say whether any and whether all positions were covered and whether a packet was judged to be dropped; what was accepted comes from the supply; the read fails exactly as ReadFaultsIff says. |
| `Depacketizer.Depacketizer.ReadFrame` | src/internal_modules/roc_audio/depacketizer.cpp:84-166 | The loop over gaps and packets fills the frame as the timeline reads one group at a time. |
| `Depacketizer.Depacketizer.UpdatePacket` | src/internal_modules/roc_audio/depacketizer.cpp:206-277 | Takes packets as the timeline does: late ones are dropped, the past part of one is skipped, and the first sets the clock. |
| `Depacketizer.Depacketizer.ReadMissing` | src/internal_modules/roc_audio/depacketizer.cpp:185-204 | Writes silence and moves the stream position by as much. |
| `Depacketizer.Depacketizer.ReadPacketSamples` | src/internal_modules/roc_audio/depacketizer.cpp:168-183 | Writes the next samples of the packet and lets it go if it is shorter. |
| `EndToEnd.ListenerHears` | src/internal_modules/roc_audio/depacketizer.cpp:84-277 | For any lost packets, if each packet delivered ends at most 2^31 groups after the one before, a listener hears the sender's stream through the codec from the first packet delivered on, with as much silence as was lost, and drops nothing. |
| `EndToEnd.AheadIff` | src/internal_modules/roc_audio/depacketizer.cpp:225-230 | A packet that belongs some groups ahead of the clock is accepted and placed there if and only if it ends at most 2^31 groups ahead. |
| `Reach.AcceptedInPlaceIff` | src/internal_modules/roc_audio/depacketizer.cpp:206-277 | Finding: for any lost packets, every packet delivered is accepted where it belongs in the stream if and only if each ends at most 2^31 groups after the one before; and then none is dropped. |
| `Reach.ReachCanFail` | src/internal_modules/roc_audio/depacketizer.cpp:228 | Finding: a packet delivered after 2^31 lost groups is dropped. |
| `Reach.ReachCanBeLeft` | src/internal_modules/roc_audio/depacketizer.cpp:228 | Finding: a stream with such losses. |
| `EndToEnd.PacketsFacts` | src/internal_modules/roc_audio/packetizer.cpp:60-100 | The packets of a stream are whole groups, together its samples and as long. |
| `EndToEnd.NothingLost` | src/internal_modules/roc_audio/depacketizer.cpp:84-277 | If no packet is lost, what is heard is the whole stream through the codec. |
| `EndToEnd.LosslessStream` | src/internal_modules/roc_audio/depacketizer.cpp:84-277 | Without losses any stream is heard once through the codec, for any packet length below 2^31. |
| `EndToEnd.HearsAtAnyTime` | src/internal_modules/roc_audio/depacketizer.cpp:84-100 | A shorter read hears the start of it, and a longer one silence behind it. |
| `Relay.Send` | src/internal_modules/roc_audio/packetizer.cpp:60-100 | Frames of any lengths become the packets of their concatenation. |
| `Relay.Receive` | src/internal_modules/roc_audio/depacketizer.cpp:84-100 | Frames of any lengths read one after another are together one long read. |
| `Relay.DeliveredDecodes` | src/internal_modules/roc_audio/pcm_decoder.cpp:45-86 | The octets of delivered packets decode to the samples sent, through the codec. |
| `Relay.RelayFrames` | src/internal_modules/roc_audio/depacketizer.cpp:84-277 | Sender, lossy network and listener together: whatever the lengths of frames written, packets and frames read, and whichever packets are lost, the frames read are together what the accepted packets say; all packets are accepted in place if and only if they are in reach, and then that is the sender's samples through the codec with lost packets silent; without losses, all of them. |
| `Relay.FormatStream` | src/internal_modules/roc_audio/pcm_funcs_gen.py:570-813 | In a PCM format and without losses, every sample is heard quantized, and less than one step away if in range. |
| `DecimationResampler.DecimationResampler.constructor` | src/internal_modules/roc_audio/decimation_resampler.cpp:28-100 | A new resampler is valid, with nothing due and nothing emitted. |
| `DecimationResampler.DecimationResampler.SetScaling` | src/internal_modules/roc_audio/decimation_resampler.cpp:102-135 | Accepts a multiplier if and only if it needs at most one correction per input buffer, and else keeps the old one. |
| `DecimationResampler.DecimationResampler.EndPushInput` | src/internal_modules/roc_audio/decimation_resampler.cpp:149-162 | What will come out is the input, or the input with the last group repeated before it or without its first group; as many samples are due as the multiplier says. |
| `DecimationResampler.DecimationResampler.PopOutput` | src/internal_modules/roc_audio/decimation_resampler.cpp:164-231 | All output with what is still to come does not depend on how much is asked for at a time; when input runs out, the number emitted is less than one group away from the number due, over the whole life. |
| `Watchdog.Watchdog.constructor` | src/internal_modules/roc_audio/watchdog.cpp:15-74 | A new watchdog is valid and alive. |
| `Watchdog.Watchdog.Read` | src/internal_modules/roc_audio/watchdog.cpp:86-196 | A dead watchdog stays dead and mutes; alive is what the two wrapping tests say of the whole history. With short frames the blank half is exact however far positions have wrapped; if also wrapping does not move windows, it is alive if and only if no blank run and no choppy run ever reached its limit. |
| `Watchdog.BlankTestRight` | src/internal_modules/roc_audio/watchdog.cpp:133-140 | Finding: the wrapping blank test is right if and only if the run does not wrap to below the limit. |
| `Watchdog.BlankTestCanFail` | src/internal_modules/roc_audio/watchdog.cpp:138 | Finding: one blank frame of 2^32 samples goes unnoticed. |
| `Watchdog.BlankTestExact` | src/internal_modules/roc_audio/watchdog.cpp:122-149 | With short frames the blank test says whether the stream was blank for too long. |
| `Watchdog.DropsTestExact` | src/internal_modules/roc_audio/watchdog.cpp:151-196 | In a tame run the drops test says whether every window was bad for too long, also past 2^32 samples. |
| `Watchdog.MarksMeaning` | src/internal_modules/roc_audio/watchdog.cpp:151-177 | In a tame run the one-pass update keeps the flags of all frames that overlap the current window and the end of the last clean one, also past 2^32 samples. |
| `Watchdog.VerdictExact` | src/internal_modules/roc_audio/watchdog.cpp:86-196 | In runs in which no wrapping is visible to the tests, their verdict is that of the whole history. |
| `Watchdog.BadSinceCleanEnd` | src/internal_modules/roc_audio/watchdog.cpp:151-181 | Every window completed since that end was bad. |
| `Watchdog.WindowsStayIff` | src/internal_modules/roc_audio/watchdog.cpp:160-164 | Finding: windows counted from 32-bit positions are windows of the stream if and only if their length divides 2^32. |
| `Watchdog.DropsTestCanFail` | src/internal_modules/roc_audio/watchdog.cpp:159-175 | Finding: with windows of three samples, a stream in which no window is bad is found choppy after positions wrap. |
| `Profiler.Profiler.constructor` | src/internal_modules/roc_audio/profiler.cpp:17-49 | A new profiler is valid, with no samples. |
| `Profiler.Profiler.UpdateMovingAvg` | src/internal_modules/roc_audio/profiler.cpp:55-95 | Takes in as many samples at that speed, and keeps the ring, the means of chunks and the moving average exact. |
| `Profiler.Profiler.AddFrame` | src/internal_modules/roc_audio/profiler.cpp:97-112 | Takes in a frame at its speed. |
| `Profiler.Profiler.GetMovingAvg` | src/internal_modules/roc_audio/profiler.cpp:114-129 | Until the ring is full, the mean over all samples ever; then the mean over the last window, in which the oldest chunk gives way to the one being filled. |
| `Profiler.WeightedIsMean` | src/internal_modules/roc_audio/profiler.cpp:61-73 | The weighted update keeps the mean of all samples of the chunk. |

## Findings

Where the code does not meet what it is meant to, the model follows the code, a lemma exhibits the failure, and another
one says exactly when it occurs.

- The check in hashmap_impl.cpp:206 that the rehash scan starts at zero can fail. `remove` does not reset the scan
  position when it takes out the last node that waits for migration, and the next growth panics
  (`HashmapStaleScan.PosCheckCanFail`). It fails exactly in runs in which such a remove happened after the scan had left
  the first bucket (`HashmapRuns.PosCheckFailsExactlyAfterOrphaning`). The check in the line after it never fails
  (`HashmapRuns.RehashEndsBeforeGrowth`).
- The panic in depacketizer.cpp:274 can be reached. A packet with no samples exactly 2^31 away from the stream position
  passes the test for late packets and cannot be shifted (`TimelineTheorems.ReadCanFault`). A read panics exactly if it
  judges such a packet (`TimelineTheorems.ReadFaultsIff`), so never without empty packets.
- After losses that are too long, packets are dropped although they are in time. A packet is taken for late if it ends
  more than 2^31 groups after the stream position (depacketizer.cpp:228); one delivered after 2^31 lost groups is thrown
  away (`Reach.ReachCanFail`). All packets delivered are accepted where they belong exactly if each ends at most 2^31
  groups after the one before (`Reach.AcceptedInPlaceIff`).
- The blank test in watchdog.cpp:138 compares a wrapping difference. A blank frame long enough to wrap it to below the
  limit goes unnoticed (`Watchdog.BlankTestCanFail`); the test is right exactly otherwise (`Watchdog.BlankTestRight`), in
  particular if no frame is longer than 2^32 less the limit.
- The drop windows in watchdog.cpp:160 are counted from the wrapping position. They stay in place at a wrap exactly if
  the window length divides 2^32 (`Watchdog.WindowsStayIff`). Otherwise a stream without a bad window can be found choppy
  (`Watchdog.DropsTestCanFail`).
- A seqlock load that is suspended for exactly 2^31 stores can return octets of two values
  (`SeqlockTheorems.TornLoadAfterWrap`); with fewer stores it never does.

## Left out

- Memory orders weaker than sequential consistency, which the headers of the queue and of the seqlock promise.
- Liveness under a scheduler: that a spinning pop or a waiting load ends is stated only as one step after its cause.
- The queue's destructor, and ownership policies of queue, list and map.
- SeqlockTheorems.LoadIsWholeAndFresh: states nothing for loads during which 2^31 stores complete, where it fails.
- HashmapImpl.Hashmap.Remove: that the node is a member is the caller's duty here, and so it is for NextOf; the source
  checks it. `HashmapClient.Perform` makes that check.
- HashmapImpl.Hashmap.Grow: memory is a flag; preallocated buckets and the arena are not told apart as memory, and the
  release of old buckets is not modelled.
- The templates around the map that hash and compare keys: a key is a value with equality and its hash is an input.
- PCM codes that are not whole octets, and codes held as floating point in memory.
- PcmSamples.QuantizedClose: arithmetic is on reals; the rounding of single precision in the program is not modelled.
- The RTP header and its extensions; of the composer only the change of the payload size.
- Depacketizer.Depacketizer.ReadWithFlags: packets hold fewer than 2^31 groups; capture timestamps, the beep that can
  replace silence, and logging are left out.
- EndToEnd.ListenerHears: packets arrive in order, as from a sorted queue.
- Packetizer.Packetizer.Write: allocation is a budget of packets; capture timestamps and the composer's failures are left out.
- DecimationResampler.DecimationResampler.PopOutput: input and output rates are equal; the inner resampler is not
  modelled, and the accumulator is exact where the program rounds.
- Watchdog.Watchdog.Read: timeouts are given in samples; the status string and the reader below it are left out.
- Watchdog.DropsTestExact: the meaning of the drops test is stated for frames that are not empty and not longer than a
  window, windows of less than 2^31 samples, and past 2^32 samples windows that divide 2^32.
- PcmMapper.Map: bit offsets are whole octets, as they always are for codes that are whole octets.
- DecimationResampler.DecimationResampler.SetScaling: input and output rates are equal, as the inner resampler is not
  modelled.
- DecimationResampler.DecimationResampler.EndPushInput: a push before the input is used up, which would lose input, is not
  modelled.
- Profiler.Profiler.GetMovingAvg: arithmetic is exact where the program rounds; the rate limiter and the log are left out.
- Everything else in the repository (FEC, sessions, pipelines, network and device input and output) is not part of this model.
