# GGmpeg wire formats, verified

GGmpeg carries live audio and video between RTMP, SRT, RTSP, HLS and DASH. Nearly all of it is
hand-written producers and consumers of wire formats, and a format's producer and its consumer often
live in different packages. This project models those pairs, byte by byte, as Dafny classes, methods and
functions, and proves what holds across a pair and over whole streams.

| module | what it models | main results |
|---|---|---|
| `Crc32` | `libmpeg/crc32.go` | the table code is polynomial division; residue 0 exactly for the right checksum; every burst within four bytes is detected |
| `Pes`, `Psi`, `TsMux`, `TsUnit` | `libmpeg` writers, the packet loop of `libhls/hls.go` | each call writes one 188-byte packet; a unit is cut into exactly its own bytes if and only if its length is in a stated domain |
| `PsiParse` | `PAT.Parse`, `PMT.Parse` | a table parses back to itself if and only if its bytes can carry it |
| `TsClock` | what a reader after ISO/IEC 13818-1 finds in the muxer's adaptation fields | a key frame's first packet says its decoding time as clock reference and random access point, no other packet says anything |
| `TsDemux`, `TsRoundTrip`, `TsSegment` | `libsrt/tsdemux.go` on what the muxer writes | any interleaving of table, audio and video packets, whatever the streams' PIDs, demultiplexes per stream as if each were fed alone; whole segments come back; continuity counters |
| `TsTables` | `libsrt/tsdemux.go` on the tables of any encoder | exactly what any program association and map table teaches |
| `RtmpChunk`, `RtmpMessage`, `RtmpRoundTrip` | `librtmp` chunks, messages, control messages | every run of messages in any of the four chunk formats, chunk-size changes and aborts included, is received as sent if and only if every payload is accepted; acknowledgements are never skipped |
| `SrtReceiver` | `libsrt/listener.go`, `libsrt/control.go` | the wrapping receiver refines an unbounded one; every number is delivered or reported lost exactly once |
| `NalUnits`, `AnnexB`, `AvcParser` | length-prefixed and start-coded NAL units | conversions invert each other exactly where stated; parameter sets before the first IDR slice |
| `RtpH264` | H.264 over RTP, both ways | access units come out whole at their marker; a receiver may join anywhere |
| `Sps` | `parseSPSDimensions` | parsing inverts a writer for H.264 section 7.3.2.1.1, which has its own condition for every profile, through emulation prevention |
| `Mp4Fragment`, `Dash` | `libmp4` fragments, `libdash/dash.go` | a player recovers every sample; which samples are in, conservation and the window over all runs |
| `HlsSegmenter` | `libhls/hls.go`, `libhls/m3u8.go` | parts tile the open segment; window, files, numbering and times over all runs; what a playlist request can rely on |
| `FlvAggregate` | `libflv` tags, `AggregateMessage.Do` | tags written and walked come back, rebased, exactly when they survive |

Bytes and fixed-width integers are bounded ints, wrap-around is written out (`U8`, `U16`, `U32`, `U64` in
`Bytes`), and files, connections and writers are the byte sequences written to them. Code that updates
state is a class whose methods are tied to a function of the old state; what the code is for is then
proved about these functions.

## Where the code does less than its comments say

Each of these is proved, as an if-and-only-if or with the exact remainder.

- A PES unit that is not a key frame and leaves 183 bytes for its last packet is not muxed, nor is a key
  frame of 169 to 175 bytes or one that leaves 175; a key frame of at most 168 bytes gets eight bytes of
  filler behind its data (`TsUnit`, `TsRoundTrip.UnitExact`).
- The three-byte chunk basic header is written in one byte order and read in the other
  (`RtmpChunk.BasicSurvives`), and protocol-control messages are never split
  (`RtmpRoundTrip.WholeSurvives`).
- The length of a PES packet counts eight bytes, or thirteen with a decoding time, that streams without
  the optional header do not have (`TsRoundTrip.HeaderWritten`).
- The demultiplexer walks a PAT that lists no program into its checksum when four bytes or more follow it,
  and takes the checksum's low 13 bits for the PID of a map (`TsTables.PatLearned`).
- A chunk in format 3 that starts a message behind one in format 0 adds 0 to the time, not that message's
  timestamp (`RtmpChunk.BareRead`, `RtmpChunk.FirstRead`).
- A PAT loses bit 2 of its version, a PMT the high bits of both its lengths (`PsiParse.PatRoundTrip`,
  `PsiParse.PmtRoundTrip`).
- A video tag that goes out over RTSP and comes back has lost its composition offset, which is added to its
  time, and the time is kept only until the 90 kHz clock first wraps (`RtpH264.TagRoundTrip`).
- When sample times go back, the times a player computes and the recorded duration are off by multiples of
  2^32 (`Dash.FilePlays`).
- When the HLS segmenter ends, a published part of the last segment can no longer be asked for
  (`HlsSegmenter.TakenBackAtEnd`); a frame earlier than the part's start closes the part, and a key frame
  earlier than the segment's start ends the segment (`HlsSegmenter.PartEnds`, `HlsSegmenter.SegmentEnds`;
  `HlsSegmenter.Late`, `Dash.BatchEnds` for DASH); a closed segment's parts may miss its last bytes (`HlsSegmenter.Covered`).
- `ParseSpecificInfo` takes everything behind the first picture parameter set's length for that set.
- `PES.Marshal` does not remember how much of the header it wrote when there was no room for all of it.

## Model

| member | source | states |
|---|---|---|
| Crc32.CRC32 | libmpeg/crc32.go:128-136 | The table-driven loop computes the bit-serial register with polynomial 0x04C11DB7 and all-ones start, for every byte string. |
| Crc32.TableCorrect | libmpeg/crc32.go:60-126 | Each of the 256 table entries is eight clocks of the register from that byte on top. |
| Crc32.ResidueZero | libmpeg/crc32.go:128-136 | Appending four bytes gives checksum 0 if and only if they are the big-endian checksum. |
| Crc32.BurstDetected | libmpeg/crc32.go:128-136 | Two strings of one length that differ only within at most four consecutive bytes never share a checksum. |
| Pes.EasyWriter.WriteFull | libmpeg/pes.go:215-255 | A successful full write appends exactly its bytes. |
| Pes.PES.Remain | libmpeg/pes.go:257-291 | Rebuilds the header before the first data byte and reports exactly the bytes of the unit not yet written, without moving the position. |
| Pes.PES.Marshal | libmpeg/pes.go:215-255 | Writes the next bytes of header and data that fit, advances the position by what the two cursors record, and finishes exactly at the end of the unit; a header that does not fit is written in part without being remembered. |
| Psi.MarshalPat | libmpeg/psi.go:98-122 | Writes the section for some order of visiting the map, with its checksum, or nothing and an error when there is less room than `Remain` says. |
| Psi.MarshalPmt | libmpeg/psi.go:234-277 | The same for a program map table and its streams. |
| Psi.PatBody | libmpeg/psi.go:98-112 | Header and entries visit every key of the map exactly once, in an order that is reported. |
| Psi.PmtBody | libmpeg/psi.go:234-264 | The same for the streams of a program map table. |
| Psi.EnumerationSize | libmpeg/psi.go:124-130 | Whatever the order, a range over a map visits as many keys as `Remain` counts. |
| PsiParse.ReadPat | libmpeg/psi.go:42-96 | Reading a section from any bytes gives what the parsing function says, errors included. |
| PsiParse.ReadPmt | libmpeg/psi.go:160-232 | The same for a program map table. |
| PsiParse.PatRoundTrip | libmpeg/psi.go:42-122 | For every visiting order, a written table parses back to itself if and only if its length field is consistent, its fields fit their bits with version bit 2 clear, its PIDs are below 2^13 and its program numbers are not 0. |
| PsiParse.PmtRoundTrip | libmpeg/psi.go:160-277 | For every visiting order, a written table parses back to its fields and PID set if and only if its lengths are below 256 and consistent, it claims no descriptors, and fields and PIDs fit their bits. |
| PsiParse.ProgramsFound | libmpeg/psi.go:70-81 | The program loop finds each nonzero program under the low 13 bits of its PID and nothing else. |
| PsiParse.PidsFound | libmpeg/psi.go:203-213 | The stream loop finds the low 13 bits of every PID written. |
| TsMux.MarshalField | libmpeg/ts.go:128-152 | Writes the length byte, flags, clock reference and stuffing of an adaptation field, one byte more than its length, or rejects the lengths it cannot express; `TsClock.CutClock` reads them back. |
| TsMux.Fill0XFF | libmpeg/ts.go:307-315 | Appends that many 0xff bytes, none for a negative count. |
| TsMux.TS.constructor | libmpeg/ts.go:170-207 | Takes the PID's counter and leaves it one higher modulo 16, other PIDs untouched. |
| TsMux.TS.Attach | libmpeg/ts.go:252-275 | Chooses adaptation field and stuffing from what remains, including the overwritten length for a short key frame. |
| TsMux.TS.WriteFront | libmpeg/ts.go:276-290 | Writes the four header bytes, the adaptation field and the pointer field of a table. |
| TsMux.TS.Mux | libmpeg/ts.go:248-305 | Every call, error returns included, writes the one 188-byte packet that the cut of the unit or section at its position describes, and advances by what it took; `TsClock` and `TsRoundTrip` read the packet back. |
| TsMux.FrontSize | libmpeg/ts.go:252-290 | How many payload bytes each kind of packet has room for. |
| TsClock.CutClock | libmpeg/ts.go:128-305 | Read by ISO/IEC 13818-1 section 2.4.3, every packet that goes right has a plain header; the first of a key frame has the random access and clock flags and no other, a clock of dts modulo 2^33 with extension 0, and 0xff behind it; every other packet has no flag set and only 0xff, or no field. |
| TsClock.RunClock | libmpeg/ts.go:248-305 | Of the packets of a unit that muxes, exactly the first of a key frame says its time. |
| TsClock.ItemClock | libhls/hls.go:353-371 | The same of what is written for tables and units with any counters: tables have no field. |
| TsUnit.WriteUnit | libhls/hls.go:360-371 | The mux loop terminates for every unit, writes exactly the run of packets from its first byte on, and leaves the PID's counter advanced by their number. |
| TsRoundTrip.CutRead | libsrt/tsdemux.go:67-103 | The demultiplexer reads from any packet the PID, start flag and counter it was written with, and the bytes taken plus any filler. |
| TsRoundTrip.UnitExact | libmpeg/ts.go:248-305 | A unit's packets are 188-byte frames, carry it and nothing else if and only if its length is in the domain, and are then ceil(L/184) many, or ceil((L+8)/184) for a key frame. |
| TsRoundTrip.StampRead | libsrt/tsdemux.go:263-273 | The five-byte time reads back modulo 2^33. |
| TsRoundTrip.HeaderRead | libsrt/tsdemux.go:229-260 | A PES header with any times parses to these times modulo 2^33, with the data behind it. |
| TsRoundTrip.AnyHeaderRead | libsrt/tsdemux.go:229-260 | A PES header of any encoder, whatever its stream, length, flags and further fields, parses to its one or two times, or to 0 without them, and to the data behind its stated length, unless that is too short for the times. |
| TsRoundTrip.HeaderWritten | libmpeg/pes.go:257-291 | Read by ISO/IEC 13818-1 section 2.4.3.6, a written PES header has the start code, stream and flags, the stamps with their prefixes and markers, and the length of what follows it, 0 if that does not fit; for streams without optional fields the length counts 8 bytes too many, or 13. |
| TsRoundTrip.UnitFed | libsrt/tsdemux.go:67-103 | Feeding the packets of a unit in the domain completes the stream's previous unit and leaves this one, whole, in the buffer. |
| TsDemux.ContainsAnnexBKeyframe | libsrt/tsdemux.go:277-292 | The index loop decides the scan that `AnnexB.KeyCoded` characterises. |
| TsDemux.Demuxer.FlushVideo | libsrt/tsdemux.go:183-196 | Hands over the buffered unit with its times and key flag, and empties the buffer. |
| TsDemux.Demuxer.FeedVideoPayload | libsrt/tsdemux.go:166-181 | A start flag completes the unit in the making and begins another; a header that does not parse leaves the buffer as the flush left it. |
| TsDemux.Demuxer.FlushAudio | libsrt/tsdemux.go:214-224 | The same as for video, with one time. |
| TsDemux.Demuxer.FeedAudioPayload | libsrt/tsdemux.go:198-212 | The same as for video, with one time. |
| TsDemux.Demuxer.ReadPAT | libsrt/tsdemux.go:108-129 | Learns the PID of the first program that is not the network table, as the program search says that `TsTables.PatLearned` characterises. |
| TsDemux.Demuxer.ReadPMT | libsrt/tsdemux.go:134-161 | Learns the last video and audio PIDs listed, as `TsTables.MapLearned` characterises, or fails where the slice expression is out of range. |
| TsDemux.Demuxer.Feed | libsrt/tsdemux.go:67-103 | Feeding a buffer is feeding its packets one by one up to the first without a sync byte; a short rest is dropped. |
| TsTables.PatLearned | libsrt/tsdemux.go:108-129 | Any program association section, with network entries before the first program, behind any pointer field and before any padding, teaches the low 13 bits of the first program's PID and changes nothing else; without a program it changes nothing, or takes its checksum for one if four bytes follow. |
| TsTables.MapLearned | libsrt/tsdemux.go:134-161 | Any program map section with program and stream descriptors and any streams teaches the PIDs of its last H.264 or HEVC and its last AAC stream, and changes nothing else. |
| TsTables.WrittenMapLearned | libmpeg/psi.go:234-264 | Any map that libmpeg writes with the right lengths does the same, streams without a type counting as H.264 or AAC by their stream id. |
| TsTables.SegmentTablesParse | libhls/hls.go:518-560 | `PAT.Parse` and `PMT.Parse` read the tables of a segment as program 1 under 0x1001 and streams 0x100 and 0x101. |
| TsTables.TablesKept | libsrt/tsdemux.go:67-161 | Tables of any encoder, repeated, change nothing in a demultiplexer that has read them, so that `TsSegment.Projects` holds with them in between. |
| TsSegment.PatRead | libhls/hls.go:659-670 | The segment's first packet teaches any demultiplexer the PMT's PID and nothing else. |
| TsSegment.PmtRead | libhls/hls.go:659-670 | The second packet teaches it both streams' PIDs, whatever order they are listed in and whichever video type. |
| TsSegment.WritePSI | libhls/hls.go:659-670 | Appends exactly these two packets with the next counters of their PIDs. |
| TsSegment.SegmentFed | libsrt/tsdemux.go:67-103 | Tables and units in the domain, each written in one go and in any order, demultiplex as if each item were taken whole. |
| TsSegment.Projects | libsrt/tsdemux.go:67-103 | With any three distinct PIDs learned, any mix of packets of the two streams, with packets between them that change nothing, leaves each stream as feeding that stream's packets alone does, from any state with the same part. |
| TsSegment.TablesRestate | libsrt/tsdemux.go:108-161 | Both table packets, with any counter and stream order, change nothing in a demultiplexer that has read them. |
| TsSegment.SegmentRoundTrip | libsrt/tsdemux.go:67-224 | A fresh demultiplexer fed both tables and then any packet-by-packet merge of the two streams' units learns the PIDs and emits, per stream, all units but the last in order with data and times modulo 2^33, the last one being buffered whole. |
| TsSegment.WrittenMixes | libhls/hls.go:353-371 | What is written for any tables and units is such a merge, and holds of each stream exactly the packets of its units. |
| TsSegment.WrittenRoundTrip | libhls/hls.go:590-604 | The same holds of the bytes of every segment as it is written. |
| TsSegment.SegmentContinuity | libmpeg/ts.go:170-207 | In a segment of any units, in the domain or not, every packet is a frame and the i-th packet of each PID has counter i modulo 16. |
| RtmpChunk.BasicSurvives | librtmp/chunk.go:30-60 | A basic header reads back to itself if and only if its stream id is below 320, or its two bytes are equal. |
| RtmpChunk.FirstRead | librtmp/chunk.go:71-287 | A full-header chunk with any 32-bit time, extended or not, on any stream id that survives, reads back as sent whatever was remembered. |
| RtmpChunk.NextRead | librtmp/chunk.go:71-287 | A headerless chunk within a message reads back as sent when the stream's last header is the message's. |
| RtmpChunk.DeltaRead | librtmp/chunk.go:71-287 | A chunk in format 1 or 2, its difference extended or not, reads as the last time of its stream plus the difference modulo 2^32, with the length and type it carries or the last ones, and the last message stream; what follows is left. |
| RtmpChunk.BareRead | librtmp/chunk.go:71-287 | A chunk in format 3 that starts a message adds the last difference once more and keeps everything else. |
| RtmpChunk.NothingToFollow | librtmp/chunk.go:71-74 | A chunk in formats 1 to 3 on a stream without a last header is an error, whatever follows. |
| RtmpMessage.RTMP.SendChunk | librtmp/chunk.go:225-287 | Grows the buffer to exactly the encoded chunk; fails for ids below 3 and unknown formats. |
| RtmpMessage.RTMP.SendSplit | librtmp/video.go:49-69 | Writes the payload as a full-header chunk and then headerless ones of the chunk size. |
| RtmpMessage.RTMP.SendControl | librtmp/control_message.go:228-232 | Writes one chunk, whatever the chunk size. |
| RtmpMessage.RTMP.ChangeChunkSize | librtmp/control_message.go:215-232 | The new size holds for what is sent from here on; the announcement itself is not split. |
| RtmpMessage.RTMP.ParseMessage | librtmp/message.go:114-205 | One call reads, counts, acknowledges when due, parses and carries out one message, as the receiving function on connections says, which `RtmpRoundTrip.ReceiveOne` characterises. |
| RtmpMessage.RTMP.Count | librtmp/message.go:192-202 | Counts the message's bytes modulo 2^32 and acknowledges exactly when a window is full. |
| RtmpMessage.RTMP.Do | librtmp/control_message.go:228-322 | Each control message changes exactly its own part of the connection; short payloads, and audio, video and aggregate bodies that do not parse, fail as in the source. |
| RtmpRoundTrip.AssembleSplit | librtmp/message.go:114-190 | The chunks of a split message reassemble to it, and its header is remembered for its stream. |
| RtmpRoundTrip.AssembleBased | librtmp/message.go:114-190 | A message that starts in format 1, 2 or 3 reassembles to the last header's time plus the difference, modulo 2^32, its payload and the fields not sent, and is remembered. |
| RtmpRoundTrip.WholeSurvives | librtmp/message.go:114-190 | A message sent in one chunk reassembles, and is remembered, if and only if it is no longer than the receiver's chunk size. |
| RtmpRoundTrip.ReceiveOne | librtmp/message.go:114-205 | Receiving one message sent, in whichever format, succeeds if and only if its type is known and its payload as long as its type needs, aggregates part by part, and then returns it and leaves the whole connection as specified: header remembered, bytes counted and acknowledged, chunk size, window, bandwidth, abort, and the reply to a ping. |
| RtmpRoundTrip.RunReceived | librtmp/message.go:114-205 | For every run of messages in any formats, with size changes and aborts between them, as many calls all succeed if and only if every payload is accepted, and then return the same messages in order and leave the connection as specified message by message. |
| RtmpRoundTrip.AcknowledgeRefines | librtmp/message.go:192-202 | Over any message, the wrapping counters decide as unbounded ones would, and fewer than a window of bytes stay unacknowledged. |
| RtmpRoundTrip.RunAcknowledged | librtmp/message.go:192-202 | Over any run with the window unchanged and at most 2^32 - 2^24, no acknowledgement is skipped across counter wrap. |
| SrtReceiver.SeqDiffExact | libsrt/control.go:87-96 | The 31-bit difference is the true one if and only if that lies in (-2^30, 2^30]. |
| SrtReceiver.MarshalNAK | libsrt/control.go:44-60 | The loop writes one word for a single loss, two for a range. |
| SrtReceiver.ParseNAK | libsrt/control.go:64-82 | The offset loop reads any body as the parsing function says, a range cut short being dropped. |
| SrtReceiver.NakRoundTrip | libsrt/control.go:44-82 | Every list of ranges parses back to itself modulo 2^31. |
| SrtReceiver.Session.HandleDataPacket | libsrt/listener.go:149-180 | A packet is dropped, delivered, or delivered with its gap reported, and the expected number moves, as the receiver function says. |
| SrtReceiver.Session.SendNAK | libsrt/listener.go:183-186 | Reports exactly the one range. |
| SrtReceiver.Session.MaybeSendACK | libsrt/listener.go:190-203 | Acknowledges the expected number unless the interval has not elapsed since the last one. |
| SrtReceiver.ArriveRefines | libsrt/listener.go:149-180 | A packet within 2^30 of the expected number changes the wrapping receiver as it changes one with unbounded numbers. |
| SrtReceiver.RunRefines | libsrt/listener.go:149-203 | So does every such run with fewer than 2^32 acknowledgements, however many packets arrive, with deliveries, reported ranges and acknowledged numbers equal modulo 2^31. |
| SrtReceiver.RunPartitions | libsrt/listener.go:149-203 | At all times deliveries strictly increase, acknowledged numbers never go back, and every number from the baseline to the expected one is delivered or in a reported range, exactly once. |
| SrtReceiver.SessionAccounts | libsrt/listener.go:149-203 | Both hold of a session from its initial sequence number, or from the first packet's when that is 0. |
| NalUnits.AVCCFromNALs | librtsp/rtp_unpack.go:179-192 | The loop writes each unit behind its 32-bit length. |
| NalUnits.SplitAVCC | librtsp/h264.go:76-88 | The offset loop returns the units up to the first length that is 0 or too large. |
| NalUnits.SplitJoined | librtsp/h264.go:76-88 | Splitting undoes joining for nonempty units below 2^32 bytes. |
| NalUnits.SplitExact | librtsp/h264.go:76-88 | Splitting uses up the buffer if and only if it is a concatenation of such units. |
| AnnexB.AvccToAnnexB | libhls/hls.go:561-575 | Rewrites the units that splitting finds, each behind a four-byte start code. |
| AnnexB.SplitAnnexB | librtmp/srt_server.go:232-271 | The nested scans terminate and return the units between start codes of three or four bytes. |
| AnnexB.AnnexBRoundTrip | librtmp/srt_server.go:232-271 | Units survive conversion and splitting if and only if none is empty and none holds 00 00 01; trailing zeros are kept. |
| AnnexB.KeyCoded | libsrt/tsdemux.go:277-292 | On such a stream, behind any prefix, the key-frame scan is true if and only if some unit has type 5. |
| AnnexB.StreamPreserved | libhls/hls.go:561-575 | From tag data through conversion to splitter and scan: the same units, the right key flag. |
| AvcParser.Parser.ParseSpecificInfo | libavc/avc.go:63-107 | Accepts a record exactly when both lengths fit, and appends the first SPS and everything behind the first PPS length, start-coded. |
| AvcParser.Parser.GetAnnexbH264 | libavc/avc.go:131-203 | Writes an access unit delimiter and then the converted units, those before an error included; the Pps buffer ends up with all parameter sets seen. |
| AvcParser.AcceptedInputs | libavc/avc.go:131-203 | It succeeds if and only if the input is a nonempty concatenation of nonempty length-prefixed units. |
| AvcParser.ConvertedSnoc | libavc/avc.go:149-200 | One more unit adds itself if it is a slice, IDR slice or SEI, and before the first IDR slice the parameter sets seen so far, or the configured ones if none were. |
| AvcParser.ConvertedRead | libavc/avc.go:131-203 | Splitting what is written for an access unit gives a delimiter, its slices, IDR slices and SEI in order, and before the first IDR slice the parameter sets seen so far, or the configured ones. |
| RtpH264.PackNAL | librtsp/h264.go:26-70 | The fragment loop returns the pieces of a unit for any limit. |
| RtpH264.PiecesFit | librtsp/h264.go:26-70 | For limits of at least 3 every piece is nonempty and within the limit, and no fragment carries both the start and the end bit. |
| RtpH264.FragmentsFit | librtsp/h264.go:46-69 | Exactly the first fragment has the start bit and exactly the last the end bit. |
| RtpH264.RTPPacker.constructor | librtsp/rtp.go:27-35 | The first sequence number is the low half of the SSRC. |
| RtpH264.RTPPacker.Pack | librtsp/rtp.go:40-53 | Writes the packet RFC 3550 lays out for these fields and moves to the next sequence number modulo 2^16. |
| RtpH264.PacketRead | librtsp/rtp_unpack.go:23-67 | Any RFC 3550 packet, with CSRC list, header extension and padding, parses to its fields and its payload. |
| RtpH264.H264Reassembler.Push | librtsp/rtp_unpack.go:85-140 | Updates the reassembler and returns the completed access unit as the pushing function says, in every branch. |
| RtpH264.H264Reassembler.Split | librtsp/rtp_unpack.go:98-109 | Appends the units of an aggregation packet up to the first that is cut short, which `RtpH264.AggregationPushed` says for any units. |
| RtpH264.AggregationPushed | librtsp/rtp_unpack.go:85-140 | A payload of type 24 with any units below 2^16 bytes behind their lengths adds exactly these units to those pending, whatever cut-off rest follows, and with the marker all of them come out. |
| RtpH264.UnitAbsorbed | librtsp/rtp_unpack.go:85-140 | A unit's pieces give it back if and only if it is small and of type 1 to 23, or fragmented with forbidden bit 0. |
| RtpH264.SendVideo | librtmp/rtsp_server.go:460-494 | The nested loops write the pieces of all units, consecutively numbered, with one timestamp and the marker on the very last. |
| RtpH264.AccessUnitReceived | librtsp/rtp_unpack.go:85-140 | From any reassembler state, an access unit of such units comes out whole with its timestamp at its marker packet, and nothing before. |
| RtpH264.StreamReceived | librtsp/rtp_unpack.go:85-140 | Every stream of access units comes out exactly. |
| RtpH264.JoinedStream | librtsp/rtp_unpack.go:85-140 | From any state and joining after any number of packets of one access unit, all later ones come out exactly. |
| RtpH264.TagRoundTrip | librtmp/rtsp_ingest.go:249-272 | An FLV tag sent and published back keeps its data; it comes back with its time and composition offset if and only if the offset is 0 and the time fits the 90 kHz clock, and is shown at the same time if and only if that fits. |
| Sps.BitReader.ReadBits | libdash/dash.go:653-665 | Reads that many bits most significant first, or uses up what is left and fails. |
| Sps.BitReader.ReadUE | libdash/dash.go:667-688 | Reads an Exp-Golomb code as the reading function says, giving up at 33 zeros or at the end. |
| Sps.BitReader.ReadSE | libdash/dash.go:690-696 | Maps the code read to a signed value. |
| Sps.UERead | libdash/dash.go:667-688 | Every ue(v) code below 2^32 - 1 reads back, leaving what follows. |
| Sps.SERead | libdash/dash.go:690-696 | Every se(v) code of the standard's range reads back. |
| Sps.Strip | libdash/dash.go:572-582 | The index loop takes out the prevention bytes. |
| Sps.StrippedEscaped | libdash/dash.go:572-582 | Stripping undoes the standard's emulation prevention on every byte string. |
| Sps.ParseSPSDimensions | libdash/dash.go:568-642 | Computes the size that the parsing function finds in any bytes. |
| Sps.SkipOrder | libdash/dash.go:609-620 | Consumes each branch of the picture order count type, its unbounded loop included. |
| Sps.SetRead | libdash/dash.go:584-642 | For every writable parameter set, the colour fields written by the standard's own list of profiles, and any bits behind it: the size modulo 2^16, or (0, 0) with scaling lists. |
| Sps.DimensionsRead | libdash/dash.go:568-642 | Through bytes and emulation prevention, the size of the set if and only if there are no scaling lists and it fits 16 bits; and the unit written holds no start code. |
| Mp4Fragment.Container | libmp4/box.go:79-85 | A box whose body is its children one behind the other. |
| Mp4Fragment.Trun | libmp4/media_segment.go:118-133 | The loop writes one entry per sample behind count and offset. |
| Mp4Fragment.BuildMoof | libmp4/media_segment.go:53-72 | Nests header, time and run boxes with the offset given. |
| Mp4Fragment.BuildMediaSegment | libmp4/media_segment.go:29-51 | Two builds patch the data offset to the byte behind the mdat header; no samples give nothing. |
| Mp4Fragment.MoofLengthFixed | libmp4/media_segment.go:42-45 | The length of the moof box does not depend on the offset in it. |
| Mp4Fragment.FragmentTiled | libmp4/box.go:39-85 | At every level boxes end exactly where their container ends. |
| Mp4Fragment.FragmentPlays | libmp4/media_segment.go:29-133 | A player with its own box types, flags and versions, which walks the boxes, recovers track, sequence number and of each sample its decoding time, duration, composition offset, sync and dependency flags and bytes. |
| Dash.DASH.FlushCurrent | libdash/dash.go:439-506 | Drops a batch of one, keeps one whose file cannot be written, and otherwise records fragment, interval and file and reaps the window. |
| Dash.DASH.Feed | libdash/dash.go:173-246 | One tag rotates, is admitted or is ignored as the step function says. |
| Dash.DASH.Start | libdash/dash.go:167-247 | Over all tags and the deferred flush, the state is that of the run. |
| Dash.BatchEnds | libdash/dash.go:211-226 | A step closes the open batch at exactly the key samples that come the target duration or more after its first, or before it, unless its file cannot be written; a batch of one needs none. |
| Dash.AcceptedAre | libdash/dash.go:193-246 | Over every run, the samples accepted are all video samples from the first key sample behind a usable sequence header on. |
| Dash.Conserved | libdash/dash.go:214-246 | Over every run, failed writes included, the samples accepted are those of the closed batches and then those of the open one, in order. |
| Dash.WindowOverRuns | libdash/dash.go:439-506 | Over every run, the fragments are the closed batches of two samples or more, start with a key sample, are numbered consecutively, and the last windowSize of them are listed and alone on disk. |
| Dash.FilePlays | libdash/dash.go:451-495 | Playing a fragment file gives every sample of its batch with its duration; all times are exact if and only if times never go back, and so is the recorded duration; the record has its number and starts at its first sample's time. |
| HlsSegmenter.HLS.constructor | libhls/hls.go:113-131 | A segmenter starts with no segment, no window and no file. |
| HlsSegmenter.HLS.OpenSegment | libhls/hls.go:578-604 | A fresh file named by the next number starts with both tables and fresh counters. |
| HlsSegmenter.HLS.CloseCurrentPart | libhls/hls.go:611-637 | Records the bytes since the last boundary as a part, unless no time or no bytes have passed. |
| HlsSegmenter.HLS.FinaliseCurrent | libhls/hls.go:681-726 | Closes the last part, records the segment, moves to the next number and reaps the window with its files. |
| HlsSegmenter.HLS.Rotate | libhls/hls.go:674-677 | Closes and records the current segment, then opens the next one with the given start; without its file no segment is open. |
| HlsSegmenter.HLS.MuxUnit | libhls/hls.go:353-388 | Tables when due, the unit's packets into the file byte by byte, then the end time and the part boundary unless muxing failed. |
| HlsSegmenter.HLS.Feed | libhls/hls.go:300-389 | One turn of the loop rotates on key frames, drops what comes before the first, and fails exactly when a file cannot be created. |
| HlsSegmenter.HLS.Start | libhls/hls.go:290-390 | Over all tags and the deferred end of the last segment, the state is that of the run and its end; it stops early only when a file cannot be created. |
| HlsSegmenter.PlaylistNumbers | libhls/m3u8.go:72-129 | The playlist's media sequence is the oldest listed number, its preload offset the furthest end of a part. |
| HlsSegmenter.WholePackets | libhls/hls.go:640-655 | Every file is a whole number of 188-byte packets. |
| HlsSegmenter.PreloadIs | libhls/m3u8.go:117-129 | For parts that tile, the preload hint is the byte where the next part starts. |
| HlsSegmenter.SegmenterRuns | libhls/hls.go:290-390 | Over every run and at its end: numbers are consecutive up to the next one, the window is the last windowSize segments, the files kept are exactly theirs and the open one's, each starts with tables and a video key frame, parts tile and their durations add up from its first unit's time, start and duration of each segment are recorded from its units; and every unit from the first key frame on is in exactly one segment, in order, unless a file cannot be created. |
| HlsSegmenter.TakenAre | libhls/hls.go:290-390 | What is taken in is every unit from the first key frame on, or the first of these if a file could not be created, which is the only way to fail. |
| HlsSegmenter.FileGrows | libhls/hls.go:353-371 | A turn that takes a unit in adds it behind tables when these are due, to the open file or to a new one that starts with tables of the stream's type. |
| HlsSegmenter.StepClocked | libhls/hls.go:332-390 | Every turn keeps that an open segment's start is its first unit's time, its end the latest time of its units that muxed, and that its part durations add up to the time from its start to the open part's, plus 2^64 ticks for each part that ended before it began, which none does while times do not go back. |
| HlsSegmenter.ClosedRecorded | libhls/hls.go:681-709 | A closed segment is recorded with its first unit's time and the time from there to its latest unit's, or the target if that is 0, and with parts whose durations add up. |
| HlsSegmenter.NeverTakenBack | libhls/hls.go:195-208 | Between turns of the loop the newest part never goes back, so a request once answerable stays answerable. |
| HlsSegmenter.TakenBackAtEnd | libhls/hls.go:681-726 | When the segmenter ends the newest part goes back if and only if the last segment had one. |
| HlsSegmenter.PlaylistIs | libhls/m3u8.go:83-129 | In every reachable state the preload offset is the open part's start on a packet boundary, the media sequence the oldest segment kept. |
| HlsSegmenter.Covered | libhls/hls.go:681-690 | A closed segment's parts reach its end if and only if nothing was behind the last part, or time had passed since it. |
| HlsSegmenter.PartEnds | libhls/hls.go:383-388 | A unit that muxes closes the open part if and only if it comes the part target or more after the part's start, modulo 2^64, but not at that very time; the part is then exactly the bytes since the last one, with that duration. |
| HlsSegmenter.Late | libhls/hls.go:332-388 | With the 32-bit times of tags, that is late enough, or earlier than the start. |
| HlsSegmenter.SegmentEnds | libhls/hls.go:332-344 | Over every run, an open segment ends at exactly the key frames that come the target or more after its first unit, modulo 2^64; with the times of tags, late enough or earlier than that unit. |
| HlsSegmenter.FilesDemux | libhls/hls.go:590-604 | Every kept file whose units survive is read back, alone, by a fresh demultiplexer: its units and nothing else. |
| FlvAggregate.Marshal | libflv/audio.go:80-92 | Both tags' bodies, built step by step. |
| FlvAggregate.ParseAudioTag | libflv/audio.go:56-78 | Reads any body as the parsing function says; at most one byte is an error. |
| FlvAggregate.ParseVideoTag | libflv/video.go:42-65 | Reads any body as the parsing function says; packet type and offset only for AVC, HEVC and AV1. |
| FlvAggregate.BodyRead | libflv/video.go:42-81 | A tag's body reads back as the tag if and only if its fields fit, none is set that the body lacks, and untyped audio has data. |
| FlvAggregate.FLVWrite | libflv/flv.go:51-86 | Appends header, split timestamp, body and back pointer. |
| FlvAggregate.TagLaidOut | libflv/flv.go:51-86 | A tag written, read field by field: type, length, time with its high byte last, stream 0, body, and the size of all of it behind it. |
| FlvAggregate.Do | librtmp/aggregate_message.go:34-99 | The walk hands on sub-messages and ends or fails as the walking function on any payload says. |
| FlvAggregate.WalkIntact | librtmp/aggregate_message.go:45-96 | The walk ends without an error if and only if every sub-message lies within the payload and its media body is long enough, whatever the times. |
| FlvAggregate.TagsWalked | librtmp/aggregate_message.go:34-99 | Tags of bodies below 2^24, written and walked, come out in order and rebased if and only if each of them survives. |
| FlvAggregate.DifferencesKept | librtmp/aggregate_message.go:57-63 | All pairwise time differences are kept modulo 2^32, and the first tag gets the container's time. |

## Left out

- Sockets, HTTP, goroutines, condition variables, printing: not modelled; reads are the bytes that arrive, writes succeed in full except where an input says that a file cannot be created or written.
- Clocks: when tables are due again and when the acknowledgement interval has elapsed are inputs.
- A file write that fails halfway: a failed fragment file leaves the disk as it was.
- Float rounding: durations and their comparisons in the HLS segmenter are over reals.
- Nil handlers of the demultiplexer: both handlers are set.
- `toPES`: the segmenter's units arrive lifted from their tags; the audio cache and ADTS headers are not part of this model.
- `Stop` and publishing races: one publisher, one loop.
- Deadlines of `WaitForPlaylist`: only its condition.
- Interleaving of chunk streams inside a message: the source collects one message at a time.
- RtmpChunk.FirstRead: for stream ids that do not survive, `RtmpChunk.BasicSurvives` says what is read instead.
- RtmpRoundTrip.RunReceived: unsplit control messages need a chunk size at least their length, which `RtmpRoundTrip.WholeSurvives` shows to be necessary.
- Command, data and user-control effects on rooms, AMF0, handshake and encryption: not part of this model; data messages, and data sub-messages of an aggregate, are taken to parse.
- What media messages do in a room: after a body that does not parse, `Do` of an audio or video message in a room uses the tag it did not get; here the message ends with the parser's error either way.
- TsMux.MarshalField: not for length 255, where the byte that holds the buffer's capacity wraps to 0 and the stuffing depends on how the buffer grows; `TS.Mux` never attaches such a field.
- `PES.Parse` and `TS.DeMux` of libmpeg: not what reads the muxer's output.
- Adaptation field parsing in libmpeg: the demultiplexer skips the field by its length; `TsClock` reads it as the standard does.
- Table sections longer than a packet: neither side of the source continues them.
- TsTables.PatLearned: a table without a program whose checksum starts with two zero bytes; the walk then goes on into the padding.
- HEVC parameter sets, HEVC over RTP, AAC and Opus payloads, init segments, MPD and m3u8 text: fixed layouts or text.
- Scaling lists in parameter sets: the source gives up on them, and so the result there is (0, 0).
- Fields that a failing `PAT.Parse` or `PMT.Parse` has already filled in: the model returns nothing on an error.
- The chunk parser's single reads: `RtmpChunk.ParseChunk` is a function of the bytes not yet read.
- Loss and reordering of RTP packets inside an access unit: only joining late.
