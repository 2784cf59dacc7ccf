# A verified model of the tms media server's codecs and segmenters

tms takes a live stream in over RTMP or as a transport stream, keeps the current group of pictures, cuts the stream into
HLS, DASH and MP4 segments and sends it out again. This project models the parts where bytes and state meet and proves
that they work together:

- the RTMP chunk stream: header compression and chunking on one side, reassembly from partial and interleaved input on
  the other, each with its own memory per chunk stream id (`RtmpReceiver`, `RtmpChunks`, `RtmpSender`, `RtmpRoundTrip`,
  `RtmpClock`), and chunks that others send (`RtmpForeign`);
- MPEG-TS: packing frames into 188-byte packets and collecting them again, down to the bits (`TsPackets`, `TsWriter`,
  `TsReader`, `TsRoundTrip`, `TsFrames`, `TsDemux`, `AnnexB`), every field at the standard's place (`TsTables`, `TsLayout`),
  streams of other encoders (`TsForeign`, `TsForeignMap`, `TsForeignPacket`, `ShortCodes`), and what a reader gets out of
  every segment of every run (`Delivery`);
- the HLS queues, the group-of-pictures cache and the subscribers (`Hls`, `HlsPackets`, `HlsSegments`, `Burst`,
  `AvcRecord`, `MediaMuxer`, `Publisher`, `Subscribers`, `MediaPublisher`);
- MP4 files and their index tables (`Mp4Tables`, `Mp4Times`, `Mp4File`, `Mp4Run`, `Mp4Layout`, `Mp4Muxer`) and DASH segments and manifests
  (`DashSegment`, `DashLayout`, `DashFragments`, `DashTimeline`, `DashManifest`, `DashMuxer`), both over one box writer with sizes patched in place (`Boxes`,
  `BoxWriter`);
- AMF0 (`Amf0`, `AmfLayout`), the table-driven CRCs (`Crc`, `CrcCheck`, `Octets`), and the socket buffer and partial writes (`IoBuffer`,
  `TcpSocket`);
- the bit writer and reader that the formats share (`Bits`, `BitIO`, `BitFields`, `ByteReader`), byte strings (`Bytes`) and payloads
  (`Media`).

Each component has a functional specification on values (`Step`, `Run`, `Next`, `Packets`, ...), imperative classes and
methods in the form of the source that are proved equal to it, and theorems about the specification. Whether a frame,
a file or a message survives is always asked of an independent reader, not of the writer's own functions.

`dafny verify dfyconfig.toml` checks everything.

## Model

| member | source | states |
|---|---|---|
| RtmpReceiver.FragmentationIndependence | src/rtmp_protocol.cpp:101-108 | However a byte stream is cut into reads (at least one), the receiver ends in the same state, with the same messages delivered and the same bytes left over, as after one read of the whole; for every stream, well formed or not. |
| RtmpReceiver.RescanIsHarmless | src/rtmp_protocol.cpp:287-384 | After a parse that ran out of data, the header fields it has already written change nothing: scanning the same bytes with more behind them finds the same chunk, and the memory of all other csids is the same. |
| RtmpReceiver.ReceivingEnd.Parse | src/rtmp_protocol.cpp:287-447 | One in-place step of the parser on the head map and the read buffer is the specified step: at most one chunk consumed, headers applied, bodies gathered, complete messages handed on with the clock moved. |
| RtmpReceiver.ReceivingEnd.HandleRead | src/rtmp_protocol.cpp:101-108 | The read loop terminates (every success consumes a byte) and leaves exactly the state of the specified run over the old buffer and the new data. |
| RtmpReceiver.ReceivingEnd.OnSetChunkSize | src/rtmp_protocol.cpp:723-735 | The incoming chunk size becomes the first four body bytes as a big-endian number, zero when there are fewer. |
| RtmpReceiver.ReceivingEnd.OnRtmpMessage | src/rtmp_protocol.cpp:1418-1479 | A message is recorded, a Set Chunk Size takes effect at once, control messages never fail, unknown types do, and for the rest the application decides. |
| RtmpReceiver.ThreeByteFormIff | src/rtmp_protocol.cpp:317-325 | A three-byte basic header is read as RTMP 1.0 (section 5.3.1.1) defines it if and only if its two csid bytes are equal. |
| RtmpReceiver.ThreeByteFormIsSwapped | src/rtmp_protocol.cpp:317-325 | The header 1, 0, 1 of csid 320 is read as csid 65. |
| RtmpReceiver.RefusalCuts | src/rtmp_protocol.cpp:101-108 | For every stream and every set of handlers: what is delivered is what handlers that accept everything would have been handed, up to and including the first message that is refused, and then the connection is closed; if none is refused, the whole state is the same. |
| RtmpForeign.ChunkIsScanned | src/rtmp_protocol.cpp:296-422 | A chunk that anybody has laid out as RTMP 1.0 says (section 5.3.1; csid in one or two bytes, 24-bit time and length, stream id least significant byte first) is found, and each field is taken at its place; shorter headers leave the others. |
| RtmpForeign.ExtendedTimeIsTakenForBody | src/rtmp_protocol.cpp:341-399 | The four bytes of an extended timestamp are taken for the first bytes of the body. |
| RtmpForeign.ChunkSizeIsSet | src/rtmp_protocol.cpp:723-735 | A Set Chunk Size message, given byte by byte, changes the chunk size for what comes behind it. |
| RtmpForeign.ShortAnnouncementStarves | src/rtmp_protocol.cpp:723-735 | After a Set Chunk Size message of fewer than four bytes no chunk brings a byte of its message any more. |
| RtmpForeign.TypesOfTheStandard | src/rtmp_protocol.cpp:1418-1479 | Of the fifteen message types of RTMP 1.0, five close the connection even when every handler accepts: Abort, Aggregate, AMF3 commands and both kinds of shared objects. |
| RtmpChunks.InterleavingIndependence | src/rtmp_protocol.cpp:341-447 | For chunk sequences of different csids interleaved in any way under one chunk size, provided each chunk has the length the receiver asks for on its own csid: each csid's messages and final memory are those of its own chunks received alone. |
| RtmpSender.SendingEnd.SendData | src/rtmp_protocol.cpp:1555-1670 | The loop over chunks, with its chunk count by division and its format chosen against the last message on the csid, puts exactly the specified chunks on the wire and remembers the message. |
| RtmpSender.SendingEnd.SendContinuations | src/rtmp_protocol.cpp:1599-1664 | The chunks after the first are bare format 3 headers with the rest of the body, each as full as the chunk size allows. |
| RtmpSender.SendingEnd.SendFirstChunk | src/rtmp_protocol.cpp:1599-1664 | The first chunk carries the header of its format and the beginning of the body, of which a video frame's five-byte tag is the first part. |
| RtmpSender.SendingEnd.SendMediaData | src/rtmp_protocol.cpp:1672-1703 | A frame is sent on csid 4 or 6 with the 32-bit distance to the last timestamp there, or 0 on a fresh csid, and video with five bytes more. |
| RtmpForeign.MediaBodyIsLaidOut | src/rtmp_protocol.cpp:1620-1640 | What is sent for a frame: type 8 or 9; audio data as they are; video data behind a tag whose fields give the frame type, codec 7, a NAL unit, and the composition time in 24 bits. |
| RtmpForeign.SenderIsLaidOut | src/rtmp_protocol.cpp:1599-1620 | The header of every format is laid out byte by byte as the standard says. |
| RtmpForeign.HeaderIsShortest | src/rtmp_protocol.cpp:1578-1596 | A shorter header than the one chosen would be read with a wrong delta, length or type. |
| RtmpForeign.ControlGoesInFull | src/rtmp_protocol.cpp:1535-1553 | Any message but audio and video goes out with a full header and no time, whatever went before on its csid. |
| RtmpForeign.RepeatGoesShort | src/rtmp_protocol.cpp:1578-1596 | An audio or video header of the type and length of the untimed message before it goes out behind one byte. |
| RtmpForeign.ChunkSizeGoesOut | src/rtmp_protocol.cpp:1777-1791 | A new chunk size is announced on csid 2, in the very bytes that change it at a receiver. |
| RtmpSender.SendingEnd.SendRtmpMessage | src/rtmp_protocol.cpp:1535-1553 | Anything else is sent without a timestamp, in format 0 unless its type is audio or video. |
| RtmpSender.SendingEnd.SetOutChunkSize | src/rtmp_protocol.cpp:1777-1791 | The new size is announced in a message that is already chunked by it. |
| RtmpRoundTrip.RoundTrip | src/rtmp_protocol.cpp:1555-1670 | Whatever is posted on csids 2 to 63 (bodies below 2^24 bytes, any delta, forced format or not), with chunk sizes of at least 5 changing in between, is delivered: same csid, type and body (video with its tag), same order, nothing else; and both memories are in step again afterwards. The application accepts every message; see `RoundTripUpToRefusal` for one that does not. |
| RtmpRoundTrip.RoundTripOverAnyFragmentation | src/rtmp_protocol.cpp:287-447 | The same when the bytes arrive in any pieces. |
| RtmpRoundTrip.RoundTripUpToRefusal | src/rtmp_protocol.cpp:1418-1479 | With handlers that may refuse, what is delivered is the posted list up to and including the first message that is refused, and then the connection is closed; if none is refused, both sides are in step as before. |
| RtmpRoundTrip.MessageArrives | src/rtmp_protocol.cpp:287-447 | The chunks of one message, in any format that the memory permits, complete exactly that message and leave every other csid alone. |
| RtmpClock.ClockIsRunningSumIff | src/rtmp_protocol.cpp:357-360 | The stamps of all delivered messages are the running sums of the posted deltas per csid if and only if every post is safe: in format 0 the last explicit delta of the csid equals the sum so far and what the 24 bits lose, formats 1 and 2 lose nothing, in format 3 the last explicit delta is the message's own. |
| RtmpClock.ReplyTurnsClockBack | src/rtmp_protocol.cpp:422-422 | A session that the server produces - codec header, frames at 40 and 80 ms, a command reply on the same csid - in which the stamps are not the running sums. |
| RtmpClock.PlayerSeesDecodingTimesIff | src/rtmp_protocol.cpp:1672-1684 | In a session of untimed messages and frames, everything is stamped as meant (frames with their 32-bit decoding time, the rest with 0) if and only if each item meets a condition on the sender's memory: see `OnTime`. |
| RtmpClock.NewPlayerSeesDecodingTimesIff | src/rtmp_protocol.cpp:1672-1684 | The same on a new connection. |
| RtmpClock.OrdinaryIsOnTime | src/rtmp_protocol.cpp:1705-1738 | Sessions in which untimed messages come before the frames of their csid and each frame follows less than 2^24 ms after the last message there are on time. |
| RtmpClock.LateJoinIsEarly | src/rtmp_protocol.cpp:1610-1623 | A player that joins when the stream is at 2^24 ms gets its first frame at the wrong time. |
| TsPackets.PacketsAreWhole | src/media_muxer.cpp:101-401 | Every packet of every frame that meets the length bounds is exactly 188 bytes. |
| TsPackets.PacketsCarryTheFrame | src/media_muxer.cpp:339-400 | The bodies of a frame's packets are, together, its header, its lead-in, the frame once and in order, and then exactly `Copied` bytes of what follows it in memory: at most 8 for video, 2 for audio, 9 for audio without an ADTS header. |
| TsPackets.EndIs | src/media_muxer.cpp:174-193 | Where the packets behind the first one end: the frame's length plus, for video, nothing, 6, or what is missing to 184, as the remaining length modulo 184 is 0, below 176, or more; for audio nothing below 182, else what is missing. |
| TsPackets.FrameEndIs | src/media_muxer.cpp:126-194 | The same for a whole frame with its first packet: the surplus as a function of kind, length and lead-in alone. |
| TsPackets.NothingCopiedIff | src/media_muxer.cpp:126-194 | Nothing is copied from behind a frame if and only if, for video, the frame with its start codes and parameter sets fills the last packet; for audio, its length modulo 184 is neither 161 nor 162 (without an ADTS header: it is at least 170 and modulo 184 neither 168 nor 169). |
| TsPackets.PlainFrameFillsIff | src/media_muxer.cpp:126-194 | For video that is not a key frame the condition is a length of at least 151 that is 147 modulo 184. |
| TsPackets.PacketsAreCounted | src/media_muxer.h:60-106 | The packets of a frame have one PID and consecutive counters modulo 16. |
| TsLayout.PacketsAreLaidOut | src/media_muxer.cpp:198-216 | In the bytes of every packet of a frame: sync byte, no error or priority bit, start indicator on the first packet only, PID, no scrambling, adaptation control, and counters that go on modulo 16. |
| TsLayout.AudioIsLaidOut | src/media_muxer.cpp:257-323 | The unit of an audio frame is, field by field, laid out as ISO/IEC 13818-1 section 2.4.3.7 says. |
| TsLayout.VideoIsLaidOut | src/media_muxer.cpp:285-322 | So is that of a video frame once the tags in front of its time stamps are set to 3 and 1; the muxer writes 2 in both places. |
| TsLayout.LengthCountsIff | src/media_muxer.cpp:270-276 | The packet length of an audio unit counts exactly what is behind it, without the surplus, if and only if there is an ADTS header. |
| TsLayout.AdtsIsLaidOut | src/media_muxer.cpp:358-377 | The ADTS header in front of an audio frame is laid out as ISO/IEC 13818-7 says, with the fields of the AAC configuration and the length of this frame. |
| TsLayout.DelimiterComesFirst | src/media_muxer.cpp:325-356 | A video unit begins with an access unit delimiter, NAL unit type 9; in front of a key frame come the parameter sets. |
| TsTables.FirstPacketTellsClock | src/media_muxer.cpp:218-239 | The first packet of a video frame and no other has a clock reference; base and extension, read at the standard's bit positions, are 27000000 times the whole seconds of the decoding time. |
| TsTables.TablesAnnounce | src/media_muxer.cpp:403-519 | In every copy of the two tables, read at the standard's positions: section length, checksum and stuffing are right (`SoundTable`), the association table leads to the PID of the map, and the map names the PIDs of the clock, the H.264 and the AAC packets. |
| TsWriter.WriteTsHeader | src/media_muxer.cpp:198-216 | The bit fields of a packet header are the four bytes that the specification names. |
| TsWriter.WriteAdaptation | src/media_muxer.cpp:218-255 | The adaptation field with its clock reference and stuffing. |
| TsWriter.WritePcr | src/media_muxer.cpp:230-239 | The clock reference of 33, 6 and 9 bits from the decoding time in whole seconds. |
| TsWriter.WriteStamp | src/media_muxer.cpp:288-318 | A time stamp of 3, 15 and 15 bits with its marker bits. |
| TsWriter.WritePesHeader | src/media_muxer.cpp:257-323 | The head of an elementary stream packet: both stamps for video, one and a length for audio. |
| TsWriter.WriteLead | src/media_muxer.cpp:325-377 | Access unit delimiter and parameter sets before a key frame, or the ADTS header with the frame length patched into the kept copy, whatever an earlier frame left there. |
| TsWriter.Plan | src/media_muxer.cpp:126-194 | The header size, adaptation field and stuffing that the packing plans for each packet. |
| TsWriter.FirstTsPacket | src/media_muxer.cpp:196-387 | The first packet of a frame, written bit by bit, is the specified packet, and takes as much of the frame as specified. |
| TsWriter.NextTsPacket | src/media_muxer.cpp:196-387 | The same for the later ones. |
| TsWriter.WritePat | src/media_muxer.cpp:403-454 | The association table packet; from behind the pointer byte up to the end that its own length field gives the checksum register comes out as zero, and all behind that is stuffing. |
| TsWriter.WritePmt | src/media_muxer.cpp:456-519 | The same for the program map packet. |
| TsDemux.Demuxer.ParseTs | src/ts_reader.cpp:125-143 | The reader's loop over packets is the specified reader on every input; it reports failure where the specification has none. |
| TsForeignPacket.StreamIsReadToTheLastSync | src/ts_reader.cpp:125-143 | Whole packets are read up to the first one without a sync byte, without a failure; a stream that is not made of whole packets is refused. |
| TsDemux.Demuxer.ParseTsSegment | src/ts_reader.cpp:145-208 | One packet: header fields, pointer byte, adaptation field, and the dispatch to tables or collection. |
| TsForeignPacket.PacketIsCollected | src/ts_reader.cpp:145-208 | A packet of any other muxer is collected under its PID, whatever its error, priority and scrambling bits and its counter say. |
| TsForeignPacket.FreshReaderCollects | src/ts_reader.cpp:116-121 | Before any table has been read this holds of every PID but that of the association table. |
| TsDemux.ParseAdaptation | src/ts_reader.cpp:210-365 | The cursor ends behind an adaptation field without optional parts other than the clock reference, if its stuffing is intact. |
| TsDemux.Demuxer.ParsePAT | src/ts_reader.cpp:367-432 | The map PID is taken from an association table with a program. |
| TsDemux.Demuxer.ParsePMT | src/ts_reader.cpp:434-593 | The video stream type is taken from the entries of a program map, past the descriptors of the map and of each entry with their 16-bit count of what is left; a descriptor that the packet cuts off is a failure. |
| TsDemux.PassDescriptors | src/ts_reader.cpp:488-497 | The loop over descriptors ends behind them, or fails where the source fails or does not come to an end. |
| TsForeignMap.MapIsReadIff | src/ts_reader.cpp:434-593 | A map in the standard's layout, with any whole descriptors, gives the type of its video stream if and only if it has no descriptors of its own or ends with the packet; otherwise the checksum is taken for an entry and the reader fails. |
| TsForeignPacket.PatIsReadIff | src/ts_reader.cpp:404-428 | An association table in the standard's layout leads to its first program if and only if that is its first entry; behind the network's entry nothing is read. |
| TsDemux.Demuxer.ParsePES | src/ts_reader.cpp:595-927 | A complete unit is taken apart into events and cleared. |
| TsDemux.ReadPes | src/ts_reader.cpp:595-900 | Time stamps and stream of a unit without further flags, read field by field, give exactly the specified events. |
| TsForeign.UnitReads | src/ts_reader.cpp:595-900 | A unit in the standard's layout, with no, one or two time stamps of any value: the stamps are found, and what is behind them is the contents of the stream that the id names. |
| TsForeign.SliceIsTimed | src/ts_reader.cpp:667-730 | A coded slice whose unit has only a presentation time of 90t ticks below 2^30 comes out with both times t; with two stamps each is taken for what it is. |
| TsForeign.StampReadsIff | src/ts_reader.cpp:667-692 | A 33-bit time stamp of any encoder is read right if and only if it is below 2^30. |
| TsForeign.StuffedUnitIsLost | src/ts_reader.cpp:661-664 | A video unit with stuffing in its header yields nothing: the header length is read and not used. |
| TsForeign.OthersAreIgnored | src/ts_reader.cpp:595-626 | Units of streams without an optional header, and of others than audio and video, yield nothing. |
| TsDemux.TakeStamp | src/ts_reader.cpp:668-692 | The three fields of a stamp, the top one shifted by 29, are put together as specified. |
| TsDemux.OnH264Video | src/ts_reader.cpp:1067-1165 | The loop over NAL units dispatches slices and gathers parameter sets as specified. |
| TsForeign.UnitsComeOut | src/ts_reader.cpp:1107-1163 | Unit by unit: each slice is one frame, each picture parameter set behind another set gives a header of all sets so far, in order, and nothing else comes out. |
| TsForeign.TypeIsLowFive | src/ts_reader.cpp:1107-1163 | The type of a NAL unit is in the low five bits of its first byte. |
| ShortCodes.ShortCodesTakeAByte | src/ts_reader.cpp:1082-1106 | Of clean units behind start codes of four or three bytes each comes back, without its last byte where the next code is one of three bytes; so all come back whole if and only if there is none of those. |
| TsDemux.OnAudio | src/ts_reader.cpp:1283-1395 | The loop over ADTS frames announces and delivers each of them as specified. |
| TsForeign.AudioUnitIsRead | src/ts_reader.cpp:1283-1395 | A unit of any number of ADTS frames, with or without checksums, comes out frame by frame, each announced by its own configuration, the first one at the time of the unit. |
| TsForeign.AdtsSays | src/ts_reader.cpp:1301-1345 | An ADTS header of ISO/IEC 13818-7, with any profile, rate index and channels, is read field by field. |
| TsForeign.SpacingIsFixed | src/ts_reader.cpp:1383-1386 | Whatever the headers say, the frames of a unit are timed as frames of 1024 samples at 22050 Hz. |
| TsForeign.SecondIsOnTimeIff | src/ts_reader.cpp:1383-1386 | So of the thirteen standard rates the second frame of a unit is on time if and only if the rate is 22050 Hz. |
| TsDemux.Demuxer.CollectPES | src/ts_reader.cpp:1052-1056 | Contents are appended to what is collected on their PID. |
| TsRoundTrip.TimeSurvivesIff | src/ts_reader.cpp:667-692 | A time in milliseconds survives writing and reading a time stamp if and only if its clock ticks are below 2^30. |
| TsRoundTrip.FrameIsCollected | src/ts_reader.cpp:145-208 | The packets of a frame complete the unit before it on its PID and leave exactly its own unit pending. |
| TsRoundTrip.SegmentIsRead | src/ts_reader.cpp:125-208 | A fresh reader fed the two tables and any list of readable frames sees the events of each frame when the next one of its stream begins, and holds the last of each stream. |
| TsRoundTrip.StreamsDoNotMix | src/ts_reader.cpp:197-207 | Each stream's events are those of all its frames but the last, in order, however the other stream's frames are mixed in. |
| TsFrames.VideoFrameIsDelivered | src/ts_reader.cpp:1067-1165 | A video frame comes out behind a start code, followed by exactly the `Copied` surplus bytes (at most 8), a key frame behind a header of its parameter sets; its times are exact below 2^30 ticks. There must be no start code in the parameter sets, nor in the frame taken together with the surplus bytes behind it. |
| TsFrames.VideoFrameIsDeliveredIff | src/ts_reader.cpp:1082-1106 | For a frame of its type with parameter sets free of start codes, the condition is exact: it comes out if and only if there is no start code in frame and surplus together. |
| TsFrames.SurplusApart | src/ts_reader.cpp:1082-1106 | For a frame that does not end with a zero byte this is one condition on the frame and one on the surplus, each by itself. |
| TsFrames.ByteForByteIff | src/media_muxer.cpp:174-193 | A well-formed video frame comes out byte for byte if and only if it fills its last packet. |
| TsFrames.AudioFrameIsDelivered | src/ts_reader.cpp:1283-1395 | An audio frame with an ADTS header (no checksum) comes out byte for byte behind its tag, announced by its configuration; its time is exact below 2^30 ticks. |
| TsFrames.AudioPayloadComesBack | src/ts_reader.cpp:1372-1386 | Audio behind the two bytes of a raw AAC tag comes back as the whole payload that was sent. |
| TsFrames.VideoPayloadComesBack | src/ts_reader.cpp:1107-1163 | Video behind the four bytes of its length comes back behind a start code instead. |
| TsFrames.AudioConfigSurvivesIff | src/media_muxer.cpp:747-798 | The two configuration bytes come back out of the ADTS header if and only if the object type is 1 to 4, the channel configuration below 8 and the last three bits zero. |
| Delivery.EverySegmentIsDelivered | src/media_muxer.cpp:101-401 | For every run and every segment in the queue whose frames can survive: a fresh reader gets, per stream, every frame but the last with payload, PTS and DTS, in order, and holds the last one; and the segments hold the end of all arrivals. |
| Delivery.FrameIsPadded | src/media_muxer.cpp:174-193 | A reachable run with eight-byte video frames: the reader is handed the frame followed by six bytes from behind it in memory. |
| Delivery.SegmentsHoldArrivals | src/media_muxer.cpp:521-576 | In every run the frames in the queued segments, in order, are the end of everything that has arrived. |
| Delivery.HeaderIsRecovered | src/media_muxer.cpp:613-648 | The header that the reader gathers before a key frame gives the next muxer exactly the parameter sets that were packed, whatever sets it had before. |
| AnnexB.SplitsBack | src/ts_reader.cpp:1082-1106 | Splitting units joined behind four-byte start codes gives them back if and only if none contains a start code (the last may end with one) and the last is not empty. |
| AnnexB.Scan | src/ts_reader.cpp:1082-1106 | The scanner's positions and lengths cut out exactly the specified units, or a negative length where there is no such unit. |
| Hls.LastGopIsRetained | src/media_muxer.cpp:540-576 | In every run the video queue is the end of the arrivals and, once a key frame has arrived, contains the last one at the noted place, whatever has been evicted. |
| Hls.FastOutIsLastGop | src/media_muxer.cpp:801-826 | The fast start has all video from the last key frame on and, as long as the noted place is still queued, all audio from there; in order, and sorted by DTS if both streams are. |
| Hls.AudioPlaceIsNoted | src/media_muxer.cpp:550-551 | In every run the place noted for the audio is the number of audio frames that had arrived before the last key frame. |
| Hls.MergeSorts | src/media_muxer.cpp:801-826 | Merging two streams in order of time gives one in order of time. |
| HlsSegments.AudioGoesFirst | src/media_muxer.cpp:801-826 | Of frames with one time the audio goes out before the video. |
| Hls.PlaylistIsLive | src/media_muxer.cpp:47-99 | In every reachable state the playlist, once there is one, names the three segments before the one under way, with their durations, and all three are in the queue. |
| HlsSegments.PlaylistTellsDurations | src/media_muxer.cpp:47-99 | In every run the duration that the playlist gives a segment is the time from its first frame to its last one. |
| HlsSegments.SegmentsFollowKeyFrames | src/media_muxer.cpp:540-573 | In every run the number of the segment under way is the number of cuts that the key frames among the arrivals make, and as many segments are gone as key frames have been evicted. |
| HlsSegments.QueuesAreBounded | src/media_muxer.cpp:530-535 | As long as more than ten segments are queued, no queue grows beyond 799 frames or beyond what it had before. |
| HlsSegments.TwentySecondsAreEnough | src/media_muxer.cpp:561-573 | Nor does a queue grow that holds twenty times the frames of the current second. |
| HlsSegments.NothingEvictedEarly | src/media_muxer.cpp:561-573 | Below both bounds, and with up to ten segments, every frame is kept. |
| HlsSegments.FpsAreCounted | src/media_muxer.cpp:846-861 | The frames of the current second are those since the last tick but the first one. |
| Hls.SegmentsStartWithKeyFrames | src/media_muxer.cpp:540-573 | Every queued segment but the very first starts with a key frame. |
| Burst.BurstLosesAudio | src/media_muxer.cpp:521-538 | A run in which one audio frame too many is evicted and the fast start has none of the audio since the last key frame. |
| HlsPackets.CountersAdvance | src/media_muxer.h:60-106 | Over a whole run the packets of each of the four PIDs are numbered consecutively modulo 16, across frames, segments and evictions. |
| HlsPackets.PackingEmits | src/media_muxer.cpp:101-124 | Packing a frame appends its packets to the segment under way, behind the two tables if it is new, and moves the counters by as many. |
| MediaMuxer.MediaMuxer.PacketTs | src/media_muxer.cpp:101-401 | Opening a segment, packing a frame into it and updating its duration, in place, is the specified step on the queue and the counters. |
| MediaMuxer.MediaMuxer.MakePackets | src/media_muxer.cpp:126-400 | The packet loop terminates and appends exactly the specified packets to the segment. |
| MediaMuxer.MediaMuxer.PacketTsPat | src/media_muxer.cpp:403-454 | The kept table is made once and then only its counter patched; each copy is the specified one, and its checksum is right. |
| MediaMuxer.MediaMuxer.PacketTsPmt | src/media_muxer.cpp:456-519 | The same for the program map. |
| MediaMuxer.MediaMuxer.GetCounter | src/media_muxer.h:60-82 | The counter of a stream is returned and moves on modulo 16; the other one stays. |
| MediaMuxer.MediaMuxer.OnAudio | src/media_muxer.cpp:521-538 | Queueing, packing and evicting an audio frame in ordered maps is the specified step. |
| MediaMuxer.MediaMuxer.OnVideo | src/media_muxer.cpp:540-576 | The same for video, with the cut at a key frame and the segment that goes with an evicted one. |
| MediaMuxer.MediaMuxer.UpdateM3U8 | src/media_muxer.cpp:47-99 | The last three segments with their durations, found from the greatest key, once there are three. |
| MediaMuxer.MediaMuxer.GetFastOut | src/media_muxer.cpp:801-826 | The merging loop over both maps gives the specified fast start. |
| MediaMuxer.MediaMuxer.EveryNSecond | src/media_muxer.cpp:846-861 | The frame counters start over, except on the first call. |
| MediaMuxer.MediaMuxer.ReadVideoHeader | src/media_muxer.cpp:613-717 | A header in byte stream format with exactly two units sets both parameter sets, with another number of units it leaves them; any other header is read as a configuration record. |
| AvcRecord.TakeRecord | src/media_muxer.cpp:649-717 | Reading a configuration record field by field, on every byte string: the last complete unit of each list, the set from before where there is none, and zero for what is missing. |
| AvcRecord.RecordReadsBack | src/media_muxer.cpp:649-717 | From a record in the layout of ISO/IEC 14496-15 (section 5.3.3.1) with any number of parameter sets the last one of each kind comes out. |
| AvcRecord.CutUnitIsSkipped | src/media_muxer.cpp:689-717 | A unit that is cut off leaves the set from before. |
| MediaMuxer.MediaMuxer.ReadAudioHeader | src/media_muxer.cpp:747-798 | The ADTS header that the two configuration bytes give rise to. |
| MediaMuxer.MediaMuxer.GetTs | src/media_muxer.h:33-41 | The bytes of a queued segment, which are those of its packets, or nothing. |
| Publisher.EverySubscriberIsServed | src/media_publisher.cpp:6-57 | In every run of arrivals, headers, joins and leaves: whoever is live got an audio and then a video header before any frame, and since then a gap-free stretch of each stream. The video starts at what was the last key frame when it joined; the audio starts with what had arrived since that key frame if all of it was still queued then, and otherwise with what came next. Waiting and live sets are disjoint, and nobody waits once both headers are there. |
| Subscribers.EverySubscriberIsGreeted | src/media_publisher.cpp:6-57 | Told by the events alone: whoever has joined and not left is live exactly since both headers were there; it has been sent the metadata set last, whenever it joined or was let in, then the audio header and the video header that were set last when it went live, and behind them nothing but frames. |
| Subscribers.EveryLogIsGapFree | src/media_publisher.cpp:31-57 | Those frames are a gap-free end of all that arrived on each stream, the video from the last key frame before it went live, the audio from the frames since that key frame or from what came next. |
| Subscribers.MuxerIsGiven | src/rtmp_protocol.cpp:838-842 | The muxer has been given all frames that arrived, in order, and its configuration is what the headers so far say. |
| Subscribers.ByteStreamIsTakenIff | src/media_muxer.cpp:618-648 | A video header of clean units in byte stream format sets the parameter sets if there are two units, and neither otherwise. |
| Subscribers.RecordIsTaken | src/media_muxer.cpp:649-717 | A video header that is a configuration record sets the last parameter set of either kind. |
| Publisher.ParameterSetsSurvive | src/media_muxer.cpp:613-648 | A header joined from two clean parameter sets gives them back, whatever was known before. |
| MediaPublisher.MediaPublisher.AddSubscriber | src/media_publisher.cpp:6-22 | Adding to the live or the waiting set, with what is sent at once, is the specified step; a live subscriber is not added again. |
| MediaPublisher.MediaPublisher.OnNewSubscriber | src/media_publisher.cpp:31-57 | Metadata at once, then both headers and the fast start if both headers are there; otherwise the subscriber is pending. |
| MediaPublisher.MediaPublisher.RemoveSubscriber | src/media_publisher.cpp:24-29 | The subscriber is in neither set any more. |
| MediaPublisher.MediaPublisher.OnAudioHeader | src/media_muxer.cpp:720-745 | A first audio header lets in those who waited, with the state before the header is parsed; a repeated one does nothing. |
| MediaPublisher.MediaPublisher.OnVideoHeader | src/media_muxer.cpp:589-717 | The same for video. |
| MediaPublisher.MediaPublisher.OnFrame | src/rtmp_protocol.cpp:838-842 | A frame is packed and then sent to every live subscriber exactly once. |
| Mp4Tables.EverySampleIsFound | src/mp4_muxer.cpp:55-111 | For every arrival order, looking a sample up in the run-length chunk table, the chunk offsets and the sizes, as ISO/IEC 14496-12 sections 8.7.3 to 8.7.5 say, finds the range of the media data with exactly that sample's bytes. |
| Mp4Tables.StscExpands | src/mp4_muxer.cpp:1018-1045 | Expanding the run-length table gives back the number of samples of every chunk. |
| Mp4Layout.ChunksAreDivided | src/mp4_muxer.cpp:87-111 | In every run chunks are of one kind and at most a mebibyte, unless they have one sample, and none could have taken in the first sample of the next one. |
| Mp4File.FileServesEverySample | src/mp4_muxer.cpp:130-155 | The same through the bytes of the file: a reader that parses the boxes, finds the track, decodes its three tables and follows them gets each arrived sample; for files below 2^32 bytes and boxes whose fixed parts are well formed. |
| Mp4Run.RunWritesBatches | src/mp4_muxer.cpp:65-85 | Over a whole run of arrivals the muxer's state is that of the samples since the last key frame, and its files are those of the batches before, one each. |
| Mp4Run.BatchesTile | src/mp4_muxer.cpp:65-85 | The batches and the samples still open are, one behind the other, everything that has arrived; no batch is empty, and every one but the first starts with a key frame. |
| Mp4Run.EveryFileServesItsSamples | src/mp4_muxer.cpp:65-155 | In every run a reader of each file's bytes gets each sample of either track that arrived since the file before it; for files below 2^32 bytes. |
| Mp4File.FileTellsTimesIff | src/mp4_muxer.cpp:916-988 | A reader of a file's bytes finds the composition offset of every video sample, but the decoding times of a track if and only if it has at most one sample, or three of which the first two have one time and the third another. |
| Mp4Times.SttsTellsTimesIff | src/mp4_muxer.cpp:937-954 | The decoding time table, looked up as ISO/IEC 14496-12 (section 8.6.1.2) says, lists every sample at its distance from the first one exactly in these cases, for every list of times. |
| Mp4Times.SteadyFrames | src/mp4_muxer.cpp:937-954 | For frames at 0, 40 and 80 ms the table lists two samples, the second at the time of the first. |
| Mp4Times.CttsTellsOffsets | src/mp4_muxer.cpp:975-985 | The composition offset table gives every sample its offset. |
| Mp4File.FileParses | src/mp4_muxer.cpp:223-236 | The file parses into its tree of boxes, every size field equal to the extent of its box, the children tiling their parent. |
| Mp4Layout.TablesAreHeaded | src/mp4_muxer.cpp:990-1109 | Version and flags of the tables are zero, and every run of chunks uses the only sample description. |
| Mp4Layout.FileBoxesAreSpelled | src/mp4_muxer.cpp:916-1109 | The box types that writer and reader share are the names of ISO/IEC 14496-12. |
| Boxes.ParseRoundTrip | src/mp4_muxer.cpp:9-14 | Every forest of well-formed boxes is the result of parsing its serialisation. |
| BoxWriter.WriteBox | src/mp4_muxer.cpp:9-14 | Writing a tree with placeholders for the sizes and patching them afterwards appends exactly its serialisation. |
| BoxWriter.EndBox | src/mp4_muxer.cpp:9-14 | Patching the size of the box just written completes its serialisation and changes nothing before it. |
| Mp4Muxer.Muxer4.OnAudio | src/mp4_muxer.cpp:55-63 | Filing an audio sample, in place, is the specified step. |
| Mp4Muxer.Muxer4.OnVideo | src/mp4_muxer.cpp:65-85 | A key frame that follows samples writes the file of all of them and starts over; the video sample is then filed. The file has the source's 10 MiB of room for everything but the media data. |
| Mp4Muxer.Muxer4.CalChunk | src/mp4_muxer.cpp:87-111 | The chunk list and the offsets, updated in place, are the specified ones. |
| Mp4Muxer.Muxer4.Flush | src/mp4_muxer.cpp:130-155 | The written buffer is the specified file, or nothing without samples. |
| Mp4Muxer.Muxer4.WriteMediaDataBox | src/mp4_muxer.cpp:253-266 | The media data box, and its offset in the file. |
| Mp4Muxer.Muxer4.SampleToChunk | src/mp4_muxer.cpp:1010-1048 | The run-length loop with its entry count counted down and patched at the end gives the specified table. |
| Mp4Muxer.Muxer4.DecodingTimes | src/mp4_muxer.cpp:916-959 | The loop over times with its running count, its entry count counted down and patched at the end gives the specified table. |
| Mp4Muxer.Muxer4.CompositionTimes | src/mp4_muxer.cpp:961-988 | One entry with the 32-bit offset for each video sample. |
| Mp4Muxer.Muxer4.ChunkOffsets | src/mp4_muxer.cpp:1051-1076 | The chunk offsets, shifted by the place of the media data. |
| Mp4Muxer.Muxer4.SampleSizes | src/mp4_muxer.cpp:1078-1109 | The sizes of the stored samples. |
| DashSegment.SegmentServesEverySample | src/dash_muxer.cpp:583-647 | In the bytes of every segment below 2^32 bytes, a reader that follows moof, traf, trun and the data offset (ISO/IEC 14496-12 section 8.8.8) finds each counted sample. |
| DashSegment.SizesTileTheBody | src/dash_muxer.cpp:583-647 | The sizes in the run add up to the length of the counted samples' bytes. |
| DashSegment.SegmentReads | src/dash_muxer.cpp:477-530 | Reading a segment gives its decode time and its run, with the data offset pointing at the first byte of the body. |
| DashTimeline.SegmentTellsTimes | src/dash_muxer.cpp:583-674 | Following decode time, durations and composition offsets in the bytes of a segment, a player decodes and shows each sample at its own times, on a 32-bit clock. |
| DashLayout.HeadsAreRead | src/dash_muxer.cpp:477-647 | In the bytes of a segment: the fragment's number, track 1 with addresses that count from the fragment, and a run with exactly the fields that it lists. |
| DashLayout.BrandsAreRead | src/dash_muxer.cpp:384-407 | The brands that a segment names. |
| DashLayout.IndexIsShort | src/dash_muxer.cpp:409-475 | The index gives the size of the media data alone, where the standard counts everything behind the index, and no duration. |
| DashFragments.EverySampleOnce | src/dash_muxer.cpp:113-132 | For every run the samples counted in the fragments of a track, followed by the held ones, are the samples that arrived, each once and in order. |
| DashFragments.FragmentsTile | src/dash_muxer.cpp:583-674 | Each fragment's decode time plus its durations is the start of the next fragment, or of the held samples, as a 32-bit clock shows it. |
| DashFragments.FragmentsStartWithKeyFrames | src/dash_muxer.cpp:119-132 | Every video fragment closes with a key frame, and every one after the first starts with one. |
| DashTimeline.FragmentIsCutIff | src/dash_muxer.cpp:113-273 | In every run a sample cuts exactly one video fragment, of all that is held and itself, if and only if it is a key frame whose distance to the first held sample is at least 5000 and below 2^31 modulo 2^32; an audio fragment goes with it if and only if two audio samples are held. |
| DashTimeline.EntriesTile | src/dash_muxer.cpp:218-266 | In every run the entry of each fragment starts with the decode time of its segment, and ends, by its own duration and by the durations in the segment, where the next fragment or the held samples begin. |
| DashTimeline.ManifestNamesLatest | src/dash_muxer.cpp:290-333 | There is a manifest if and only if both tracks have three fragments, and it has the entries of the latest three. |
| DashTimeline.VideoEntriesAreLong | src/dash_muxer.cpp:175-183 | Every video entry is at least five seconds long. |
| DashManifest.AlwaysFaithful | src/dash_muxer.cpp:275-288 | In every run the media data of a track is the concatenation of the bytes of its held samples, through every reset. |
| DashManifest.SegmentReadsBack | src/dash_muxer.cpp:583-647 | Every counted sample of every written fragment is found in its segment. |
| DashManifest.WrittenFragmentIsServed | src/dash_muxer.cpp:147-163 | A fragment that has just been written is served under its start time, in every run. |
| DashManifest.ManifestIsServed | src/dash_muxer.cpp:290-333 | With start times of a track strictly increasing below 2^32, each segment that the manifest names is that of one of the latest three fragments, and is served. |
| DashManifest.RisingInputIsServed | src/dash_muxer.cpp:290-333 | The same from a condition on the input: the first sample and then all key frames (or audio samples) come in strictly increasing order of time below 2^32. |
| DashManifest.NamedSegmentServesSamples | src/dash_muxer.cpp:147-163 | Under that condition, what is served under a start time that the manifest names is a segment in whose bytes a reader finds each counted sample of the fragment. |
| DashManifest.EvictsOldest | src/dash_muxer.cpp:175-273 | Eviction from a full cache takes out exactly the oldest segment. |
| DashMuxer.WriteSegment | src/dash_muxer.cpp:175-273 | The buffer with its patched sizes and data offset is the specified segment; the run table fits the source's 128 KiB of room. |
| DashMuxer.WriteRun | src/dash_muxer.cpp:583-647 | The run box with its data offset patched once its length is known. |
| DashMuxer.LiveMuxer.OnAudio | src/dash_muxer.cpp:113-117 | Holding an audio sample, in place, is the specified step. |
| DashMuxer.LiveMuxer.OnVideo | src/dash_muxer.cpp:119-132 | Closing a fragment at a key frame and holding the video sample, in place, is the specified step. |
| DashMuxer.LiveMuxer.Flush | src/dash_muxer.cpp:175-273 | Below five seconds nothing happens; otherwise both tracks' segments go into the caches, audio only if it has more than one sample. |
| DashMuxer.LiveMuxer.Reset | src/dash_muxer.cpp:275-288 | Each track keeps its last sample, and audio its last sample's bytes. |
| DashMuxer.LiveMuxer.UpdateMpd | src/dash_muxer.cpp:290-333 | The manifest names the latest three segments of both tracks once both have three. |
| DashMuxer.LiveMuxer.GetM4s | src/dash_muxer.cpp:147-163 | The segment under a start time, or nothing. |
| Amf0.RoundTripsIff | src/amf_0.cpp:15-32 | Encoding a list of nested values succeeds and decoding it gives the same values without failure (integers as doubles, null as nothing, ECMA arrays as maps) if and only if no string or key is longer than 65535 bytes and there is no vector and no ECMA array, at any depth. |
| Amf0.ValueBack | src/amf_0.cpp:307-332 | The same for one value with any bytes behind it, of which none is consumed; an ECMA array without entries comes back but leaves its empty key unread. |
| Amf0.VectorInMapIsLost | src/amf_0.cpp:320-323 | A vector inside a map is lost although the encoder reports success. |
| Amf0.EcmaArrayIsLost | src/amf_0.cpp:414-449 | Not even an ECMA array without entries survives, although the encoder reports success. |
| Amf0.EncodeValue | src/amf_0.cpp:307-332 | The recursive encoder appends the specified bytes to a growing buffer and reports what the specification says. |
| Amf0.EncodeEntries | src/amf_0.cpp:380-449 | The loop over the entries of a map or an ECMA array stops at the first one that fails. |
| Amf0.EncodeCommand | src/amf_0.cpp:15-32 | The loop over a list of values stops at the first one that fails. |
| Amf0.DecodeCommand | src/amf_0.cpp:58-74 | On every byte string the decoder terminates, gives the values that could be decoded, and fails if one could not. |
| Amf0.ReadValue | src/amf_0.cpp:76-115 | One value behind its marker, moving the cursor exactly as specified, also when it fails. |
| AmfLayout.LaidIsRead | src/amf_0.cpp:76-305 | Every value laid out as the AMF0 specification says - booleans and counted arrays too, which the encoder does not write - is read as it is meant, with whatever is behind it left. |
| AmfLayout.ArrayIsRead | src/amf_0.cpp:226-296 | Of an ECMA array exactly as many pairs are read as it counts, and the rest of it is left; its end marker ends it only when the count is larger. |
| AmfLayout.CommandIsRead | src/amf_0.cpp:58-74 | A command of such values is read value by value, without a failure. |
| AmfLayout.CompleteArrayFails | src/amf_0.cpp:226-296 | An array with the right count and an end marker comes out right, but the command fails on the end marker that is left. |
| Amf0.ReadEntries | src/amf_0.cpp:174-296 | The entries of an object or an ECMA array, up to the end marker, the count, or the point where fewer than two bytes are left. |
| Crc.TableStep | src/crc32.cpp:118-134 | One step with the table is eight steps of bit-serial division, in both forms. |
| Crc.Crc32.GetCrc32 | src/crc32.cpp:118-134 | The table-driven checksum of every byte string is the bit-serial one. |
| Crc.MakeHlsTable | src/crc32.cpp:103-116 | Every entry of the HLS table is the division of its byte. |
| Crc.HlsEntry | src/crc32.cpp:103-116 | The loop that stops when its marker reaches bit 31 runs exactly eight times, for every byte, and divides it. |
| Crc.MakeStunTable | src/crc32.cpp:61-80 | Every entry of the STUN table is the division of its byte. |
| Crc.BurstDetected | src/crc32.cpp:118-134 | Strings of equal length that differ only within four consecutive bytes have different checksums, in both forms. |
| Crc.SingleByteDetected | src/crc32.cpp:118-134 | In particular when they differ in exactly one byte. |
| Crc.SectionChecksItself | src/crc32.cpp:118-134 | An HLS section followed by its own big-endian checksum leaves the register at zero. |
| CrcCheck.CheckValues | src/crc32.cpp:61-134 | The checksums of the digits 1 to 9 are the published check values of CRC-32/MPEG-2 and CRC-32/ISO-HDLC. |
| IoBuffer.IoBuffer.Write | common/io_buffer.cpp:105-115 | The bytes are queued behind the others, through any growth. |
| IoBuffer.IoBuffer.MakeSpaceIfNeed | common/io_buffer.cpp:192-222 | There is room for the bytes asked for and the contents are the same; a reallocation at least doubles the buffer. |
| IoBuffer.IoBuffer.Size | common/io_buffer.h:53-67 | The number of queued bytes; an empty buffer starts over, and a large one is given back, without touching what is queued. |
| IoBuffer.IoBuffer.WriteU24 | common/io_buffer.cpp:137-148 | The last three bytes of the four-byte form are the three-byte form. |
| IoBuffer.IoBuffer.Read | common/io_buffer.cpp:243-260 | What is taken, followed by what is left, is what was queued; as much as asked for or everything. |
| IoBuffer.IoBuffer.ReadNumber | common/io_buffer.cpp:262-326 | The front bytes as a big-endian number, or a refusal that takes nothing. |
| IoBuffer.IoBuffer.Peek | common/io_buffer.cpp:328-338 | The bytes asked for, or a refusal; nothing is taken. |
| IoBuffer.IoBuffer.Skip | common/io_buffer.cpp:414-423 | Bytes that are there are dropped; a skip beyond them leaves the read position that much past the end. |
| IoBuffer.IoBuffer.WriteToFd | common/io_buffer.cpp:87-99 | What the descriptor took, followed by what is left, is what was queued. |
| IoBuffer.NumbersComeBack | common/io_buffer.cpp:117-179 | A number written by any of the writers is read back, and what is behind it stays. |
| TcpSocket.OrderedIff | common/tcp_socket.cpp:122-146 | For every schedule of sends and writable events, bytes on the wire followed by buffered bytes are the concatenation of everything sent if and only if no direct write of a non-empty piece failed. |
| TcpSocket.FailedWriteLosesData | common/tcp_socket.cpp:132-137 | A schedule in which a failed write loses its data although the next send goes out. |
| TcpSocket.WaitsWhileBuffered | common/tcp_socket.cpp:81-146 | The socket is registered for writability exactly as long as something is buffered. |
| TcpSocket.WireIsWhatWasTaken | common/tcp_socket.cpp:81-146 | What is on the wire is as much as the kernel has taken, by direct writes while nothing was buffered and by writable events. |
| TcpSocket.BufferDrains | common/tcp_socket.cpp:81-97 | Writable events move the buffer to the wire from its front, by exactly the bytes that the kernel takes; once these are all of it, everything has gone out and the socket waits no longer. |
| TcpSocket.TcpSocket.Send | common/tcp_socket.cpp:122-146 | Direct write, buffered remainder and write interest, in place, are the specified step; other descriptors' registrations stay. |
| TcpSocket.TcpSocket.OnWrite | common/tcp_socket.cpp:81-97 | The buffer is written on, and write interest dropped when it is empty. |
| TcpSocket.TcpSocket.Enable | common/fd.cpp:28-66 | The loop's registered mask is the descriptor's own afterwards, added or modified as needed, and neither call can fail; other descriptors stay. |
| TcpSocket.TcpSocket.Disable | common/fd.cpp:68-104 | The same, with the registration removed with the last interest. |
| BitIO.BitStream.WriteBits | src/bit_stream.h:26-45 | ORing bits into the zeroed rest of the buffer appends the low bits of the number, or refuses and changes nothing. |
| BitIO.BitStream.WriteBytes | src/bit_stream.h:79-90 | The low bytes of the number are appended, most significant first. |
| BitIO.BitStream.ModifyBytes | src/bit_stream.h:64-77 | Bytes that were written before are replaced, and nothing else; a position not yet written is refused, and what runs past the write position lands in the unwritten part of the buffer. |
| BitIO.BitBuffer.GetBits | src/bit_buffer.h:48-77 | The next bits as a number, or a refusal that stays in place. |
| BitIO.FieldReadsBack | src/bit_buffer.h:48-77 | What was written as a field of any width anywhere in a byte string is read back there, reduced to its width. |
| BitFields.FieldIsArithmetic | src/bit_buffer.h:48-77 | A bit field is division and remainder of the big-endian number of the bytes around it. |

## Findings

The proofs turned up inputs on which the code does not do what one would expect of it. Each is a lemma with a concrete
input, a lemma about all inputs of a kind, or the negative half of an if-and-only-if.

- `RtmpClock.ReplyTurnsClockBack`, `RtmpClock.ClockIsRunningSumIff`: a format 0 chunk leaves the receiver's remembered
  delta alone, and the delta is added all the same, so that a command reply in the middle of a stream turns the clock
  of its csid back or forward.
- `RtmpClock.LateJoinIsEarly`, `RtmpClock.PlayerSeesDecodingTimesIff`: a codec header resets the sender's timestamp to
  zero, so that the first frame after it carries its whole decoding time as a delta, of which 24 bits go out.
- `TsRoundTrip.TimeSurvivesIff`: the reader shifts the top three bits of a time stamp by 29 instead of 30, so that no
  time from 2^30 ticks on survives.
- `TsFrames.AudioConfigSurvivesIff`: an audio configuration with an object type of 5 or more, or with eight or more
  channels, comes back as another one.
- `TsPackets.NothingCopiedIff`, `TsFrames.ByteForByteIff`, `Delivery.FrameIsPadded`: unless a video frame happens to fill
  its last packet, that packet is filled up from behind the frame, as a rule with six bytes; a reader takes them for a part
  of the frame.
- `Burst.BurstLosesAudio`: the fast start gives up on all audio as soon as one audio frame since the last key frame has
  been evicted.
- `Mp4Times.SttsTellsTimesIff`, `Mp4Times.SteadyFrames`: the decoding time table of an MP4 file starts with an entry
  without a delta, gives the count of merged samples to the entry behind them and does not move its clock over them, so
  that no track of two samples, or of more than three, is timed correctly.
- `Amf0.VectorInMapIsLost`: the encoder overwrites the failure of a map's entry with the success of its end marker.
- `Amf0.EcmaArrayIsLost`, `Amf0.RoundTripsIff`: the encoder gives every ECMA array a count of zero, which the decoder
  believes, and no end marker.
- `TcpSocket.FailedWriteLosesData`: a direct write that returns zero or an error drops its data, and the stream goes on
  with a gap.
- `RtmpReceiver.ThreeByteFormIff`, `RtmpReceiver.ThreeByteFormIsSwapped`: the reader of basic headers takes the three-byte
  form as big-endian, which RTMP 1.0 (section 5.3.1.1) has the other way round.
- `RtmpForeign.ExtendedTimeIsTakenForBody`: the receiver does not know extended timestamps and takes them for the body.
- `RtmpForeign.TypesOfTheStandard`: an Abort or Aggregate message, a shared object or an AMF3 command closes the connection.
- `AmfLayout.CompleteArrayFails`: an ECMA array that has the right count and, as the specification wants it, an end marker
  makes the decoding of its command report a failure.
- `ShortCodes.ShortCodesTakeAByte`: the scanner takes start codes of three bytes for ones of four and cuts off the last byte
  of the unit before.
- `TsForeign.StuffedUnitIsLost`: the reader does not skip the stuffing of a unit's header, and a video frame behind it is
  lost.
- `TsForeign.SecondIsOnTimeIff`: several audio frames in one unit are spaced for 22050 Hz, whatever their rate.
- `TsForeignMap.MapIsReadIff`: on a program map with descriptors of its own the reader counts too far, takes the checksum for
  an entry and fails.
- `TsForeignPacket.PatIsReadIff`: a program behind the network's entry is not found.
- `TsLayout.VideoIsLaidOut`: the muxer marks both time stamps of a video unit as a presentation time that stands alone.
- `DashLayout.IndexIsShort`: the segment index gives the size of the media data alone and no duration.

## Left out

- RtmpReceiver.ReceivingEnd.OnRtmpMessage: the handlers of commands, audio and video are a parameter that accepts or
  refuses each message; what they do beyond that is not modelled.
- RtmpRoundTrip.RoundTrip: message stream ids are not part of what is compared.
- TsDemux.ParseAdaptation: adaptation fields with optional parts other than a clock reference have no result.
- TsDemux.ReadPes: units with PES flags beyond the time stamps and HEVC video (stream type 0x24) have no result.
- TsDemux.Demuxer.ParsePES: the same units.
- TsDemux.Demuxer.ParsePMT: has no result where the source reads past the end of a section shorter than 12 bytes, or
  loops for ever at the end of the packet.
- TsDemux.Demuxer.ParsePAT: has no result where the source reads past the end of a section shorter than 16 bytes.
- MediaMuxer.MediaMuxer.MakePackets: SRT subscribers, who are sent each packet from inside the loop, are not modelled.
- MediaMuxer.MediaMuxer.UpdateM3U8: the text of the playlist is not modelled, only the names and durations in it, which
  are whole milliseconds where the source uses doubles.
- DashMuxer.LiveMuxer.UpdateMpd: the text of the manifest is not modelled, only the start times and durations in it.
- Mp4Muxer.Muxer4.OnVideo: assumes that everything but the media data fits the 10 MiB that the source allocates for it.
- Mp4Muxer.Muxer4.Flush: makes the same assumption, and the bodies of the boxes that describe a track as a whole are
  arbitrary. Only the form that is not a DASH segment is modelled.
- DashMuxer.WriteSegment: assumes that the run table fits the 128 KiB that the source allocates for it.
- DashMuxer.LiveMuxer.OnVideo: makes the same assumption.
- DashMuxer.LiveMuxer.Flush: makes the same assumption.
- Handshake, HMAC and Diffie-Hellman: the receiver starts after the handshake.
- A message body is kept in a sequence that grows; the source allocates it once, so that a header which changes the
  length in the middle of a message writes out of bounds there. Sums of lengths near 2^32 are not wrapped on the sender.
- Extended timestamps, two- and three-byte basic headers on the sending side: the sender does not write them.
- Audio and video messages of fewer than two bytes: the source asserts.
- Epoll, timers, socket options, SSL, UDP and SRT sockets, logging and dump files. A write is the number of bytes that
  the kernel took. What a handler does on a write error is not modelled.
- WebRTC, DTLS, SRTP, STUN and SCTP, HTTP and WebSocket framing, and the static SCTP table of the CRC.
- Decoding times wrap at 2^64 in products with 90 and 27000000 in the source; here they do not wrap.
- Audio times inside a packet are exact fractions, where the source uses doubles.
- The memory behind a frame is an arbitrary tail of at least nine bytes.
- A second key frame right after a first one with frame number 0 does not cut a segment in the source, nor here.
- A chunk's duration and start time in MP4 are not kept. The model starts at `Reset`.
- DASH: the init segment, and the wrap of the sequence number after 2^32 segments. Looking up a
  segment in an empty map reads past its end in the source and gives nothing here.
- The decoder of an AMF0 ECMA array whose count exceeds its bytes spins on to its count in the source; here it stops at
  once, with the same result. The conversion of an integer to a double is a parameter of the AMF0 lemmas.
- The early return of the CRC tables when they have been made before.
- Reference counting of payloads: they are immutable values.
