# Verified model of the streaming core

This project models the parts of the repository in which state, loops and bytes are hardest to get right, and proves
what they promise for every input, every run and every interleaving. Each module is one file.

**RTP, H.265 and H.264.** `Avcc` holds the length-prefixed lists of NAL units that everything starts from.
`H265Payloader` is the packetiser, `H265Receiver` a receiver that follows RFC 7798 (sections 4.4.1 to 4.4.3) and is
independent of the code, `H265Depay` the reassembler with its captured variables, `H265RoundTrip` the two put together,
with marker bits and 16-bit sequence numbers, `H265Loss` what happens to any packets under loss, duplication and
reordering, and `H265Arrivals` what happens to those that the packetiser sent. `H264Payloader` carries `stapANalu`
across calls, and `H264Receiver` is a receiver for RFC 6184 (sections 5.6, 5.7.1 and 5.8). `Aggregates` is the unit list
that both standards use in aggregation packets.

**Bits.** `Bits` is a plain sequence of bits and the reading of it; `BitIO` the byte-and-offset reader and writer that
refine it; `Golomb` the codes of section 9.1 of ITU-T H.264; `Aac` fields and the AudioSpecificConfig of ISO/IEC 14496-3;
`Sps` the parser of section 7.3.2.1.1 of ITU-T H.264, `SpsSyntax` that section written as an encoder, which the parser
undoes, and `SpsFix` the second walk that patches one bit in place. Bytes are numbers from 0 to 255 and bit operations
are written as arithmetic; `BitOps` proves over bit vectors that they are the operations of the source.

**Containers and byte streams.** `IsoWriter` has the stack of open atoms and the patched sizes, `IsoReader` the
recursive, flattening parser, `IsoRoundTrip` the two put together, and `IsoTracks` the atoms with a layout of their own:
tracks, sample entries, track runs. `AnnexB` converts start codes to lengths in its own buffer. `HapConn` is the
encrypted framing, over any cipher that decrypts what it encrypted. `Dvrip` reassembles packets from chunks,
`ReadBuffer` replays a probe, `RingLog` is the log's ring of chunks.

**Streams.** `Producer` has the states of a producer, its connection, and the workers and timers that outlive a stop.
`Streams` is a stream as a machine whose state contains the calls in flight and whose steps are single accesses to
shared state; its producers go through the events of `Producer`. `StreamCalls` has the loops of AddConsumer,
RemoveConsumer and stopProducers as the source writes them, proved to be runs of that machine. `StreamTraces` says what
a call gets done in any run: every media is offered to every producer, and every producer that matched is started.
`CodecChange` is one run, step by step. `Nodes` and `Reconnect` are the graph of receivers and senders on the heap, and
`Sender` is the bounded queue with its draining goroutine.

**Detections.** `Nms` is non-maximum suppression over intersection over union, in real numbers.

An operation that the source writes with fields and loops is a class or a method here, proved equal to a function of
its inputs or of its old state; the properties are lemmas about those functions. `Bytes`, `Lists` and `Wrappers` are
shared.

Where the proofs disagree with what one might expect of the code:

- RTPPay leaves SkipAggregation unset, and RTPDepay does not unpack aggregation packets. An access unit therefore comes
  back through the two if and only if no two neighbours in it could share an aggregation packet
  (`H265RoundTrip.RoundTripExactly`; `H265RoundTrip.AggregateIsNotUnpacked` is an input on which it does not). A receiver
  that follows the RFC gets the units back for both settings.
- An aggregation packet can be two bytes longer than the mtu (`H265Receiver.AggregatedSizes` says exactly when,
  `H265Receiver.AggregationExceedsMtu` gives an input).
- An end fragment without its begin can put an index of the H.265 reassembler out of range (`H265Loss.PanicExactly`,
  `H265Loss.StaleStartPanics`). The packetiser's own packets cannot, whichever of them arrive
  (`H265Arrivals.StreamUnderLoss`).
- A NAL length field of 0xFFFFFFFC or more wraps in uint32 and makes EmitNalus panic (`Avcc.EmitNalus` says exactly when,
  `Avcc.LargeLengthPanics` gives an input).
- A held group of H.264 parameter sets that is longer than the mtu is lost as a whole (`H264Receiver.ManyCalls` says
  exactly when).
- The header of an H.264 aggregation packet is always 0x78, so its F bit is the OR of the F bits of its units only if none
  is set, and its NRI their maximum only if some unit has NRI 3 (`H264Receiver.CallsFollow`).
- A NAL unit whose type is not 1, 5, 7 or 8 is merged into the one before it (`AnnexB.AnnexBToAvcc` says exactly when).
- ue(v) of 2^32 - 1 is misread (`Golomb.UELargestIsMisread`).
- Closing a receiver with three or more senders leaves every second one attached (`Nodes.Node.CloseRoot`).
- The height of a cropped picture is too large when its chroma is 4:2:0 and frame_mbs_only_flag is 0, as in interlaced
  video, and too small when neither holds (`SpsSyntax.HeightExactly`; `SpsSyntax.InterlacedIsTooTall` is such a picture;
  `SpsSyntax.WidthExactly` does the same for the width).
- An AAC track written with a sampling rate of 2^16 or more, such as 88200 and 96000, is read with the rate modulo 2^16,
  and one with 255 or more bytes of configuration without all of it, or not at all (`IsoTracks.AudioDecoded`).
- A whole DVRIP packet shorter than 16 bytes waits for more of the stream (`Dvrip.PacketsOfFlat`, and
  `Dvrip.ShortPacketWaits` for an input).
- A movie fragment counts its data offset from the start of the movie but sets default-base-is-moof, so the offset is
  right only on an empty movie (`IsoRoundTrip.FragmentRoundTrip`).
- A reconnect stops the old connection, which closes its receivers, also those that no media of the new connection
  replaced; a producer can lose its last sender that way and run on with nobody listening
  (`Streams.NoIdleProducer` and `Streams.SwapLeaves` say exactly when, `CodecChange.CodecChangeIdles` is such a run;
  `Streams.CallHeals` says that the next call puts it right).
- A Read that overflows the probe buffer loses the bytes it was given (`ReadBuffer.OverflowLoses`).

## Model

| member | source | states |
|---|---|---|
| `Avcc.JoinNALU` | pkg/h264/avcc.go:31-51 | fills a fresh buffer, slice by slice, with exactly the length-prefixed concatenation of the NAL units |
| `Avcc.SplitNALU` | pkg/h264/avcc.go:53-69 | the slices of the input it returns, or an index out of range, as the recursive definition Split says |
| `Avcc.EmitNalus` | pkg/h264/payloader.go:67-83 | in AVC mode, on any data below 2^32 bytes: the units emitted, up to the first length that does not fit, and the panic exactly when a length field of 0xFFFFFFFC or more wraps in uint32 |
| `Avcc.LargeLengthPanics` | pkg/h264/payloader.go:74-78 | four bytes FF FF FF FC make it panic |
| `Avcc.JoinWalkable` | pkg/h264/payloader.go:67-83 | a joined list below 2^32 bytes never makes the walk panic |
| `Avcc.AvcNalsOfJoin` | pkg/h264/payloader.go:67-80 | walking a joined list gives back its non-empty units, whatever they contain |
| `Avcc.AvcNalsCover` | pkg/h264/payloader.go:67-83 | on any bytes at all, the units emitted before the walk ends or panics are, with their lengths, a prefix of the input, and no further whole unit follows them |
| `Avcc.JoinInjective` | pkg/h264/avcc.go:31-51 | different lists of non-empty units never join to the same bytes |
| `Avcc.SplitConcatenates` | pkg/h264/avcc.go:53-69 | the pieces of any input that splits concatenate to the input |
| `Avcc.SplitOfJoin` | pkg/h264/avcc.go:53-69 | splitting a joined list recovers its units, each with its length in front |
| `H265Payloader.Payloader.Payload` | pkg/h265/payloader.go:129-301 | for every mtu and every input in AVC form on which no index is out of range, with aggregation on or off, the payloads are those of the recursive specification |
| `H265Payloader.Payloader.OnNalu` | pkg/h265/payloader.go:208-296 | one unit: what the callback appends, which units stay buffered and their size, over the variables the closure captures |
| `H265Payloader.Payloader.Fragment` | pkg/h265/payloader.go:248-294 | the shrinking loop emits exactly the fragments of the unit: first piece with S, last with E, the pieces in order |
| `H265Payloader.Payloader.FlushBufferedNals` | pkg/h265/payloader.go:138-206 | no buffered unit, one as it is, or several as one aggregation packet |
| `H265Payloader.Payloader.AggregateUnits` | pkg/h265/payloader.go:166-201 | the copy loop fills an array of the size that was kept along the way, plus two, with the header and the length-prefixed units, all of it and nothing past it |
| `H265Payloader.Payloader.FillUnit` | pkg/h265/payloader.go:197-199 | one turn of that loop: length and unit behind what is there |
| `H265Payloader.HeadersIndexable` | pkg/h265/payloader.go:129-301 | units of two bytes or more, at an mtu above 3, never put an index out of range |
| `H265Payloader.Payloader.LowestIds` | pkg/h265/payloader.go:170-182 | the loop finds the lowest layer id and temporal id of the buffered units |
| `H265Payloader.LeastIsLeast` | pkg/h265/payloader.go:170-182 | the value found is a lower bound of all ids and one of them (section 4.4.2 of RFC 7798) |
| `H265Payloader.AggregateHeader` | pkg/h265/payloader.go:184-184 | read with the header accessors, an aggregation packet has type 48 and the lowest layer and temporal ids of its units |
| `H265Payloader.TypeIsInTheFirstByte` | pkg/h265/payloader.go:35-50 | the type accessor on the 16-bit header is the six bits of its first byte |
| `H265Receiver.RfcRoundTrip` | pkg/h265/payloader.go:129-301 | a receiver that follows sections 4.4.1 to 4.4.3 of RFC 7798 recovers, from all the payloads, exactly the NAL units in order, with aggregation on or off |
| `H265Receiver.ReceiveFragments` | pkg/h265/payloader.go:248-294 | the fragments of one unit, received in order, are that unit with its header restored from payload header and FU header |
| `H265Receiver.ReceiveStep` | pkg/h265/payloader.go:208-296 | each unit handed to the callback is received now or still buffered, never lost and never out of order |
| `H265Receiver.PayloadSizes` | pkg/h265/payloader.go:208-294 | with aggregation off every payload fits the mtu |
| `H265Receiver.PacketsAreFull` | pkg/h265/payloader.go:213-294 | a unit that fits the mtu travels whole; of one that does not, every packet but the last is exactly as long as the mtu |
| `H265Receiver.BundlesAreGreedy` | pkg/h265/payloader.go:213-229 | no aggregation packet leaves while the unit that opens the next one could still have joined it |
| `H265Receiver.AggregatedSizes` | pkg/h265/payloader.go:138-294 | with aggregation on, for any units and mtu, every payload fits the mtu if and only if no group of several units that is flushed together has a buffered size above mtu - 2; mtu + 2 always holds |
| `H265Receiver.EmitIsSent` | pkg/h265/payloader.go:138-296 | the payloads are those of the groups the units are bundled into, in order |
| `H265Receiver.AggregationExceedsMtu` | pkg/h265/payloader.go:217-225 | the bound is reached: two three-byte units at an mtu of ten give one payload, of twelve bytes |
| `Aggregates.UnitsInOrder` | pkg/h265/payloader.go:197-199 | the size in front of an aggregated unit has its high byte first |
| `H265Depay.Depay.Handle` | pkg/h265/rtp.go:19-114 | one arriving packet changes buf, nuStart and seqNum, and hands on a unit, as the step function says; an index out of range is an outcome |
| `H265Depay.Depay.HandleFragment` | pkg/h265/rtp.go:48-94 | the four cases of the S and E bits, with the length field patched in place at nuStart |
| `H265Depay.FeedConcat` | pkg/h265/rtp.go:19-114 | feeding two batches of packets one after the other is feeding their concatenation |
| `H265RoundTrip.Pay.constructor` | pkg/h265/rtp.go:117-124 | an mtu of 0 means 1472, and the RTP header size is taken off in 16-bit arithmetic |
| `H265RoundTrip.Pay.Handle` | pkg/h265/rtp.go:126-146 | one access unit becomes packets numbered consecutively modulo 2^16, the last one and no other marked |
| `H265RoundTrip.Pay.Number` | pkg/h265/rtp.go:132-145 | the numbering loop leaves the sequencer where the next packet will continue |
| `H265RoundTrip.PacketizeAt` | pkg/h265/rtp.go:134-143 | packet k carries payload k, number start + k modulo 2^16, and the marker just when it is the last |
| `H265RoundTrip.RoundTrip` | pkg/h265/rtp.go:19-114 | with SkipAggregation set and fed to an empty reassembler, an access unit comes out exactly once, byte for byte, just when its last unit can close it; the stored parameter sets precede it just when its first unit is a fragmented keyframe |
| `H265RoundTrip.RoundTripExactly` | pkg/h265/rtp.go:19-146 | for both settings of SkipAggregation, RTPPay leaving it unset: one unit comes out, and it is the access unit if and only if aggregation is off or every two neighbours have lengths with |a| + |b| + 4 > mtu |
| `H265RoundTrip.AggregateIsNotUnpacked` | pkg/h265/rtp.go:117-124 | as RTPPay runs, two units of three bytes at an mtu of ten come out as one unit of type 48, not as themselves |
| `H265RoundTrip.ApartIsAlone` | pkg/h265/payloader.go:208-246 | the packetiser sends every unit on its own when no two neighbours fit together, and some together otherwise |
| `H265RoundTrip.StreamRoundTrip` | pkg/h265/rtp.go:19-146 | a stream of access units of any length, across the wrap of the sequence number and for both settings: one unit comes out for each, and they are the access units if and only if aggregation is off or no two neighbours in any of them could share a packet |
| `H265RoundTrip.FeedFragments` | pkg/h265/rtp.go:48-85 | the packets of one fragmented unit grow the buffer by that unit, its length field patched, or close the access unit if the last is marked |
| `H265RoundTrip.FeedSingle` | pkg/h265/rtp.go:28-36 | an unfragmented marked unit: a short SEI leaves no trace, a short parameter set is buffered without closing the access unit |
| `H265RoundTrip.LaterFragment` | pkg/h265/rtp.go:63-85 | a later fragment extends the open unit, and the one with E patches the length of exactly the bytes since nuStart |
| `H265RoundTrip.FragmentFlags` | pkg/h265/payloader.go:254-273 | every fragmented unit gives at least two fragments, S on the first only, E on the last only, all with the type of the unit |
| `H265RoundTrip.WholeInOneFragment` | pkg/h265/rtp.go:86-93 | a whole unit in one fragment, S and E both set, joins the buffer behind its own length as if it had come unfragmented, and closes the access unit when marked; on an empty buffer what is handed on is JoinNALU of the unit |
| `H265Loss.ReassemblyUnderLoss` | pkg/h265/rtp.go:38-113 | for every sequence of arrivals, with any loss, duplication and reordering, each unit handed on is what some of the arrivals, in order and with consecutive sequence numbers modulo 2^16, would have given alone, plus possibly the stored parameter sets |
| `H265Loss.DeliveriesAreTheRun` | pkg/h265/rtp.go:38-113 | the units whose sources are recorded are exactly the units of the plain run |
| `H265Loss.EveryDeliveryIsSound` | pkg/h265/rtp.go:38-113 | the same from any state whose buffer is accounted for, which is the invariant every arrival keeps |
| `H265Loss.TrackAccounts` | pkg/h265/rtp.go:38-113 | after any arrival the buffer is again what consecutive arrivals alone would have built, or empty |
| `H265Loss.HistoryIsIrrelevant` | pkg/h265/rtp.go:13-17 | the one variable that outlives a unit, nuStart, changes nothing as long as no end fragment comes before a begin fragment |
| `H265Loss.PanicExactly` | pkg/h265/rtp.go:63-85 | an arrival panics if and only if it is an end fragment in sequence that finds nuStart within four bytes of the end of the buffer |
| `H265Loss.OrderlyNeverPanics` | pkg/h265/rtp.go:19-114 | no run panics in which every end fragment finds a begin fragment in its own collection |
| `H265Loss.StaleStartPanics` | pkg/h265/rtp.go:63-85 | a short unit and an end fragment without its begin, after one good access unit, panic at the stale nuStart |
| `H265Arrivals.StreamUnderLoss` | pkg/h265/rtp.go:19-146 | access units of any number sent by RTPPay in fewer than 2^16 packets, of which any arrive, in any order and as often as they like: the reassembler never panics, and each unit handed on is the join of units sent in a row, up to the end of an access unit, after the stored parameter sets when the first of them is a fragmented keyframe |
| `H265Arrivals.SentAsTheyAre` | pkg/h265/rtp.go:117-146 | the units sent are the NAL units of the stream, in order, when aggregation is off or no two neighbours could share a packet |
| `H265Arrivals.AnyArrives` | pkg/h265/rtp.go:19-114 | one packet of the window, whichever it is: no panic, the buffer still holds units in a row, and what is handed on ends an access unit |
| `H265Arrivals.WireAt` | pkg/h265/rtp.go:126-146 | packet k of the stream in closed form: which bytes of which unit it carries, its number and its marker |
| `H265Arrivals.WireOfStream` | pkg/h265/rtp.go:126-146 | the packets of the units one after another are the packets of the access units |
| `H264Payloader.Payloader.Payload` | pkg/h264/payloader.go:85-188 | one call in AVC mode, on any input below 2^32 bytes: payloads and stapANalu afterwards are those of the specification, and the call panics exactly when a length wraps in uint32 |
| `H264Payloader.Payloader.OnNalu` | pkg/h264/payloader.go:91-184 | one unit: skipped, held back in stapANalu, or sent after the held group if that fits |
| `H264Payloader.Payloader.FragmentNalu` | pkg/h264/payloader.go:125-183 | the loop over index and remaining length emits exactly the FU-A fragments of the unit |
| `H264Payloader.Payloader.FuBytes` | pkg/h264/payloader.go:154-173 | FU indicator and FU header of a piece |
| `H264Receiver.ManyCalls` | pkg/h264/payloader.go:85-188 | any number of calls on a fresh packetiser: an RFC 6184 receiver (sections 5.6, 5.7.1, 5.8) accepts all payloads, and what it recovers followed by the parameter sets still held is the wanted units in order if and only if each held group fitted when it was sent |
| `H264Receiver.CallsDeliver` | pkg/h264/payloader.go:85-188 | the same for any state between calls: the receiver recovers exactly the delivered units, and stapANalu is exactly the encoding of the units held |
| `H264Receiver.CallsConserve` | pkg/h264/payloader.go:107-114 | delivered and held units are the wanted ones when every group fits, and are strictly fewer when one does not |
| `H264Receiver.StepConserves` | pkg/h264/payloader.go:91-114 | one unit: nothing is lost unless a waiting group is longer than the mtu, and then that whole group is |
| `H264Receiver.GroupIsLost` | pkg/h264/payloader.go:107-114 | a parameter set of three bytes, held back as six, is lost at an mtu of four |
| `H264Receiver.ReceiveInFragments` | pkg/h264/payloader.go:125-183 | the fragments of one unit, received in order, are that unit, its header put together from F, NRI and type |
| `H264Receiver.ReceiveGroup` | pkg/h264/payloader.go:107-114 | a held group that fits is a STAP-A that unpacks to the group |
| `H264Receiver.PayloadSizes` | pkg/h264/payloader.go:91-184 | no payload of any call is longer than the mtu of that call |
| `H264Receiver.CallsFollow` | pkg/h264/payloader.go:85-188 | in any number of calls: parameter sets travel in aggregation packets only, delimiters and filler not at all; the header of an aggregation packet has F clear, which is the OR of the F bits of its units if and only if none is set, and an NRI not below any of its units, which is their maximum if and only if some unit has NRI 3 (section 5.7 of RFC 6184) |
| `H264Receiver.GroupFollows` | pkg/h264/payloader.go:101-114 | the same for one held group that fits |
| `H264Receiver.PacketsAreFull` | pkg/h264/payloader.go:116-183 | a unit that fits the mtu travels whole; of one that does not, every packet but the last is exactly as long as the mtu |
| `H264Receiver.GroupGoesIfItFits` | pkg/h264/payloader.go:107-114 | the held group goes out in front of the unit that ends the wait if and only if its packet is no longer than the mtu |
| `AnnexB.DecodeAnnexB` | pkg/h264/avc.go:63-109 | the loop that inserts and overwrites in its buffer computes the specification, including the inputs on which an index is out of range |
| `AnnexB.IndexFrom` | pkg/h264/avc.go:111-122 | finds the first separator 00 00 01 from a position on, or says there is none |
| `AnnexB.DecodesToGathered` | pkg/h264/avc.go:63-109 | for every stream of clean units behind any mix of 3- and 4-byte start codes, the result is the join of the units gathered at those with type 1, 5, 7 or 8 |
| `AnnexB.AnnexBToAvcc` | pkg/h264/avc.go:63-109 | the result is JoinNALU of the units if and only if every unit after the first starts with one of those types, F bit clear |
| `AnnexB.SeiIsMerged` | pkg/h264/avc.go:84-95 | an SEI unit after a slice comes out as part of the slice, start code and all |
| `AnnexB.SplitRecovers` | pkg/h264/avcc.go:53-69 | SplitNALU of the converted stream recovers the units |
| `AnnexB.GatherShape` | pkg/h264/avc.go:84-95 | gathering keeps every unit apart exactly when each starts a unit of its own, and otherwise merges some |
| `BitIO.Reader.ReadBit` | pkg/bits/reader.go:53-62 | returns the next bit of the bit sequence and moves one on; past the end it returns 0 and latches EOF |
| `BitIO.Reader.ReadByte` | pkg/bits/reader.go:17-30 | the next eight bits, aligned or not |
| `BitIO.Reader.ReadBits` | pkg/bits/reader.go:64-69 | the next n bits as a number, most significant first, for every n below 256; of more than 32 the last 32 |
| `BitIO.Reader.ReadBits8` | pkg/bits/reader.go:71-76 | the same; of more than eight the last eight |
| `BitIO.Reader.ReadUint16` | pkg/bits/reader.go:32-37 | the next 16 bits, aligned or not |
| `BitIO.Reader.ReadUint24` | pkg/bits/reader.go:39-44 | the next 24 bits, aligned or not |
| `BitIO.Reader.ReadUint32` | pkg/bits/reader.go:46-51 | the next 32 bits, aligned or not |
| `BitIO.Reader.ReadUEGolomb` | pkg/bits/reader.go:118-126 | the value of section 9.1 of ITU-T H.264 in 32-bit arithmetic, with the counting stopped after 32 zeros or at the end |
| `BitIO.Reader.ReadSEGolomb` | pkg/bits/reader.go:129-135 | its signed mapping |
| `BitIO.Reader.Pos` | pkg/bits/reader.go:141-143 | after a read that did not hit the end, 8 * byte + (7 - bit) is the index in the bit sequence of the bit read last, whose value is that bit of that byte |
| `BitIO.Writer.WriteBit` | pkg/bits/writer.go:22-32 | appends one bit to the bits written, keeping the unused low bits of the last byte clear |
| `BitIO.Writer.WriteBits` | pkg/bits/writer.go:34-50 | appends the n lowest bits, most significant first |
| `BitIO.Writer.WriteAllBits` | pkg/bits/writer.go:52-56 | appends the same bit n times |
| `BitIO.Writer.WriteBool` | pkg/bits/writer.go:58-64 | appends 1 or 0 |
| `Bits.ReadsAreLocal` | pkg/bits/reader.go:53-135 | what is read depends only on the bits before the place where reading stops |
| `Bits.GetBitsOfCode` | pkg/bits/reader.go:64-69 | reading n bits undoes writing n bits, modulo 2^n |
| `Bits.GetBitsSplit` | pkg/bits/reader.go:64-69 | reading m + n bits is reading m and then n |
| `Golomb.UEInverse` | pkg/bits/reader.go:118-126 | ReadUEGolomb inverts ue(v) for every value below 2^32 - 1 |
| `Golomb.UELargestIsMisread` | pkg/bits/reader.go:118-126 | and does not for 2^32 - 1: it reads 2^31 - 1 and stops one bit early |
| `Golomb.UESound` | pkg/bits/reader.go:118-126 | whenever the data did not end and fewer than 32 zeros were seen, the bits passed over are the code of the value returned |
| `Golomb.SEInverse` | pkg/bits/reader.go:129-135 | ReadSEGolomb inverts se(v) for every value above -2^31 and below 2^31 |
| `Aac.FieldsRoundTrip` | pkg/bits/writer.go:34-50 | any sequence of fields is read back with the same widths, each modulo 2^width |
| `Aac.WrittenIsInFront` | pkg/bits/writer.go:84-86 | what a writer holds stands at the front of the bits of its bytes, and nothing but zeros behind it |
| `Aac.EncodeConfig` | pkg/aac/aac.go:80-117 | the bytes are the fields of section 1.6.2.1 of ISO/IEC 14496-3, filled up to a whole byte with zeros |
| `Aac.DecodeConfig` | pkg/aac/aac.go:61-78 | the four results are those of the specification, for every input |
| `Aac.ConfigRoundTrip` | pkg/aac/aac.go:61-117 | decoding what was encoded gives the arguments back if and only if the object type is below 96 and not 31, the rate below 2^24 and the channel count below 16 |
| `Aac.IndexUint32` | pkg/aac/aac.go:119-126 | the index of the first equal element, or -1 |
| `Aac.PacksOnce` | pkg/aac/aac.go:80-117 | only one byte string is such fields filled up with zeros, so the bytes are determined |
| `Aac.KnownConfigs` | pkg/aac/aac_test.go:11-52 | the configs of AAC-ELD at 24 kHz (the one sent to HomeKit cameras) and of AAC-LC at 48, 16 and 8 kHz, byte for byte |
| `Aac.ExtraBits` | pkg/aac/aac.go:100-114 | what follows the channels is empty but for AAC-LD and AAC-ELD, where it is the frame length flag and 4 or 10 zero bits |
| `Aac.RatesByThirds` | pkg/aac/aac.go:24-27 | the rate table falls by halves of three, from 96, 88.2 and 64 kHz down to 7.35 kHz |
| `Sps.DecodeSPS` | pkg/h264/sps.go:90-222 | the long parser over the stateful reader computes the bit-level specification: every field, and nil when the data ended |
| `Sps.ReadScalingList` | pkg/h264/sps.go:225-237 | one scaling list, with its 32-bit signed and remainder arithmetic |
| `Sps.ReadHigh` | pkg/h264/sps.go:107-135 | the fields of the high profiles |
| `Sps.ReadOrder` | pkg/h264/sps.go:139-152 | picture order count type and its fields |
| `Sps.ReadVui` | pkg/h264/sps.go:175-215 | the VUI fields |
| `SpsSyntax.DecodesCoded` | pkg/h264/sps.go:90-222 | for an encoder written from section 7.3.2.1.1 and E.1.1 of ITU-T H.264, with any high profile fields, scaling lists, order offsets, crop, VUI and timing in range: the decoder gives back the set it was given, every field in its place, whatever follows |
| `SpsSyntax.CutOffIsNothing` | pkg/h264/sps.go:217-221 | a coded set that is cut off anywhere decodes to nil |
| `SpsSyntax.WidthExactly` | pkg/h264/sps.go:75-79 | for a coded width below 2^16, Width is the width of the cropped picture (section 7.4.2.1.1 of ITU-T H.264) if and only if nothing is cropped at the sides or the chroma is 4:2:0 or 4:2:2 |
| `SpsSyntax.HeightExactly` | pkg/h264/sps.go:81-88 | Height is its height if and only if nothing is cropped at the top and bottom, or the chroma is 4:2:0 with frame_mbs_only_flag 1, or another with frame_mbs_only_flag 0 |
| `SpsSyntax.InterlacedIsTooTall` | pkg/h264/sps.go:81-88 | 1080 interlaced lines are taken for 1084 |
| `SpsFix.FixPixFmt` | pkg/h264/sps.go:279-366 | the second walk, written separately, and the bit cleared in the array itself: the array afterwards is Fixed of the array before |
| `SpsFix.WalksAgree` | pkg/h264/sps.go:279-366 | on every bit string the two walks stand at the same bit when they reach video_full_range_flag, unless the patch gives up for a scaling list or the flag is absent |
| `SpsFix.FixPreservesMeaning` | pkg/h264/sps.go:90-222 | for every byte string: with a scaling list nothing changes; otherwise decoding fails as before, or gives the same except that video_full_range_flag is 0 |
| `SpsFix.AtMostOneBitChanges` | pkg/h264/sps.go:358-364 | at most one bit of the input changes, from 1 to 0 |
| `SpsFix.FixIsIdempotent` | pkg/h264/sps.go:279-366 | patching again changes nothing |
| `SpsFix.FixedPixFmt` | pkg/h264/sps.go:253-268 | after the patch yuvj420p is reported as yuv420p, and every other format as before |
| `SpsFix.FixedBits` | pkg/h264/sps.go:358-364 | as bits, the patched data are the data with the flag, if there is one and it was set, cleared |
| `IsoWriter.Movie.StartAtom` | pkg/iso/iso.go:21-25 | pushes the start index and appends a zero size and the name |
| `IsoWriter.Movie.EndAtom` | pkg/iso/iso.go:27-35 | pops it and patches the size over those four bytes |
| `IsoWriter.EndAfterStart` | pkg/iso/iso.go:21-35 | whatever was appended in between, the pair leaves one atom with its size (section 4.2 of ISO/IEC 14496-12) and the stack as it was |
| `IsoWriter.Movie.WriteMovieFragment` | pkg/iso/atoms.go:279-333 | appends exactly the moof, mfhd, traf, tfhd, tfdt and trun atoms of sections 8.8.4 to 8.8.12 of ISO/IEC 14496-12, on any movie so far, the data offset counted from the start of the movie |
| `IsoWriter.Movie.WriteMfhd` | pkg/iso/atoms.go:282-286 | the mfhd atom |
| `IsoWriter.Movie.WriteTfhd` | pkg/iso/atoms.go:290-302 | the tfhd atom with its flags and defaults |
| `IsoWriter.Movie.WriteTfdt` | pkg/iso/atoms.go:304-308 | the tfdt atom |
| `IsoWriter.Movie.WriteTrun` | pkg/iso/atoms.go:310-328 | the trun atom, whose data offset is computed from the bytes written so far |
| `IsoWriter.Movie.WriteData` | pkg/iso/atoms.go:335-339 | the mdat atom |
| `IsoWriter.Movie.WriteTrackHeader` | pkg/iso/atoms.go:72-108 | the tkhd atom, with the size of a picture or the volume of a sound |
| `IsoWriter.Movie.WriteMediaHeader` | pkg/iso/atoms.go:110-122 | the mdhd atom |
| `IsoWriter.Movie.WriteVideo` | pkg/iso/codecs.go:8-50 | the avc1 or hev1 entry with its configuration and pixel aspect |
| `IsoWriter.Movie.WriteAudio` | pkg/iso/codecs.go:52-102 | the mp4a entry of AAC; no channel is written as one |
| `IsoWriter.Movie.WriteEsdsAAC` | pkg/iso/codecs.go:104-138 | the esds atom, its sizes in one byte each |
| `IsoTracks.FragmentIsWords` | pkg/iso/atoms.go:279-333 | a movie fragment as its 32-bit words: every size, version, flag and argument in its place (sections 8.8.4 to 8.8.12 of ISO/IEC 14496-12) |
| `IsoTracks.NamesAreLetters` | pkg/iso/atoms.go:3-33 | the atom names are their four letters |
| `IsoTracks.RunRoundTrip` | pkg/iso/reader.go:146-176 | a track run of any version, any shape and any number of samples (section 8.8.8 of ISO/IEC 14496-12) gives back duration, size, flags and composition offset of every sample, in order, and nothing for the fields it lacks |
| `IsoTracks.AudioDecoded` | pkg/iso/reader.go:99-116 | what WriteAudio wrote is read with its channels, its rate modulo 2^16 and its configuration cut to its length modulo 256; 255 modulo 256 is a panic |
| `IsoTracks.ConfigOfEsds` | pkg/iso/reader.go:108-114 | the configuration is found behind the right tag, whole if and only if it has fewer than 255 bytes |
| `IsoTracks.VideoDecoded` | pkg/iso/reader.go:89-97 | what WriteVideo wrote is read as its configuration, for any size and configuration |
| `IsoTracks.StsdDecoded` | pkg/iso/reader.go:83-87 | a description with one entry is that entry |
| `IsoTracks.StsdOfMany` | pkg/iso/reader.go:83-87 | one with none or several is handed on as it is |
| `IsoTracks.TrackReads` | pkg/iso/atoms.go:223-261 | a whole track, whatever its other atoms hold, is read as its number, its time scale and its one sample entry, in this order |
| `IsoReader.DecodeAtomList` | pkg/iso/reader.go:185-203 | the loop gives the list of the recursive, flattening parser, or its error |
| `IsoReader.ReadsAreBits` | pkg/bits/reader.go:17-51 | the byte-aligned reads of the atom parser are the reads of the bit reader, the end of the data included |
| `IsoRoundTrip.RunEncodes` | pkg/iso/iso.go:21-39 | every properly nested run of StartAtom, Write and EndAtom appends the encoding of its forest, at any depth of the stack |
| `IsoRoundTrip.DecodeEncoded` | pkg/iso/reader.go:63-203 | the parser decodes an encoded forest of readable atoms to its flattened items in order |
| `IsoRoundTrip.AtomTreesRoundTrip` | pkg/iso/reader.go:63-203 | writing a forest of containers and leaves of other names, under 2^32 bytes, and decoding it gives exactly its leaves in order |
| `IsoRoundTrip.FragmentRoundTrip` | pkg/iso/atoms.go:279-339 | on any movie so far, within 32-bit sizes, WriteMovieFragment and WriteData decode to their own arguments, and the track run offset leads from the start of the movie to the first byte of media data; from the start of the fragment, which its default-base-is-moof flag announces, if and only if the movie was empty |
| `Producer.Object.Dial` | internal/streams/producer.go:57-72 | opens a connection only from the state None |
| `Producer.Object.GetTrack` | internal/streams/producer.go:85-111 | fails in state None; returns the first listed receiver with that very codec and changes nothing; or lists the new one, if the connection gives one, and moves Medias to Tracks |
| `Producer.Object.AddTrack` | internal/streams/producer.go:113-132 | the same for backchannel tracks: fails in state None or when the connection refuses, else lists the track |
| `Producer.Object.Start` | internal/streams/producer.go:144-158 | from Tracks only: the next worker id and one worker with it, on the connection there is |
| `Producer.Object.WorkerExit` | internal/streams/producer.go:160-174 | a failed worker that was fenced off ends; any other goes on to reconnect |
| `Producer.Object.Reconnect` | internal/streams/producer.go:176-243 | a fenced-off task ends; otherwise a retry timer by retry count, or the connections are swapped and a new worker takes over |
| `Producer.Object.Stop` | internal/streams/producer.go:245-270 | fences the worker off, stops the connection and clears the lists; nothing in the states External and None |
| `Producer.EveryRun` | internal/streams/producer.go:57-270 | in every interleaving on a new producer: task ids never exceed workerID, exactly one task carries it just when the state is Start, and the connections opened but not stopped are exactly the current one, none in state None, each stopped at most once |
| `Producer.ApplyKeeps` | internal/streams/producer.go:57-270 | each critical section keeps that invariant |
| `Producer.StaleTasksChangeNothing` | internal/streams/producer.go:161-183 | a task with an old id changes nothing but itself, and reconnect ends it |
| `Producer.StopFencesOff` | internal/streams/producer.go:245-270 | every task there was before a stop is stale for good, whatever is started later |
| `Producer.Backoff` | internal/streams/producer.go:187-204 | over any number of failed redials the pauses are five of 1 s, five of 5 s, ten of 10 s and 60 s from then on, and nothing else changes |
| `Producer.ConnectionIsThere` | internal/streams/producer.go:157-240 | a worker starts on a connection that exists, and a current task always has one to stop |
| `Streams.NoIdleProducer` | internal/streams/add_consumer.go:10-115 | in every run of overlapping AddConsumer and RemoveConsumer calls, workers and timers, every idle producer always has a call that has yet to sweep past it if and only if no action of the run deafens a producer: takes the last sender off one that nobody owes a sweep; and then, once no call is in flight, every producer in state Medias, Tracks or Start has a listed track with a sender |
| `Streams.QuietStepExactly` | internal/streams/producer.go:176-243 | from a stream at rest without idle producers, an action of a worker or timer leaves one if and only if it deafens one |
| `Streams.CallHeals` | internal/streams/add_consumer.go:10-115 | from any tidy state, also one that a reconnect has left with idle producers, a new call makes the invariant hold again, and once no call is in flight no producer is idle if no action since then deafens one |
| `Streams.SwapLeaves` | internal/streams/producer.go:206-240 | after a successful reconnect a producer has a sender if and only if one was on a replaced track, on a track that the old connection does not own or did not close, or on a backchannel of another connection, or the new connection joined a backchannel of it |
| `Streams.StopLeaves` | pkg/core/connection.go:70-84 | after the stop of a connection another producer has a sender if and only if it had one that this connection does not hold |
| `CodecChange.CodecChangeIdles` | internal/streams/producer.go:206-240 | a run that ends at rest with the consumer listed and its producer in state Start without a sender: the camera came back with another codec |
| `Streams.NobodyListensNothingRuns` | internal/streams/stream.go:97-119 | in such a run, at rest, a producer without a sender is in state None, every connection it opened is stopped and no task is current |
| `Streams.PendingCounts` | internal/streams/add_consumer.go:12-99 | in every state of every run the counter is the number of calls in their matching loops, and every producer keeps its own invariant |
| `Streams.StepKeepsTidy` | internal/streams/add_consumer.go:10-115 | what every step keeps: the invariant of each producer, places in range, the counter, and senders on backchannels only where they are listed |
| `Streams.StepKeepsOwed` | internal/streams/add_consumer.go:10-115 | a step leaves every idle producer with a call that has yet to sweep past it if and only if it deafens none |
| `Streams.AlwaysOwedExactly` | internal/streams/add_consumer.go:10-115 | the same for every state of a run from any state with the invariant |
| `Streams.LoopKeepsOwed` | internal/streams/add_consumer.go:20-99 | a call that leaves its loops passes its debt to another pending call or to its own sweep |
| `Streams.StoppingKeepsOwed` | internal/streams/stream.go:103-118 | stopping one producer leaves no idle producer unswept, unless it takes the last sender, its own on a shared backchannel, off a producer already swept past |
| `Streams.WorkKeepsOwed` | internal/streams/producer.go:206-243 | a reconnect in the middle of everything that leaves each listened producer a sender leaves none idle and unswept |
| `StreamCalls.Stream.AddConsumer` | internal/streams/add_consumer.go:10-115 | on any tidy stream, idle producers or not: the source loops, uninterrupted, are a run of the steps; the consumer is listed, and the call succeeds, if and only if the matching loops of that run matched some producer; every matched producer has left state Tracks, for Start if it has a sender; and with no call pending afterwards no producer is idle |
| `StreamTraces.EveryMatchedIsStarted` | internal/streams/add_consumer.go:110-112 | in every run, whatever other calls, workers and timers do meanwhile: a call that matched a producer starts it before it ends, taking it from Tracks to Start |
| `StreamTraces.EveryAttachedIsStarted` | internal/streams/add_consumer.go:48-112 | so does a call that attaches a sender, with the producer of that sender |
| `StreamTraces.EveryMediaIsOffered` | internal/streams/add_consumer.go:20-93 | in every run a call that has left its loops has offered every media of its consumer to every producer not its own and not failed, up to the first that matched one that does not match all |
| `StreamTraces.EveryMediaIsTried` | internal/streams/add_consumer.go:43-93 | before it goes on to the next producer it has tried each media of this one |
| `StreamCalls.Stream.Match` | internal/streams/add_consumer.go:12-97 | the two outer loops, with the skips and the break to the next media |
| `StreamCalls.Stream.TryMedias` | internal/streams/add_consumer.go:43-93 | the loop over the medias of one producer |
| `StreamCalls.Stream.TryMedia` | internal/streams/add_consumer.go:48-91 | one media: get a track, attach it, in either direction, or give up |
| `StreamCalls.Stream.StopProducers` | internal/streams/stream.go:97-119 | an uninterrupted sweep stops exactly the producers without a sender, and none when a call is pending; with none pending no producer is idle afterwards, whatever the stream was like |
| `StreamCalls.Stream.Listened` | internal/streams/stream.go:106-115 | the two loops over tracks find a sender, on a receiver or on a backchannel, just when there is one |
| `StreamCalls.Stream.RemoveConsumer` | internal/streams/stream.go:64-77 | on any tidy stream: detaches, drops the first entry of the consumer, and sweeps: exactly the producers left without a sender are stopped, unless a call is pending, and with none pending no producer is idle afterwards |
| `Lists.DropFirst` | internal/streams/stream.go:68-73 | the delete-and-break loop removes the first occurrence and keeps the order |
| `Nodes.Node.AppendChild` | pkg/core/node.go:42-48 | adds the child last and tells it its parent |
| `Nodes.Node.RemoveChild` | pkg/core/node.go:50-59 | removes the first occurrence of the child |
| `Nodes.MoveNode` | pkg/core/node.go:75-88 | the children go over, all and in order, know their new parent, and nobody else changes |
| `Nodes.Node.CloseRoot` | pkg/core/node.go:61-73 | closing a root with distinct children leaves exactly the second, fourth and so on attached, but never the last, since the range walks over an array that is shifted under it; so all go when there are at most two |
| `Reconnect.Producer.Swap` | internal/streams/producer.go:206-240 | each recvonly media in turn takes over the first receiver whose codec one of its codecs matches and for which the connection gives a track, and no other, with the first such codec; exactly those are replaced; each passed on all its senders in order, they know their new parent, and the stop of the old connection has not touched them |
| `Reconnect.Producer.SwapAll` | internal/streams/producer.go:206-235 | the same before that stop, when every position still has its list of senders, replaced or not |
| `Reconnect.KeptForAReason` | internal/streams/producer.go:208-220 | a receiver that is kept was, for every recvonly media, matched by none of its codecs, or given no track, or passed by for one before it |
| `Reconnect.ChangedIsListed` | internal/streams/producer.go:211-221 | a replaced receiver has a codec that some recvonly media lists |
| `Reconnect.Producer.TakeOver` | internal/streams/producer.go:209-223 | one media takes over the first receiver that it matches and has a track for, and no other |
| `Reconnect.Producer.ReplaceAt` | pkg/core/track.go:54-56 | replacing one receiver keeps all positions |
| `Sender.Object.constructor` | pkg/core/track.go:78-98 | the channel has 4096 places for RTP video, 64 for raw video and 128 for anything else |
| `Sender.Object.Input` | pkg/core/track.go:99-110 | accepts when there is room, counts a drop otherwise, and also after Close |
| `Sender.Object.Start` | pkg/core/track.go:133-149 | starts one drainer, once, and none after Close; what is not closed is draining afterwards |
| `Sender.Object.Close` | pkg/core/track.go:167-177 | closes the channel once |
| `Sender.Object.Drain` | pkg/core/track.go:143-148 | the range loop over the closed channel, then done is closed |
| `Sender.EveryRun` | pkg/core/track.go:78-177 | in every interleaving: packets plus drops is the number of inputs, bytes those of the accepted; delivered is a prefix of accepted, the rest in hand or queued; the queue keeps its capacity; nothing is sent on or closes a closed channel; at most one drainer; and one that ended delivered everything accepted |
| `Sender.AcceptedAreInputs` | pkg/core/track.go:99-110 | what is accepted is a sub-list of the inputs |
| `Sender.DrainedDelivers` | pkg/core/track.go:143-148 | from any state with a closed channel and a drainer, the drainer, left alone, ends and has delivered all that was accepted |
| `Sender.ClosedAcceptsNothing` | pkg/core/track.go:167-177 | after Close nothing is accepted any more |
| `Sender.DeliveriesStay` | pkg/core/track.go:99-147 | accepted and delivered packets only ever grow at the end |
| `RingLog.CircularBuffer.Write` | internal/app/log.go:131-161 | the new chunks and indices, for any write |
| `RingLog.CircularBuffer.WriteTo` | internal/app/log.go:163-181 | the cyclic loop ends and yields the writes in the window, in order |
| `RingLog.CircularBuffer.Reset` | internal/app/log.go:183-189 | empties the first chunk and rewinds both indices |
| `RingLog.EveryRun` | internal/app/log.go:113-189 | after any run the window holds a suffix of the whole writes since the last Reset; either nothing was lost or more than 8 * 65536 bytes are retained; and at most 16 * 65536 when no write is longer than 65536 |
| `RingLog.WriteHolds` | internal/app/log.go:136-158 | a write joins the last chunk of the window or starts one, pushing out the oldest of sixteen |
| `RingLog.PairsAreLarge` | internal/app/log.go:136-136 | neighbouring chunks of the window hold more than one chunk size together |
| `RingLog.ResetForgets` | internal/app/log.go:183-189 | after a Reset everything is as in a new buffer, whatever the other chunks still contain |
| `HapConn.Conn.constructor` | pkg/hap/conn.go:47-72 | the client seals with the Write key and opens with the Read key, the accessory the other way round, both derived with Control-Salt; counters at 0 |
| `HapConn.Conn.Write` | pkg/hap/conn.go:110-149 | the loop puts the frames of the cut on the wire, all of 1024 bytes but the last, and the counter counts them modulo 2^64 |
| `HapConn.Conn.Read` | pkg/hap/conn.go:83-108 | one whole frame or nothing, the rest left on the wire; a buffer below 1024 bytes is refused |
| `HapConn.EveryRun` | pkg/hap/conn.go:83-149 | with any cipher that inverts, in every interleaving of Writes and Reads at both ends: the bytes got are a prefix of the bytes written, counters match frames sent and read, frames carry 1 to 1024 bytes |
| `HapConn.NoncesAreFresh` | pkg/hap/conn.go:129-132 | no key and nonce are used twice in a direction if and only if at most 2^64 frames were sent, and never across directions if the derivation separates the two labels |
| `HapConn.OpensFrame` | pkg/hap/conn.go:88-104 | a Read of a wire that begins with a frame gives its plaintext and leaves exactly the rest |
| `HapConn.FrameLayout` | pkg/hap/conn.go:124-139 | a frame is the size in two bytes, low byte first, and the text sealed with these two bytes as additional data, 18 bytes more than the text |
| `HapConn.NonceInOrder` | pkg/hap/conn.go:129-129 | the nonce is the counter, low byte first |
| `HapConn.ReadOpens` | pkg/hap/conn.go:83-108 | in any reachable state a Read finds the oldest frame not yet read, and it opens |
| `HapConn.WriteIsItsSteps` | pkg/hap/conn.go:118-143 | an uninterrupted Write is one step for each frame of its cut |
| `Dvrip.Client.ReadChunk` | pkg/dvrip/client.go:150-173 | one chunk off the connection, or the failure, and what is left of the input |
| `Dvrip.Client.ReadPacket` | pkg/dvrip/client.go:175-215 | returns the packet at the front of buffer plus bodies to come, and takes exactly it off that stream; errors take nothing |
| `Dvrip.Client.ReadPackets` | pkg/dvrip/client.go:175-215 | repeated until it fails: all packets of the stream, and packets plus what is left are the stream |
| `Dvrip.CutsDoNotMatter` | pkg/dvrip/client.go:178-215 | packets cut into chunks anywhere, many to a chunk or many chunks to a packet, come back as they were if and only if the last one has at least sixteen bytes |
| `Dvrip.OnlyTheStreamMatters` | pkg/dvrip/client.go:178-215 | for streams of any bytes, packets and the way they end depend only on the concatenated bodies |
| `Dvrip.BodiesOfWire` | pkg/dvrip/client.go:132-173 | chunks framed by the client itself are read back |
| `Dvrip.PacketsOfFlat` | pkg/dvrip/client.go:175-215 | for any packets that declare their own size, of eight bytes or more: all are returned but a last one below sixteen bytes, which waits for more of the stream |
| `Dvrip.FramedInFront` | pkg/dvrip/client.go:178-206 | a packet at the front of a stream is found as soon as sixteen bytes of the stream are there |
| `Dvrip.ShortPacketWaits` | pkg/dvrip/client.go:180-185 | a packet of eight bytes, whole and alone, is not returned |
| `ReadBuffer.Reader.Read` | pkg/core/readbuffer.go:39-68 | every mode, over an underlying reader with short reads and errors |
| `ReadBuffer.Reader.Seek` | pkg/core/readbuffer.go:77-99 | the clamped position; before the start the buffer is forgotten |
| `ReadBuffer.Reader.Reset` | pkg/core/readbuffer.go:111-114 | position 0 and drain mode |
| `ReadBuffer.Reader.Peek` | pkg/core/readbuffer.go:101-109 | on success the next n bytes; afterwards the stream from the start of the buffer, so at position 0 it is unchanged |
| `ReadBuffer.ProbeReplays` | pkg/core/readbuffer.go:39-114 | after any Reads that did not overflow and a Reset, later Reads return the stream from where buffering began, no gap and no repeat |
| `ReadBuffer.ReadsFollow` | pkg/core/readbuffer.go:39-68 | Reads return the readable stream in order, and while they buffer the whole stream stays available |
| `ReadBuffer.ReadFollows` | pkg/core/readbuffer.go:39-68 | one Read, and exactly when it overflows |
| `ReadBuffer.OverflowLoses` | pkg/core/readbuffer.go:61-64 | an overflow loses what the underlying reader had given |
| `ReadBuffer.SeekRewinds` | pkg/core/readbuffer.go:77-99 | what is readable after a Seek from the start |
| `ReadBuffer.SeekFromHere` | pkg/core/readbuffer.go:82-83 | a Seek from the position passes over that many of the next bytes, or brings back that many of the last |
| `ReadBuffer.SeekFromEnd` | pkg/core/readbuffer.go:84-86 | a Seek from the end leaves that many buffered bytes in front of what the underlying reader has yet to return |
| `ReadBuffer.SeekOutside` | pkg/core/readbuffer.go:88-96 | from anywhere, a Seek to before the buffer forgets it and one to behind it goes to its end |
| `ReadBuffer.DrainEnds` | pkg/core/readbuffer.go:52-59 | the first Read behind the buffer of a draining reader makes it a plain one |
| `Nms.ApplyNms` | backend/pipeline/__init__.py:129-154 | the nested loops keep exactly the detections that no kept one before them suppresses |
| `Nms.SuppressionIsSound` | backend/pipeline/__init__.py:138-152 | the result is a sub-list of the stable descending sort in which no two boxes of one type overlap above the threshold |
| `Nms.SuppressionIsMaximal` | backend/pipeline/__init__.py:138-152 | every dropped detection has a kept one of its type, no less confident, that overlaps it above the threshold |
| `Nms.SuppressionIsIdempotent` | backend/pipeline/__init__.py:129-154 | suppressing twice is suppressing once |
| `Nms.ChoiceIsUnique` | backend/pipeline/__init__.py:138-152 | there is only one choice that keeps exactly those no earlier kept one suppresses |
| `Nms.SortedSorts` | backend/pipeline/__init__.py:135-135 | the sort is descending, a permutation, and stable |
| `Nms.LevelsDetermine` | backend/pipeline/__init__.py:135-135 | there is only one stable descending sort |
| `Nms.IouSymmetric` | backend/models/detection.py:47-60 | intersection over union is symmetric for all boxes |
| `Nms.IouInRange` | backend/models/detection.py:47-60 | and lies between 0 and 1 for well-formed ones |
| `Nms.IouOneIsEqual` | backend/models/detection.py:47-60 | it is 1 just for equal boxes, when both have an area |
| `Nms.IouCountsCells` | backend/models/detection.py:47-60 | for boxes on a grid of any unit, which covers every pair with rational corners: it is the number of cells in both boxes by the number in either, and 0 when there is none |
| `BitOps.NalType265` | pkg/h265/rtp.go:25-25 | the shift and mask are the arithmetic of the model |
| `BitOps.RestoredFirstByte` | pkg/h265/rtp.go:60-60 | so is the restored first byte of a fragmented unit |
| `BitOps.FuHeader` | pkg/h265/rtp.go:49-51 | so are the flags and the type of a fragment |
| `BitOps.FuIndicator` | pkg/h264/payloader.go:154-155 | so is the FU indicator of H.264 |
| `BitOps.FuFlags` | pkg/h264/payloader.go:163-170 | so are the S and E bits |
| `BitOps.ReadBit` | pkg/bits/reader.go:61-61 | the bit the reader shifts out is the bit of the number |
| `BitOps.WriteBit` | pkg/bits/writer.go:31-31 | the bit the writer ORs in is added |
| `BitOps.BitIsCleared` | pkg/h264/sps.go:361-362 | the masked byte is the byte with that bit cleared |
| `BitOps.NalType264` | pkg/h264/payloader.go:96-96 | so is the mask of the H.264 type |
| `BitOps.RefIdc264` | pkg/h264/payloader.go:97-97 | and that of its reference indicator |

## Left out

- H265Payloader.Payloader.Payload: does not model AddDONL, which RTPPay never sets; says nothing of the inputs on which the source panics, which its predicates Emittable and Indexable tell apart exactly.
- H265RoundTrip.RoundTrip: asks for an mtu of 4 or more; RTP timestamps, SSRC and the handler's other header fields are not part of the state.
- H265Arrivals.StreamUnderLoss: is about fewer than 2^16 packets; with more, numbers repeat and a packet can pass for the one numbered alike, where only `H265Loss.ReassemblyUnderLoss` speaks.
- H264Receiver.ManyCalls: asks for an mtu of 3 to 65535 and for units as its predicate Sendable says: type 1 to 23, and a clear F bit when fragmented. Smaller mtus drop units that would need fragments.
- Avcc.EmitNalus: models AVC mode only; the start-code mode of the same function is not modelled.
- BitIO.Writer.WriteBits: the unaligned WriteByte, WriteUint16 and WriteBytes, which write bits and then append the bytes as well, are not modelled; nor is ReadBytes of the reader.
- IsoReader.DecodeAtomList: atom names are numbers made of four letters, the sample rate of mp4a is kept as its two 16-bit halves, and an index out of range is an outcome of its own.
- IsoRoundTrip.AtomTreesRoundTrip: the movie header, the handler, media information and table atoms are leaves or containers like any other; their fields are not modelled.
- IsoTracks.TrackReads: those atoms may hold anything, as long as the reader has no case for their names.
- IsoWriter.Movie.WriteAudio: AAC only. WriteFloat32 and WriteFloat16 are modelled for whole numbers, of which the low 16 bits are kept; Go leaves the conversion of a larger float64 to uint16 to the platform.
- Streams.NoIdleProducer: senders are detached only by RemoveConsumer, by a reconnect and by the stop of a connection. Every interleaving is allowed, also those that the mutex of the stream excludes, and a look at a producer may miss a sender that is being moved. AddProducer and RemoveProducer are not modelled.
- StreamCalls.Stream.AddConsumer: runs without interruption; answers of connections and matches of codecs are arbitrary, and the error text is left out.
- Producer.Object.GetTrack: codecs are numbers; where the source compares identities, these are compared.
- Producer.EveryRun: is about dialled producers; the states External and Internal are never entered. GetProducer, conn.Start and timers are steps that may happen at any time. That a producer is never stopped under a pending consumer is not claimed: the test of the counter and the sweep are separate.
- Reconnect.Producer.Swap: the new connection hands out a new receiver on each success, as Connection.GetTrack does for medias with codecs of their own; the sendonly branch, whose errors the source ignores, changes nothing here.
- Nodes.Node.CloseRoot: a child's Close is that of a node whose parent is a root, which is the shape of receivers and senders; deeper graphs are not modelled.
- Sender.EveryRun: Wait and the handler itself are not modelled.
- RingLog.CircularBuffer.WriteTo: yields the bytes; the write to the io.Writer is left out.
- HapConn.EveryRun: chacha20poly1305 and hkdf are arbitrary functions, the one with its inversion law, and the network neither fails nor corrupts; pairing is not modelled.
- Dvrip.Client.ReadPacket: the JSON commands and deadlines are not modelled; a failed read of a header or body is one error.
- ReadBuffer.Reader.Read: the underlying reader is taken to return bytes or an error when asked for bytes, which makes Peek terminate.
- Nms.ApplyNms: real numbers instead of floating point.
- SpsSyntax.DecodesCoded: the values of the scaling lists and of the offsets for reference frames are read and dropped, as in the source.
- SpsSyntax.WidthExactly: asks for a coded width below 2^16, beyond which the result wraps; so does `SpsSyntax.HeightExactly` for the height.
- RTPDepay for H.264, HTTP, WebSocket, RTSP and the other protocols, the web interface and FFmpeg arguments: plumbing around the core.
- Slices are values: buffers that the source reuses, and aliasing between a returned slice and its buffer, are not modelled, except for the arrays of JoinNALU, FixPixFmt and the range of Node.Close.
