# midi-multistream2usbdev in Dafny

The adapter is an RP2040 USB MIDI device. It exposes six virtual cables on a
single pair of USB-MIDI bulk endpoints and bridges them to serial DIN MIDI
ports: one hardware UART port and four PIO UART ports.

- **Host-bound direction.** Bytes received on the hardware UART go to the host
  on cable 0. Bytes received on PIO port k go on cable k + 2.
- **Device-bound direction.** The host sends 4-byte USB-MIDI Event Packets. A
  demultiplexer turns them into runs of MIDI bytes that all belong to one
  cable. Cables 0 and 1 are written to the hardware UART, and cable c > 1 to
  PIO port c - 2.
- **Drops.** Whatever a queue does not accept is dropped, and the shortfall is
  logged.

The model has these modules:

- `UsbMidi` (usb_midi.dfy): the event packet.
  - Its header byte holds the cable number and the Code Index Number (CIN).
  - `Classify` gives the payload length of each CIN, following Table 4-1 of the
    USB Device Class Definition for MIDI Devices, Release 1.0.
  - Also here: the payload, and payload bytes tagged with their cable.
- `DemuxSpec` (demux_spec.dfy): `tud_midi_demux_stream_read` as a function on
  a value of its state.
  - The state is the held packet, `packet_ok`, the payload bytes still owed
    from a packet that did not fit, and the USB stack's receive FIFO.
  - The lemmas state what one call returns and what it leaves behind.
  - `Backlog` lists every undelivered payload byte in order, tagged with its
    cable. The lemmas show that a call hands the caller exactly a prefix of it.
- `Demux` (demux.dfy): the same function as the code runs it.
  - The class `Demultiplexer` holds the statics as fields: the 4-byte packet
    array, `packet_ok` and the owed count.
  - Its `Read` method copies into the caller's array with `Memcpy`.
  - `Read` is proved equal to `DemuxSpec.ReadSpec`: the new state, the count,
    the cable and the buffer contents all match.
- `ResumeAsWritten` (demux_as_written.dfy): the resume statements exactly as
  written, with the uint8_t arithmetic (see Findings).
- `Ports` (ports.dfy): the drivers that main.c calls, as bounded byte queues.
  - The serial ports' receive, transmit and wire sides.
  - The USB stream sink, `tud_midi_stream_write`.
- `RouterSpec` (router_spec.dfy): the MIDI task of main.c on values.
  - The routing table and its inverse.
  - The drop log and its accounting.
  - Each poll and drain function, and `midi_task` itself.
  - Conservation lemmas over a whole pass.
- `Router` (router.dfy): the class `Adapter`. Its fields are the driver
  states, the demultiplexer object and the drop log. Its methods are the
  static functions of main.c, each proved against its `RouterSpec` function.
- `Descriptors` (descriptors.dfy): the arithmetic of the multi-stream
  configuration descriptor macros.
  - Jack IDs and the string indices of embedded jacks.
  - The byte layout of the jack blocks.
  - The jack lists of the endpoints.
  - The descriptor lengths.

## Model

| member | source | states |
|---|---|---|
| UsbMidi.Cable | midi_device_multistream.c:37 | the cable number is the high nibble of byte 0, below 16 |
| UsbMidi.CodeIndex | midi_device_multistream.c:72 | the CIN is the low nibble of byte 0, below 16 |
| UsbMidi.HeaderRoundTrip | midi_device_multistream.c:37-72 | byte 0 equals the header built from (cable, cin) iff the packet's cable and CIN are those two |
| UsbMidi.Classify | midi_device_multistream.c:75-99 | reserved iff the CIN is MISC or CABLE_EVENT; otherwise a payload of 1 to 3 bytes |
| UsbMidi.ClassifyAgreesWithTable41 | midi_device_multistream.c:75-99 | for every CIN the classification equals USB MIDI 1.0 Table 4-1 (0 means reserved) |
| UsbMidi.Payload | midi_device_multistream.c:103 | a data packet's payload is packet[1..1+len], with len its CIN's length (1..3) |
| UsbMidi.TaggedAppend | midi_device_multistream.c:103-104 | tagging bytes with a cable commutes with concatenation |
| DemuxSpec.PacketRead | midi_device_multistream.c:63 | defines tud_midi_packet_read on the state (also used at c:52 and c:114): the FIFO head becomes the held packet, or packet_ok clears on an empty FIFO |
| DemuxSpec.StreamLoop | midi_device_multistream.c:66-117 | defines the copy loop; what it does is stated by StreamLoopConserves, LoopTruncates, LoopTakesPacket and StreamLoopStops |
| DemuxSpec.ReadSpec | midi_device_multistream.c:32-119 | defines one call; what it does is stated by ReadConservesBacklog, ReadReturnsWrittenOrZero, ReadStopsOnlyWhenBlocked, ResumeDeliversOwedFirst and ReadZeroMeansIdle |
| DemuxSpec.PacketReadKeepsBacklog | midi_device_multistream.c:60-65 | reading a packet neither loses nor adds undelivered bytes |
| DemuxSpec.StreamLoopConserves | midi_device_multistream.c:66-119 | the copy loop extends what was written, stays on one cable, fits the buffer, and moves bytes from the backlog to the output in order |
| DemuxSpec.LoopTruncates | midi_device_multistream.c:102-112 | a payload that does not fit fills the buffer exactly, and the rest is recorded as owed |
| DemuxSpec.LoopTakesPacket | midi_device_multistream.c:102-116 | a payload that fits is appended whole and the next packet is read |
| DemuxSpec.ReadConservesBacklog | midi_device_multistream.c:32-119 | every call keeps the state consistent and fits the buffer. With no cable, nothing is written and nothing is consumed. With a cable (below 16), the written bytes tagged with it followed by the new backlog are exactly the old backlog |
| DemuxSpec.ResumeConserves | midi_device_multistream.c:39-59 | the resume path moves owed bytes of the held packet's cable from the backlog to the output |
| DemuxSpec.ResumePartialConserves | midi_device_multistream.c:48-51 | when more is owed than fits, the buffer is filled and the rest stays owed |
| DemuxSpec.ReadReturnsWrittenOrZero | midi_device_multistream.c:77-81 | the count is the number of bytes written, except that a reserved CIN makes it 0 and clears packet_ok; with no reserved packet it is always the number written; a non-zero count comes with a cable |
| DemuxSpec.ReadStopsOnlyWhenBlocked | midi_device_multistream.c:66-119 | a call stops short of the buffer size only when nothing is owed and the next packet is missing or on another cable; with no reserved packets, missing means the FIFO is empty; if bytes stay owed, the buffer is full |
| DemuxSpec.ResumeDeliversOwedFirst | midi_device_multistream.c:39-51 | the first min(owed, bufsize) bytes are the next owed payload bytes; a partial resume returns bufsize and leaves the FIFO alone |
| DemuxSpec.IdleReadReturnsZero | midi_device_multistream.c:60-66 | with no packet held and an empty FIFO a call returns 0, writes no cable, and changes nothing |
| DemuxSpec.Payloads | midi_device_multistream.c:103 | defines the in-order concatenation of the payloads of a run of data packets, at most 3 bytes per packet |
| DemuxSpec.ReadDeliversRun | midi_device_multistream.c:60-119 | from any packet boundary (nothing owed; the held packet, if any, and the FIFO start with the run), a run of data packets on one cable that fits the buffer is returned in one call as their concatenated payloads; the following packet is held when it is on another cable |
| DemuxSpec.ReservedDiscardsCall | midi_device_multistream.c:77-81 | from any packet boundary, a reserved packet after a run on its cable makes the call return 0, though the run's bytes were already copied into the buffer; the packet is dropped |
| DemuxSpec.TruncatedPayloadCompletes | midi_device_multistream.c:39-59 | from any packet boundary, a payload cut by a small buffer is completed by the next call with exactly the remaining bytes, in order and on the same cable; a following packet on another cable is then held |
| DemuxSpec.ReadZeroMeansIdle | midi_device_multistream.c:119 | with no reserved packets and a non-empty buffer, a call returns 0 iff no bytes are undelivered |
| DemuxSpec.ExampleNoteOn | midi_device_multistream.c:66-119 | note-on 09 90 40 7F gives 3 bytes 90 40 7F on cable 0 |
| DemuxSpec.ExampleProgramChanges | midi_device_multistream.c:89-104 | two program changes on cable 1 give C0 05 C0 07 in one call |
| Demux.Memcpy | midi_device_multistream.c:43 | count bytes of the source land at the destination offset; the rest of the destination is unchanged |
| Demux.Demultiplexer.constructor | midi_device_multistream.c:29-31 | the statics start with no packet held and nothing owed |
| Demux.Demultiplexer.ReadPacket | midi_device_multistream.c:63 | tud_midi_packet_read pops the FIFO head into the packet array, or clears packet_ok on an empty FIFO |
| Demux.Demultiplexer.Read | midi_device_multistream.c:32-119 | the new state, the count and the cable are those of ReadSpec; the buffer holds the written bytes in front and is unchanged after them |
| Demux.Demultiplexer.Resume | midi_device_multistream.c:39-59 | the resume path agrees with ReadSpec |
| Demux.Demultiplexer.DeliverOwed | midi_device_multistream.c:42-46 | copies min(owed, bufsize) owed bytes from offset 1 + copied and lowers the owed count by that much |
| Demux.Demultiplexer.StreamRun | midi_device_multistream.c:66-117 | the copy loop agrees with StreamLoop |
| Demux.Demultiplexer.TakePayload | midi_device_multistream.c:102-116 | one loop turn copies min(stream_total, room) bytes; it records the owed rest, or reads the next packet |
| ResumeAsWritten.Resume | midi_device_multistream.c:42-46 | defines the resume statements as written: n = min(owed, bufsize), copy from packet + 4 - n, return n + owed, owe (uint8_t)(owed - (n + owed)); its behaviour is stated by the four lemmas below |
| ResumeAsWritten.U8 | midi_device_multistream.c:46 | the uint8_t cast is below 256 and leaves values below 256 alone |
| ResumeAsWritten.ResumeOvercountsAndWraps | midi_device_multistream.c:42-46 | as written, the resume step returns more than it copied, and the owed count wraps to 256 - n |
| ResumeAsWritten.ResumeOffsetRightOnlyForThreeBytes | midi_device_multistream.c:43 | as written, the copy offset 4 - n hits the owed bytes iff the payload is 3 bytes long and everything owed fits the buffer |
| ResumeAsWritten.ProgramChangeResumesWrongByte | midi_device_multistream.c:42-46 | a program change read 1 byte at a time resumes by copying 00 instead of 05 and owes 255 bytes |
| ResumeAsWritten.ResumeFixedPoint | midi_device_multistream.c:42-51 | as written, owing 256 - b with buffer size b is a fixed point that returns 256 every call |
| ResumeAsWritten.FullBufferNeverDrains | main.c:200-221 | with the 48-byte buffer of poll_usb_rx, a note-on truncated at the end of the buffer leads to that fixed point |
| Ports.PollRx | main.c:163 | hands out the oldest min(max, available) received bytes and keeps the rest queued |
| Ports.WriteTx | main.c:207-211 | queues the longest prefix that fits; all of it is accepted iff it fits; a short write leaves the queue full |
| Ports.DrainTx | main.c:241 | the transmit queue moves to the wire in order |
| Ports.StreamWrite | main.c:166 | queues the longest prefix that fits, tagged with the cable; all of it is accepted iff it fits |
| RouterSpec.Route | main.c:205-212 | a cable is routed iff it is below 6; cables 0 and 1 go to the hardware UART, cable c in 2..5 to PIO port c - 2 |
| RouterSpec.RouteRoundTrip | main.c:166-184 | routing a port's receive cable gives back that port; a cable reaches a port only as that port's receive cable, or as cable 1 for the hardware UART |
| RouterSpec.ShortfallCounted | main.c:167-168 | logging a short write adds exactly offered - accepted to the drop count of its direction |
| RouterSpec.ForwardRx | main.c:158-171 | one receive poll keeps every queue within its capacity |
| RouterSpec.ForwardRxAccounts | main.c:158-171 | up to 48 bytes leave the port's receive queue; other ports and the demultiplexer are unchanged. Disconnected: the bytes are discarded with no write and no log entry. Connected: the sink gains the accepted prefix tagged with the port's cable, and the host-bound drop count grows by the shortfall |
| RouterSpec.ForwardPiosRx | main.c:174-191 | defines the first n turns of the loop of poll_midi_uarts_rx; keeps every queue within its capacity |
| RouterSpec.ForwardPiosRxPolls | main.c:174-191 | the loop polls PIO ports 0..n-1 once each and leaves the hardware UART alone |
| RouterSpec.Deliver | main.c:205-220 | one chunk changes neither the USB sink nor the demultiplexer |
| RouterSpec.DeliverAccounts | main.c:205-220 | the chunk ends up queued or counted as dropped: queued plus port-bound drops grow by its length, and nothing is transmitted |
| RouterSpec.DeliverRoutes | main.c:205-212 | only the routed port changes; it gains a prefix of the chunk after what it had queued |
| RouterSpec.DrainUsb | main.c:203-221 | defines the loop of poll_usb_rx from a fresh read, terminating on the shrinking backlog; keeps every queue within its capacity |
| RouterSpec.RouteChunks | main.c:204-221 | defines one turn of that loop: deliver the chunk just read, then go on reading; keeps every queue within its capacity |
| RouterSpec.ReadShrinksBacklog | main.c:203-221 | each non-zero read with the 48-byte buffer takes at least its count off the backlog, so the loop terminates |
| RouterSpec.ReadIntoBuffer | main.c:203-221 | one read into the 48-byte buffer advances poll_usb_rx's loop by one chunk |
| RouterSpec.DrainUsbConserves | main.c:193-223 | with no reserved packets the loop empties the backlog; every byte is queued or counted as dropped; nothing reaches the host |
| RouterSpec.PollUsb | main.c:196-199 | polling keeps every queue within its capacity |
| RouterSpec.DrainPios | main.c:225-234 | defines the first n turns of drain_serial_port_tx_buffers; keeps every queue within its capacity |
| RouterSpec.DrainPiosDrains | main.c:225-234 | ports 0..n-1 are drained, and nothing else changes |
| RouterSpec.MidiTaskStep | main.c:235-243 | a pass keeps every queue within its capacity |
| RouterSpec.DisconnectedTask | main.c:235-243 | disconnected: each port is polled and drained once; sink, log and demultiplexer are unchanged |
| RouterSpec.ConnectedTaskDeliversAll | main.c:235-243 | connected and with no reserved packets: the backlog is emptied, the queues are emptied, and every byte queued or owed to the ports is on a wire or counted dropped |
| RouterSpec.HighCablesIndexPastPioArray | main.c:205-207 | each cable 6..15 takes the PIO branch with an index of 4 or more into the 4-element array |
| RouterSpec.CableSixReachesMissingPort | main.c:203-207 | a note-on with header 69 is returned as 3 bytes on cable 6, which would index midi_uarts[4] |
| RouterSpec.HighCableChunkDropped | main.c:205-220 | in the model a chunk on cable 6 or above is dropped whole and logged, and no port changes |
| Router.Adapter.constructor | main.c:71-74 | the adapter starts with the given drivers, a fresh demultiplexer and an empty log |
| Router.Adapter.PollMidiUartRx | main.c:158-171 | the new state is ForwardRx for the hardware UART |
| Router.Adapter.PollMidiUartsRx | main.c:174-191 | the new state is ForwardPiosRx over the four PIO ports |
| Router.Adapter.PollPioRx | main.c:180-188 | the new state is ForwardRx for PIO port k |
| Router.Adapter.PollUsbRx | main.c:193-223 | the new state is PollUsb: nothing when disconnected, otherwise chunks are read and routed until a read returns 0 |
| Router.Adapter.WriteChunk | main.c:205-220 | the new state is Deliver |
| Router.Adapter.DrainSerialPortTxBuffers | main.c:225-234 | the new state is DrainPios over the four PIO ports |
| Router.Adapter.MidiTask | main.c:235-243 | the new state is MidiTaskStep |
| Descriptors.U8 | midi_device_multistream.h:40 | the uint8_t cast is below 256 and leaves smaller values alone |
| Descriptors.JackIdInExt | midi_device_multistream.h:39-40 | defines TUD_MIDI_MULTI_JACKID_IN_EXT: (uint8_t)(2c + 1) |
| Descriptors.JackIdOutEmb | midi_device_multistream.h:41-42 | defines TUD_MIDI_MULTI_JACKID_OUT_EMB: (uint8_t)(2c + 2) |
| Descriptors.JackIdInEmb | midi_device_multistream.h:47-48 | defines TUD_MIDI_MULTI_JACKID_IN_EMB: (uint8_t)(2c + 1 + 2nIn) |
| Descriptors.JackIdOutExt | midi_device_multistream.h:49-50 | defines TUD_MIDI_MULTI_JACKID_OUT_EXT: (uint8_t)(2c + 2 + 2nIn) |
| Descriptors.EmbInJackStrIdx | midi_device_multistream.h:56-60 | defines EMB_IN_JACK_STRIDX: n + first, or 0 when first is 0 |
| Descriptors.EmbOutJackStrIdx | midi_device_multistream.h:56-61 | defines EMB_OUT_JACK_STRIDX: n + nIn + first, or 0 when first is 0 |
| Descriptors.JackInDesc | midi_device_multistream.h:65-69 | defines TUD_MIDI_MULTI_JACK_IN_DESC: an External IN jack and the Embedded OUT jack it feeds |
| Descriptors.JackOutDesc | midi_device_multistream.h:73-77 | defines TUD_MIDI_MULTI_JACK_OUT_DESC: an Embedded IN jack and the External OUT jack it feeds |
| Descriptors.JackLen | midi_device_multistream.h:71 | defines TUD_MIDI_MULTI_DESC_JACK_LEN: 15 bytes per cable |
| Descriptors.InJackBlocks | midi_device_multistream.h:83-86 | defines the BOOST_PP_ENUM of the IN blocks; its layout is stated by InJackBlocksLayout |
| Descriptors.OutJackBlocks | midi_device_multistream.h:84-87 | defines the BOOST_PP_ENUM of the OUT blocks; its layout is stated by OutJackBlocksLayout |
| Descriptors.JackDescriptors | midi_device_multistream.h:85-87 | defines TUD_MIDI_MULTI_DESC_JACK_DESC; its layout is stated by JackDescriptorsLayout |
| Descriptors.MultiDescLen | midi_device_multistream.h:79-81 | defines TUD_MIDI_MULTI_DESC_LEN over the head length and the endpoint length function |
| Descriptors.MsTotalLength | midi_device_multistream.h:101-103 | defines the wTotalLength of the MS header |
| Descriptors.MultiDescriptor | midi_device_multistream.h:113-119 | defines TUD_MIDI_MULTI_DESCRIPTOR over the head and endpoint bytes; its length is stated by MultiDescriptorLength |
| Descriptors.JackIdRanges | midi_device_multistream.h:39-50 | with at most 16 cables each way no ID wraps. The nIn pairs towards the host (External IN, Embedded OUT) take 1..2nIn; the nOut pairs from the host (Embedded IN, External OUT) take 2nIn+1..2nIn+2nOut, at most 64; the families are disjoint |
| Descriptors.JackIdsInjective | midi_device_multistream.h:39-50 | within each family, different cables get different jack IDs |
| Descriptors.StringIndicesDisjoint | midi_device_multistream.h:52-62 | with no first index every string index is 0; otherwise EMB_IN_JACK_STRIDX of cables 0..nIn-1 is first..first+nIn-1 without repeats, and EMB_OUT_JACK_STRIDX gives distinct indices after those (where each lands is stated by JackDescriptorsLayout) |
| Descriptors.InJackBlocksLayout | midi_device_multistream.h:83-87 | the enumerated IN blocks are 15 nIn bytes long, and block i is JackInDesc(i) |
| Descriptors.OutJackBlocksLayout | midi_device_multistream.h:83-87 | the enumerated OUT blocks are 15 nOut bytes long, and block i is JackOutDesc(i) |
| Descriptors.Block | midi_device_multistream.h:71 | every jack block is 6 + 9 bytes |
| Descriptors.BlockIs | midi_device_multistream.h:65-77 | block i of the jack descriptors is the IN block of cable i, or the OUT block of cable i - nIn |
| Descriptors.JackDescriptorsLayout | midi_device_multistream.h:65-87 | each block is a 6-byte IN jack followed by a 9-byte OUT jack whose source pin is that IN jack's ID. It has the right jack types and IDs 2i+1 and 2i+2. EMB_IN_JACK_STRIDX(i) is the string of the Embedded OUT jack of block i < nIn, EMB_OUT_JACK_STRIDX(nIn, j) that of the Embedded IN jack of block nIn + j, and external jacks name no string |
| Descriptors.OutEndpointJackIds | midi_device_multistream.h:88-90 | the OUT endpoint lists nOut jack IDs |
| Descriptors.InEndpointJackIds | midi_device_multistream.h:89-91 | the IN endpoint lists nIn jack IDs |
| Descriptors.OutEndpointListMatches | midi_device_multistream.h:113-117 | entry k of the OUT endpoint's list is the ID of the embedded IN jack declared for cable k |
| Descriptors.InEndpointListMatches | midi_device_multistream.h:113-119 | entry k of the IN endpoint's list is the ID of the embedded OUT jack declared for cable k |
| Descriptors.MultiDescriptorLength | midi_device_multistream.h:79-119 | the descriptor is TUD_MIDI_MULTI_DESC_LEN bytes long; the MS header's total length is 7 plus everything after the head |

## Findings

| source | as written | input that shows it | evidently intended | confidence | as-written member | corrected member |
|---|---|---|---|---|---|---|
| midi_device_multistream.c:42-51 | the resume step returns the copied count plus the old owed count, and subtracts that sum from the uint8_t owed count, which wraps to 256 - n | a note-on truncated at the end of poll_usb_rx's 48-byte buffer: owed 3, then 253, then 208 forever, each call returning 256, so poll_usb_rx never leaves its loop | return the n bytes copied and owe owed - n | not executed | ResumeAsWritten.FullBufferNeverDrains | DemuxSpec.ResumeDeliversOwedFirst |
| midi_device_multistream.c:43 | the owed bytes are copied from packet + 4 - n | program change 0C C0 05 00 read with a 1-byte buffer: the second call copies 00 instead of 05 | copy from packet + 1 + (bytes already delivered) | not executed | ResumeAsWritten.ProgramChangeResumesWrongByte | DemuxSpec.TruncatedPayloadCompletes |
| main.c:205-207 | every cable above 1 is written to midi_uarts[cable_num - 2], an array of 4 | note-on 69 90 40 7F on cable 6 indexes midi_uarts[4] | write only cables 2..5 to a PIO port and drop the rest | not executed | RouterSpec.CableSixReachesMissingPort | RouterSpec.HighCableChunkDropped |

## Left out

- The TinyUSB stack, the USB endpoints, the UART and PIO drivers and their
  interrupt handlers are outside the model. Each is a value: the receive FIFO,
  and a bounded queue per port and for the USB sink.
  - Bytes arrive from the host through the `queued` argument of the
    `Demux.Demultiplexer` constructor, which seeds the FIFO, and through
    `Demux.Demultiplexer.HostSends`.
  - Bytes arriving on a DIN input are given in the port state.
- `tud_midi_mounted()` is the `connected` parameter.
- `main()`, its initialisation, the LED blink task, the mount/suspend
  callbacks and the board pin set-up are not part of this model.
- The text of the TU_LOG1 warnings is not modelled. A log entry is a `Drop` holding
  the site and the dropped count.
- The `cable_num == NULL` behaviour described at midi_device_multistream.h:123
  is not implemented in midi_device_multistream.c and is not modelled.
- Ports.DrainTx: the drivers transmit what the hardware has room for.
  The model transmits the whole queue, so wire timing is not modelled.
- RouterSpec.MidiTaskEmptiesTx: every transmit queue is empty after a pass
  only because Ports.DrainTx moves the whole queue. The drivers may leave
  bytes queued, so main.c does not promise this.
- RouterSpec.ConnectedTaskDeliversAll: "on a wire" includes bytes the
  drivers would still hold in their transmit queues, for the same reason.
- Demux.Demultiplexer.Read: the field `copied` is ghost. The code does not
  store it, because the CIN and the owed count determine it.
- The resume path is modelled as intended. It returns the bytes copied, owes
  `owed - n` and copies from offset `1 + copied`. The statements as written
  are in `ResumeAsWritten` (see Findings).
- RouterSpec.Route: cables 6..15 are dropped in the model. The code
  indexes past the end of `midi_uarts` (see Findings).
- Router.Adapter.WriteChunk: the else branch at main.c:213-217 cannot be
  reached. Its `continue` would spin forever if it could. The model has
  `assert false` there.
- Descriptor macros from the TinyUSB headers are parameters of the model:
  - TUD_MIDI_DESC_HEAD_LEN is the head bytes;
  - TUD_MIDI_DESC_EP and TUD_MIDI_DESC_EP_LEN are the endpoint bytes and the length function `epLen`;
  - the head macro's remaining fields are not modelled.
- Descriptor bytes are `nat`, so the `_stridx` values are not truncated to a byte.
- The 16-bit little-endian split of wTotalLength is not modelled.
- Where the comments and the code disagree, the model follows the code:
  - the return description at midi_device_multistream.h:121-122 says 0
    means no more streams in the FIFO, yet a reserved CIN ends the call
    with 0 even though bytes were already copied into the buffer and
    packets may remain queued;
  - the comment at midi_device_multistream.c:79 says such a packet is
    skipped; the code clears packet_ok and returns, so the packet is
    dropped and the next call reads a fresh one.
