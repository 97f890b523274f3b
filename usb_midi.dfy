/**
 * USB-MIDI Event Packets, as framed by section 4 ("USB-MIDI Event Packets")
 * of the USB Device Class Definition for MIDI Devices, Release 1.0: a 4-byte
 * unit whose first byte carries the virtual cable number (high nibble) and
 * the Code Index Number (low nibble), followed by up to three MIDI bytes.
 *
 * This module is the packet codec of the demultiplexer: it decodes the cable
 * and the CIN and maps the CIN to the number of payload bytes, the way the
 * switch in tud_midi_demux_stream_read does.
 */
module UsbMidi {

  datatype Option<T> = None | Some(value: T)

  /** An unsigned 8-bit value (uint8_t). */
  newtype byte = x: int | 0 <= x < 256

  /** One USB-MIDI Event Packet. */
  type Packet = p: seq<byte> | |p| == 4 witness [0, 0, 0, 0]

  function Min(a: nat, b: nat): (m: nat)
    ensures m <= a && m <= b
    ensures m == a || m == b
  {
    if a <= b then a else b
  }

  /** The virtual cable of a packet: (packet[0] >> 4) & 0xf. */
  function Cable(p: Packet): (c: nat)
    ensures c < 16
  {
    p[0] as int / 16
  }

  /** The Code Index Number of a packet: packet[0] & 0x0f. */
  function CodeIndex(p: Packet): (cin: nat)
    ensures cin < 16
  {
    p[0] as int % 16
  }

  /** The header byte of a packet on `cable` with Code Index Number `cin`. */
  function Header(cable: nat, cin: nat): byte
    requires cable < 16 && cin < 16
  {
    (cable * 16 + cin) as byte
  }

  /** Cable and CIN are exactly the two nibbles of the header byte. */
  lemma HeaderRoundTrip(p: Packet, cable: nat, cin: nat)
    requires cable < 16 && cin < 16
    ensures p[0] == Header(cable, cin) <==> Cable(p) == cable && CodeIndex(p) == cin
  {
    var h := p[0] as int;
    assert h == (h / 16) * 16 + h % 16;
    if Cable(p) == cable && CodeIndex(p) == cin {
      assert h == cable * 16 + cin;
    }
  }

  // Code Index Numbers, Table 4-1 of the USB MIDI 1.0 class definition
  const CIN_MISC: nat := 0x0
  const CIN_CABLE_EVENT: nat := 0x1
  const CIN_SYSCOM_2BYTE: nat := 0x2
  const CIN_SYSCOM_3BYTE: nat := 0x3
  const CIN_SYSEX_START: nat := 0x4
  const CIN_SYSEX_END_1BYTE: nat := 0x5
  const CIN_SYSEX_END_2BYTE: nat := 0x6
  const CIN_SYSEX_END_3BYTE: nat := 0x7
  const CIN_NOTE_OFF: nat := 0x8
  const CIN_NOTE_ON: nat := 0x9
  const CIN_POLY_KEYPRESS: nat := 0xA
  const CIN_CONTROL_CHANGE: nat := 0xB
  const CIN_PROGRAM_CHANGE: nat := 0xC
  const CIN_CHANNEL_PRESSURE: nat := 0xD
  const CIN_PITCH_BEND_CHANGE: nat := 0xE
  const CIN_1BYTE_DATA: nat := 0xF

  /** What the demultiplexer makes of a CIN: reserved (no payload defined) or a payload length. */
  datatype CinClass = Reserved | Data(length: nat)

  /**
   * The CIN switch of the demultiplexer: miscellaneous and cable events are
   * reserved; the 1-byte classes carry one byte; the 2-byte system common,
   * SysEx-end-2, program change and channel pressure classes carry two; every
   * other class carries three.
   */
  function Classify(cin: nat): (k: CinClass)
    ensures k.Data? ==> 1 <= k.length <= 3
    ensures k.Reserved? <==> cin == CIN_MISC || cin == CIN_CABLE_EVENT
  {
    if cin == CIN_MISC || cin == CIN_CABLE_EVENT then Reserved
    else if cin == CIN_SYSEX_END_1BYTE || cin == CIN_1BYTE_DATA then Data(1)
    else if cin == CIN_SYSCOM_2BYTE || cin == CIN_SYSEX_END_2BYTE
         || cin == CIN_PROGRAM_CHANGE || cin == CIN_CHANNEL_PRESSURE then Data(2)
    else Data(3)
  }

  /**
   * The "MIDI_x Size" column of Table 4-1, indexed by CIN; 0 marks the two
   * rows whose size is "1, 2 or 3" (reserved for future extensions).
   */
  const Table41: seq<nat> := [0, 0, 2, 3, 3, 1, 2, 3, 3, 3, 3, 3, 2, 2, 3, 1]

  /** The CIN switch agrees with Table 4-1 on every one of the 16 code index numbers. */
  lemma ClassifyAgreesWithTable41(cin: nat)
    requires cin < 16
    ensures Classify(cin) == if Table41[cin] == 0 then Reserved else Data(Table41[cin])
  {
    if cin < 4 {
      if cin < 2 { assert cin == 0 || cin == 1; } else { assert cin == 2 || cin == 3; }
    } else if cin < 8 {
      assert cin == 4 || cin == 5 || cin == 6 || cin == 7;
    } else if cin < 12 {
      assert cin == 8 || cin == 9 || cin == 10 || cin == 11;
    } else {
      assert cin == 12 || cin == 13 || cin == 14 || cin == 15;
    }
  }

  /** True when the packet's CIN defines a payload. */
  predicate IsData(p: Packet) {
    Classify(CodeIndex(p)).Data?
  }

  /** The payload bytes of a non-reserved packet: packet[1 .. 1 + length). */
  function Payload(p: Packet): (bs: seq<byte>)
    requires IsData(p)
    ensures 1 <= |bs| <= 3 && |bs| == Classify(CodeIndex(p)).length
    ensures bs == p[1..1 + |bs|]
  {
    p[1..1 + Classify(CodeIndex(p)).length]
  }

  /** A byte of a multiplexed stream together with the cable it travels on. */
  datatype CableByte = CableByte(cable: nat, data: byte)

  /** The bytes `bs`, each tagged with `cable`. */
  function Tagged(cable: nat, bs: seq<byte>): (r: seq<CableByte>)
    ensures |r| == |bs|
  {
    seq(|bs|, i requires 0 <= i < |bs| => CableByte(cable, bs[i]))
  }

  /** Tagging distributes over concatenation. */
  lemma TaggedAppend(cable: nat, a: seq<byte>, b: seq<byte>)
    ensures Tagged(cable, a + b) == Tagged(cable, a) + Tagged(cable, b)
  {
    var l, r := Tagged(cable, a + b), Tagged(cable, a) + Tagged(cable, b);
    assert |l| == |r|;
    forall i | 0 <= i < |l| ensures l[i] == r[i] {
      if i < |a| { assert (a + b)[i] == a[i]; } else { assert (a + b)[i] == b[i - |a|]; }
    }
  }
}
