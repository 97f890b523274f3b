/**
 * The jack-ID, string-index and length arithmetic of the multi-stream MIDI
 * configuration descriptor (midi_device_multistream.h:39-119).
 *
 * For each of the nIn cables that carry data to the host the descriptor
 * declares an External MIDI IN Jack (a DIN input) and an Embedded MIDI OUT
 * Jack fed by it, which the Bulk IN endpoint lists; for each of the nOut
 * cables the host sends on, an Embedded MIDI IN Jack, which the Bulk OUT
 * endpoint lists, and an External MIDI OUT Jack (a DIN output) fed by it.
 * The jack descriptors are
 * those of sections 6.1.2.2 (MIDI IN Jack, 6 bytes) and 6.1.2.3 (MIDI OUT
 * Jack with one input pin, 9 bytes) of the USB Device Class Definition for
 * MIDI Devices, Release 1.0; the class-specific MS Bulk endpoint descriptors
 * of its section 6.2.2 list the embedded jacks of each endpoint.
 *
 * Descriptor bytes are `nat`s here; BOOST_PP_ENUM(n, M, d) is the
 * concatenation of M(0, d) .. M(n - 1, d).
 */
module Descriptors {

  /** USB MIDI allows up to 16 virtual cables per endpoint. */
  const MAX_CABLES: nat := 16

  // Class-specific descriptor codes (USB MIDI 1.0, Appendix A)
  const CS_INTERFACE: nat := 0x24
  const MS_MIDI_IN_JACK: nat := 0x02
  const MS_MIDI_OUT_JACK: nat := 0x03
  const JACK_EMBEDDED: nat := 0x01
  const JACK_EXTERNAL: nat := 0x02

  /** The (uint8_t) cast of the jack-ID macros. */
  function U8(x: nat): (r: nat)
    ensures r < 256 && (x < 256 ==> r == x)
  {
    x % 256
  }

  /** TUD_MIDI_MULTI_JACKID_IN_EXT(cable) */
  function JackIdInExt(cable: nat): nat {
    U8(cable * 2 + 1)
  }

  /** TUD_MIDI_MULTI_JACKID_OUT_EMB(cable) */
  function JackIdOutEmb(cable: nat): nat {
    U8(cable * 2 + 2)
  }

  /** TUD_MIDI_MULTI_JACKID_IN_EMB(cable, nIn) */
  function JackIdInEmb(cable: nat, nIn: nat): nat {
    U8(cable * 2 + 1 + nIn * 2)
  }

  /** TUD_MIDI_MULTI_JACKID_OUT_EXT(cable, nIn) */
  function JackIdOutExt(cable: nat, nIn: nat): nat {
    U8(cable * 2 + 2 + nIn * 2)
  }

  /**
   * With at most 16 cables each way no cast wraps; the pair of cable c < nIn
   * towards the host (External IN, Embedded OUT) takes IDs 2c + 1 and
   * 2c + 2, inside 1 .. 2 nIn, and the pair of cable d < nOut from the host
   * (Embedded IN, External OUT) takes 2 nIn + 2d + 1 and 2 nIn + 2d + 2,
   * above 2 nIn and at most 64.  So the four families never share an ID.
   */
  lemma JackIdRanges(c: nat, d: nat, nIn: nat, nOut: nat)
    requires nIn <= MAX_CABLES && nOut <= MAX_CABLES
    requires c < nIn && d < nOut
    ensures JackIdInExt(c) == 2 * c + 1 && JackIdOutEmb(c) == 2 * c + 2
    ensures JackIdInEmb(d, nIn) == 2 * nIn + 2 * d + 1 && JackIdOutExt(d, nIn) == 2 * nIn + 2 * d + 2
    ensures 1 <= JackIdInExt(c) < JackIdOutEmb(c) <= 2 * nIn
    ensures 2 * nIn < JackIdInEmb(d, nIn) < JackIdOutExt(d, nIn) <= 64
    ensures JackIdInExt(c) != JackIdInEmb(d, nIn) && JackIdInExt(c) != JackIdOutExt(d, nIn)
    ensures JackIdOutEmb(c) != JackIdInEmb(d, nIn) && JackIdOutEmb(c) != JackIdOutExt(d, nIn)
  {
  }

  /** Within one family, different cables get different IDs. */
  lemma JackIdsInjective(c: nat, d: nat, nIn: nat)
    requires nIn <= MAX_CABLES && c < MAX_CABLES && d < MAX_CABLES
    ensures JackIdInExt(c) == JackIdInExt(d) <==> c == d
    ensures JackIdOutEmb(c) == JackIdOutEmb(d) <==> c == d
    ensures JackIdInEmb(c, nIn) == JackIdInEmb(d, nIn) <==> c == d
    ensures JackIdOutExt(c, nIn) == JackIdOutExt(d, nIn) <==> c == d
    ensures JackIdInExt(c) != JackIdOutEmb(d)
  {
  }

  /**
   * EMB_IN_JACK_STRIDX(n): 0 when CFG_TUD_MIDI_FIRST_PORT_STRIDX (`first`)
   * is 0, else n + first.
   */
  function EmbInJackStrIdx(n: nat, first: nat): nat {
    if first != 0 then n + first else 0
  }

  /** EMB_OUT_JACK_STRIDX(nIn, n): 0 when `first` is 0, else n + nIn + first. */
  function EmbOutJackStrIdx(nIn: nat, n: nat, first: nat): nat {
    if first != 0 then n + nIn + first else 0
  }

  /**
   * With no first string index every jack's string index is 0 ("no string");
   * otherwise EMB_IN_JACK_STRIDX of cables 0 .. nIn - 1 is first ..
   * first + nIn - 1 and EMB_OUT_JACK_STRIDX of the nOut cables follows, so
   * no two jacks share a string.  Despite the names, EMB_IN_JACK_STRIDX
   * ends up on the Embedded OUT Jacks of the cables towards the host and
   * EMB_OUT_JACK_STRIDX on the Embedded IN Jacks (see JackDescriptorsLayout).
   */
  lemma StringIndicesDisjoint(first: nat, nIn: nat, a: nat, b: nat, x: nat, y: nat)
    requires a < nIn && b < nIn
    ensures first == 0 ==> EmbInJackStrIdx(a, first) == 0 && EmbOutJackStrIdx(nIn, x, first) == 0
    ensures first != 0 ==>
      && first <= EmbInJackStrIdx(a, first) < first + nIn <= EmbOutJackStrIdx(nIn, x, first)
      && (EmbInJackStrIdx(a, first) == EmbInJackStrIdx(b, first) <==> a == b)
      && (EmbOutJackStrIdx(nIn, x, first) == EmbOutJackStrIdx(nIn, y, first) <==> x == y)
  {
  }

  /**
   * TUD_MIDI_MULTI_JACK_IN_DESC(cable, stridx): the External IN Jack of the
   * cable and the Embedded OUT Jack whose one input pin it feeds.
   */
  function JackInDesc(cable: nat, stridx: nat): seq<nat> {
    [6, CS_INTERFACE, MS_MIDI_IN_JACK, JACK_EXTERNAL, JackIdInExt(cable), 0]
    + [9, CS_INTERFACE, MS_MIDI_OUT_JACK, JACK_EMBEDDED, JackIdOutEmb(cable), 1, JackIdInExt(cable), 1, stridx]
  }

  /**
   * TUD_MIDI_MULTI_JACK_OUT_DESC(cable, nIn, stridx): the Embedded IN Jack of
   * the cable and the External OUT Jack whose one input pin it feeds.
   */
  function JackOutDesc(cable: nat, nIn: nat, stridx: nat): seq<nat> {
    [6, CS_INTERFACE, MS_MIDI_IN_JACK, JACK_EMBEDDED, JackIdInEmb(cable, nIn), stridx]
    + [9, CS_INTERFACE, MS_MIDI_OUT_JACK, JACK_EXTERNAL, JackIdOutExt(cable, nIn), 1, JackIdInEmb(cable, nIn), 1, 0]
  }

  /** TUD_MIDI_MULTI_DESC_JACK_LEN(n): 6 + 9 bytes per cable. */
  function JackLen(n: nat): nat {
    (6 + 9) * n
  }

  /** BOOST_PP_ENUM(nIn, TUD_MIDI_MULTI_DESC_JACK_IN_ENUM_DESC, 0) */
  function InJackBlocks(nIn: nat, first: nat): seq<nat>
    decreases nIn
  {
    if nIn == 0 then [] else InJackBlocks(nIn - 1, first) + JackInDesc(nIn - 1, EmbInJackStrIdx(nIn - 1, first))
  }

  /** BOOST_PP_ENUM(nOut, TUD_MIDI_MULTI_DESC_JACK_OUT_ENUM_DESC, nIn) */
  function OutJackBlocks(nOut: nat, nIn: nat, first: nat): seq<nat>
    decreases nOut
  {
    if nOut == 0 then [] else OutJackBlocks(nOut - 1, nIn, first) + JackOutDesc(nOut - 1, nIn, EmbOutJackStrIdx(nIn, nOut - 1, first))
  }

  /** TUD_MIDI_MULTI_DESC_JACK_DESC(nIn, nOut) */
  function JackDescriptors(nIn: nat, nOut: nat, first: nat): seq<nat> {
    InJackBlocks(nIn, first) + OutJackBlocks(nOut, nIn, first)
  }

  /** The blocks are JackLen(n) bytes long, block i at offset 15 i. */
  lemma {:induction false} InJackBlocksLayout(nIn: nat, first: nat)
    ensures |InJackBlocks(nIn, first)| == JackLen(nIn)
    ensures forall i :: 0 <= i < nIn ==>
      InJackBlocks(nIn, first)[15 * i..15 * i + 15] == JackInDesc(i, EmbInJackStrIdx(i, first))
    decreases nIn
  {
    if nIn > 0 {
      InJackBlocksLayout(nIn - 1, first);
      var prev := InJackBlocks(nIn - 1, first);
      var blocks := InJackBlocks(nIn, first);
      forall i | 0 <= i < nIn
        ensures blocks[15 * i..15 * i + 15] == JackInDesc(i, EmbInJackStrIdx(i, first))
      {
        if i < nIn - 1 {
          assert blocks[15 * i..15 * i + 15] == prev[15 * i..15 * i + 15];
        } else {
          assert blocks[15 * i..15 * i + 15] == blocks[|prev|..];
        }
      }
    }
  }

  lemma {:induction false} OutJackBlocksLayout(nOut: nat, nIn: nat, first: nat)
    ensures |OutJackBlocks(nOut, nIn, first)| == JackLen(nOut)
    ensures forall i :: 0 <= i < nOut ==>
      OutJackBlocks(nOut, nIn, first)[15 * i..15 * i + 15] == JackOutDesc(i, nIn, EmbOutJackStrIdx(nIn, i, first))
    decreases nOut
  {
    if nOut > 0 {
      OutJackBlocksLayout(nOut - 1, nIn, first);
      var prev := OutJackBlocks(nOut - 1, nIn, first);
      var blocks := OutJackBlocks(nOut, nIn, first);
      forall i | 0 <= i < nOut
        ensures blocks[15 * i..15 * i + 15] == JackOutDesc(i, nIn, EmbOutJackStrIdx(nIn, i, first))
      {
        if i < nOut - 1 {
          assert blocks[15 * i..15 * i + 15] == prev[15 * i..15 * i + 15];
        } else {
          assert blocks[15 * i..15 * i + 15] == blocks[|prev|..];
        }
      }
    }
  }

  /** The 15-byte block of jack pair `i` of the jack descriptors (the nIn pairs towards the host first). */
  function Block(nIn: nat, nOut: nat, first: nat, i: nat): (b: seq<nat>)
    requires i < nIn + nOut
    ensures |b| == 15
  {
    InJackBlocksLayout(nIn, first);
    OutJackBlocksLayout(nOut, nIn, first);
    JackDescriptors(nIn, nOut, first)[15 * i..15 * i + 15]
  }

  /** Pair i towards the host sits at offset 15 i of the IN blocks. */
  lemma InBlockAt(nIn: nat, first: nat, i: nat)
    requires i < nIn
    ensures |InJackBlocks(nIn, first)| == JackLen(nIn)
    ensures InJackBlocks(nIn, first)[15 * i..15 * i + 15] == JackInDesc(i, EmbInJackStrIdx(i, first))
  {
    InJackBlocksLayout(nIn, first);
  }

  /** Pair j from the host sits at offset 15 j of the OUT blocks. */
  lemma OutBlockAt(nOut: nat, nIn: nat, first: nat, j: nat)
    requires j < nOut
    ensures |OutJackBlocks(nOut, nIn, first)| == JackLen(nOut)
    ensures OutJackBlocks(nOut, nIn, first)[15 * j..15 * j + 15] == JackOutDesc(j, nIn, EmbOutJackStrIdx(nIn, j, first))
  {
    OutJackBlocksLayout(nOut, nIn, first);
  }

  /** The first nIn blocks are the pairs towards the host. */
  lemma InBlockIs(nIn: nat, nOut: nat, first: nat, i: nat)
    requires i < nIn
    ensures Block(nIn, nOut, first, i) == JackInDesc(i, EmbInJackStrIdx(i, first))
  {
    var ins := InJackBlocks(nIn, first);
    var outs := OutJackBlocks(nOut, nIn, first);
    InBlockAt(nIn, first, i);
    assert (ins + outs)[15 * i..15 * i + 15] == ins[15 * i..15 * i + 15];
  }

  /** Block nIn + j is pair j from the host. */
  lemma OutBlockIs(nIn: nat, nOut: nat, first: nat, j: nat)
    requires j < nOut
    ensures Block(nIn, nOut, first, nIn + j) == JackOutDesc(j, nIn, EmbOutJackStrIdx(nIn, j, first))
  {
    var ins := InJackBlocks(nIn, first);
    var outs := OutJackBlocks(nOut, nIn, first);
    OutBlockAt(nOut, nIn, first, j);
    assert |ins| == JackLen(nIn) by {
      InJackBlocksLayout(nIn, first);
    }
    assert 15 * (nIn + j) == |ins| + 15 * j;
    assert (ins + outs)[15 * (nIn + j)..15 * (nIn + j) + 15] == outs[15 * j..15 * j + 15];
  }

  /** Block i is the descriptor of pair i towards the host, or of pair i - nIn from the host. */
  lemma BlockIs(nIn: nat, nOut: nat, first: nat, i: nat)
    requires i < nIn + nOut
    ensures Block(nIn, nOut, first, i)
         == if i < nIn then JackInDesc(i, EmbInJackStrIdx(i, first))
            else JackOutDesc(i - nIn, nIn, EmbOutJackStrIdx(nIn, i - nIn, first))
  {
    if i < nIn {
      InBlockIs(nIn, nOut, first, i);
    } else {
      OutBlockIs(nIn, nOut, first, i - nIn);
    }
  }

  /**
   * The jack descriptors are JACK_LEN(nIn) + JACK_LEN(nOut) bytes, and every
   * 15-byte block is an IN Jack descriptor (bLength 6) followed by an OUT
   * Jack descriptor (bLength 9) whose single source is that IN jack.  The
   * jack IDs they declare run 1, 2, 3, ..., 2 (nIn + nOut) in order, so no
   * two jacks share an ID.  The first nIn IN jacks are external and the
   * others embedded.  The string index EMB_IN_JACK_STRIDX(i) is the iJack
   * of the Embedded OUT Jack of block i < nIn, EMB_OUT_JACK_STRIDX(nIn, j)
   * the iJack of the Embedded IN Jack of block nIn + j, and the external
   * jacks name no string.
   */
  lemma JackDescriptorsLayout(nIn: nat, nOut: nat, first: nat, i: nat)
    requires nIn <= MAX_CABLES && nOut <= MAX_CABLES && i < nIn + nOut
    ensures |JackDescriptors(nIn, nOut, first)| == JackLen(nIn) + JackLen(nOut)
    ensures var b := Block(nIn, nOut, first, i);
      && b[0] == 6 && b[1] == CS_INTERFACE && b[2] == MS_MIDI_IN_JACK
      && b[6] == 9 && b[7] == CS_INTERFACE && b[8] == MS_MIDI_OUT_JACK
      && b[4] == 2 * i + 1 && b[10] == 2 * i + 2
      && b[11] == 1 && b[12] == b[4] && b[13] == 1
      && b[3] == (if i < nIn then JACK_EXTERNAL else JACK_EMBEDDED)
      && b[9] == (if i < nIn then JACK_EMBEDDED else JACK_EXTERNAL)
      && b[5] == (if i < nIn then 0 else EmbOutJackStrIdx(nIn, i - nIn, first))
      && b[14] == (if i < nIn then EmbInJackStrIdx(i, first) else 0)
  {
    assert |JackDescriptors(nIn, nOut, first)| == JackLen(nIn) + JackLen(nOut) by {
      InJackBlocksLayout(nIn, first);
      OutJackBlocksLayout(nOut, nIn, first);
    }
    BlockIs(nIn, nOut, first, i);
  }

  /** TUD_MIDI_MULTI_DESC_JACKID_IN_EMB(nOut, nIn): the jacks listed by the Bulk OUT endpoint. */
  function OutEndpointJackIds(nOut: nat, nIn: nat): (ids: seq<nat>)
    ensures |ids| == nOut
  {
    seq(nOut, c requires 0 <= c < nOut => JackIdInEmb(c, nIn))
  }

  /** TUD_MIDI_MULTI_DESC_JACKID_OUT_EMB(nIn): the jacks listed by the Bulk IN endpoint. */
  function InEndpointJackIds(nIn: nat): (ids: seq<nat>)
    ensures |ids| == nIn
  {
    seq(nIn, c requires 0 <= c < nIn => JackIdOutEmb(c))
  }

  /**
   * The Bulk OUT endpoint lists exactly the embedded jacks the jack
   * descriptors declare for the host's outgoing cables, in cable order: its
   * k-th entry is the Embedded IN Jack of block nIn + k.
   */
  lemma OutEndpointListMatches(nIn: nat, nOut: nat, first: nat, k: nat)
    requires nIn <= MAX_CABLES && nOut <= MAX_CABLES && k < nOut
    ensures var b := Block(nIn, nOut, first, nIn + k);
      b[3] == JACK_EMBEDDED && b[2] == MS_MIDI_IN_JACK && OutEndpointJackIds(nOut, nIn)[k] == b[4]
  {
    var d := JackOutDesc(k, nIn, EmbOutJackStrIdx(nIn, k, first));
    assert Block(nIn, nOut, first, nIn + k) == d by {
      BlockIs(nIn, nOut, first, nIn + k);
    }
    assert d[2] == MS_MIDI_IN_JACK && d[3] == JACK_EMBEDDED && d[4] == JackIdInEmb(k, nIn);
  }

  /** The Bulk IN endpoint's k-th entry is the Embedded OUT Jack of block k. */
  lemma InEndpointListMatches(nIn: nat, nOut: nat, first: nat, k: nat)
    requires nIn <= MAX_CABLES && nOut <= MAX_CABLES && k < nIn
    ensures var b := Block(nIn, nOut, first, k);
      b[9] == JACK_EMBEDDED && b[8] == MS_MIDI_OUT_JACK && InEndpointJackIds(nIn)[k] == b[10]
  {
    var d := JackInDesc(k, EmbInJackStrIdx(k, first));
    assert Block(nIn, nOut, first, k) == d by {
      BlockIs(nIn, nOut, first, k);
    }
    assert d[8] == MS_MIDI_OUT_JACK && d[9] == JACK_EMBEDDED && d[10] == JackIdOutEmb(k);
  }

  /**
   * TUD_MIDI_MULTI_DESC_LEN(nIn, nOut), with TinyUSB's TUD_MIDI_DESC_HEAD_LEN
   * and TUD_MIDI_DESC_EP_LEN(n) as the parameters `headLen` and `epLen`.
   */
  function MultiDescLen(nIn: nat, nOut: nat, headLen: nat, epLen: nat -> nat): nat {
    headLen + JackLen(nIn) + JackLen(nOut) + epLen(nIn) + epLen(nOut)
  }

  /** The wTotalLength field of the MS Header (midi_device_multistream.h:101-103). */
  function MsTotalLength(nIn: nat, nOut: nat, epLen: nat -> nat): nat {
    7 + JackLen(nIn) + JackLen(nOut) + epLen(nIn) + epLen(nOut)
  }

  /**
   * TUD_MIDI_MULTI_DESCRIPTOR as a byte sequence, with the head (interface
   * descriptors and MS Header) and the two endpoint descriptors (before their
   * jack lists) given by TinyUSB's macros.
   */
  function MultiDescriptor(head: seq<nat>, nIn: nat, nOut: nat, first: nat, epOut: seq<nat>, epIn: seq<nat>): seq<nat> {
    head + JackDescriptors(nIn, nOut, first)
    + epOut + OutEndpointJackIds(nOut, nIn)
    + epIn + InEndpointJackIds(nIn)
  }

  /**
   * When the head is HEAD_LEN bytes and an endpoint descriptor with n jacks
   * is EP_LEN(n) bytes including its jack list, the descriptor is exactly
   * TUD_MIDI_MULTI_DESC_LEN bytes; and the MS Header's total length counts
   * the MS Header itself (the last 7 bytes of the head) and everything after
   * the head.
   */
  lemma MultiDescriptorLength(head: seq<nat>, nIn: nat, nOut: nat, first: nat, epOut: seq<nat>, epIn: seq<nat>, epLen: nat -> nat)
    requires |head| >= 7
    requires |epOut| + nOut == epLen(nOut) && |epIn| + nIn == epLen(nIn)
    ensures |MultiDescriptor(head, nIn, nOut, first, epOut, epIn)| == MultiDescLen(nIn, nOut, |head|, epLen)
    ensures MsTotalLength(nIn, nOut, epLen) == 7 + |MultiDescriptor(head, nIn, nOut, first, epOut, epIn)| - |head|
  {
    InJackBlocksLayout(nIn, first);
    OutJackBlocksLayout(nOut, nIn, first);
  }
}
