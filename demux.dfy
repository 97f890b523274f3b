/**
 * The demultiplexer of midi_device_multistream.c as the code keeps it: the
 * static packet buffer, packet_ok and the count of owed payload bytes live in
 * an object whose Read method is tud_midi_demux_stream_read, copying into the
 * caller's buffer with memcpy.  Read is proved against DemuxSpec.ReadSpec, so
 * every property proved there holds of the imperative code.
 *
 * The resume path takes the owed bytes from offset 1 + stream_total - owed
 * of the held packet and returns the number of bytes it copied; see
 * ResumeAsWritten for the update as written.
 */
module Demux {
  import opened UsbMidi
  import opened DemuxSpec

  /** memcpy(dst + at, src + from, count) between two distinct buffers. */
  method Memcpy(dst: array<byte>, at: nat, src: array<byte>, from: nat, count: nat)
    requires dst != src
    requires at + count <= dst.Length && from + count <= src.Length
    modifies dst
    ensures dst[..] == old(dst[..])[..at] + src[from..from + count] + old(dst[..])[at + count..]
  {
    forall i | 0 <= i < count {
      dst[at + i] := src[from + i];
    }
  }

  class Demultiplexer {
    /** static uint8_t packet[4] */
    const packet: array<byte>
    /** static bool packet_ok */
    var packetOk: bool
    /** static uint8_t packet_bytes_to_stream: payload bytes of `packet` still owed */
    var remaining: nat
    /** payload bytes of `packet` already delivered (determined by the CIN and `remaining`) */
    ghost var copied: nat
    /** the USB stack's receive FIFO of event packets from the host */
    var usbRx: seq<Packet>

    ghost function State(): DemuxState
      reads this, packet
      requires packet.Length == 4
    {
      DemuxState(packet[..], packetOk, copied, remaining, usbRx)
    }

    ghost predicate Valid()
      reads this, packet
    {
      packet.Length == 4 && Consistent(State())
    }

    /** The statics as the program starts them: a zeroed packet, nothing held, nothing owed. */
    constructor (queued: seq<Packet>)
      ensures Valid() && State() == Initial(queued)
      ensures fresh(packet)
    {
      packet := new byte[4](_ => 0);
      packetOk := false;
      remaining := 0;
      copied := 0;
      usbRx := queued;
    }

    /** The host sends event packets on the MIDI OUT endpoint; the USB stack queues them. */
    method HostSends(ps: seq<Packet>)
      requires Valid()
      modifies this
      ensures Valid()
      ensures State() == old(State()).(fifo := old(usbRx) + ps)
    {
      usbRx := usbRx + ps;
    }

    /**
     * packet_ok = tud_midi_packet_read(packet): pop the next event packet of
     * the receive FIFO into `packet` and record whether there was one; on an
     * empty FIFO the buffer keeps its old contents.
     */
    method ReadPacket()
      requires packet.Length == 4
      modifies this, packet
      ensures State() == DemuxSpec.PacketRead(old(State()))
    {
      if usbRx == [] {
        packetOk := false;
        return;
      }
      var p := usbRx[0];
      forall i | 0 <= i < 4 {
        packet[i] := p[i];
      }
      assert packet[..] == p;
      usbRx := usbRx[1..];
      packetOk := true;
    }

    /**
     * tud_midi_demux_stream_read(&cable, buffer, bufsize): copies into the
     * front of the buffer the payload bytes of consecutive packets on one
     * cable and returns their number and the cable (None when *cable_num is
     * not written); the rest of the buffer is untouched.
     */
    method Read(buffer: array<byte>, bufsize: nat) returns (n: nat, cable: Option<nat>)
      requires Valid() && buffer != packet && bufsize <= buffer.Length
      modifies this, packet, buffer
      ensures Valid()
      ensures var o := ReadSpec(old(State()), bufsize);
        && State() == o.next && n == o.count && cable == o.cable
        && |o.written| <= bufsize
        && buffer[..] == o.written + old(buffer[..])[|o.written|..]
    {
      ghost var s0 := State();
      ReadBounded(s0, bufsize);
      if packetOk && remaining > 0 {
        n, cable := Resume(buffer, bufsize);
        return;
      }
      if !packetOk {
        // need to read a packet and find its cable number
        ReadPacket();
      }
      if !packetOk {
        return 0, None;
      }
      var current: nat := packet[0] as int / 16;
      cable := Some(current);
      assert ReadSpec(s0, bufsize) == StreamLoop(State(), current, bufsize, []);
      StreamLoopBounded(State(), current, bufsize, []);
      n := StreamRun(buffer, bufsize, 0, current, State(), []);
    }

    /**
     * The resume path of tud_midi_demux_stream_read (c:39-59): the owed tail
     * of the held payload is copied first, from offset 1 + stream_total - owed;
     * if everything owed fitted, the next packet is read and, when it is on
     * the same cable, the copy loop carries on after the copied bytes.
     */
    method Resume(buffer: array<byte>, bufsize: nat) returns (n: nat, cable: Option<nat>)
      requires Valid() && buffer != packet && bufsize <= buffer.Length
      requires packetOk && remaining > 0
      modifies this, packet, buffer
      ensures packet.Length == 4
      ensures var o := ReadSpec(old(State()), bufsize);
        && State() == o.next && n == o.count && cable == o.cable
        && |o.written| <= buffer.Length
        && buffer[..] == o.written + old(buffer[..])[|o.written|..]
    {
      ghost var s0 := State();
      ghost var b0 := buffer[..];
      ghost var result := ReadSpec(s0, bufsize);
      var current: nat := packet[0] as int / 16;
      var k := DeliverOwed(buffer, bufsize);
      ghost var w := s0.packet[1 + s0.copied..1 + s0.copied + k];
      cable := Some(current);
      if remaining > 0 {
        // still could not fit all owed bytes in the buffer
        assert result == ReadResult(k, cable, w, State()) by {
          ReadSpecResumes(s0, bufsize);
        }
        return k, cable;
      }
      copied := 0;
      assert State() == s0.(copied := 0, remaining := 0);
      ReadPacket();
      ghost var s1 := State();
      var next: nat := packet[0] as int / 16;
      if !packetOk || next != current {
        // no packet, or the new packet switches cable number
        assert result == ReadResult(k, cable, w, s1) by {
          ReadSpecResumes(s0, bufsize);
        }
        return k, cable;
      }
      assert result == StreamLoop(s1, current, bufsize, w) by {
        ReadSpecResumes(s0, bufsize);
      }
      assert buffer[..k] == w;
      StreamLoopBounded(s1, current, bufsize, w);
      n := StreamRun(buffer, bufsize, k, current, s1, w);
      SpliceSuffix(b0, w, |result.written|);
    }

    /**
     * The start of the resume path (c:42-46): copy as many owed payload bytes
     * as fit to the front of the buffer and move them from owed to delivered.
     */
    method DeliverOwed(buffer: array<byte>, bufsize: nat) returns (k: nat)
      requires Valid() && buffer != packet && bufsize <= buffer.Length
      requires packetOk && remaining > 0
      modifies this, buffer
      ensures k == Min(old(remaining), bufsize)
      ensures State() == old(State()).(copied := old(copied) + k, remaining := old(remaining) - k)
      ensures buffer[..] == old(packet[1 + copied..1 + copied + k]) + old(buffer[..])[k..]
    {
      var total := Classify(packet[0] as int % 16).length;
      k := Min(remaining, bufsize);
      Memcpy(buffer, 0, packet, 1 + total - remaining, k);
      copied, remaining := copied + k, remaining - k;
    }

    /**
     * The copy loop of tud_midi_demux_stream_read (c:66-118), entered with
     * nread0 bytes already in the buffer and *cable_num == cable.
     */
    method StreamRun(buffer: array<byte>, bufsize: nat, nread0: nat, cable: nat,
                     ghost s0: DemuxState, ghost written: seq<byte>) returns (n: nat)
      requires Valid() && buffer != packet && bufsize <= buffer.Length
      requires s0 == State() && remaining == 0 && nread0 <= bufsize
      requires written == buffer[..nread0]
      modifies this, packet, buffer
      ensures packet.Length == 4
      ensures var o := StreamLoop(s0, cable, bufsize, written);
        && State() == o.next && n == o.count
        && |o.written| <= buffer.Length
        && buffer[..] == o.written + old(buffer[..])[|o.written|..]
    {
      ghost var b0 := buffer[..];
      ghost var w := written;
      ghost var result := StreamLoop(s0, cable, bufsize, w);
      var nread: nat := nread0;
      var current: nat := packet[0] as int / 16;
      while packetOk && current == cable
        invariant packet.Length == 4 && remaining == 0 && copied == 0
        invariant nread <= bufsize && current == Cable(packet[..])
        invariant |w| == nread && buffer[..] == w + b0[nread..]
        invariant result == StreamLoop(State(), cable, bufsize, w)
        decreases |usbRx|, packetOk
      {
        ghost var s := State();
        match Classify(packet[0] as int % 16)
        case Reserved =>
          // reserved CIN: skip this packet and report nothing
          packetOk := false;
          assert result == ReadResult(0, Some(cable), w, State()) by {
            StreamLoopStep(s, cable, bufsize, w);
          }
          return 0;
        case Data(total) =>
          var byteCount := TakePayload(buffer, bufsize, nread, total, w, b0);
          ghost var chunk := s.packet[1..1 + byteCount];
          if total > byteCount {
            assert result == ReadResult(bufsize, Some(cable), w + chunk, State()) by {
              LoopTruncatesStep(s, cable, bufsize, w);
            }
            return nread + byteCount;
          }
          assert result == StreamLoop(State(), cable, bufsize, w + chunk) by {
            StreamLoopStep(s, cable, bufsize, w);
          }
          w := w + chunk;
          nread := nread + byteCount;
          current := packet[0] as int / 16;
      }
      assert result == ReadResult(nread, Some(cable), w, State()) by {
        StreamLoopStep(State(), cable, bufsize, w);
      }
      n := nread;
    }

    /**
     * One pass of the copy loop over a held data packet (c:100-116): copy
     * what fits of its payload after the first nread bytes; if it did not all
     * fit, record how many bytes are owed, otherwise read the next packet.
     */
    method TakePayload(buffer: array<byte>, bufsize: nat, nread: nat, total: nat,
                       ghost w: seq<byte>, ghost b0: seq<byte>) returns (byteCount: nat)
      requires packet.Length == 4 && buffer != packet && nread <= bufsize <= buffer.Length
      requires packetOk && remaining == 0 && copied == 0
      requires IsData(packet[..]) && total == Classify(CodeIndex(packet[..])).length
      requires |w| == nread && |b0| == buffer.Length && buffer[..] == w + b0[nread..]
      modifies this, packet, buffer
      ensures packet.Length == 4 && byteCount == Min(total, bufsize - nread)
      ensures buffer[..] == (w + old(packet[1..1 + byteCount])) + b0[nread + byteCount..]
      ensures total > byteCount ==>
        State() == old(State()).(copied := byteCount, remaining := total - byteCount)
      ensures total <= byteCount ==> State() == DemuxSpec.PacketRead(old(State()))
    {
      byteCount := Min(total, bufsize - nread);
      ghost var chunk := packet[1..1 + byteCount];
      Memcpy(buffer, nread, packet, 1, byteCount);
      Splice(b0, w, chunk);
      if total > byteCount {
        // ran out of space: record how many bytes are owed
        copied, remaining := byteCount, total - byteCount;
        return;
      }
      // try to read the next packet; if none is available packet_ok becomes false
      ReadPacket();
    }
  }

  /** A buffer holding `w` over `b0` agrees with `b0` from any index past `w`. */
  lemma SpliceSuffix(b0: seq<byte>, w: seq<byte>, i: nat)
    requires |w| <= i <= |b0|
    ensures (w + b0[|w|..])[i..] == b0[i..]
  {
  }

  /** Copying `chunk` into a buffer holding `w` over `b0` gives `w + chunk` over `b0`. */
  lemma Splice(b0: seq<byte>, w: seq<byte>, chunk: seq<byte>)
    requires |w| + |chunk| <= |b0|
    ensures var b := w + b0[|w|..];
      b[..|w|] + chunk + b[|w| + |chunk|..] == (w + chunk) + b0[|w| + |chunk|..]
  {
    var b := w + b0[|w|..];
    assert b[..|w|] == w;
    assert b[|w| + |chunk|..] == b0[|w| + |chunk|..];
  }
}
