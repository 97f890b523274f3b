/**
 * The resume path of tud_midi_demux_stream_read exactly as its statements
 * compute (midi_device_multistream.c:42-46), in the widths the code uses:
 * packet_bytes_to_stream is a uint8_t, nread a uint32_t.
 *
 *   n       = min(owed, bufsize)            (c:42, the uint8_t cast is a no-op)
 *   copy n bytes from packet + 4 - n        (c:43)
 *   nread   = n + owed                      (c:45)
 *   owed'   = (uint8_t)(owed - nread)       (c:46)
 *   return nread when owed' > 0             (c:48-51)
 *
 * The lemmas show where this departs from what the comments intend (return
 * the bytes copied, owe owed - n, copy the next owed bytes): the count is too
 * large, the owed counter wraps to 256 - n, the copy offset is right only for
 * 3-byte payloads, and from the second call on the offset leaves the packet.
 * The model elsewhere uses the intended update (DemuxSpec.ReadSpec).
 */
module ResumeAsWritten {
  import opened UsbMidi
  import opened DemuxSpec

  /** What one resume step does: copy `count` bytes from packet offset `from`, return `returned`, owe `owed`. */
  datatype ResumeStep = ResumeStep(from: int, count: nat, returned: nat, owed: nat)

  /** The uint8_t truncation of a C integer value. */
  function U8(x: int): (r: nat)
    ensures r < 256 && (0 <= x < 256 ==> r == x)
  {
    x % 256
  }

  /** The resume statements c:42-46 for an owed count (a uint8_t) and a buffer size. */
  function Resume(owed: nat, bufsize: nat): ResumeStep
    requires owed < 256
  {
    var n := U8(Min(owed, bufsize));
    var nread := n + owed;
    ResumeStep(4 - n, n, nread, U8(owed - nread))
  }

  /**
   * With a non-empty buffer, the call returns more than it copied (the bytes
   * copied plus the old owed count) and the owed count wraps around to
   * 256 - n instead of owed - n; so the call always reports bytes still owed.
   */
  lemma ResumeOvercountsAndWraps(owed: nat, bufsize: nat)
    requires 0 < owed < 256 && bufsize > 0
    ensures var r := Resume(owed, bufsize);
      && r.count == Min(owed, bufsize)
      && r.returned == r.count + owed > r.count
      && r.owed == 256 - r.count
      && r.owed != owed - r.count
      && r.owed > 0
  {
  }

  /**
   * The copy offset 4 - n is where the owed bytes are (1 + copied) exactly
   * when the payload is 3 bytes long and all that is owed fits the buffer:
   * for 1- and 2-byte payloads, or when the buffer takes only part of what
   * is owed, the call copies the wrong bytes of the packet.
   */
  lemma ResumeOffsetRightOnlyForThreeBytes(p: Packet, copied: nat, owed: nat, bufsize: nat)
    requires IsData(p) && owed > 0 && copied + owed == |Payload(p)|
    ensures Resume(owed, bufsize).from == 1 + copied <==> |Payload(p)| == 3 && owed <= bufsize
  {
  }

  /**
   * A program change (cable 0, CIN C, payload C0 05) read with a 1-byte
   * buffer: the first call copies C0 and owes one byte; the resume step then
   * copies packet[3] = 00 where the owed byte is 05, returns 2 for one copied
   * byte, and leaves 255 bytes owed.
   */
  lemma ProgramChangeResumesWrongByte()
    ensures var p: Packet := [0x0C, 0xC0, 0x05, 0x00];
      var o := ReadSpec(Initial([p]), 1);
      && o.count == 1 && o.written == [0xC0] && o.next.remaining == 1
      && var r := Resume(o.next.remaining, 1);
         && r.from == 3 && p[r.from] == 0x00
         && Payload(p)[1] == 0x05
         && r.returned == 2 && r.owed == 255
  {
    var p: Packet := [0x0C, 0xC0, 0x05, 0x00];
    assert [p] + [] == [p];
    TruncatedPayloadCompletes(Initial([p]), p, [], 1, 1);
  }

  /**
   * For every buffer size b with 0 < b < 128, owing 256 - b bytes is a fixed
   * point of the resume step: each call returns 256 and owes 256 - b again,
   * copying from before the start of the packet when b > 4.  A caller that
   * reads until the call returns 0 (poll_usb_rx) never stops.
   */
  lemma ResumeFixedPoint(b: nat)
    requires 0 < b < 128
    ensures var r := Resume(256 - b, b);
      && r.owed == 256 - b && r.returned == 256 && r.count == b
      && (b > 4 ==> r.from < 0)
  {
  }

  /**
   * The path into the fixed point with poll_usb_rx's 48-byte buffer: a note-on
   * that finds the buffer full (after sixteen 3-byte payloads) owes 3 bytes;
   * the next call returns 6 and owes 253; the next copies 48 bytes from 44
   * bytes before the packet, returns 301 and owes 208 = 256 - 48, from where
   * every call returns 256.
   */
  lemma FullBufferNeverDrains()
    ensures Resume(3, 48) == ResumeStep(1, 3, 6, 253)
    ensures Resume(253, 48) == ResumeStep(-44, 48, 301, 208)
    ensures Resume(208, 48) == ResumeStep(-44, 48, 256, 208)
  {
  }
}
