/**
 * The drivers main.c talks to, as abstract bounded byte queues: a serial
 * MIDI port (the hardware UART or one PIO UART) with a receive queue filled
 * from its DIN input, a transmit queue of bounded capacity and the bytes it
 * has put on its DIN output; and the USB MIDI stream sink, a bounded queue
 * of cable-tagged bytes for the Bulk IN endpoint.  Every write returns the
 * count it accepted and drops the rest, the way midi_uart_write_tx_buffer,
 * pio_midi_uart_write_tx_buffer and tud_midi_stream_write report a short
 * write.
 */
module Ports {
  import opened UsbMidi

  /** One serial MIDI port's driver state. */
  datatype PortState = PortState(
    rx: seq<byte>,        // received from the DIN input, not yet polled
    tx: seq<byte>,        // waiting to be transmitted
    txCapacity: nat,      // room of the transmit buffer
    wire: seq<byte>)      // already transmitted on the DIN output

  predicate PortValid(p: PortState) {
    |p.tx| <= p.txCapacity
  }

  datatype Polled = Polled(port: PortState, bytes: seq<byte>)

  /** *_poll_rx_buffer(port, buf, max): hand out up to `max` received bytes, oldest first. */
  function PollRx(p: PortState, max: nat): (r: Polled)
    ensures |r.bytes| == Min(max, |p.rx|)
    ensures r.bytes + r.port.rx == p.rx
    ensures r.port == p.(rx := r.port.rx)
  {
    var n := Min(max, |p.rx|);
    assert p.rx[..n] + p.rx[n..] == p.rx;
    Polled(p.(rx := p.rx[n..]), p.rx[..n])
  }

  datatype Written = Written(port: PortState, accepted: nat)

  /**
   * *_write_tx_buffer(port, bytes, n): queue as many bytes as there is room
   * for, in order, and return how many were taken; the rest are dropped.
   */
  function WriteTx(p: PortState, bytes: seq<byte>): (r: Written)
    requires PortValid(p)
    ensures PortValid(r.port)
    ensures r.accepted <= |bytes|
    ensures r.port == p.(tx := p.tx + bytes[..r.accepted])
    ensures r.accepted == |bytes| <==> |p.tx| + |bytes| <= p.txCapacity
    ensures r.accepted < |bytes| ==> |r.port.tx| == p.txCapacity
  {
    var n := Min(|bytes|, p.txCapacity - |p.tx|);
    Written(p.(tx := p.tx + bytes[..n]), n)
  }

  /** *_drain_tx_buffer(port): transmit everything queued. */
  function DrainTx(p: PortState): (r: PortState)
    ensures r.tx == [] && r.wire == p.wire + p.tx
    ensures r.rx == p.rx && r.txCapacity == p.txCapacity
  {
    p.(tx := [], wire := p.wire + p.tx)
  }

  /** The USB MIDI stream sink: cable-tagged bytes waiting for the Bulk IN endpoint. */
  datatype UsbSink = UsbSink(queue: seq<CableByte>, capacity: nat)

  predicate SinkValid(u: UsbSink) {
    |u.queue| <= u.capacity
  }

  datatype Sent = Sent(sink: UsbSink, accepted: nat)

  /**
   * tud_midi_stream_write(cable, bytes, n): queue as many of the bytes as fit,
   * each tagged with the cable, and return how many were taken.
   */
  function StreamWrite(u: UsbSink, cable: nat, bytes: seq<byte>): (r: Sent)
    requires SinkValid(u)
    ensures SinkValid(r.sink) && r.sink.capacity == u.capacity
    ensures r.accepted <= |bytes|
    ensures r.sink.queue == u.queue + Tagged(cable, bytes[..r.accepted])
    ensures r.accepted == |bytes| <==> |u.queue| + |bytes| <= u.capacity
  {
    var n := Min(|bytes|, u.capacity - |u.queue|);
    Sent(u.(queue := u.queue + Tagged(cable, bytes[..n])), n)
  }
}
