/**
 * What one pass of the adapter's MIDI task does, on values (main.c:158-243).
 *
 * The adapter has one hardware UART MIDI port and four PIO UART MIDI ports.
 * Bytes received on the hardware UART go to the host on virtual cable 0,
 * bytes received on PIO port k on cable k + 2.  Bytes the host sends are
 * demultiplexed by cable: cables 0 and 1 go to the hardware UART, cable c > 1
 * to PIO port c - 2.  Whatever a queue does not accept is dropped and the
 * shortfall is logged.  A `World` holds the state every step reads or
 * changes: the ports' driver queues, the USB IN sink, the demultiplexer and
 * the drop log.
 */
module RouterSpec {
  import opened UsbMidi
  import opened DemuxSpec
  import opened Ports

  /** The size of every local receive buffer (uint8_t rx[48]). */
  const RX_BUFFER_SIZE: nat := 48

  /** The number of PIO MIDI ports (midi_uarts[4]). */
  const PIO_PORT_COUNT: nat := 4

  /** A serial MIDI port: the hardware UART or PIO UART `index`. */
  datatype PortId = HardwareUart | PioUart(index: nat)

  predicate IsPort(p: PortId) {
    p.PioUart? ==> p.index < PIO_PORT_COUNT
  }

  /** The virtual cable on which bytes received on a port travel to the host. */
  function RxCable(p: PortId): nat {
    match p
    case HardwareUart => 0
    case PioUart(k) => k + 2
  }

  /**
   * The port a cable from the host is written to: cables 0 and 1 go to the
   * hardware UART, cable c > 1 to PIO port c - 2 when there is one, and no
   * port otherwise.
   */
  function Route(cable: nat): (r: Option<PortId>)
    ensures r.Some? <==> cable < 2 + PIO_PORT_COUNT
    ensures r.Some? ==> IsPort(r.value)
    ensures r == Some(HardwareUart) <==> cable < 2
  {
    if cable > 1 then
      if cable - 2 < PIO_PORT_COUNT then Some(PioUart(cable - 2)) else None
    else
      Some(HardwareUart)
  }

  /**
   * Receive cables and routes agree: bytes the host sends on a port's receive
   * cable go back to that port, and the only other cable reaching a port is
   * cable 1, which shares the hardware UART with cable 0.
   */
  lemma RouteRoundTrip(p: PortId, cable: nat)
    requires IsPort(p)
    ensures Route(RxCable(p)) == Some(p)
    ensures Route(cable) == Some(p) <==> cable == RxCable(p) || (cable == 1 && p == HardwareUart)
  {
    if p.PioUart? && Route(cable) == Some(p) {
      assert cable > 1;
    }
  }

  /** Where dropped bytes were lost: received on a port, or sent by the host on a cable. */
  datatype DropSite = ReceivedOn(port: PortId) | SentTo(cable: nat)

  /** One "Dropped n bytes" log line. */
  datatype Drop = Drop(site: DropSite, count: nat)

  /** The log line written when a queue took `accepted` of `offered` bytes, if any. */
  function Shortfall(site: DropSite, offered: nat, accepted: nat): seq<Drop>
    requires accepted <= offered
  {
    if accepted != offered then [Drop(site, offered - accepted)] else []
  }

  /** The bytes logged as dropped, on the way out to the ports (`outbound`) or in to the host. */
  function Dropped(drops: seq<Drop>, outbound: bool): nat
    decreases |drops|
  {
    if drops == [] then 0
    else
      var last := drops[|drops| - 1];
      Dropped(drops[..|drops| - 1], outbound) + (if last.site.SentTo? == outbound then last.count else 0)
  }

  /** Logging a shortfall adds exactly the bytes not accepted to its direction's count. */
  lemma ShortfallCounted(drops: seq<Drop>, site: DropSite, offered: nat, accepted: nat, outbound: bool)
    requires accepted <= offered
    ensures Dropped(drops + Shortfall(site, offered, accepted), outbound)
         == Dropped(drops, outbound) + (if site.SentTo? == outbound then offered - accepted else 0)
  {
    if accepted != offered {
      assert (drops + Shortfall(site, offered, accepted))[..|drops|] == drops;
    } else {
      assert drops + Shortfall(site, offered, accepted) == drops;
    }
  }

  datatype World = World(
    uart: PortState,          // the hardware UART driver (midi_uart_instance)
    pios: seq<PortState>,     // the PIO UART drivers (midi_uarts[0..3])
    usb: UsbSink,             // the USB MIDI stream towards the host
    demux: DemuxState,        // the USB MIDI OUT demultiplexer
    drops: seq<Drop>)         // the drop warnings logged so far

  predicate WorldValid(w: World) {
    && |w.pios| == PIO_PORT_COUNT
    && PortValid(w.uart)
    && (forall k :: 0 <= k < |w.pios| ==> PortValid(w.pios[k]))
    && SinkValid(w.usb)
    && Consistent(w.demux)
  }

  function PortOf(w: World, p: PortId): PortState
    requires |w.pios| == PIO_PORT_COUNT && IsPort(p)
  {
    match p
    case HardwareUart => w.uart
    case PioUart(k) => w.pios[k]
  }

  /** `w` with port `p`'s driver state replaced and everything else kept. */
  function WithPort(w: World, p: PortId, ps: PortState): (r: World)
    requires |w.pios| == PIO_PORT_COUNT && IsPort(p)
    ensures |r.pios| == PIO_PORT_COUNT && PortOf(r, p) == ps
    ensures forall q :: IsPort(q) && q != p ==> PortOf(r, q) == PortOf(w, q)
    ensures r.usb == w.usb && r.demux == w.demux && r.drops == w.drops
  {
    match p
    case HardwareUart => w.(uart := ps)
    case PioUart(k) => w.(pios := w.pios[k := ps])
  }

  /** The bytes waiting in the transmit queues of all five ports. */
  function TxQueued(w: World): nat
    requires |w.pios| == PIO_PORT_COUNT
  {
    |w.uart.tx| + |w.pios[0].tx| + |w.pios[1].tx| + |w.pios[2].tx| + |w.pios[3].tx|
  }

  /** The bytes put on the DIN outputs of all five ports. */
  function WireTotal(w: World): nat
    requires |w.pios| == PIO_PORT_COUNT
  {
    |w.uart.wire| + |w.pios[0].wire| + |w.pios[1].wire| + |w.pios[2].wire| + |w.pios[3].wire|
  }

  // ----- Host-bound direction: poll_midi_uart_rx and poll_midi_uarts_rx -----

  /**
   * Poll up to RX_BUFFER_SIZE bytes from port `p` and, when they are any and
   * the device is connected, write them to the host on the port's cable,
   * logging what the stream does not accept.
   */
  function ForwardRx(w: World, p: PortId, connected: bool): (r: World)
    requires WorldValid(w) && IsPort(p)
    ensures WorldValid(r)
  {
    var polled := PollRx(PortOf(w, p), RX_BUFFER_SIZE);
    var w1 := WithPort(w, p, polled.port);
    var nread := |polled.bytes|;
    if nread > 0 && connected then
      var sent := StreamWrite(w.usb, RxCable(p), polled.bytes);
      w1.(usb := sent.sink, drops := w.drops + Shortfall(ReceivedOn(p), nread, sent.accepted))
    else
      w1
  }

  /**
   * The port gives up its oldest min(48, queued) received bytes whether or not
   * the device is connected.  Connected, a prefix of them reaches the host
   * tagged with the port's cable and the rest is counted as dropped in the
   * host-bound direction; not connected, the host sink and the log are
   * untouched, so those bytes are discarded without a trace.  No other port,
   * the demultiplexer and the outbound drop count are unchanged.
   */
  lemma ForwardRxAccounts(w: World, p: PortId, connected: bool)
    requires WorldValid(w) && IsPort(p)
    ensures var r := ForwardRx(w, p, connected);
      var before := PortOf(w, p).rx;
      var taken := before[..Min(RX_BUFFER_SIZE, |before|)];
      && PortOf(r, p) == PortOf(w, p).(rx := before[|taken|..])
      && (forall q :: IsPort(q) && q != p ==> PortOf(r, q) == PortOf(w, q))
      && r.demux == w.demux
      && Dropped(r.drops, true) == Dropped(w.drops, true)
      && (!connected ==> r.usb == w.usb && r.drops == w.drops)
      && (connected ==>
            && |w.usb.queue| <= |r.usb.queue|
            && var accepted := |r.usb.queue| - |w.usb.queue|;
               && accepted <= |taken|
               && r.usb.queue == w.usb.queue + Tagged(RxCable(p), taken[..accepted])
               && Dropped(r.drops, false) == Dropped(w.drops, false) + |taken| - accepted)
  {
    var polled := PollRx(PortOf(w, p), RX_BUFFER_SIZE);
    var nread := |polled.bytes|;
    if nread > 0 && connected {
      var sent := StreamWrite(w.usb, RxCable(p), polled.bytes);
      ShortfallCounted(w.drops, ReceivedOn(p), nread, sent.accepted, false);
      ShortfallCounted(w.drops, ReceivedOn(p), nread, sent.accepted, true);
    }
  }

  /** The first `n` turns of the loop of poll_midi_uarts_rx: PIO ports 0 .. n - 1 in order. */
  function ForwardPiosRx(w: World, connected: bool, n: nat): (r: World)
    requires WorldValid(w) && n <= PIO_PORT_COUNT
    ensures WorldValid(r)
    decreases n
  {
    if n == 0 then w else ForwardRx(ForwardPiosRx(w, connected, n - 1), PioUart(n - 1), connected)
  }

  /**
   * After the first `n` turns, PIO ports 0 .. n - 1 have each been polled
   * once, the others and the hardware UART are as they were, and nothing
   * reached the host or the log while not connected.
   */
  lemma {:induction false} ForwardPiosRxPolls(w: World, connected: bool, n: nat)
    requires WorldValid(w) && n <= PIO_PORT_COUNT
    ensures var r := ForwardPiosRx(w, connected, n);
      && r.uart == w.uart && r.demux == w.demux
      && Dropped(r.drops, true) == Dropped(w.drops, true)
      && (!connected ==> r.usb == w.usb && r.drops == w.drops)
      && (forall k :: 0 <= k < PIO_PORT_COUNT ==>
            r.pios[k] == if k < n then PollRx(w.pios[k], RX_BUFFER_SIZE).port else w.pios[k])
    decreases n
  {
    if n > 0 {
      var m := ForwardPiosRx(w, connected, n - 1);
      ForwardPiosRxPolls(w, connected, n - 1);
      ForwardRxAccounts(m, PioUart(n - 1), connected);
      var r := ForwardRx(m, PioUart(n - 1), connected);
      forall k | 0 <= k < PIO_PORT_COUNT
        ensures r.pios[k] == if k < n then PollRx(w.pios[k], RX_BUFFER_SIZE).port else w.pios[k]
      {
        if k != n - 1 {
          assert PortOf(r, PioUart(k)) == PortOf(m, PioUart(k));
        }
      }
      assert PortOf(r, HardwareUart) == PortOf(m, HardwareUart);
    }
  }

  // ----- Port-bound direction: poll_usb_rx -----

  /**
   * Write one demultiplexed chunk to the port its cable routes to and log
   * what the port does not accept; a chunk on a cable with no port is
   * dropped whole.
   */
  function Deliver(w: World, cable: nat, chunk: seq<byte>): (r: World)
    requires WorldValid(w)
    ensures WorldValid(r)
    ensures r.usb == w.usb && r.demux == w.demux
  {
    match Route(cable)
    case None =>
      w.(drops := w.drops + Shortfall(SentTo(cable), |chunk|, 0))
    case Some(p) =>
      var written := WriteTx(PortOf(w, p), chunk);
      WithPort(w, p, written.port).(drops := w.drops + Shortfall(SentTo(cable), |chunk|, written.accepted))
  }

  /**
   * Every byte of a chunk is either queued for transmission or counted as
   * dropped on the way out; the host-bound drop count and the receive
   * queues are untouched.
   */
  lemma DeliverAccounts(w: World, cable: nat, chunk: seq<byte>)
    requires WorldValid(w)
    ensures var r := Deliver(w, cable, chunk);
      && TxQueued(r) + Dropped(r.drops, true) == TxQueued(w) + Dropped(w.drops, true) + |chunk|
      && Dropped(r.drops, false) == Dropped(w.drops, false)
      && WireTotal(r) == WireTotal(w)
  {
    match Route(cable)
    case None =>
      ShortfallCounted(w.drops, SentTo(cable), |chunk|, 0, true);
      ShortfallCounted(w.drops, SentTo(cable), |chunk|, 0, false);
    case Some(p) =>
      var written := WriteTx(PortOf(w, p), chunk);
      ShortfallCounted(w.drops, SentTo(cable), |chunk|, written.accepted, true);
      ShortfallCounted(w.drops, SentTo(cable), |chunk|, written.accepted, false);
      var r := Deliver(w, cable, chunk);
      assert PortOf(r, p).tx == PortOf(w, p).tx + chunk[..written.accepted];
      match p
      case HardwareUart =>
        assert r.pios == w.pios;
      case PioUart(k) =>
        assert r.uart == w.uart;
        assert forall j :: 0 <= j < PIO_PORT_COUNT && j != k ==> r.pios[j] == w.pios[j];
  }

  /**
   * A chunk lands only on its cable's port, appended in order after what the
   * port already queued (as much of it as fits); every other port keeps its
   * state.
   */
  lemma DeliverRoutes(w: World, cable: nat, chunk: seq<byte>, q: PortId)
    requires WorldValid(w) && IsPort(q)
    ensures var r := Deliver(w, cable, chunk);
      && (Route(cable) != Some(q) ==> PortOf(r, q) == PortOf(w, q))
      && (Route(cable) == Some(q) ==>
            && |PortOf(w, q).tx| <= |PortOf(r, q).tx|
            && PortOf(r, q) == PortOf(w, q).(tx := PortOf(r, q).tx)
            && PortOf(r, q).tx == PortOf(w, q).tx + chunk[..|PortOf(r, q).tx| - |PortOf(w, q).tx|])
  {
  }

  /** A demultiplexer read with the 48-byte buffer shrinks the backlog by at least what it returns. */
  lemma ReadShrinksBacklog(s: DemuxState)
    requires Consistent(s)
    ensures var o := ReadSpec(s, RX_BUFFER_SIZE);
      && Consistent(o.next)
      && |Backlog(o.next)| + o.count <= |Backlog(s)|
      && (o.count > 0 ==> o.cable.Some? && o.count == |o.written| && o.count <= RX_BUFFER_SIZE)
  {
    ReadConservesBacklog(s, RX_BUFFER_SIZE);
    ReadReturnsWrittenOrZero(s, RX_BUFFER_SIZE);
  }

  /**
   * The loop of poll_usb_rx from a fresh read: read a chunk into the 48-byte
   * buffer and hand it on.  It terminates because every non-zero read takes
   * bytes off the demultiplexer's finite backlog.
   */
  function DrainUsb(w: World): (r: World)
    requires WorldValid(w)
    ensures WorldValid(r)
    decreases |Backlog(w.demux)|, 1
  {
    var o := ReadSpec(w.demux, RX_BUFFER_SIZE);
    ReadShrinksBacklog(w.demux);
    RouteChunks(w.(demux := o.next), o.count, o.cable, o.written)
  }

  /** The loop of poll_usb_rx with `nread` bytes of `chunk` read on `cable`: stop at 0, else deliver and read again. */
  function RouteChunks(w: World, nread: nat, cable: Option<nat>, chunk: seq<byte>): (r: World)
    requires WorldValid(w)
    requires nread > 0 ==> cable.Some? && nread == |chunk|
    ensures WorldValid(r)
    decreases |Backlog(w.demux)| + nread, 0
  {
    if nread == 0 then w else DrainUsb(Deliver(w, cable.value, chunk))
  }

  /**
   * One read of poll_usb_rx into a 48-byte buffer `buf` that held `before`:
   * the rest of the loop is routing the bytes now at the front of the buffer
   * and reading on, and the read has taken at least that many bytes off the
   * backlog.
   */
  lemma ReadIntoBuffer(w: World, n: nat, cable: Option<nat>, buf: seq<byte>, before: seq<byte>)
    requires WorldValid(w) && |before| == RX_BUFFER_SIZE
    requires var o := ReadSpec(w.demux, RX_BUFFER_SIZE);
      n == o.count && cable == o.cable && |o.written| <= |before| && buf == o.written + before[|o.written|..]
    ensures var o := ReadSpec(w.demux, RX_BUFFER_SIZE);
      && Consistent(o.next)
      && n <= |buf| && (n > 0 ==> cable.Some?)
      && |Backlog(o.next)| + n <= |Backlog(w.demux)|
      && DrainUsb(w) == RouteChunks(w.(demux := o.next), n, cable, buf[..n])
  {
    var o := ReadSpec(w.demux, RX_BUFFER_SIZE);
    ReadShrinksBacklog(w.demux);
    if n > 0 {
      assert buf[..n] == o.written;
    }
  }

  /** poll_usb_rx: nothing at all unless connected. */
  function PollUsb(w: World, connected: bool): (r: World)
    requires WorldValid(w)
    ensures WorldValid(r)
  {
    if connected then DrainUsb(w) else w
  }

  /**
   * With no reserved packets about, poll_usb_rx empties the demultiplexer's
   * backlog, and every byte of it is queued on a port or counted as dropped
   * on the way out; nothing is transmitted yet, and the host-bound side (the
   * USB sink and its drop count) is untouched.
   */
  lemma {:induction false} DrainUsbConserves(w: World)
    requires WorldValid(w) && NoReserved(w.demux)
    ensures var r := DrainUsb(w);
      && Backlog(r.demux) == []
      && TxQueued(r) + Dropped(r.drops, true) == TxQueued(w) + Dropped(w.drops, true) + |Backlog(w.demux)|
      && Dropped(r.drops, false) == Dropped(w.drops, false)
      && WireTotal(r) == WireTotal(w)
      && r.usb == w.usb
    decreases |Backlog(w.demux)|
  {
    var o := ReadSpec(w.demux, RX_BUFFER_SIZE);
    ReadZeroMeansIdle(w.demux, RX_BUFFER_SIZE);
    ReadConservesBacklog(w.demux, RX_BUFFER_SIZE);
    ReadReturnsWrittenOrZero(w.demux, RX_BUFFER_SIZE);
    var w1 := w.(demux := o.next);
    if o.count == 0 {
      assert Backlog(o.next) == [];
    } else {
      assert |Backlog(w.demux)| == o.count + |Backlog(o.next)|;
      DeliverAccounts(w1, o.cable.value, o.written);
      DrainUsbConserves(Deliver(w1, o.cable.value, o.written));
    }
  }

  // ----- Transmission: midi_uart_drain_tx_buffer and drain_serial_port_tx_buffers -----

  /** The first `n` turns of drain_serial_port_tx_buffers: PIO ports 0 .. n - 1 transmit everything queued. */
  function DrainPios(w: World, n: nat): (r: World)
    requires WorldValid(w) && n <= PIO_PORT_COUNT
    ensures WorldValid(r)
    decreases n
  {
    if n == 0 then w
    else
      var m := DrainPios(w, n - 1);
      m.(pios := m.pios[n - 1 := DrainTx(m.pios[n - 1])])
  }

  /** After the first `n` turns, PIO ports 0 .. n - 1 have transmitted their queues and nothing else changed. */
  lemma {:induction false} DrainPiosDrains(w: World, n: nat)
    requires WorldValid(w) && n <= PIO_PORT_COUNT
    ensures var r := DrainPios(w, n);
      && r == w.(pios := r.pios)
      && forall k :: 0 <= k < PIO_PORT_COUNT ==> r.pios[k] == if k < n then DrainTx(w.pios[k]) else w.pios[k]
    decreases n
  {
    if n > 0 {
      DrainPiosDrains(w, n - 1);
    }
  }

  /**
   * midi_task: sample the connection once, forward the hardware UART's and
   * then the PIO ports' received bytes to the host, route the host's bytes
   * to the ports, then transmit the hardware UART's queue and the PIO ports'
   * queues.
   */
  function MidiTaskStep(w: World, connected: bool): (r: World)
    requires WorldValid(w)
    ensures WorldValid(r)
  {
    var w1 := ForwardRx(w, HardwareUart, connected);
    var w2 := ForwardPiosRx(w1, connected, PIO_PORT_COUNT);
    var w3 := PollUsb(w2, connected);
    var w4 := w3.(uart := DrainTx(w3.uart));
    DrainPios(w4, PIO_PORT_COUNT)
  }

  /**
   * The host-bound half of a pass (the hardware UART, then PIO ports 0 to 3)
   * changes no transmit queue, no DIN output, no outbound drop count and not
   * the demultiplexer.
   */
  lemma ForwardAllRxKeepsOutbound(w: World, connected: bool)
    requires WorldValid(w)
    ensures var r := ForwardPiosRx(ForwardRx(w, HardwareUart, connected), connected, PIO_PORT_COUNT);
      && r.demux == w.demux
      && Dropped(r.drops, true) == Dropped(w.drops, true)
      && r.uart == PollRx(w.uart, RX_BUFFER_SIZE).port
      && (forall k :: 0 <= k < PIO_PORT_COUNT ==> r.pios[k] == PollRx(w.pios[k], RX_BUFFER_SIZE).port)
      && (!connected ==> r.usb == w.usb && r.drops == w.drops)
  {
    var w1 := ForwardRx(w, HardwareUart, connected);
    ForwardRxAccounts(w, HardwareUart, connected);
    assert forall k :: 0 <= k < PIO_PORT_COUNT ==> w1.pios[k] == PortOf(w1, PioUart(k)) == PortOf(w, PioUart(k));
    ForwardPiosRxPolls(w1, connected, PIO_PORT_COUNT);
  }

  /** The transmitting half of a pass puts every queued byte on its port's DIN output, in order. */
  lemma DrainAllTransmits(w: World)
    requires WorldValid(w)
    ensures var r := DrainPios(w.(uart := DrainTx(w.uart)), PIO_PORT_COUNT);
      && r == w.(uart := DrainTx(w.uart), pios := r.pios)
      && (forall k :: 0 <= k < PIO_PORT_COUNT ==> r.pios[k] == DrainTx(w.pios[k]))
      && TxQueued(r) == 0
      && WireTotal(r) == WireTotal(w) + TxQueued(w)
  {
    DrainPiosDrains(w.(uart := DrainTx(w.uart)), PIO_PORT_COUNT);
  }

  /** After a pass every transmit queue is empty, connected or not. */
  lemma MidiTaskEmptiesTx(w: World, connected: bool)
    requires WorldValid(w)
    ensures var r := MidiTaskStep(w, connected);
      r.uart.tx == [] && forall k :: 0 <= k < PIO_PORT_COUNT ==> r.pios[k].tx == []
  {
    var w3 := PollUsb(ForwardPiosRx(ForwardRx(w, HardwareUart, connected), connected, PIO_PORT_COUNT), connected);
    DrainAllTransmits(w3);
  }

  /**
   * A pass while not connected polls every port once, sends nothing to the
   * host, logs nothing, leaves the demultiplexer alone, and still transmits
   * everything queued for the ports.
   */
  lemma DisconnectedTask(w: World)
    requires WorldValid(w)
    ensures var r := MidiTaskStep(w, false);
      && r.usb == w.usb && r.drops == w.drops && r.demux == w.demux
      && r.uart == DrainTx(PollRx(w.uart, RX_BUFFER_SIZE).port)
      && forall k :: 0 <= k < PIO_PORT_COUNT ==> r.pios[k] == DrainTx(PollRx(w.pios[k], RX_BUFFER_SIZE).port)
  {
    var w2 := ForwardPiosRx(ForwardRx(w, HardwareUart, false), false, PIO_PORT_COUNT);
    ForwardAllRxKeepsOutbound(w, false);
    DrainAllTransmits(w2);
  }

  /**
   * A pass while connected, with no reserved packets from the host: every
   * byte the host had queued for the ports, and every byte already waiting
   * in a transmit queue, is either on a DIN output afterwards or counted as
   * dropped on the way out; the demultiplexer's backlog is empty.
   */
  lemma ConnectedTaskDeliversAll(w: World)
    requires WorldValid(w) && NoReserved(w.demux)
    ensures var r := MidiTaskStep(w, true);
      && Backlog(r.demux) == []
      && TxQueued(r) == 0
      && WireTotal(r) + Dropped(r.drops, true)
         == WireTotal(w) + TxQueued(w) + Dropped(w.drops, true) + |Backlog(w.demux)|
  {
    var w2 := ForwardPiosRx(ForwardRx(w, HardwareUart, true), true, PIO_PORT_COUNT);
    assert w2.demux == w.demux && TxQueued(w2) == TxQueued(w) && WireTotal(w2) == WireTotal(w)
        && Dropped(w2.drops, true) == Dropped(w.drops, true) by {
      ForwardAllRxKeepsOutbound(w, true);
    }
    var w3 := DrainUsb(w2);
    assert Backlog(w3.demux) == [] && WireTotal(w3) == WireTotal(w2)
        && TxQueued(w3) + Dropped(w3.drops, true) == TxQueued(w2) + Dropped(w2.drops, true) + |Backlog(w2.demux)| by {
      DrainUsbConserves(w2);
    }
    var r := DrainPios(w3.(uart := DrainTx(w3.uart)), PIO_PORT_COUNT);
    assert r.demux == w3.demux && r.drops == w3.drops && TxQueued(r) == 0
        && WireTotal(r) == WireTotal(w3) + TxQueued(w3) by {
      DrainAllTransmits(w3);
    }
  }

  // ----- The routing of cables 6 to 15 as written -----

  /** The index poll_usb_rx uses for a cable above 1 (midi_uarts[cable_num - 2]). */
  function PioSlotAsWritten(cable: nat): int {
    cable - 2
  }

  /**
   * Every cable from 6 to 15 takes the cable_num > 1 branch and indexes
   * midi_uarts past its last element.
   */
  lemma HighCablesIndexPastPioArray(cable: nat)
    requires 2 + PIO_PORT_COUNT <= cable < 16
    ensures cable > 1 && PioSlotAsWritten(cable) >= PIO_PORT_COUNT
    ensures Route(cable) == None
  {
  }

  /**
   * A host can reach that branch: a note-on on cable 6 (header 69) is
   * returned by the demultiplexer as 3 bytes on cable 6, which poll_usb_rx
   * passes to midi_uarts[4].
   */
  lemma CableSixReachesMissingPort()
    ensures var o := ReadSpec(Initial([[0x69, 0x90, 0x40, 0x7F]]), RX_BUFFER_SIZE);
      && o.count == 3 && o.cable == Some(6)
      && PioSlotAsWritten(o.cable.value) == PIO_PORT_COUNT
  {
    var p: Packet := [0x69, 0x90, 0x40, 0x7F];
    assert CodeIndex(p) == 9 && Cable(p) == 6;
    assert AllOnCable([p], 6);
    assert Payloads([p]) == Payload(p) + Payloads([]);
    assert Payloads([p]) == [0x90, 0x40, 0x7F];
    ReadDeliversRun(Initial([p]), [p], [], 6, RX_BUFFER_SIZE);
    assert [p] + [] == [p];
  }

  /** In the model, such a chunk is dropped whole and logged, and no port changes. */
  lemma HighCableChunkDropped(w: World, cable: nat, chunk: seq<byte>)
    requires WorldValid(w) && 2 + PIO_PORT_COUNT <= cable && |chunk| > 0
    ensures Deliver(w, cable, chunk) == w.(drops := w.drops + [Drop(SentTo(cable), |chunk|)])
  {
  }
}
