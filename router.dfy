/**
 * The MIDI task of main.c as the code runs it: the port drivers, the USB
 * stream and the drop log are the adapter's state, and each poll or drain
 * function is a method that updates it.  Each method is proved against its
 * RouterSpec function, so the lemmas proved there (routing, accounting,
 * termination, gating on the connection) hold of the methods.
 */
module Router {
  import opened UsbMidi
  import opened DemuxSpec
  import opened Ports
  import opened RouterSpec
  import opened Demux

  class Adapter {
    /** the hardware UART driver (midi_uart_instance) */
    var uart: PortState
    /** the four PIO UART drivers (midi_uarts) */
    var pios: seq<PortState>
    /** the USB MIDI stream towards the host */
    var usb: UsbSink
    /** the USB MIDI OUT demultiplexer */
    const demux: Demultiplexer
    /** the drop warnings logged so far */
    var drops: seq<Drop>

    ghost function View(): World
      reads this, demux, demux.packet
      requires demux.packet.Length == 4
    {
      World(uart, pios, usb, demux.State(), drops)
    }

    ghost predicate Valid()
      reads this, demux, demux.packet
    {
      demux.Valid() && WorldValid(View())
    }

    /** The adapter after start-up: the drivers as given, a fresh demultiplexer, an empty log. */
    constructor (uart0: PortState, pios0: seq<PortState>, usb0: UsbSink, queued: seq<Packet>)
      requires PortValid(uart0) && SinkValid(usb0)
      requires |pios0| == PIO_PORT_COUNT && forall k :: 0 <= k < |pios0| ==> PortValid(pios0[k])
      ensures Valid() && View() == World(uart0, pios0, usb0, Initial(queued), [])
    {
      uart := uart0;
      pios := pios0;
      usb := usb0;
      demux := new Demultiplexer(queued);
      drops := [];
    }

    /** poll_midi_uart_rx: forward what the hardware UART received to the host on cable 0. */
    method PollMidiUartRx(connected: bool)
      requires Valid()
      modifies this
      ensures Valid() && View() == ForwardRx(old(View()), HardwareUart, connected)
    {
      var polled := PollRx(uart, RX_BUFFER_SIZE);
      uart := polled.port;
      var nread := |polled.bytes|;
      if nread > 0 && connected {
        var sent := StreamWrite(usb, 0, polled.bytes);
        usb := sent.sink;
        if sent.accepted != nread {
          drops := drops + [Drop(ReceivedOn(HardwareUart), nread - sent.accepted)];
        }
      }
    }

    /** poll_midi_uarts_rx: forward what PIO port k received to the host on cable k + 2, for k = 0 .. 3. */
    method PollMidiUartsRx(connected: bool)
      requires Valid()
      modifies this
      ensures Valid() && View() == ForwardPiosRx(old(View()), connected, PIO_PORT_COUNT)
    {
      ghost var w0 := View();
      for k := 0 to PIO_PORT_COUNT
        invariant Valid() && View() == ForwardPiosRx(w0, connected, k)
      {
        PollPioRx(k, connected);
      }
    }

    /** One turn of the loop of poll_midi_uarts_rx: forward what PIO port k received on cable k + 2. */
    method PollPioRx(k: nat, connected: bool)
      requires Valid() && k < PIO_PORT_COUNT
      modifies this
      ensures Valid() && View() == ForwardRx(old(View()), PioUart(k), connected)
    {
      var polled := PollRx(pios[k], RX_BUFFER_SIZE);
      pios := pios[k := polled.port];
      var nread := |polled.bytes|;
      if nread > 0 && connected {
        var sent := StreamWrite(usb, k + 2, polled.bytes);
        usb := sent.sink;
        if sent.accepted != nread {
          drops := drops + [Drop(ReceivedOn(PioUart(k)), nread - sent.accepted)];
        }
      }
    }

    /**
     * poll_usb_rx: when connected, read chunks of at most 48 bytes on one
     * cable from the demultiplexer until a read returns 0, writing each to
     * the port its cable routes to.
     */
    method PollUsbRx(connected: bool)
      requires Valid()
      modifies this, demux, demux.packet
      ensures Valid() && View() == PollUsb(old(View()), connected)
    {
      if !connected {
        return;
      }
      ghost var w0 := View();
      var rx := new byte[RX_BUFFER_SIZE];
      ghost var before := rx[..];
      var nread: nat, cable: Option<nat> := demux.Read(rx, RX_BUFFER_SIZE);
      ReadIntoBuffer(w0, nread, cable, rx[..], before);
      while nread > 0
        invariant Valid() && rx.Length == RX_BUFFER_SIZE && rx != demux.packet
        invariant nread <= RX_BUFFER_SIZE && (nread > 0 ==> cable.Some?)
        invariant DrainUsb(w0) == RouteChunks(View(), nread, cable, rx[..nread])
        decreases |Backlog(demux.State())| + nread
      {
        ghost var v := View();
        WriteChunk(cable.value, rx[..nread]);
        ghost var w1 := View();
        assert RouteChunks(v, nread, cable, rx[..nread]) == DrainUsb(w1);
        before := rx[..];
        nread, cable := demux.Read(rx, RX_BUFFER_SIZE);
        ReadIntoBuffer(w1, nread, cable, rx[..], before);
      }
    }

    /**
     * The body of the loop of poll_usb_rx: cables above 1 go to PIO port
     * cable - 2 (and, when there is no such port, nowhere), cables 0 and 1
     * to the hardware UART; what the port does not take is logged as dropped.
     */
    method WriteChunk(c: nat, chunk: seq<byte>)
      requires Valid()
      modifies this
      ensures Valid() && View() == Deliver(old(View()), c, chunk)
    {
      var npushed := 0;
      if c > 1 {
        if c - 2 < |pios| {
          var written := WriteTx(pios[c - 2], chunk);
          pios := pios[c - 2 := written.port];
          npushed := written.accepted;
        }
      } else if c < 2 {
        var written := WriteTx(uart, chunk);
        uart := written.port;
        npushed := written.accepted;
      } else {
        assert false;
      }
      if npushed != |chunk| {
        drops := drops + [Drop(SentTo(c), |chunk| - npushed)];
      }
    }

    /** drain_serial_port_tx_buffers: PIO ports 0 .. 3 transmit their queues. */
    method DrainSerialPortTxBuffers()
      requires Valid()
      modifies this
      ensures Valid() && View() == DrainPios(old(View()), PIO_PORT_COUNT)
    {
      ghost var w0 := View();
      for k := 0 to PIO_PORT_COUNT
        invariant Valid() && View() == DrainPios(w0, k)
      {
        pios := pios[k := DrainTx(pios[k])];
      }
    }

    /** midi_task, with tud_midi_mounted() as `mounted`. */
    method MidiTask(mounted: bool)
      requires Valid()
      modifies this, demux, demux.packet
      ensures Valid() && View() == MidiTaskStep(old(View()), mounted)
    {
      var connected := mounted;
      PollMidiUartRx(connected);
      PollMidiUartsRx(connected);
      PollUsbRx(connected);
      uart := DrainTx(uart);
      DrainSerialPortTxBuffers();
    }
  }
}
