/** The plain values of the library: machine integers, port status words, URB headers.

    `linux/usb-vhci.h` is not part of this model.  The URB type codes it defines are
    the constructors of `UrbType`, and the flag bits it defines are named constants;
    no proof depends on which bit a flag occupies. */
module Types {
  type u8 = x: int | 0 <= x < 0x100
  type u16 = x: int | 0 <= x < 0x1_0000
  type Handle = x: int | 0 <= x < 0x1_0000_0000_0000_0000

  datatype Option<+T> = None | Some(value: T)

  // ---------- port status (struct usb_vhci_port_stat, class port_stat) ----------

  const STAT_ENABLE: bv16 := 0x0002
  const STAT_SUSPEND: bv16 := 0x0004
  const STAT_RESET: bv16 := 0x0010
  const STAT_POWER: bv16 := 0x0100
  const CHANGE_CONNECTION: bv16 := 0x0001
  const CHANGE_RESET: bv16 := 0x0010
  const FLAG_RESUMING: bv8 := 0x01

  datatype PortStat = PortStat(status: bv16, change: bv16, flags: bv8) {
    predicate Enable() { status & STAT_ENABLE != 0 }
    predicate Suspend() { status & STAT_SUSPEND != 0 }
    predicate Reset() { status & STAT_RESET != 0 }
    predicate Power() { status & STAT_POWER != 0 }
    predicate Resuming() { flags & FLAG_RESUMING != 0 }
    predicate ConnectionChanged() { change & CHANGE_CONNECTION != 0 }
    predicate ResetChanged() { change & CHANGE_RESET != 0 }
    /** A reset that finished and left the port enabled. */
    predicate ResetSucceeded() { ResetChanged() && !Reset() && Enable() }
  }

  const ZERO_STAT := PortStat(0, 0, 0)

  // ---------- URB status codes ----------

  const STATUS_SUCCESS := 0x00000000
  const STATUS_PENDING := 0x10000001
  const STATUS_SHORT_PACKET := 0x10000002
  const STATUS_ERROR := 0x7ff00000
  const STATUS_CANCELED := 0x30000001
  const STATUS_TIMEDOUT := 0x30000002
  const STATUS_DEVICE_DISABLED := 0x71000001
  const STATUS_DEVICE_DISCONNECTED := 0x71000002
  const STATUS_BIT_STUFF := 0x72000001
  const STATUS_CRC := 0x72000002
  const STATUS_NO_RESPONSE := 0x72000003
  const STATUS_BABBLE := 0x72000004
  const STATUS_STALL := 0x74000001
  const STATUS_BUFFER_OVERRUN := 0x72100001
  const STATUS_BUFFER_UNDERRUN := 0x72100002
  const STATUS_ALL_ISO_PACKETS_FAILED := 0x78000001

  // ---------- URB headers (struct usb_vhci_urb without its two pointers) ----------

  datatype UrbType = Iso | Interrupt | Control | Bulk | OtherType(code: u8)

  const ENDPOINT_IN: bv8 := 0x80
  const ENDPOINT_NUMBER_MASK: bv8 := 0x07
  const REQUEST_SET_ADDRESS: u8 := 5
  const MAX_ADDRESS: u8 := 0x7f
  const NO_ADDRESS: u8 := 0xff

  /** `fetched` records whether the kernel's data was copied into the buffers that the
      header currently belongs to; it stands for the buffer contents. */
  datatype Urb = Urb(
    handle: Handle, kind: UrbType, devadr: u8, epadr: bv8,
    bmRequestType: u8, bRequest: u8, wValue: u16, wIndex: u16, wLength: u16,
    bufferLength: int, bufferActual: int, packetCount: int, errorCount: int,
    status: int, interval: int, flags: bv16, fetched: bool)
  {
    predicate IsIn() { epadr & ENDPOINT_IN != 0 }
    predicate IsOut() { !IsIn() }
    /** The mask is 0x07 although endpoint numbers have four bits. */
    function EndpointNumber(): bv8 { epadr & ENDPOINT_NUMBER_MASK }

    /** What the fetch reports as "call fetch_data next". */
    predicate NeedsData() { bufferActual != 0 || packetCount != 0 }

    predicate IsSetAddress() {
      kind.Control? && EndpointNumber() == 0 && bmRequestType == 0 && bRequest == REQUEST_SET_ADDRESS
    }
    predicate IsValidSetAddress() { IsSetAddress() && wValue <= MAX_ADDRESS }

    /** The checks of the owning constructor, `None` being std::invalid_argument.
        Anything but an isochronous URB loses its packet count. */
    function Own(hasBuffer: bool, hasPackets: bool): (r: Option<Urb>)
      ensures r.None? <==>
        || kind.OtherType?
        || (kind.Iso? && packetCount != 0 && bufferLength == 0)
        || (hasBuffer && bufferLength == 0)
        || (hasPackets && !(kind.Iso? && packetCount != 0))
      ensures r.Some? ==>
        r.value == this.(packetCount := if kind.Iso? then packetCount else 0)
    {
      var checked :=
        match kind
        case Iso => if packetCount != 0 && bufferLength == 0 then None else Some(this)
        case Interrupt => Some(this.(packetCount := 0))
        case Control => Some(this.(packetCount := 0))
        case Bulk => Some(this.(packetCount := 0))
        case OtherType(_) => None;
      match checked
      case None => None
      case Some(u) =>
        if u.bufferLength == 0 && hasBuffer then None
        else if u.packetCount == 0 && hasPackets then None
        else Some(u)
    }
  }
}
