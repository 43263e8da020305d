/** Turning what the kernel reports into URB headers (usb_vhci_fetch_work_timeout). */
module Decode {
  import opened Types
  import opened PortTable

  const URB_FLAG_SHORT_NOT_OK: bv16 := 0x0001
  const URB_FLAG_ZERO_PACKET: bv16 := 0x0040

  /** The kernel's side of a process-URB report.  Every member is present whatever the
      type is; the decoder picks the ones that mean something. */
  datatype RawUrb = RawUrb(
    kind: UrbType, address: u8, endpoint: bv8, bufferLength: int, packetCount: int,
    interval: int, flags: bv16,
    bmRequestType: u8, bRequest: u8, wValue: u16, wIndex: u16, wLength: u16)

  /** The zeroed structure that decoding starts from, with type code `kind`. */
  function Blank(kind: UrbType): Urb {
    Urb(0, kind, 0, 0, 0, 0, 0, 0, 0, 0, 0, 0, 0, 0, 0, 0, false)
  }

  /** The class-specific members; `None` is the EBADMSG refusal. */
  function DecodeClass(raw: RawUrb): Option<Urb> {
    var u := Blank(raw.kind);
    if raw.kind.Iso? then Some(u.(packetCount := raw.packetCount, interval := raw.interval))
    else if raw.kind.Interrupt? then Some(u.(interval := raw.interval))
    else if raw.kind.Control? then
      Some(u.(wValue := raw.wValue, wIndex := raw.wIndex, wLength := raw.wLength,
              bmRequestType := raw.bmRequestType, bRequest := raw.bRequest))
    else if raw.kind.Bulk? then Some(u.(flags := raw.flags & (URB_FLAG_SHORT_NOT_OK | URB_FLAG_ZERO_PACKET)))
    else None
  }

  /** Members that belong to another transfer type are absent. */
  predicate ClassValid(u: Urb) {
    && !u.kind.OtherType?
    && (!u.kind.Control? ==>
          u.bmRequestType == 0 && u.bRequest == 0 && u.wValue == 0 && u.wIndex == 0 && u.wLength == 0)
    && (!u.kind.Iso? ==> u.packetCount == 0)
    && (u.kind.Control? || u.kind.Bulk? ==> u.interval == 0)
    && (!u.kind.Bulk? ==> u.flags == 0)
    && u.errorCount == 0 && !u.fetched
  }

  /** Members that do belong to the type are the kernel's own. */
  predicate CarriesReport(handle: Handle, raw: RawUrb, u: Urb) {
    && u.handle == handle && u.kind == raw.kind
    && u.devadr == raw.address && u.epadr == raw.endpoint && u.bufferLength == raw.bufferLength
    && (u.kind.Iso? ==> u.packetCount == raw.packetCount)
    && (u.kind.Iso? || u.kind.Interrupt? ==> u.interval == raw.interval)
    && (u.kind.Control? ==>
          u.bmRequestType == raw.bmRequestType && u.bRequest == raw.bRequest
          && u.wValue == raw.wValue && u.wIndex == raw.wIndex && u.wLength == raw.wLength)
    && (u.kind.Bulk? ==> u.flags == raw.flags & (URB_FLAG_SHORT_NOT_OK | URB_FLAG_ZERO_PACKET))
  }

  function DecodeUrb(handle: Handle, raw: RawUrb): (r: Option<Urb>)
    ensures r.None? <==> raw.kind.OtherType?
    ensures r.Some? ==> ClassValid(r.value) && r.value.status == STATUS_PENDING
    ensures r.Some? ==> CarriesReport(handle, raw, r.value)
    ensures r.Some? ==> r.value.bufferActual == if r.value.IsOut() || raw.kind.Iso? then raw.bufferLength else 0
  {
    match DecodeClass(raw)
    case None => None
    case Some(u) =>
      var u := u.(status := STATUS_PENDING, handle := handle, bufferLength := raw.bufferLength);
      var u := if raw.endpoint & ENDPOINT_IN == 0 || u.kind.Iso?
               then u.(bufferActual := raw.bufferLength) else u;
      Some(u.(devadr := raw.address, epadr := raw.endpoint))
  }

  /** A data fetch is requested exactly for outgoing or isochronous data and for packets. */
  lemma DecodedAsksForData(handle: Handle, raw: RawUrb)
    requires !raw.kind.OtherType?
    ensures
      var u := DecodeUrb(handle, raw).value;
      u.NeedsData() <==>
        || (raw.bufferLength != 0 && (u.IsOut() || raw.kind.Iso?))
        || (raw.kind.Iso? && raw.packetCount != 0)
  {
  }

  /** The owning constructor takes a decoded URB over unchanged once buffers are allocated from its
      lengths, with one exception: isochronous packets without a buffer. */
  lemma DecodedIsTakenUnchanged(handle: Handle, raw: RawUrb)
    requires !raw.kind.OtherType?
    ensures
      var u := DecodeUrb(handle, raw).value;
      u.Own(u.bufferLength != 0, u.packetCount != 0)
      == if raw.kind.Iso? && raw.packetCount != 0 && raw.bufferLength == 0 then None else Some(u)
  {
  }

  /** bg_work is declared not to throw, but there are decoded reports from which an exception
      escapes: isochronous packets without a buffer, and an address above 0x7f unless a failing
      data fetch drops the URB first. */
  lemma DecodedTerminatesIff(handle: Handle, raw: RawUrb, fetch: Fetch)
    requires !raw.kind.OtherType?
    ensures
      var u := DecodeUrb(handle, raw).value;
      Terminates(UrbEvent(u, fetch)) <==>
        || (raw.kind.Iso? && raw.packetCount != 0 && raw.bufferLength == 0)
        || (raw.address > MAX_ADDRESS && !(u.NeedsData() && fetch.Fails?))
  {
  }

  /** One such report. */
  lemma PacketsWithoutBufferTerminate(handle: Handle, raw: RawUrb, fetch: Fetch)
    requires raw.kind.Iso? && raw.packetCount == 1 && raw.bufferLength == 0
    ensures DecodeUrb(handle, raw).Some? && Terminates(UrbEvent(DecodeUrb(handle, raw).value, fetch))
  {
    DecodedTerminatesIff(handle, raw, fetch);
  }
}
