/** Isochronous results: from packet statuses to what the kernel is told. */
module IsoResults {
  import opened Types
  import opened ErrnoCodes
  import opened UrbObjects

  function Failures(packets: seq<IsoPacket>): nat {
    if packets == [] then 0
    else Failures(packets[..|packets| - 1]) + if packets[|packets| - 1].status != STATUS_SUCCESS then 1 else 0
  }

  /** set_iso_results on values. */
  function WithIsoResults(v: UrbValue): UrbValue {
    var errors := Failures(v.packets);
    var h := v.header.(errorCount := errors);
    var h := h.(status := if errors == h.packetCount then STATUS_ALL_ISO_PACKETS_FAILED else STATUS_SUCCESS);
    v.(header := if h.IsIn() then h.(bufferActual := h.bufferLength) else h)
  }

  /** Nothing else changes: the three results are all that set_iso_results writes, and for outgoing URBs it
      leaves the actual length alone. */
  lemma OnlyResultsChange(v: UrbValue)
    ensures
      var r := WithIsoResults(v);
      && r.bytes == v.bytes && r.packets == v.packets
      && r.header == v.header.(errorCount := r.header.errorCount, status := r.header.status,
                               bufferActual := r.header.bufferActual)
      && r.header.bufferActual == if v.header.epadr & ENDPOINT_IN != 0 then v.header.bufferLength
                                  else v.header.bufferActual
  {
  }

  /** `false` is std::logic_error. */
  method SetIsoResults(u: UrbObject) returns (ok: bool)
    requires u.WellFormed()
    modifies u
    ensures u.WellFormed() && ok == old(u.header).kind.Iso?
    ensures u.View() == if ok then WithIsoResults(old(u.View())) else old(u.View())
  {
    if !u.header.kind.Iso? {
      return false;
    }
    var errors := 0;
    if u.packets != null {
      var i := 0;
      while i < u.packets.Length
        invariant 0 <= i <= u.packets.Length && errors == Failures(u.packets[..i])
      {
        assert u.packets[..i + 1][..i] == u.packets[..i];
        if u.packets[i].status != STATUS_SUCCESS {
          errors := errors + 1;
        }
        i := i + 1;
      }
      assert u.packets[..i] == u.packets[..];
    }
    u.header := u.header.(errorCount := errors);
    if errors == u.header.packetCount {
      u.header := u.header.(status := STATUS_ALL_ISO_PACKETS_FAILED);
    } else {
      u.header := u.header.(status := STATUS_SUCCESS);
    }
    if u.header.IsIn() {
      u.header := u.header.(bufferActual := u.header.bufferLength);
    }
    return true;
  }

  datatype PacketReport = PacketReport(status: Errno, actual: int)

  /** struct usb_vhci_ioc_giveback; `bytes` is what the kernel reads through the buffer pointer. */
  datatype Giveback = Giveback(
    handle: Handle, status: Errno, bufferActual: int, bytes: Option<seq<u8>>,
    packets: seq<PacketReport>, errorCount: int)

  function Report(p: IsoPacket): PacketReport {
    PacketReport(ToErrno(p.status, false), p.actual % 0x1_0000_0000)
  }

  function Encode(v: UrbValue): Giveback {
    var iso := v.header.kind.Iso?;
    Giveback(
      v.header.handle, ToErrno(v.header.status, iso), v.header.bufferActual,
      if v.header.IsIn() && v.header.bufferActual > 0 then Some(v.bytes) else None,
      if iso then seq(|v.packets|, i requires 0 <= i < |v.packets| => Report(v.packets[i])) else [],
      if iso then v.header.errorCount else 0)
  }

  /** What the kernel reads: the URB's own handle, its data exactly for URBs with the IN bit and a positive
      actual length, and for isochronous URBs each packet's own actual length and failure, in order. */
  lemma KernelReads(v: UrbValue)
    ensures
      var g := Encode(v);
      && g.handle == v.header.handle && g.bufferActual == v.header.bufferActual
      && (g.bytes == Some(v.bytes) <==> v.header.epadr & 0x80 != 0 && v.header.bufferActual > 0)
      && (g.bytes == None <==> v.header.epadr & 0x80 == 0 || v.header.bufferActual <= 0)
      && |g.packets| == (if v.header.kind.Iso? then |v.packets| else 0)
      && g.errorCount == (if v.header.kind.Iso? then v.header.errorCount else 0)
    ensures v.header.kind.Iso? ==>
      forall k :: 0 <= k < |v.packets| ==>
        && (0 <= v.packets[k].actual < 0x1_0000_0000 ==> Encode(v).packets[k].actual == v.packets[k].actual)
        && Encode(v).packets[k].status == ToErrno(v.packets[k].status, false)
    ensures
      if Survives(v.header.status, v.header.kind.Iso?)
      then FromErrno(Encode(v).status, v.header.kind.Iso?) == v.header.status
      else Encode(v).status == EPROTO
  {
    FallsBackToProtocolError(v.header.status, v.header.kind.Iso?);
  }

  /** The packing part of usb_vhci_giveback. */
  method Pack(u: UrbObject) returns (g: Giveback)
    requires u.WellFormed()
    ensures g == Encode(u.View())
  {
    var status := ToErrno(u.header.status, u.header.kind.Iso?);
    g := Giveback(u.header.handle, status, u.header.bufferActual, None, [], 0);
    if u.header.IsIn() && g.bufferActual > 0 {
      g := g.(bytes := Some(if u.buffer == null then [] else u.buffer[..]));
    }
    if u.header.kind.Iso? {
      var reports := [];
      var i := 0;
      while i < u.header.packetCount
        invariant 0 <= i <= u.header.packetCount && |reports| == i
        invariant forall k :: 0 <= k < i ==> reports[k] == Report(u.packets[k])
      {
        reports := reports + [PacketReport(ToErrno(u.packets[i].status, false), u.packets[i].actual % 0x1_0000_0000)];
        i := i + 1;
      }
      g := g.(packets := reports, errorCount := u.header.errorCount);
    }
  }

  /** How many packets the kernel is told to have failed. */
  function ReportedFailures(reports: seq<PacketReport>): nat {
    if reports == [] then 0
    else
      ReportedFailures(reports[..|reports| - 1]) + if reports[|reports| - 1].status != NoError then 1 else 0
  }

  lemma FailureIsReported(p: IsoPacket)
    ensures Report(p).status == NoError <==> p.status == STATUS_SUCCESS
  {
  }

  lemma {:induction false} FailuresAreReported(packets: seq<IsoPacket>, reports: seq<PacketReport>)
    requires |packets| == |reports| && forall i :: 0 <= i < |packets| ==> reports[i] == Report(packets[i])
    ensures ReportedFailures(reports) == Failures(packets) <= |packets|
    ensures Failures(packets) == |packets| <==> forall i :: 0 <= i < |reports| ==> reports[i].status != NoError
  {
    hide Report;
    if packets == [] {
    } else {
      var last := |packets| - 1;
      FailuresAreReported(packets[..last], reports[..last]);
      FailureIsReported(packets[last]);
      assert forall i :: 0 <= i < last ==> reports[..last][i] == reports[i];
    }
  }

  /** The results survive encoding, whatever the packets' statuses: the kernel reads as many errors
      as it sees failed packets, and -EINVAL exactly if it sees no packet that succeeded, which
      includes an URB without packets. */
  lemma IsoResultsSurviveEncoding(v: UrbValue)
    requires v.header.kind.Iso? && v.header.packetCount == |v.packets|
    ensures var g := Encode(WithIsoResults(v));
      && |g.packets| == |v.packets|
      && g.errorCount == ReportedFailures(g.packets)
      && (g.status == EINVAL <==> forall i :: 0 <= i < |g.packets| ==> g.packets[i].status != NoError)
      && (g.status == EINVAL || g.status == NoError)
      && (v.header.IsIn() ==> g.bufferActual == v.header.bufferLength)
  {
    FailuresAreReported(v.packets, Encode(WithIsoResults(v)).packets);
  }
}
