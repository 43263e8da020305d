/** The address tracking of the C example, which has one port and no library class behind it. */
module SinglePort {
  import opened Types
  import opened PortTable
  import opened Decode

  const EXAMPLE_ENDPOINT_MASK: bv8 := 0x7f

  /** The two variables of `main`. */
  datatype Device = Device(stat: PortStat, adr: u8)

  const NEW_DEVICE := Device(ZERO_STAT, NO_ADDRESS)

  predicate ExampleSetAddress(u: Urb) {
    && u.kind.Control? && u.epadr & EXAMPLE_ENDPOINT_MASK == 0
    && u.bmRequestType == 0 && u.bRequest == REQUEST_SET_ADDRESS
  }

  predicate ForMe(d: Device, ev: Event) { ev.UrbEvent? && ev.urb.devadr == d.adr }

  function DeviceStep(d: Device, ev: Event): Device {
    match ev
    case StatEvent(_, stat) =>
      var adr := if stat.ConnectionChanged() then NO_ADDRESS else d.adr;
      var adr := if stat.ResetSucceeded() then 0 else adr;
      Device(stat, adr)
    case UrbEvent(u, _) =>
      if ForMe(d, ev) && ExampleSetAddress(u) && u.wValue <= MAX_ADDRESS then d.(adr := u.wValue) else d
    case CancelEvent(_) => d
  }

  /** The reports on which the two programs can be compared: those the C example does not refuse
      (its only port is 1) and the library survives, with data fetches that do not fail. */
  predicate Comparable(ev: Event) {
    && !Terminates(ev)
    && (ev.StatEvent? ==> ev.index == 1)
    && (ev.UrbEvent? ==> !ev.fetch.Fails?)
  }

  predicate AllComparable(evs: seq<Event>) { forall k :: 0 <= k < |evs| ==> Comparable(evs[k]) }

  function DeviceAfter(evs: seq<Event>): Device {
    if evs == [] then NEW_DEVICE else DeviceStep(DeviceAfter(evs[..|evs| - 1]), evs[|evs| - 1])
  }

  /** The handles that either program takes on, oldest first. */
  function TakenByExample(evs: seq<Event>): seq<Handle> {
    if evs == [] then []
    else
      var before := evs[..|evs| - 1];
      var ev := evs[|evs| - 1];
      TakenByExample(before) + if ForMe(DeviceAfter(before), ev) then [ev.urb.handle] else []
  }

  function TakenByLibrary(evs: seq<Event>): seq<Handle>
    requires Survivable(evs)
  {
    if evs == [] then []
    else
      var before := evs[..|evs| - 1];
      var ev := evs[|evs| - 1];
      TakenByLibrary(before)
      + if ev.UrbEvent? && Route(TableAfter(1, before), ev).Some? then [ev.urb.handle] else []
  }

  predicate Agree(ports: Table, d: Device) { ports == [PortInfo(d.adr, d.stat)] }

  /** The library masks the endpoint with 0x07 and the example with 0x7f.  They part where that
      makes the library see a SET_ADDRESS that the example does not, and it changes the address. */
  predicate Diverges(d: Device, ev: Event) {
    && ForMe(d, ev) && ev.urb.IsValidSetAddress()
    && ev.urb.epadr & EXAMPLE_ENDPOINT_MASK != 0 && ev.urb.wValue != d.adr
  }

  lemma RouteOfOnePort(ports: Table, d: Device, ev: Event)
    requires Agree(ports, d) && Comparable(ev) && ev.UrbEvent?
    ensures Route(ports, ev) == if ForMe(d, ev) then Some(1) else None
  {
  }

  /** On one report the programs stay together exactly if it is not a diverging one. */
  lemma StepAgreesIffNotDiverging(ports: Table, d: Device, ev: Event)
    requires Agree(ports, d) && Comparable(ev)
    ensures Agree(TableStep(ports, ev), DeviceStep(d, ev)) <==> !Diverges(d, ev)
  {
  }

  ghost predicate AgreeThroughout(evs: seq<Event>)
    requires Survivable(evs)
  {
    Agree(TableAfter(1, evs), DeviceAfter(evs)) && (evs != [] ==> AgreeThroughout(evs[..|evs| - 1]))
  }

  ghost predicate NeverDiverges(evs: seq<Event>) {
    evs != [] ==>
      NeverDiverges(evs[..|evs| - 1]) && !Diverges(DeviceAfter(evs[..|evs| - 1]), evs[|evs| - 1])
  }

  /** The single-port example and the library hold the same status and address all along a history
      exactly if no report in it diverges, and then they take on the same URBs. */
  lemma {:induction false} AgreeIffNeverDiverging(evs: seq<Event>)
    requires AllComparable(evs)
    ensures Survivable(evs)
    ensures AgreeThroughout(evs) <==> NeverDiverges(evs)
    ensures AgreeThroughout(evs) ==> TakenByLibrary(evs) == TakenByExample(evs)
  {
    if evs == [] {
      assert FreshTable(1) == [FRESH_PORT];
    } else {
      var before := evs[..|evs| - 1];
      var ev := evs[|evs| - 1];
      AgreeIffNeverDiverging(before);
      if AgreeThroughout(before) {
        assert Agree(TableAfter(1, before), DeviceAfter(before));
        StepAgreesIffNotDiverging(TableAfter(1, before), DeviceAfter(before), ev);
        if ev.UrbEvent? {
          RouteOfOnePort(TableAfter(1, before), DeviceAfter(before), ev);
        }
      }
    }
  }

  lemma LowEndpoint(e: bv8)
    requires e & EXAMPLE_ENDPOINT_MASK < 8
    ensures e & EXAMPLE_ENDPOINT_MASK == 0 <==> e & ENDPOINT_NUMBER_MASK == 0
  {
  }

  /** Endpoints 0 to 7 never diverge. */
  lemma {:induction false} LowEndpointsNeverDiverge(evs: seq<Event>)
    requires forall k :: 0 <= k < |evs| && evs[k].UrbEvent? ==> evs[k].urb.epadr & EXAMPLE_ENDPOINT_MASK < 8
    ensures NeverDiverges(evs)
  {
    if evs == [] {
    } else {
      var before := evs[..|evs| - 1];
      var ev := evs[|evs| - 1];
      LowEndpointsNeverDiverge(before);
      if ev.UrbEvent? {
        LowEndpoint(ev.urb.epadr);
      }
    }
  }

  /** Endpoint 8 does.  After a reset, a control URB on endpoint 8 may carry the bytes of SET_ADDRESS,
      and only the library takes it for one: it stores the address, the example keeps 0. */
  lemma EndpointEightDiverges(stat: PortStat, handle: Handle, raw: RawUrb)
    requires stat.ResetSucceeded()
    requires raw.kind.Control? && raw.endpoint == 8 && raw.address == 0
    requires raw.bmRequestType == 0 && raw.bRequest == REQUEST_SET_ADDRESS && 1 <= raw.wValue <= MAX_ADDRESS
    ensures DecodeUrb(handle, raw).Some?
    ensures
      var evs := [StatEvent(1, stat), UrbEvent(DecodeUrb(handle, raw).value, Works)];
      && AllComparable(evs) && Survivable(evs) && !AgreeThroughout(evs)
      && TableAfter(1, evs)[0].adr == raw.wValue && DeviceAfter(evs).adr == 0
  {
  }

  /** The loop of the example, over the reports it receives. */
  method Serve(evs: seq<Event>) returns (stat: PortStat, adr: u8, taken: seq<Handle>)
    ensures Device(stat, adr) == DeviceAfter(evs) && taken == TakenByExample(evs)
  {
    stat, adr, taken := ZERO_STAT, NO_ADDRESS, [];
    var i := 0;
    while i < |evs|
      invariant 0 <= i <= |evs|
      invariant Device(stat, adr) == DeviceAfter(evs[..i]) && taken == TakenByExample(evs[..i])
    {
      assert evs[..i + 1][..i] == evs[..i];
      match evs[i] {
        case StatEvent(_, s) =>
          stat := s;
          if s.change & CHANGE_CONNECTION != 0 {
            adr := NO_ADDRESS;
          }
          if s.change & CHANGE_RESET != 0 && s.status & STAT_RESET == 0 && s.status & STAT_ENABLE != 0 {
            adr := 0;
          }
        case UrbEvent(u, _) =>
          if u.devadr == adr {
            taken := taken + [u.handle];
            if u.kind.Control? && u.epadr & EXAMPLE_ENDPOINT_MASK == 0 && u.bmRequestType == 0 && u.bRequest == 5 {
              if u.wValue <= 0x7f {
                adr := u.wValue;
              }
            }
          }
        case CancelEvent(_) =>
      }
      i := i + 1;
    }
    assert evs[..i] == evs;
  }
}
