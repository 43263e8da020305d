/** The per-port address and status table of `local_hcd` and its history. */
module PortTable {
  import opened Types

  datatype PortInfo = PortInfo(adr: u8, stat: PortStat)

  const FRESH_PORT := PortInfo(NO_ADDRESS, ZERO_STAT)

  /** What becomes of a data fetch for an URB: it works, it fails, or it worked in an earlier pass
      that ran out of memory later on, and the buffers it went to are gone. */
  datatype Fetch = Works | Fails | Lost

  /** What the kernel reports. */
  datatype Event =
    | StatEvent(index: u8, stat: PortStat)
    | UrbEvent(urb: Urb, fetch: Fetch)
    | CancelEvent(handle: Handle)

  /** A controller has at most 255 ports: their number is an uint8_t. */
  type Table = ports: seq<PortInfo> | |ports| <= 0xff

  // ---------- lookups ----------

  /** The lowest port with the address, 0 if there is none. */
  function PortFromAddress(ports: Table, address: u8): (p: u8)
    ensures p <= |ports|
    ensures p > 0 ==> ports[p - 1].adr == address
    ensures forall i :: 0 <= i < (if p == 0 then |ports| else p - 1) ==> ports[i].adr != address
  {
    if ports == [] then 0
    else if ports[0].adr == address then 1
    else
      var rest := PortFromAddress(ports[1..], address);
      if rest == 0 then 0 else rest + 1
  }

  /** A port is found again by its address exactly when no lower port has the same one. */
  lemma LookupInvertsIffFirst(ports: Table, p: nat)
    requires 1 <= p <= |ports|
    ensures PortFromAddress(ports, ports[p - 1].adr) == p
       <==> forall i :: 0 <= i < p - 1 ==> ports[i].adr != ports[p - 1].adr
  {
    var r := PortFromAddress(ports, ports[p - 1].adr);
    assert r > 0;
  }

  // ---------- one event ----------

  /** What a status report does to its port; a successful reset wins over a connection change. */
  function AfterStat(info: PortInfo, stat: PortStat): PortInfo {
    var info := info.(stat := stat);
    var info := if stat.ConnectionChanged() then info.(adr := NO_ADDRESS) else info;
    if stat.ResetSucceeded() then info.(adr := 0) else info
  }

  predicate FetchRefused(ev: Event)
    requires ev.UrbEvent?
  {
    ev.urb.NeedsData() && ev.fetch.Fails?
  }

  /** An exception escapes from bg_work, which may not throw: the owning constructor refuses
      the URB, or the address is no USB address. */
  predicate Terminates(ev: Event) {
    ev.UrbEvent? &&
    (|| ev.urb.Own(ev.urb.bufferLength != 0, ev.urb.packetCount != 0).None?
     || (!FetchRefused(ev) && ev.urb.devadr > MAX_ADDRESS))
  }

  /** The port an URB is for, or `None` where the library drops it. */
  function Route(ports: Table, ev: Event): Option<u8>
    requires ev.UrbEvent? && !Terminates(ev)
  {
    if FetchRefused(ev) then None
    else
      var p := PortFromAddress(ports, ev.urb.devadr);
      if p == 0 then None else Some(p)
  }

  function AnswerSetAddress(u: Urb): Urb {
    if u.IsSetAddress() then u.(status := if u.wValue > MAX_ADDRESS then STATUS_STALL else STATUS_SUCCESS)
    else u
  }

  /** The URB that is enqueued: packet count checked, with the fetched data unless it was lost, and
      SET_ADDRESS answered on the device's behalf. */
  function Accepted(ev: Event): Urb
    requires ev.UrbEvent? && !Terminates(ev)
  {
    var u := ev.urb.Own(ev.urb.bufferLength != 0, ev.urb.packetCount != 0).value;
    AnswerSetAddress(u.(fetched := ev.urb.NeedsData() && ev.fetch.Works?))
  }

  function AfterUrb(info: PortInfo, u: Urb): PortInfo {
    if u.IsValidSetAddress() then info.(adr := u.wValue) else info
  }

  function TableStep(ports: Table, ev: Event): (after: Table)
    requires !Terminates(ev)
    ensures |after| == |ports|
  {
    match ev
    case StatEvent(index, stat) =>
      if 1 <= index <= |ports| then ports[index - 1 := AfterStat(ports[index - 1], stat)] else ports
    case UrbEvent(_, _) =>
      var r := Route(ports, ev);
      if r.Some? then ports[r.value - 1 := AfterUrb(ports[r.value - 1], Accepted(ev))] else ports
    case CancelEvent(_) => ports
  }

  // ---------- what becomes of an URB ----------

  /** The address that an event gives port p, if it decides p's address at all.  Where an URB
      goes depends on the table built so far. */
  function Decides(ports: Table, ev: Event, p: nat): Option<u8>
    requires !Terminates(ev)
  {
    match ev
    case StatEvent(index, stat) =>
      if index != p then None
      else if stat.ResetSucceeded() then Some(0)
      else if stat.ConnectionChanged() then Some(NO_ADDRESS)
      else None
    case UrbEvent(u, _) =>
      if Route(ports, ev) == Some(p) && u.IsValidSetAddress() then Some(u.wValue) else None
    case CancelEvent(_) => None
  }

  /** An URB is dropped exactly if its data cannot be fetched or no port has its address. */
  lemma DroppedIff(ports: Table, ev: Event)
    requires ev.UrbEvent? && !Terminates(ev)
    ensures Route(ports, ev) == None <==>
      || ((ev.urb.bufferActual != 0 || ev.urb.packetCount != 0) && ev.fetch.Fails?)
      || forall p :: 0 <= p < |ports| ==> ports[p].adr != ev.urb.devadr
  {
  }

  /** SET_ADDRESS in the terms of section 9.4.6 of the USB 2.0 specification, as far as the library looks: a
      control request on endpoint 0, host to device, standard, for the device, number 5. */
  predicate RequestsAddress(u: Urb) {
    u.kind.Control? && u.epadr & 0x07 == 0 && u.bmRequestType == 0 && u.bRequest == 5
  }

  /** What the enqueued URB must look like: acknowledged if it requests an address a device can have, stalled
      if it requests another one, and otherwise with the kernel's status; in all else, up to the data and a
      packet count that its type does not have, it is what the kernel sent. */
  predicate AnsweredFor(ev: Event, u: Urb)
    requires ev.UrbEvent?
  {
    && u == ev.urb.(status := u.status, fetched := u.fetched,
                    packetCount := if ev.urb.kind.Iso? then ev.urb.packetCount else 0)
    && u.status == (if !RequestsAddress(ev.urb) then ev.urb.status
                    else if ev.urb.wValue <= 0x7f then STATUS_SUCCESS else STATUS_STALL)
    && u.fetched == ((ev.urb.bufferActual != 0 || ev.urb.packetCount != 0) && ev.fetch.Works?)
  }

  lemma AcceptedIsAnswered(ev: Event)
    requires ev.UrbEvent? && !Terminates(ev)
    ensures AnsweredFor(ev, Accepted(ev))
  {
  }

  /** A request for an address is acknowledged exactly if it decides the address of its port. */
  lemma AcknowledgedIffDecides(ports: Table, ev: Event)
    requires ev.UrbEvent? && !Terminates(ev) && Route(ports, ev).Some? && RequestsAddress(ev.urb)
    ensures Accepted(ev).status == STATUS_SUCCESS <==> Decides(ports, ev, Route(ports, ev).value).Some?
  {
  }

  // ---------- passes that run out of memory ----------

  /** Whether handling the report gets as far as allocating a work, which may fail for want of
      memory and is then tried again. */
  predicate MayRunOut(ports: Table, ev: Event)
    requires !Terminates(ev)
  {
    match ev
    case StatEvent(index, _) => 1 <= index <= |ports|
    case UrbEvent(_, _) => Route(ports, ev).Some?
    case CancelEvent(_) => false
  }

  /** The report as the next pass meets it: the data is not fetched a second time. */
  function AfterFailedPass(ev: Event): Event { if ev.UrbEvent? then ev.(fetch := Lost) else ev }

  lemma FailedPassKeepsRoute(ports: Table, ev: Event)
    requires ev.UrbEvent? && !Terminates(ev) && Route(ports, ev).Some?
    ensures !Terminates(AfterFailedPass(ev)) && Route(ports, AfterFailedPass(ev)) == Route(ports, ev)
  {
  }

  lemma FailedPassLosesData(ev: Event)
    requires ev.UrbEvent? && !Terminates(ev) && !Terminates(AfterFailedPass(ev))
    ensures Accepted(AfterFailedPass(ev)) == Accepted(ev).(fetched := false)
  {
    hide Accepted, Terminates;
    AcceptedIsAnswered(ev);
    AcceptedIsAnswered(AfterFailedPass(ev));
  }

  lemma DataIsNotAddress(info: PortInfo, u: Urb)
    ensures AfterUrb(info, u.(fetched := false)) == AfterUrb(info, u)
  {
  }

  /** A failed pass costs the data and nothing else: the next one routes the URB to the same port,
      changes the table in the same way, and enqueues the same URB without the data. */
  lemma FailedPassCostsData(ports: Table, ev: Event)
    requires !Terminates(ev) && MayRunOut(ports, ev)
    ensures
      var ev' := AfterFailedPass(ev);
      && !Terminates(ev') && MayRunOut(ports, ev') && TableStep(ports, ev') == TableStep(ports, ev)
      && (ev.UrbEvent? ==>
            Route(ports, ev') == Route(ports, ev) && Accepted(ev') == Accepted(ev).(fetched := false))
  {
    if ev.UrbEvent? {
      FailedPassKeepsRoute(ports, ev);
      FailedPassLosesData(ev);
      DataIsNotAddress(ports[Route(ports, ev).value - 1], Accepted(ev));
    } else {
      assert AfterFailedPass(ev) == ev;
    }
  }

  // ---------- whole histories ----------

  predicate Survivable(evs: seq<Event>) { forall k :: 0 <= k < |evs| ==> !Terminates(evs[k]) }

  function FreshTable(n: u8): Table { seq(n, _ => FRESH_PORT) }

  function TableAfter(n: u8, evs: seq<Event>): (ports: Table)
    requires Survivable(evs)
    ensures |ports| == n
  {
    if evs == [] then FreshTable(n)
    else TableStep(TableAfter(n, evs[..|evs| - 1]), evs[|evs| - 1])
  }

  function DecidesAt(n: u8, evs: seq<Event>, k: nat, p: nat): Option<u8>
    requires Survivable(evs) && k < |evs|
  {
    Decides(TableAfter(n, evs[..k]), evs[k], p)
  }

  /** The latest event that decided p's address, |evs| if there was none. */
  ghost predicate IsLatestDecision(n: u8, evs: seq<Event>, p: nat, k: nat)
    requires Survivable(evs)
  {
    && k <= |evs|
    && (k < |evs| ==> DecidesAt(n, evs, k, p).Some?)
    && (forall j :: (if k < |evs| then k + 1 else 0) <= j < |evs| ==> DecidesAt(n, evs, j, p).None?)
  }

  lemma StepDecides(ports: Table, ev: Event, p: nat)
    requires !Terminates(ev) && 1 <= p <= |ports|
    ensures TableStep(ports, ev)[p - 1].adr
         == (match Decides(ports, ev, p) case Some(a) => a case None => ports[p - 1].adr)
  {
    if ev.UrbEvent? {
      var u := ev.urb.Own(ev.urb.bufferLength != 0, ev.urb.packetCount != 0).value;
      assert u.IsValidSetAddress() == ev.urb.IsValidSetAddress() && u.wValue == ev.urb.wValue;
    }
  }

  lemma PrefixDecides(n: u8, evs: seq<Event>, m: nat, k: nat, p: nat)
    requires Survivable(evs) && k < m <= |evs|
    ensures DecidesAt(n, evs[..m], k, p) == DecidesAt(n, evs, k, p)
  {
    assert evs[..m][..k] == evs[..k];
  }

  /** The table is a function of the history in this sense: a port's address is the one given by
      the latest event that decided it, and 0xff before any did. */
  lemma {:induction false} AddressFromLatestDecision(n: u8, evs: seq<Event>, p: nat) returns (k: nat)
    requires Survivable(evs) && 1 <= p <= n
    ensures IsLatestDecision(n, evs, p, k)
    ensures TableAfter(n, evs)[p - 1].adr
         == if k < |evs| then DecidesAt(n, evs, k, p).value else NO_ADDRESS
  {
    if evs == [] {
      k := 0;
    } else {
      var last := |evs| - 1;
      var before := evs[..last];
      StepDecides(TableAfter(n, before), evs[last], p);
      if DecidesAt(n, evs, last, p).Some? {
        k := last;
      } else {
        k := AddressFromLatestDecision(n, before, p);
        forall j | 0 <= j < last ensures DecidesAt(n, before, j, p) == DecidesAt(n, evs, j, p) {
          PrefixDecides(n, evs, last, j, p);
        }
        if k == last {
          k := |evs|;
        }
      }
    }
  }

  /** No port ever has an address outside the USB range other than the invalid one. */
  lemma {:induction false} AddressesInRange(n: u8, evs: seq<Event>, p: nat)
    requires Survivable(evs) && 1 <= p <= n
    ensures var a := TableAfter(n, evs)[p - 1].adr; a == NO_ADDRESS || a <= MAX_ADDRESS
  {
    var k := AddressFromLatestDecision(n, evs, p);
  }

  // ---------- no URB without a reset ----------

  predicate ResetsPort(ev: Event, p: nat) { ev.StatEvent? && ev.index == p && ev.stat.ResetSucceeded() }

  predicate ReplugsPort(ev: Event, p: nat) { ev.StatEvent? && ev.index == p && ev.stat.ConnectionChanged() }

  /** A port is addressed exactly when it was reset at or after its latest connection change. */
  ghost predicate ResetSincePlugged(evs: seq<Event>, p: nat) {
    exists k :: 0 <= k < |evs| && ResetsPort(evs[k], p) && forall j :: k < j < |evs| ==> !ReplugsPort(evs[j], p)
  }

  lemma {:induction false} ResetSincePluggedStep(evs: seq<Event>, p: nat)
    requires evs != []
    ensures var ev := evs[|evs| - 1];
      ResetSincePlugged(evs, p)
      <==> ResetsPort(ev, p) || (!ReplugsPort(ev, p) && ResetSincePlugged(evs[..|evs| - 1], p))
  {
  }

  lemma {:induction false} AddressedIffReset(n: u8, evs: seq<Event>, p: nat)
    requires Survivable(evs) && 1 <= p <= n
    ensures TableAfter(n, evs)[p - 1].adr != NO_ADDRESS <==> ResetSincePlugged(evs, p)
  {
    if evs == [] {
    } else {
      var last := |evs| - 1;
      var before := evs[..last];
      AddressedIffReset(n, before, p);
      StepDecides(TableAfter(n, before), evs[last], p);
      ResetSincePluggedStep(evs, p);
    }
  }

  /** An URB reaches a port only after a successful reset of that port at or after its latest
      connection change. */
  lemma UrbOnlyAfterReset(n: u8, evs: seq<Event>, ev: Event)
    requires Survivable(evs) && ev.UrbEvent? && !Terminates(ev)
    requires Route(TableAfter(n, evs), ev).Some?
    ensures ResetSincePlugged(evs, Route(TableAfter(n, evs), ev).value)
  {
    AddressedIffReset(n, evs, Route(TableAfter(n, evs), ev).value);
  }

  // ---------- distinct addresses ----------

  predicate Distinct(ports: Table) {
    forall i, j :: 0 <= i < j < |ports| && ports[i].adr != NO_ADDRESS ==> ports[i].adr != ports[j].adr
  }

  /** The bus enumerates politely: a reset is finished only while no other port has address 0,
      and an address is assigned only if no other port has it. */
  predicate Polite(ports: Table, ev: Event)
    requires !Terminates(ev)
  {
    forall p :: 1 <= p <= |ports| && Decides(ports, ev, p).Some? && Decides(ports, ev, p).value != NO_ADDRESS ==>
      forall i :: 0 <= i < |ports| && i != p - 1 ==> ports[i].adr != Decides(ports, ev, p).value
  }

  lemma OneDecision(ports: Table, ev: Event, p: nat, r: nat)
    requires !Terminates(ev) && Decides(ports, ev, p).Some? && Decides(ports, ev, r).Some?
    ensures p == r
  {
  }

  lemma PoliteKeepsPair(ports: Table, ev: Event, i: nat, j: nat)
    requires !Terminates(ev) && Distinct(ports) && Polite(ports, ev) && i < j < |ports|
    requires TableStep(ports, ev)[i].adr != NO_ADDRESS
    ensures TableStep(ports, ev)[i].adr != TableStep(ports, ev)[j].adr
  {
    StepDecides(ports, ev, i + 1);
    StepDecides(ports, ev, j + 1);
    if Decides(ports, ev, i + 1).Some? && Decides(ports, ev, j + 1).Some? {
      OneDecision(ports, ev, i + 1, j + 1);
    } else if Decides(ports, ev, j + 1).Some? && Decides(ports, ev, j + 1).value != NO_ADDRESS {
      assert ports[i].adr != Decides(ports, ev, j + 1).value;
    }
  }

  /** Politeness is exactly what keeps live addresses distinct. */
  lemma DistinctIffPolite(ports: Table, ev: Event)
    requires !Terminates(ev) && Distinct(ports)
    ensures Distinct(TableStep(ports, ev)) <==> Polite(ports, ev)
  {
    var after := TableStep(ports, ev);
    forall p | 1 <= p <= |ports|
      ensures after[p - 1].adr == (match Decides(ports, ev, p) case Some(a) => a case None => ports[p - 1].adr)
    {
      StepDecides(ports, ev, p);
    }
    if Polite(ports, ev) {
      forall i, j | 0 <= i < j < |after| && after[i].adr != NO_ADDRESS ensures after[i].adr != after[j].adr {
        PoliteKeepsPair(ports, ev, i, j);
      }
    } else {
      var p :| 1 <= p <= |ports| && Decides(ports, ev, p).Some? && Decides(ports, ev, p).value != NO_ADDRESS
        && exists i :: 0 <= i < |ports| && i != p - 1 && ports[i].adr == Decides(ports, ev, p).value;
      var i :| 0 <= i < |ports| && i != p - 1 && ports[i].adr == Decides(ports, ev, p).value;
      if Decides(ports, ev, i + 1).Some? {
        OneDecision(ports, ev, p, i + 1);
      }
      assert after[i].adr == after[p - 1].adr != NO_ADDRESS;
    }
  }

  /** Every event of the history was polite when it came. */
  ghost predicate PoliteHistory(n: u8, evs: seq<Event>)
    requires Survivable(evs)
  {
    evs != [] ==>
      var before := evs[..|evs| - 1];
      PoliteHistory(n, before) && Polite(TableAfter(n, before), evs[|evs| - 1])
  }

  /** Every port with a live address is found again by that address. */
  ghost predicate LookupInverts(ports: Table) {
    forall p {:trigger ports[p - 1]} :: 1 <= p <= |ports| && ports[p - 1].adr != NO_ADDRESS ==>
      PortFromAddress(ports, ports[p - 1].adr) == p
  }

  lemma DistinctIffLookupInverts(ports: Table)
    ensures Distinct(ports) <==> LookupInverts(ports)
  {
    forall p {:trigger ports[p - 1]} | 1 <= p <= |ports| && ports[p - 1].adr != NO_ADDRESS && Distinct(ports)
      ensures PortFromAddress(ports, ports[p - 1].adr) == p
    {
      LookupInvertsIffFirst(ports, p);
    }
    if LookupInverts(ports) {
      forall i, j | 0 <= i < j < |ports| && ports[i].adr != NO_ADDRESS ensures ports[i].adr != ports[j].adr {
        LookupInvertsIffFirst(ports, j + 1);
      }
    }
  }

  /** At every point of the history a port with a live address is found again by it. */
  ghost predicate LookupInvertsThroughout(n: u8, evs: seq<Event>)
    requires Survivable(evs)
  {
    LookupInverts(TableAfter(n, evs)) && (evs != [] ==> LookupInvertsThroughout(n, evs[..|evs| - 1]))
  }

  /** Lookups by address are inverse to lookups by port all along a history exactly when the bus
      behaved politely all along. */
  lemma {:induction false} LookupsInvertIffPolite(n: u8, evs: seq<Event>)
    requires Survivable(evs)
    ensures LookupInvertsThroughout(n, evs) <==> PoliteHistory(n, evs)
  {
    DistinctIffLookupInverts(TableAfter(n, evs));
    if evs == [] {
    } else {
      var before := evs[..|evs| - 1];
      LookupsInvertIffPolite(n, before);
      DistinctIffLookupInverts(TableAfter(n, before));
      if PoliteHistory(n, before) {
        assert LookupInvertsThroughout(n, before);
        DistinctIffPolite(TableAfter(n, before), evs[|evs| - 1]);
      }
    }
  }
}
