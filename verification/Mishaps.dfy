/** Runs of the classes in which something goes wrong that the code does not guard against. */
module Mishaps {
  import opened Types
  import opened PortTable
  import opened Decode
  import opened WorkQueue
  import opened RunLaws
  import opened Retries
  import opened LocalHcds
  import C = Controller

  /** A bulk URB with outgoing data, for the default address. */
  predicate OutgoingBulk(raw: RawUrb) {
    raw.kind.Bulk? && raw.address == 0 && raw.endpoint & ENDPOINT_IN == 0 && raw.bufferLength > 0
  }

  function Reset(stat: PortStat): C.Controller { C.BgWork(C.Init(1), StatEvent(1, stat)) }

  /** After a reset the URB reaches the port. */
  lemma AcceptedAfterReset(stat: PortStat, handle: Handle, raw: RawUrb)
    requires stat.ResetSucceeded() && OutgoingBulk(raw)
    ensures DecodeUrb(handle, raw).Some? && |Reset(stat).queue.past.enqueued| == 1
    ensures
      var ev := UrbEvent(DecodeUrb(handle, raw).value, Works);
      !Terminates(ev) && ev.urb.NeedsData() && MayRunOut(Reset(stat).ports, ev)
  {
    DecodedTerminatesIff(handle, raw, Works);
    assert Reset(stat).ports[0].adr == 0;
    assert PortFromAddress(Reset(stat).ports, 0) == 1;
  }

  method ResetController(stat: PortStat) returns (hcd: LocalHcd)
    requires stat.ResetSucceeded()
    ensures fresh(hcd) && fresh(hcd.portInfo) && fresh(hcd.Held()) && hcd.Lawful()
    ensures hcd.View() == Reset(stat)
  {
    hcd := new LocalHcd(1);
    assert hcd.Held() == {};
    var r := hcd.BgWork(StatEvent(1, stat), []);
    assert MayRunOut(C.Init(1).ports, StatEvent(1, stat));
  }

  /** One pass that runs out of memory for the inbox, and then one that succeeds. */
  const ONE_SHORTAGE := [Try(false, false, true, [], false)]

  lemma OneShortage(c: C.Controller, ev: Event)
    requires ev.UrbEvent? && !Terminates(ev) && MayRunOut(c.ports, ev)
    ensures AfterOthers(c, Meanwhile(c.ports, ev, ONE_SHORTAGE)) == c
    ensures SeenBy(c.ports, ev, ONE_SHORTAGE) == AfterFailedPass(ev)
    ensures !Dies(c, ev, ONE_SHORTAGE) && !Quits(c.ports, ev, ONE_SHORTAGE)
  {
    hide OtherStep, Terminates, MayRunOut;
    assert Pauses(false, ONE_SHORTAGE, true) == [];
  }

  /** The data of any such URB can be lost: when memory for the inbox runs out in the first pass, the URB
      that the second one enqueues has buffers without the data. */
  method LoseData(stat: PortStat, handle: Handle, raw: RawUrb) returns (hcd: LocalHcd)
    requires stat.ResetSucceeded() && OutgoingBulk(raw)
    ensures fresh(hcd) && hcd.Lawful()
    ensures |hcd.past.enqueued| == 2 && hcd.past.enqueued[1].CarriesUrb(handle)
    ensures !hcd.past.enqueued[1].job.urb.fetched
  {
    hide AfterOthers, Meanwhile, SeenBy, Dies, Quits, Terminates, MayRunOut, Reset;
    var urb := DecodeUrb(handle, raw).value;
    AcceptedAfterReset(stat, handle, raw);
    FailedPassCostsData(Reset(stat).ports, UrbEvent(urb, Works));
    EnqueuesNewWork(Reset(stat), UrbEvent(urb, Lost));
    OneShortage(Reset(stat), UrbEvent(urb, Works));
    hcd := ResetController(stat);
    var r := hcd.BgWork(UrbEvent(urb, Works), ONE_SHORTAGE);
  }

  method AcceptUrb(stat: PortStat, handle: Handle, raw: RawUrb) returns (hcd: LocalHcd)
    requires stat.ResetSucceeded() && OutgoingBulk(raw)
    ensures fresh(hcd) && fresh(hcd.portInfo) && fresh(hcd.Held()) && hcd.Lawful()
    ensures DecodeUrb(handle, raw).Some? && !Terminates(UrbEvent(DecodeUrb(handle, raw).value, Works))
    ensures hcd.View() == C.BgWork(Reset(stat), UrbEvent(DecodeUrb(handle, raw).value, Works))
  {
    var urb := DecodeUrb(handle, raw).value;
    AcceptedAfterReset(stat, handle, raw);
    hcd := ResetController(stat);
    var r := hcd.BgWork(UrbEvent(urb, Works), []);
  }

  /** Two polls put the URB into the consumer's hands. */
  lemma TakenAfterTwoPolls(stat: PortStat, handle: Handle, raw: RawUrb)
    requires stat.ResetSucceeded() && OutgoingBulk(raw)
    requires DecodeUrb(handle, raw).Some? && !Terminates(UrbEvent(DecodeUrb(handle, raw).value, Works))
    ensures
      var q := C.BgWork(Reset(stat), UrbEvent(DecodeUrb(handle, raw).value, Works)).queue;
      CancelNeedsMemory(Next(Next(q).queue).queue, handle)
  {
    var ev := UrbEvent(DecodeUrb(handle, raw).value, Works);
    AcceptedAfterReset(stat, handle, raw);
    var q := C.BgWork(Reset(stat), ev).queue;
    assert |q.inbox| == 2 && !q.inbox[0].CarriesUrb(handle) && q.inbox[1].CarriesUrb(handle);
    var q1 := Next(q).queue;
    assert q1 == Deliver(q);
    var q2 := Next(q1).queue;
    assert q2 == Deliver(q1);
    assert q2.inbox == [] && q2.processing == [q.inbox[0], q.inbox[1]];
    assert q2.processing[1].CarriesUrb(handle);
  }

  method PollTwice(hcd: LocalHcd)
    requires hcd.Lawful()
    modifies hcd`inbox, hcd`processing, hcd`past, hcd`calls, hcd`run, hcd`reports, hcd.Held()
    ensures hcd.Lawful() && hcd.QueueView() == Next(Next(old(hcd.QueueView())).queue).queue
    ensures forall x :: x in hcd.Held() ==> x in old(hcd.Held()) || fresh(x)
  {
    hcd.OtherPolls();
    hcd.OtherPolls();
  }

  method TakeUrb(stat: PortStat, handle: Handle, raw: RawUrb) returns (hcd: LocalHcd)
    requires stat.ResetSucceeded() && OutgoingBulk(raw)
    ensures fresh(hcd) && fresh(hcd.portInfo) && fresh(hcd.Held()) && hcd.Lawful()
    ensures CancelNeedsMemory(hcd.QueueView(), handle)
  {
    hcd := AcceptUrb(stat, handle, raw);
    PollTwice(hcd);
    TakenAfterTwoPolls(stat, handle, raw);
  }

  /** The program can end in a cancellation: the consumer has the URB, the kernel cancels it, and there is
      no memory for the cancel work. */
  method DieOnCancel(stat: PortStat, handle: Handle, raw: RawUrb) returns (hcd: LocalHcd, r: Outcome)
    requires stat.ResetSucceeded() && OutgoingBulk(raw)
    ensures fresh(hcd) && hcd.Lawful() && r == Terminated
  {
    hcd := TakeUrb(stat, handle, raw);
    r := hcd.BgWork(CancelEvent(handle), ONE_SHORTAGE);
  }
}
