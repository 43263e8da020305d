/** The controller classes as they run: `hcd` with the parts of `local_hcd` that override its
    virtual functions.  Every method is proved against the specification in `Controller`.

    Locks are not taken here: each method is one locked section (or says where it is two), and
    `Wakeup` interleaves the sections.  `delete` and usb_vhci_giveback appear as entries in
    the ghost history. */
module LocalHcds {
  import opened Types
  import opened PortTriggers
  import opened PortTable
  import opened WorkQueue
  import opened QueueLaws
  import opened RunLaws
  import opened Retries
  import C = Controller

  class Work {
    ghost const serial: nat
    const port: u8
    var job: Job
    var canceled: bool

    constructor (ghost serial: nat, port: u8, job: Job)
      ensures this.serial == serial && this.port == port && this.job == job && !canceled
    {
      this.serial, this.port, this.job, this.canceled := serial, port, job, false;
    }

    ghost function View(): Item
      reads this
    {
      Item(serial, port, job, canceled)
    }

    method Cancel()
      modifies this`canceled
      ensures canceled
    {
      canceled := true;
    }
  }

  ghost function Items(works: seq<Work>): seq<Item>
    reads works
  {
    seq(|works|, i requires 0 <= i < |works| reads works => works[i].View())
  }

  ghost predicate DistinctSerials(works: seq<Work>) {
    forall i, j :: 0 <= i < j < |works| ==> works[i].serial != works[j].serial
  }

  /** A work-enqueued callback: a function pointer and its argument. */
  datatype Callback = Callback(func: nat, arg: nat)

  datatype Lookup = Port(address: u8) | InvalidArgument | OutOfRange

  lemma StatMayRunOut(ports: Table, index: u8, stat: PortStat)
    ensures MayRunOut(ports, StatEvent(index, stat)) <==> 1 <= index as int <= |ports|
  {
  }

  lemma BgWorkOnStat(c: C.Controller, index: u8, stat: PortStat)
    requires 1 <= index as int <= |c.ports|
    ensures
      var was := c.ports[index - 1];
      C.BgWork(c, StatEvent(index, stat)) ==
        C.Controller(Enqueue(c.queue, index, StatusJob(stat, Triggers(stat, was.stat))),
                     c.ports[index - 1 := AfterStat(was, stat)])
  {
  }

  /** What bg_work does with an URB, told from the URB that the owning constructor makes of it. */
  lemma BgWorkOnUrb(c: C.Controller, ev: Event, u: Urb)
    requires ev.UrbEvent? && !Terminates(ev) && Route(c.ports, ev).Some?
    requires
      var own := ev.urb.Own(ev.urb.bufferLength != 0, ev.urb.packetCount != 0).value;
      u == own.(fetched := ev.urb.NeedsData() && ev.fetch.Works?)
    ensures
      var p := Route(c.ports, ev).value;
      C.Act(c, C.Kernel(ev)) ==
        Some(C.Controller(Enqueue(c.queue, p, UrbJob(AnswerSetAddress(u))),
                          c.ports[p - 1 := AfterUrb(c.ports[p - 1], u)]))
  {
  }

  lemma FirstPortIs(ports: Table, address: u8, p: u8)
    requires p as int <= |ports| && (p > 0 ==> ports[p - 1].adr == address)
    requires forall i :: 0 <= i < (if p == 0 then |ports| else p - 1) ==> ports[i].adr != address
    ensures PortFromAddress(ports, address) == p
  {
  }

  lemma PositionIs(items: seq<Item>, serial: nat, at: nat)
    requires at < |items| && items[at].serial == serial
    requires forall k :: 0 <= k < at ==> items[k].serial != serial
    ensures Position(items, serial) == at
  {
  }

  lemma FindUrbIs(items: seq<Item>, h: Handle, at: nat)
    requires at <= |items|
    requires at < |items| ==> items[at].CarriesUrb(h)
    requires forall k :: 0 <= k < at ==> !items[k].CarriesUrb(h)
    ensures FindUrb(items, h) == at
  {
  }

  class LocalHcd {
    const portInfo: array<PortInfo>
    var inbox: seq<Work>
    var processing: seq<Work>
    var callbacks: seq<Callback>
    ghost var past: History
    ghost var calls: seq<Callback>
    ghost var run: seq<C.Action>
    ghost var reports: seq<Event>

    /** `reports` are the kernel's part of the run. */
    ghost predicate Told()
      reads this`run, this`reports
    {
      reports == C.Events(run)
    }

    ghost predicate Valid()
      reads this
    {
      && 1 <= portInfo.Length <= 0xff && Told()
      && DistinctSerials(inbox) && DistinctSerials(processing)
      && (forall i, j :: 0 <= i < |inbox| && 0 <= j < |processing| ==> inbox[i].serial != processing[j].serial)
      && (forall i :: 0 <= i < |inbox| ==> inbox[i].serial < |past.enqueued|)
      && (forall i :: 0 <= i < |processing| ==> processing[i].serial < |past.enqueued|)
    }

    /** The works on the two lists. */
    ghost function Held(): set<Work>
      reads this
    {
      (set w | w in inbox) + (set w | w in processing)
    }

    ghost function QueueView(): Queue
      reads this, inbox, processing
    {
      Queue(Items(inbox), Items(processing), past)
    }

    ghost function View(): C.Controller
      requires portInfo.Length <= 0xff
      reads this, portInfo, inbox, processing
    {
      C.Controller(QueueView(), portInfo[..])
    }

    ghost predicate RunLeadsTo(c: C.Controller)
      requires portInfo.Length <= 0xff
      reads this`run
    {
      C.After(portInfo.Length, run) == Some(c)
    }

    /** The object is where its run leads, so that all theorems about runs hold of it. */
    ghost predicate Lawful()
      reads this, portInfo, inbox, processing
    {
      Valid() && RunLeadsTo(View())
    }

    /** When other threads have done what they still do, the controller is in the state `goal`. */
    ghost predicate Heading(goal: C.Controller, rest: seq<Other>)
      reads this, portInfo, inbox, processing
    {
      Valid() && portInfo[..] == goal.ports && AfterOthers(View(), rest) == goal
    }

    /** The URB arm will end with `final`, in the state `goal` if nothing but other threads changes it. */
    ghost predicate Underway(goal: C.Controller, final: Outcome, ev: Event, have: bool, tries: seq<Try>)
      requires ev.UrbEvent?
      reads this, portInfo, inbox, processing
    {
      && Heading(goal, UrbCourse(goal.ports, ev, have, tries).pauses)
      && UrbCourse(goal.ports, ev, have, tries).outcome == final
    }

    /** The report was handled in the state d. */
    ghost predicate Handled(d: C.Controller, ev: Event)
      reads this, portInfo, inbox, processing
    {
      Valid() && C.Act(d, C.Kernel(ev)) == Some(View())
    }

    constructor (ports: u8)
      requires ports != 0
      ensures Lawful() && run == [] && reports == [] && View() == C.Init(ports) && callbacks == [] && calls == []
      ensures fresh(portInfo) && inbox == [] && processing == []
    {
      portInfo := new PortInfo[ports as int](_ => FRESH_PORT);
      inbox, processing, callbacks := [], [], [];
      past, calls, run, reports := EMPTY.past, [], [], [];
      new;
      assert portInfo[..] == FreshTable(ports);
      assert View() == C.Init(ports);
    }

    /** The run is extended by an action of the consumer that led from c to the present state. */
    ghost method Record(a: C.Action, c: C.Controller)
      requires Valid() && !a.Kernel? && C.Act(c, a) == Some(View())
      modifies this`run
      ensures Valid() && View() == old(View())
      ensures old(RunLeadsTo(c)) ==> Lawful()
    {
      C.PerformAppend(C.Init(portInfo.Length), run, a);
      C.EventsAppend(run, a);
      run := run + [a];
    }

    /** And by a report. */
    ghost method RecordReport(ev: Event, c: C.Controller)
      requires Valid() && C.Act(c, C.Kernel(ev)) == Some(View())
      modifies this`run, this`reports
      ensures Valid() && View() == old(View()) && reports == old(reports) + [ev]
      ensures old(RunLeadsTo(c)) ==> Lawful()
    {
      C.PerformAppend(C.Init(portInfo.Length), run, C.Kernel(ev));
      C.EventsAppend(run, C.Kernel(ev));
      run, reports := run + [C.Kernel(ev)], reports + [ev];
    }

    // ---------- callbacks ----------

    method OnWorkEnqueued()
      modifies this`past, this`calls
      ensures past == old(past).(notified := old(past).notified + 1)
      ensures calls == old(calls) + callbacks
      ensures QueueView() == old(QueueView()).(past := past)
    {
      var i := 0;
      while i < |callbacks|
        invariant 0 <= i <= |callbacks|
        invariant calls == old(calls) + callbacks[..i] && past == old(past)
      {
        calls := calls + [callbacks[i]];
        i := i + 1;
      }
      past := past.(notified := past.notified + 1);
    }

    method AddWorkEnqueuedCallback(c: Callback)
      modifies this`callbacks
      ensures callbacks == old(callbacks) + [c]
    {
      callbacks := callbacks + [c];
    }

    /** Only the first equal callback is removed. */
    method RemoveWorkEnqueuedCallback(c: Callback)
      modifies this`callbacks
      ensures c !in old(callbacks) ==> callbacks == old(callbacks)
      ensures c in old(callbacks) ==>
        exists k :: 0 <= k < |old(callbacks)| && old(callbacks)[k] == c && c !in old(callbacks)[..k]
          && callbacks == RemoveAt(old(callbacks), k)
    {
      var i := 0;
      while i < |callbacks|
        invariant 0 <= i <= |callbacks| && callbacks == old(callbacks)
        invariant c !in callbacks[..i]
      {
        if callbacks[i] == c {
          callbacks := RemoveAt(callbacks, i);
          break;
        }
        i := i + 1;
      }
    }

    // ---------- the queue ----------

    /** enqueue_work; `enqueues` is false when push_back runs out of memory. */
    method EnqueueWork(w: Work, enqueues: bool) returns (ok: bool)
      requires w.serial == |past.enqueued|
      modifies this`inbox, this`past
      ensures ok == enqueues
      ensures !ok ==> inbox == old(inbox) && past == old(past)
      ensures ok ==> inbox == old(inbox) + [w] && past == old(past).(enqueued := old(past).enqueued + [w.View()])
      ensures Items(inbox) == old(Items(inbox)) + if ok then [w.View()] else []
      ensures Items(processing) == old(Items(processing))
    {
      ghost var items := Items(inbox);
      if !enqueues {
        assert Items(inbox) == items;
        return false;
      }
      inbox := inbox + [w];
      past := past.(enqueued := past.enqueued + [w.View()]);
      return true;
    }

    /** A cancelled work at the front is deleted. */
    method DeleteFront()
      requires Valid() && inbox != []
      modifies this`inbox, this`past
      ensures Valid() && inbox == old(inbox)[1..]
      ensures QueueView() == Discard(old(QueueView()))
    {
      ghost var q := QueueView();
      past := past.(freed := past.freed + [inbox[0].serial]);
      inbox := inbox[1..];
      assert Items(inbox) == q.inbox[1..];
    }

    /** The work at the front moves to the processing list. */
    method TakeFront() returns (w: Work)
      requires Valid() && inbox != []
      modifies this`inbox, this`processing, this`past
      ensures Valid() && w == old(inbox[0]) && inbox == old(inbox)[1..] && processing == old(processing) + [w]
      ensures QueueView() == Deliver(old(QueueView()))
    {
      ghost var q := QueueView();
      w := inbox[0];
      inbox := inbox[1..];
      processing := processing + [w];
      past := past.(delivered := past.delivered + [w.View()]);
      assert Items(inbox) == q.inbox[1..];
      assert Items(processing) == q.processing + [q.inbox[0]];
    }

    method NextWork() returns (w: Work?, more: bool)
      requires Valid()
      modifies this`inbox, this`processing, this`past, this`run
      ensures Valid() && (old(Lawful()) ==> Lawful())
      ensures QueueView() == Next(old(QueueView())).queue && more == Next(old(QueueView())).more
      ensures w == null ==> Next(old(QueueView())).work == None && processing == old(processing)
      ensures w != null ==> Next(old(QueueView())).work == Some(w.View()) && processing == old(processing) + [w]
      ensures w != null ==> w in old(inbox)
      ensures forall x :: x in inbox ==> x in old(inbox)
    {
      ghost var c := View();
      w, more := null, false;
      var len := |inbox|;
      while len != 0
        invariant len == |inbox| && Valid() && processing == old(processing) && run == old(run)
        invariant forall x :: x in inbox ==> x in old(inbox)
        invariant Next(QueueView()) == Next(old(QueueView()))
        decreases len
      {
        if !inbox[0].canceled {
          w := TakeFront();
          Record(C.Poll, c);
          return w, len != 1;
        }
        DeleteFront();
        len := |inbox|;
      }
      Record(C.Poll, c);
    }

    /** finishing_work: an URB is handed to usb_vhci_giveback. */
    method FinishingWork(w: Work)
      modifies this`past
      ensures past == (if w.job.UrbJob? then old(past).(givenBack := old(past).givenBack + [w.job.urb]) else old(past))
    {
      if w.job.UrbJob? {
        past := past.(givenBack := past.givenBack + [w.job.urb]);
      }
    }

    /** std::list::remove: every entry that is this object. */
    static method Remove(works: seq<Work>, w: Work, ghost at: nat) returns (rest: seq<Work>)
      requires at < |works| && works[at] == w && DistinctSerials(works)
      ensures rest == RemoveAt(works, at) && DistinctSerials(rest)
      ensures forall i :: 0 <= i < |rest| ==> rest[i] in works && rest[i].serial != w.serial
    {
      rest := [];
      var i := 0;
      while i < |works|
        invariant 0 <= i <= |works|
        invariant rest == if i <= at then works[..i] else works[..at] + works[at + 1..i]
      {
        if works[i] != w {
          rest := rest + [works[i]];
        }
        i := i + 1;
      }
      assert forall j :: 0 <= j < |rest| ==> rest[j] == works[if j < at then j else j + 1];
    }

    /** What the locked section of finish_work does to the lists. */
    method GiveBackAndUnlist(w: Work, ghost at: nat)
      requires Valid() && at < |processing| && processing[at] == w
      modifies this`processing, this`past
      ensures Valid() && inbox == old(inbox)
      ensures QueueView() == FinishAt(old(QueueView()), at) && processing == RemoveAt(old(processing), at)
      ensures forall i :: 0 <= i < |processing| ==> processing[i].serial != w.serial
    {
      ghost var q := QueueView();
      FinishingWork(w);
      processing := Remove(processing, w, at);
      past := past.(finishing := past.finishing + [w.serial]);
      assert Items(inbox) == q.inbox;
      assert Items(processing) == RemoveAt(q.processing, at);
    }

    /** The locked section of finish_work. */
    method FinishLocked(w: Work)
      requires Valid() && w in processing
      modifies this`processing, this`past, this`run
      ensures Valid() && inbox == old(inbox) && (old(Lawful()) ==> Lawful())
      ensures InProcess(old(QueueView()), w.serial) && QueueView() == Finish(old(QueueView()), w.serial)
      ensures processing == RemoveAt(old(processing), Position(old(QueueView()).processing, w.serial))
      ensures forall i :: 0 <= i < |processing| ==> processing[i].serial != w.serial
    {
      ghost var c := View();
      ghost var at :| 0 <= at < |processing| && processing[at] == w;
      PositionIs(c.queue.processing, w.serial, at);
      GiveBackAndUnlist(w, at);
      Record(C.Complete(w.serial), c);
    }

    /** The `delete` of finish_work, outside the lock. */
    method DeleteWork(w: Work)
      requires Valid() && past.finishing != [] && past.finishing[|past.finishing| - 1] == w.serial
      modifies this`past, this`run
      ensures Valid() && (old(Lawful()) ==> Lawful())
      ensures QueueView() == Release(old(QueueView()), |old(past).finishing| - 1)
    {
      ghost var c := View();
      past := past.(finishing := RemoveAt(past.finishing, |past.finishing| - 1), freed := past.freed + [w.serial]);
      Record(C.Delete(|c.queue.past.finishing| - 1), c);
    }

    method FinishWork(w: Work)
      requires Valid() && w in processing
      modifies this`processing, this`past, this`run
      ensures Valid() && inbox == old(inbox) && w !in processing
      ensures old(Lawful()) ==> Lawful()
      ensures InProcess(old(QueueView()), w.serial)
      ensures QueueView() == Release(Finish(old(QueueView()), w.serial), |old(past).finishing|)
      ensures processing == RemoveAt(old(processing), Position(old(QueueView()).processing, w.serial))
    {
      FinishLocked(w);
      DeleteWork(w);
    }

    /** The scan of cancel_process_urb_work: the first work with an URB of that handle. */
    method FindUrbWork(works: seq<Work>, handle: Handle) returns (wrk: Work?, ghost at: nat)
      ensures at == FindUrb(Items(works), handle)
      ensures wrk == null <==> at == |works|
      ensures wrk != null ==> wrk == works[at]
    {
      var i := 0;
      while i < |works|
        invariant 0 <= i <= |works|
        invariant forall k :: 0 <= k < i ==> !Items(works)[k].CarriesUrb(handle)
      {
        var w := works[i];
        if w.job.UrbJob? && w.job.urb.handle == handle {
          FindUrbIs(Items(works), handle, i);
          return w, i;
        }
        i := i + 1;
      }
      FindUrbIs(Items(works), handle, i);
      return null, i;
    }

    /** canceling_work of local_hcd: cancelling work in progress enqueues a work of its own.  If there is
        no memory for it, std::bad_alloc is thrown and nothing was done. */
    method CancelingWork(w: Work, inProgress: bool, memory: bool) returns (thrown: bool)
      requires Valid()
      modifies this`inbox, this`past, this`calls
      ensures Valid() && thrown == (inProgress && w.job.UrbJob? && !memory)
      ensures !inProgress || thrown ==> inbox == old(inbox) && past == old(past)
      ensures QueueView() == if inProgress && w.job.UrbJob? && !thrown
                             then Enqueue(old(QueueView()), w.port, CancelJob(w.job.urb.handle)) else old(QueueView())
      ensures calls == old(calls) + if inProgress && w.job.UrbJob? && !thrown then callbacks else []
      ensures forall x :: x in inbox ==> x in old(inbox) || fresh(x)
    {
      if inProgress && w.job.UrbJob? {
        if !memory {
          return true;
        }
        var cw := new Work(|past.enqueued|, w.port, CancelJob(w.job.urb.handle));
        var _ := EnqueueWork(cw, true);
        OnWorkEnqueued();
      }
      return false;
    }

    /** The branch of cancel_process_urb_work for a queued work. */
    method CancelQueuedWork(wrk: Work, ghost at: nat)
      requires Valid() && at < |inbox| && inbox[at] == wrk && wrk.job.UrbJob?
      modifies this`inbox, this`past, this`calls, wrk`canceled
      ensures Valid() && inbox == old(inbox) && calls == old(calls)
      ensures QueueView() == CancelQueued(old(QueueView()), at)
    {
      ghost var q := QueueView();
      ghost var before := wrk.View();
      wrk.Cancel();
      var _ := CancelingWork(wrk, false, true);
      FinishingWork(wrk);
      past := past.(voided := past.voided + {wrk.serial},
                    doubled := past.doubled + if before.canceled then [before.job.urb.handle] else []);
      assert Items(inbox) == q.inbox[at := before.(canceled := true)];
      assert Items(processing) == q.processing;
    }

    /** The lists after cancel_process_urb_work. */
    method CancelLocked(handle: Handle, memory: bool) returns (inProgress: bool, thrown: bool)
      requires Valid()
      modifies this`inbox, this`past, this`calls, inbox`canceled
      ensures Valid() && thrown == (CancelNeedsMemory(old(QueueView()), handle) && !memory)
      ensures inProgress == (CancelNeedsMemory(old(QueueView()), handle) && memory)
      ensures QueueView() == if thrown then old(QueueView()) else Cancel(old(QueueView()), handle).0
      ensures calls == old(calls) + if inProgress then callbacks else []
      ensures forall x :: x in inbox ==> x in old(inbox) || fresh(x)
    {
      var wrk, at := FindUrbWork(inbox, handle);
      if wrk == null {
        wrk, at := FindUrbWork(processing, handle);
        if wrk != null {
          thrown := CancelingWork(wrk, true, memory);
          return !thrown, thrown;
        }
      } else {
        CancelQueuedWork(wrk, at);
      }
      return false, false;
    }

    /** cancel_process_urb_work, which anybody may call; `thrown` tells that std::bad_alloc leaves it. */
    method CancelProcessUrbWork(handle: Handle, memory: bool) returns (inProgress: bool, thrown: bool)
      requires Valid()
      modifies this`inbox, this`past, this`calls, this`run, this`reports, inbox`canceled
      ensures Valid() && (old(Lawful()) ==> Lawful())
      ensures thrown == (CancelNeedsMemory(old(QueueView()), handle) && !memory)
      ensures inProgress == (CancelNeedsMemory(old(QueueView()), handle) && memory)
      ensures QueueView() == if thrown then old(QueueView()) else Cancel(old(QueueView()), handle).0
      ensures calls == old(calls) + if inProgress then callbacks else []
      ensures forall x :: x in inbox ==> x in old(inbox) || fresh(x)
      ensures reports == old(reports) + if thrown then [] else [CancelEvent(handle)]
    {
      ghost var c := View();
      inProgress, thrown := CancelLocked(handle, memory);
      if !thrown {
        RecordReport(CancelEvent(handle), c);
      }
    }

    // ---------- other threads between two passes ----------

    method SetUrb(w: Work, urb: Urb, ghost at: nat)
      requires Valid() && at < |processing| && processing[at] == w
      modifies w`job
      ensures Valid()
      ensures
        var q := old(QueueView());
        QueueView() == q.(processing := q.processing[at := q.processing[at].(job := UrbJob(urb))])
    {
      ghost var q := QueueView();
      w.job := UrbJob(urb);
      assert Items(inbox) == q.inbox;
      assert Items(processing) == q.processing[at := q.processing[at].(job := w.job)];
    }

    /** The consumer works on an URB that it was given; it has a pointer to it. */
    method Respond(w: Work, urb: Urb)
      requires Valid() && w in processing && w.job.UrbJob? && w.job.urb.handle == urb.handle
      modifies w`job, this`run
      ensures Valid() && (old(Lawful()) ==> Lawful())
      ensures MayAnswer(old(QueueView()), w.serial, urb) && QueueView() == Answer(old(QueueView()), w.serial, urb)
    {
      ghost var c := View();
      ghost var at :| 0 <= at < |processing| && processing[at] == w;
      PositionIs(c.queue.processing, w.serial, at);
      SetUrb(w, urb, at);
      Record(C.Respond(w.serial, urb), c);
    }

    method OtherPolls()
      requires Valid()
      modifies this`inbox, this`processing, this`past, this`calls, this`run, this`reports, Held()
      ensures Valid() && (old(Lawful()) ==> Lawful())
      ensures View() == OtherStep(old(View()), OtherPoll)
      ensures forall x :: x in Held() ==> x in old(Held()) || fresh(x)
    {
      var _, _ := NextWork();
    }

    method OtherFinishes(k: nat)
      requires Valid() && k < |processing|
      modifies this`inbox, this`processing, this`past, this`calls, this`run, this`reports, Held()
      ensures Valid() && (old(Lawful()) ==> Lawful())
      ensures View() == OtherStep(old(View()), OtherFinish(k))
      ensures forall x :: x in Held() ==> x in old(Held()) || fresh(x)
    {
      FinishWork(processing[k]);
    }

    method OtherResponds(k: nat, urb: Urb)
      requires Valid() && k < |processing|
      requires processing[k].job.UrbJob? && processing[k].job.urb.handle == urb.handle
      modifies this`inbox, this`processing, this`past, this`calls, this`run, this`reports, Held()
      ensures Valid() && (old(Lawful()) ==> Lawful())
      ensures View() == OtherStep(old(View()), OtherRespond(k, urb))
      ensures forall x :: x in Held() ==> x in old(Held()) || fresh(x)
    {
      Respond(processing[k], urb);
    }

    method OtherCancels(handle: Handle, memory: bool)
      requires Valid()
      modifies this`inbox, this`processing, this`past, this`calls, this`run, this`reports, Held()
      ensures Valid() && (old(Lawful()) ==> Lawful())
      ensures View() == OtherStep(old(View()), OtherCancel(handle, memory))
      ensures forall x :: x in Held() ==> x in old(Held()) || fresh(x)
    {
      var _, _ := CancelProcessUrbWork(handle, memory);
    }

    method LetOther(o: Other)
      requires Valid()
      modifies this`inbox, this`processing, this`past, this`calls, this`run, this`reports, Held()
      ensures Valid() && (old(Lawful()) ==> Lawful())
      ensures View() == OtherStep(old(View()), o)
      ensures forall x :: x in Held() ==> x in old(Held()) || fresh(x)
    {
      match o {
        case OtherPoll =>
          OtherPolls();
        case OtherFinish(k) =>
          if k < |processing| {
            OtherFinishes(k);
          }
        case OtherRespond(k, urb) =>
          if k < |processing| && processing[k].job.UrbJob? && processing[k].job.urb.handle == urb.handle {
            OtherResponds(k, urb);
          }
        case OtherCancel(handle, memory) =>
          OtherCancels(handle, memory);
      }
    }

    /** What other threads do while bg_work does not hold the lock. */
    method LetOthers(todo: seq<Other>, ghost goal: C.Controller, ghost rest: seq<Other>)
      requires Heading(goal, todo + rest)
      modifies this`inbox, this`processing, this`past, this`calls, this`run, this`reports, Held()
      ensures Heading(goal, rest) && (old(Lawful()) ==> Lawful())
      ensures todo == [] ==> calls == old(calls) && reports == old(reports)
      ensures forall x :: x in Held() ==> x in old(Held()) || fresh(x)
    {
      hide OtherStep, AfterOthers;
      var i := 0;
      assert todo[0..] == todo;
      while i < |todo|
        invariant 0 <= i <= |todo| && Heading(goal, todo[i..] + rest) && (old(Lawful()) ==> Lawful())
        invariant i == 0 ==> calls == old(calls) && reports == old(reports)
        invariant forall x :: x in Held() ==> x in old(Held()) || fresh(x)
      {
        OneStepFurther(View(), todo, i, rest);
        LetOther(todo[i]);
        i := i + 1;
      }
      assert todo[i..] + rest == rest;
    }

    // ---------- the port table ----------

    method AddressFromPort(port: u8) returns (r: Lookup)
      requires Valid()
      ensures r == if port == 0 then InvalidArgument
                   else if port as int > portInfo.Length then OutOfRange else Port(portInfo[port - 1].adr)
    {
      if port == 0 {
        return InvalidArgument;
      }
      if port as int > portInfo.Length {
        return OutOfRange;
      }
      return Port(portInfo[port - 1].adr);
    }

    /** The counter has eight bits, and so has the result. */
    method FindPort(address: u8) returns (r: Lookup)
      requires Valid()
      ensures address > MAX_ADDRESS <==> r == InvalidArgument
      ensures address <= MAX_ADDRESS ==> r == Port(PortFromAddress(portInfo[..], address))
    {
      if address > MAX_ADDRESS {
        return InvalidArgument;
      }
      var i: u8 := 0;
      while i as int < portInfo.Length
        invariant i as int <= portInfo.Length
        invariant forall k :: 0 <= k < i ==> portInfo[k].adr != address
      {
        if portInfo[i].adr == address {
          FirstPortIs(portInfo[..], address, i + 1);
          return Port(i + 1);
        }
        i := i + 1;
      }
      FirstPortIs(portInfo[..], address, 0);
      return Port(0);
    }

    /** Looking up the address of a port and then the port of that address leads back exactly if the
        address is a live one that no lower port has. */
    method FindOwnAddress(port: u8) returns (r: Lookup)
      requires Valid() && 1 <= port as int <= portInfo.Length
      ensures r == InvalidArgument <==> portInfo[port - 1].adr > MAX_ADDRESS
      ensures r == Port(port) <==>
        && portInfo[port - 1].adr <= MAX_ADDRESS
        && forall i :: 0 <= i < port - 1 ==> portInfo[i].adr != portInfo[port - 1].adr
      ensures Distinct(portInfo[..]) && portInfo[port - 1].adr <= MAX_ADDRESS ==> r == Port(port)
    {
      var a := AddressFromPort(port);
      r := FindPort(a.address);
      LookupInvertsIffFirst(portInfo[..], port);
    }

    // ---------- the background thread ----------

    /** What the status arm does to the table. */
    method UpdatePort(index: u8, nps: PortStat)
      requires 1 <= index as int <= portInfo.Length
      modifies portInfo
      ensures portInfo[..] == old(portInfo[..])[index - 1 := AfterStat(old(portInfo[..])[index - 1], nps)]
      ensures QueueView() == old(QueueView())
    {
      portInfo[index - 1] := portInfo[index - 1].(stat := nps);
      if nps.ConnectionChanged() {
        portInfo[index - 1] := portInfo[index - 1].(adr := NO_ADDRESS);
      }
      if nps.ResetChanged() && !nps.Reset() && nps.Enable() {
        portInfo[index - 1] := portInfo[index - 1].(adr := 0);
      }
    }

    /** Allocating a work, enqueueing it and calling back, as all of it or nothing. */
    method EnqueueNew(index: u8, job: Job, enqueues: bool) returns (ok: bool)
      requires Valid()
      modifies this`inbox, this`past, this`calls
      ensures Valid() && ok == enqueues
      ensures QueueView() == if ok then Enqueue(old(QueueView()), index, job) else old(QueueView())
      ensures calls == old(calls) + if ok then callbacks else []
      ensures forall x :: x in inbox ==> x in old(inbox) || fresh(x)
    {
      var w := new Work(|past.enqueued|, index, job);
      ok := EnqueueWork(w, enqueues);
      if ok {
        OnWorkEnqueued();
      }
    }

    /** One pass of the status arm of bg_work under the lock. */
    method TryPortStat(index: u8, nps: PortStat, allocates: bool, enqueues: bool) returns (done: bool)
      requires Valid() && 1 <= index as int <= portInfo.Length
      modifies this`inbox, this`past, this`calls, portInfo
      ensures Valid() && done == (allocates && enqueues)
      ensures !done ==> View() == old(View()) && calls == old(calls)
      ensures done ==> View() == C.BgWork(old(View()), StatEvent(index, nps)) && calls == old(calls) + callbacks
      ensures forall x :: x in inbox ==> x in old(inbox) || fresh(x)
    {
      hide AfterStat, Triggers, C.BgWork, C.After, C.Events, Items;
      if !allocates {
        return false;
      }
      ghost var c := View();
      var psw := new Work(|past.enqueued|, index, StatusJob(nps, Triggers(nps, portInfo[index - 1].stat)));
      var ok := EnqueueWork(psw, enqueues);
      if !ok {
        return false;
      }
      UpdatePort(index, nps);
      OnWorkEnqueued();
      BgWorkOnStat(c, index, nps);
      return true;
    }

    /** One turn of the retry loop of the status arm: a pass, and the pause after one that failed. */
    method StatTurn(index: u8, nps: PortStat, have: bool, t: Try, ghost goal: C.Controller, ghost rest: seq<Other>)
      returns (r: Outcome)
      requires 1 <= index as int <= portInfo.Length
      requires Heading(goal, if have && t.enqueues then [] else t.others + rest)
      modifies this`inbox, this`processing, this`past, this`calls, this`run, this`reports, portInfo, Held()
      ensures r == if have && t.enqueues then Done else if t.shutdown then ShutDown else Again
      ensures if r == Done then Handled(goal, StatEvent(index, nps)) else Heading(goal, rest)
      ensures old(Lawful()) ==> if r == Done then RunLeadsTo(goal) else Lawful()
      ensures t.others == [] || r == Done ==>
        calls == old(calls) + (if r == Done then callbacks else []) && reports == old(reports)
      ensures forall x :: x in Held() ==> x in old(Held()) || fresh(x)
    {
      hide OtherStep, AfterOthers, MayRunOut, C.After, Items;
      NoOthers(View());
      var done := TryPortStat(index, nps, have, t.enqueues);
      if done {
        return Done;
      }
      LetOthers(t.others, goal, rest);
      return if t.shutdown then ShutDown else Again;
    }

    /** The status arm of bg_work with its retry loop.  However often memory runs out and whatever other
        threads do meanwhile, the effect is that of one pass on the state they leave, or none at all if the
        thread is shut down. */
    method BgPortStat(index: u8, nps: PortStat, tries: seq<Try>) returns (r: Outcome)
      requires Valid()
      modifies this`inbox, this`processing, this`past, this`calls, this`run, this`reports, portInfo, Held()
      ensures r == if !MayRunOut(old(portInfo[..]), StatEvent(index, nps)) then Dropped
                   else if GivesUp(false, tries, false) then ShutDown else Done
      ensures
        var goal := AfterOthers(old(View()), if r == Dropped then [] else Pauses(false, tries, false));
        && (if r == Done then Handled(goal, StatEvent(index, nps)) else Heading(goal, []))
        && (old(Lawful()) ==> RunLeadsTo(goal))
      ensures Undisturbed(tries) ==>
        calls == old(calls) + (if r == Done then callbacks else []) && reports == old(reports)
      ensures forall x :: x in Held() ==> x in old(Held()) || fresh(x)
    {
      hide OtherStep, AfterOthers, MayRunOut, C.Act, C.After, Items;
      NoOthers(View());
      StatMayRunOut(portInfo[..], index, nps);
      if index == 0 || index as int > portInfo.Length {
        return Dropped;
      }
      var have := false;
      var k := 0;
      ghost var goal := AfterOthers(View(), Pauses(false, tries, false));
      while true
        invariant 0 <= k <= |tries| && callbacks == old(callbacks)
        invariant Heading(goal, Pauses(have, tries[k..], false)) && (old(Lawful()) ==> Lawful())
        invariant Undisturbed(tries) ==> calls == old(calls) && reports == old(reports)
        invariant forall x :: x in Held() ==> x in old(Held()) || fresh(x)
        invariant GivesUp(false, tries, false) == GivesUp(have, tries[k..], false)
        decreases |tries| - k
      {
        var t := if k < |tries| then tries[k] else SUCCEEDS;
        assert k < |tries| ==> tries[k..][1..] == tries[k + 1..];
        have := have || t.allocates;
        ghost var rest := if k < |tries| && !t.shutdown then Pauses(have, tries[k + 1..], false) else [];
        r := StatTurn(index, nps, have, t, goal, rest);
        if r != Again {
          NoOthers(View());
          return r;
        }
        k := k + 1;
      }
    }

    /** SET_ADDRESS is answered for the device and takes effect at once. */
    method HandleSetAddress(index: u8, u: Urb) returns (urb: Urb)
      requires 1 <= index as int <= portInfo.Length
      modifies portInfo
      ensures urb == AnswerSetAddress(u)
      ensures portInfo[..] == old(portInfo[..])[index - 1 := AfterUrb(old(portInfo[..])[index - 1], u)]
      ensures QueueView() == old(QueueView())
    {
      urb := u;
      if urb.kind.Control? {
        if urb.EndpointNumber() == 0 && urb.bmRequestType == 0 && urb.bRequest == REQUEST_SET_ADDRESS {
          if urb.wValue > MAX_ADDRESS {
            urb := urb.(status := STATUS_STALL);
          } else {
            urb := urb.(status := STATUS_SUCCESS);
            portInfo[index - 1] := portInfo[index - 1].(adr := urb.wValue);
          }
        }
      }
    }

    /** The locked part of the URB arm once the port is known: SET_ADDRESS takes effect before the
        work is enqueued and is rolled back if that fails. */
    method TryUrb(index: u8, u: Urb, allocates: bool, enqueues: bool) returns (done: bool)
      requires Valid() && 1 <= index as int <= portInfo.Length
      modifies this`inbox, this`past, this`calls, portInfo
      ensures Valid() && done == (allocates && enqueues)
      ensures !done ==> View() == old(View()) && calls == old(calls)
      ensures done ==>
        && QueueView() == Enqueue(old(QueueView()), index, UrbJob(AnswerSetAddress(u)))
        && portInfo[..] == old(portInfo[..])[index - 1 := AfterUrb(old(portInfo[..])[index - 1], u)]
        && calls == old(calls) + callbacks
      ensures forall x :: x in inbox ==> x in old(inbox) || fresh(x)
    {
      if !allocates {
        return false;
      }
      ghost var ports := portInfo[..];
      var rollback := portInfo[index - 1].adr;
      var urb := HandleSetAddress(index, u);
      done := EnqueueNew(index, UrbJob(urb), enqueues);
      if !done {
        portInfo[index - 1] := portInfo[index - 1].(adr := rollback);
        assert portInfo[..] == ports;
      }
    }

    /** The section of the URB arm that runs under the lock. */
    method PassLocked(u: Urb, allocates: bool, enqueues: bool) returns (r: Outcome)
      requires Valid()
      modifies this`inbox, this`past, this`calls, portInfo
      ensures Valid()
      ensures r == Terminated <==> u.devadr > MAX_ADDRESS
      ensures r == Dropped <==> r != Terminated && PortFromAddress(old(portInfo[..]), u.devadr) == 0
      ensures r == Again <==> r != Terminated && r != Dropped && !(allocates && enqueues)
      ensures r != ShutDown && (r != Done ==> View() == old(View()) && calls == old(calls))
      ensures r == Done ==>
        var p := PortFromAddress(old(portInfo[..]), u.devadr);
        && portInfo[..] == old(portInfo[..])[p - 1 := AfterUrb(old(portInfo[..])[p - 1], u)]
        && QueueView() == Enqueue(old(QueueView()), p, UrbJob(AnswerSetAddress(u)))
        && calls == old(calls) + callbacks
      ensures forall x :: x in inbox ==> x in old(inbox) || fresh(x)
    {
      var port := FindPort(u.devadr);
      if port == InvalidArgument {
        return Terminated;
      }
      if port.address == 0 {
        return Dropped;
      }
      var done := TryUrb(port.address, u, allocates, enqueues);
      return if done then Done else Again;
    }

    /** What a pass does before it takes the lock: the owning constructor and the data fetch.  `Again` means
        that it can go on. */
    method Prepare(urb: Urb, fetch: Fetch) returns (r: Outcome, u: Urb)
      ensures r == if urb.Own(urb.bufferLength != 0, urb.packetCount != 0).None? then Terminated
                   else if FetchRefused(UrbEvent(urb, fetch)) then Dropped else Again
      ensures r == Again ==>
        u == urb.Own(urb.bufferLength != 0, urb.packetCount != 0).value.(fetched := urb.NeedsData() && fetch.Works?)
    {
      u := urb;
      var own := urb.Own(urb.bufferLength != 0, urb.packetCount != 0);
      if own.None? {
        return Terminated, u;
      }
      u := own.value.(fetched := false);
      if urb.NeedsData() && fetch != Lost {
        if fetch.Fails? {
          return Dropped, u;
        }
        u := u.(fetched := true);
      }
      return Again, u;
    }

    /** One pass of the URB arm of bg_work.  When the data was fetched in an earlier pass it is not
        fetched again, although the buffers are new. */
    method PassUrb(urb: Urb, fetch: Fetch, allocates: bool, enqueues: bool) returns (r: Outcome)
      requires Valid()
      modifies this`inbox, this`past, this`calls, portInfo
      ensures Valid()
      ensures r == Terminated <==> Terminates(UrbEvent(urb, fetch))
      ensures r == Dropped <==> r != Terminated && !MayRunOut(old(portInfo[..]), UrbEvent(urb, fetch))
      ensures r == Again <==> r != Terminated && r != Dropped && !(allocates && enqueues)
      ensures r != ShutDown && (r != Done ==> View() == old(View()) && calls == old(calls))
      ensures r == Done ==>
        C.Act(old(View()), C.Kernel(UrbEvent(urb, fetch))) == Some(View()) && calls == old(calls) + callbacks
      ensures forall x :: x in inbox ==> x in old(inbox) || fresh(x)
    {
      var u;
      r, u := Prepare(urb, fetch);
      if r != Again {
        return;
      }
      ghost var c := View();
      r := PassLocked(u, allocates, enqueues);
      if r == Done {
        BgWorkOnUrb(c, UrbEvent(urb, fetch), u);
      }
    }

    /** One turn of the retry loop of the URB arm: waiting for buffers, a pass, and the pause after one
        that failed. */
    method UrbTurn(urb: Urb, fetch: Fetch, have: bool, t: Try,
                   ghost goal: C.Controller, ghost final: Outcome, ghost tries: seq<Try>)
      returns (r: Outcome)
      requires t == if tries == [] then SUCCEEDS else tries[0]
      requires Underway(goal, final, UrbEvent(urb, fetch), have, tries)
      modifies this`inbox, this`processing, this`past, this`calls, this`run, this`reports, portInfo, Held()
      ensures r == Again ==>
        tries != [] && Underway(goal, final, UrbEvent(urb, Lost), have || t.allocates, tries[1..])
      ensures r == Again ==> !((have || t.allocates) && t.enqueues)
      ensures r == Done ==> (have || t.allocates) && t.enqueues
      ensures r != Again ==> r == final
      ensures r != Again ==> if r == Done then Handled(goal, UrbEvent(urb, fetch)) else Heading(goal, [])
      ensures old(Lawful()) ==> if r == Done then RunLeadsTo(goal) else Lawful()
      ensures r == Done ==> LastUrbHasData(QueueView(), urb.NeedsData() && fetch.Works?)
      ensures t.others == [] || r == Done ==>
        calls == old(calls) + (if r == Done then callbacks else []) && reports == old(reports)
      ensures forall x :: x in Held() ==> x in old(Held()) || fresh(x)
    {
      hide OtherStep, AfterOthers, Terminates, MayRunOut, C.Act, C.After, LastUrbHasData, Items;
      NoOthers(View());
      ghost var rest := AfterTurn(goal.ports, UrbEvent(urb, fetch), have || t.allocates, tries).pauses;
      assert [] + rest == rest;
      if t.quits {
        return ShutDown;
      }
      r := PassUrb(urb, fetch, have || t.allocates, t.enqueues);
      if r == Done {
        DataOfNewWork(goal, UrbEvent(urb, fetch), View());
      }
      if r == Again {
        LetOthers(t.others, goal, rest);
        if t.shutdown {
          r := ShutDown;
        }
      }
    }

    /** The URB arm of bg_work with its retry loop.  However often memory runs out and whatever other
        threads do meanwhile, the effect is that of one pass on the state they leave, or none if the thread
        is shut down; but the data comes with the URB only if the first pass succeeds. */
    method BgProcessUrb(urb: Urb, fetch: Fetch, tries: seq<Try>) returns (r: Outcome)
      requires Valid()
      modifies this`inbox, this`processing, this`past, this`calls, this`run, this`reports, portInfo, Held()
      ensures
        var course := UrbCourse(old(portInfo[..]), UrbEvent(urb, fetch), false, tries);
        var goal := AfterOthers(old(View()), course.pauses);
        && r == course.outcome
        && (if r == Done then Handled(goal, SeenAfter(UrbEvent(urb, fetch), tries)) else Heading(goal, []))
        && (old(Lawful()) ==> RunLeadsTo(goal))
      ensures r == Done ==>
        LastUrbHasData(QueueView(), urb.NeedsData() && fetch.Works? && FirstPass(tries))
      ensures Undisturbed(tries) ==>
        calls == old(calls) + (if r == Done then callbacks else []) && reports == old(reports)
      ensures forall x :: x in Held() ==> x in old(Held()) || fresh(x)
    {
      hide OtherStep, AfterOthers, UrbCourse, AfterTurn, Terminates, MayRunOut, C.Act, C.After, Items, LastUrbHasData;
      var now := fetch;
      var have := false;
      var k := 0;
      ghost var ev := UrbEvent(urb, fetch);
      ghost var course := UrbCourse(portInfo[..], ev, false, tries);
      ghost var goal := AfterOthers(View(), course.pauses);
      while true
        invariant 0 <= k <= |tries| && callbacks == old(callbacks)
        invariant Underway(goal, course.outcome, UrbEvent(urb, now), have, tries[k..])
        invariant old(Lawful()) ==> Lawful()
        invariant Undisturbed(tries) ==> calls == old(calls) && reports == old(reports)
        invariant forall x :: x in Held() ==> x in old(Held()) || fresh(x)
        invariant k == 0 ==> !have && now == fetch
        invariant k > 0 ==> now == Lost && !FirstPass(tries)
        decreases |tries| - k
      {
        var t := if k < |tries| then tries[k] else SUCCEEDS;
        assert k < |tries| ==> tries[k..][1..] == tries[k + 1..];
        r := UrbTurn(urb, now, have, t, goal, course.outcome, tries[k..]);
        if r != Again {
          NoOthers(View());
          return r;
        }
        have := have || t.allocates;
        now := Lost;
        k := k + 1;
      }
    }

    /** The cancel arm of bg_work. */
    method BgCancel(handle: Handle, memory: bool) returns (r: Outcome)
      requires Valid()
      modifies this`inbox, this`past, this`calls, this`run, this`reports, inbox`canceled
      ensures Valid() && (old(Lawful()) ==> Lawful())
      ensures r == if CancelNeedsMemory(old(QueueView()), handle) && !memory then Terminated else Done
      ensures if r == Done then Handled(old(View()), CancelEvent(handle)) else View() == old(View())
      ensures reports == old(reports) + if r == Done then [CancelEvent(handle)] else []
      ensures calls == old(calls) + if CancelNeedsMemory(old(QueueView()), handle) && memory then callbacks else []
      ensures forall x :: x in Held() ==> x in old(Held()) || fresh(x)
    {
      var _, thrown := CancelProcessUrbWork(handle, memory);
      return if thrown then Terminated else Done;
    }

    /** A report has the effect that `Controller` specifies on the state that other threads leave behind
        while bg_work waits for memory, unless bg_work does not survive it or the thread is shut down. */
    method BgWork(ev: Event, tries: seq<Try>) returns (r: Outcome)
      requires Valid()
      modifies this`inbox, this`processing, this`past, this`calls, this`run, this`reports, portInfo, Held()
      ensures Valid() && (old(Lawful()) ==> Lawful())
      ensures r == Terminated <==> Dies(old(View()), ev, tries)
      ensures r == ShutDown <==> Quits(old(portInfo[..]), ev, tries)
      ensures
        var left := AfterOthers(old(View()), Meanwhile(old(portInfo[..]), ev, tries));
        if r == Terminated || r == ShutDown then View() == left
        else C.Act(left, C.Kernel(SeenBy(old(portInfo[..]), ev, tries))) == Some(View())
      ensures Undisturbed(tries) ==>
        reports == old(reports) + if r == Terminated || r == ShutDown then []
                                  else [SeenBy(old(portInfo[..]), ev, tries)]
      ensures Undisturbed(tries) && !ev.CancelEvent? ==> calls == old(calls) + if r == Done then callbacks else []
      ensures ev.CancelEvent? ==>
        calls == old(calls) + if CancelNeedsMemory(old(QueueView()), ev.handle) && r == Done then callbacks else []
      ensures forall x :: x in Held() ==> x in old(Held()) || fresh(x)
    {
      hide OtherStep, AfterOthers, UrbCourse, Pauses, GivesUp, Items, C.After, C.Act, Undisturbed;
      NoOthers(View());
      ghost var c := View();
      ghost var left := AfterOthers(c, Meanwhile(c.ports, ev, tries));
      if !Terminates(ev) {
        DroppedActs(left, ev);
      }
      match ev {
        case StatEvent(index, stat) =>
          r := BgPortStat(index, stat, tries);
          NoOthers(View());
          if r != ShutDown {
            RecordReport(ev, left);
          }
        case UrbEvent(urb, fetch) =>
          UrbCourseIs(c.ports, ev, false, tries);
          r := BgProcessUrb(urb, fetch, tries);
          NoOthers(View());
          if r != ShutDown && r != Terminated {
            RecordReport(SeenBy(c.ports, ev, tries), left);
          }
        case CancelEvent(handle) =>
          r := BgCancel(handle, FirstPass(tries));
      }
    }

    // ---------- destruction ----------

    /** The destructor, once no thread uses the object any more. */
    method Destruct()
      requires Valid()
      modifies this`inbox, this`processing, this`past
      ensures QueueView() == Destroy(old(QueueView()))
      ensures old(Lawful() && past.finishing == []) ==> FreedOnce(QueueView())
    {
      ghost var q := QueueView();
      var i := 0;
      while i < |inbox|
        invariant 0 <= i <= |inbox| && inbox == old(inbox) && processing == old(processing)
        invariant past == old(past).(freed := old(past).freed + Serials(q.inbox)[..i])
      {
        past := past.(freed := past.freed + [inbox[i].serial]);
        i := i + 1;
      }
      assert Serials(q.inbox)[..i] == Serials(q.inbox);
      i := 0;
      while i < |processing|
        invariant 0 <= i <= |processing| && processing == old(processing)
        invariant past == old(past).(freed := old(past).freed + Serials(q.inbox) + Serials(q.processing)[..i])
      {
        past := past.(freed := past.freed + [processing[i].serial]);
        i := i + 1;
      }
      assert Serials(q.processing)[..i] == Serials(q.processing);
      inbox, processing := [], [];
      if old(Lawful()) && q.past.finishing == [] {
        RunKeepsInv(portInfo.Length, old(run));
        DestroyFreesOnce(q);
      }
    }
  }
}
