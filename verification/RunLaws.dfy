/** What holds after every run of the controller. */
module RunLaws {
  import opened Types
  import opened PortTriggers
  import opened PortTable
  import opened WorkQueue
  import opened QueueLaws
  import opened Controller

  // ---------- the invariant and the table ----------

  lemma BgWorkKeeps(c: Controller, ev: Event)
    requires Inv(c.queue) && !Terminates(ev)
    ensures Inv(BgWork(c, ev).queue)
  {
    match ev
    case StatEvent(index, stat) =>
      if 1 <= index <= |c.ports| {
        EnqueueKeeps(c.queue, index, StatusJob(stat, Triggers(stat, c.ports[index - 1].stat)));
      }
    case UrbEvent(_, _) =>
      var r := Route(c.ports, ev);
      if r.Some? {
        EnqueueKeeps(c.queue, r.value, UrbJob(Accepted(ev)));
      }
    case CancelEvent(h) => CancelKeeps(c.queue, h);
  }

  lemma ActKeeps(c: Controller, a: Action)
    requires Inv(c.queue) && Act(c, a).Some?
    ensures Inv(Act(c, a).value.queue)
  {
    match a
    case Kernel(ev) => BgWorkKeeps(c, ev);
    case Poll => NextKeeps(c.queue);
    case Respond(serial, urb) => AnswerKeeps(c.queue, serial, urb);
    case Complete(serial) => FinishKeeps(c.queue, serial);
    case Delete(index) => ReleaseKeeps(c.queue, index);
  }

  lemma EmptyInv()
    ensures Inv(EMPTY)
  {
  }

  /** Order, ownership, balance and causality hold after every run. */
  lemma {:induction false} RunKeepsInv(n: u8, run: seq<Action>)
    requires After(n, run).Some?
    ensures Inv(After(n, run).value.queue)
  {
    if run == [] {
      EmptyInv();
    } else {
      RunKeepsInv(n, run[..|run| - 1]);
      ActKeeps(After(n, run[..|run| - 1]).value, run[|run| - 1]);
    }
  }

  lemma ActTable(c: Controller, a: Action)
    requires Act(c, a).Some?
    ensures Act(c, a).value.ports == if a.Kernel? then TableStep(c.ports, a.ev) else c.ports
  {
  }

  lemma SurvivableAppend(n: u8, evs: seq<Event>, ev: Event)
    requires Survivable(evs) && !Terminates(ev)
    ensures Survivable(evs + [ev]) && TableAfter(n, evs + [ev]) == TableStep(TableAfter(n, evs), ev)
  {
    assert (evs + [ev])[..|evs|] == evs;
  }

  /** The consumer never touches the table: it is the one built from the kernel's reports. */
  lemma {:induction false} RunTable(n: u8, run: seq<Action>)
    requires After(n, run).Some?
    ensures Survivable(Events(run)) && After(n, run).value.ports == TableAfter(n, Events(run))
  {
    if run == [] {
    } else {
      var before := run[..|run| - 1];
      var a := run[|run| - 1];
      RunTable(n, before);
      ActTable(After(n, before).value, a);
      if a.Kernel? {
        SurvivableAppend(n, Events(before), a.ev);
      } else {
        assert Events(run) == Events(before);
      }
    }
  }

  /** A report touches neither the works in processing nor those about to be deleted, and enqueues at
      most one work. */
  lemma BgWorkQueue(c: Controller, ev: Event)
    requires !Terminates(ev)
    ensures var q' := BgWork(c, ev).queue;
      && q'.processing == c.queue.processing && q'.past.finishing == c.queue.past.finishing
      && |q'.inbox| - |c.queue.inbox| == |q'.past.enqueued| - |c.queue.past.enqueued|
      && |c.queue.inbox| <= |q'.inbox| <= |c.queue.inbox| + 1
  {
  }

  // ---------- an URB needs an addressed port ----------

  /** Whenever a run enqueues an URB, its port was reset at or after its latest connection change. */
  lemma UrbWorkOnlyAfterReset(n: u8, run: seq<Action>, ev: Event)
    requires After(n, run).Some? && ev.UrbEvent? && !Terminates(ev)
    ensures var c := After(n, run).value;
      var e := BgWork(c, ev).queue.past.enqueued;
      e == c.queue.past.enqueued
      || (|e| == |c.queue.past.enqueued| + 1
          && e[|e| - 1].job == UrbJob(Accepted(ev))
          && ResetSincePlugged(Events(run), e[|e| - 1].port))
  {
    RunTable(n, run);
    if Route(After(n, run).value.ports, ev).Some? {
      UrbOnlyAfterReset(n, Events(run), ev);
    }
  }

  // ---------- between two passes of a retry loop ----------

  lemma {:induction false} NextKeepsEnqueued(q: Queue)
    ensures Next(q).queue.past.enqueued == q.past.enqueued
    decreases |q.inbox|
  {
    if q.inbox == [] || !q.inbox[0].canceled {
    } else {
      NextKeepsEnqueued(Discard(q));
    }
  }

  lemma OthersKeep(c: Controller, a: Action)
    requires Act(c, a).Some? && ByOthers([a])
    ensures Act(c, a).value.ports == c.ports && c.queue.past.enqueued <= Act(c, a).value.queue.past.enqueued
  {
    assert [a][0] == a;
    NextKeepsEnqueued(c.queue);
  }

  lemma {:induction false} OthersKeepThroughout(c: Controller, others: seq<Action>)
    requires Perform(c, others).Some? && ByOthers(others)
    ensures
      var d := Perform(c, others).value;
      d.ports == c.ports && c.queue.past.enqueued <= d.queue.past.enqueued
  {
    if others == [] {
    } else {
      var before := others[..|others| - 1];
      OthersKeepThroughout(c, before);
      OthersKeep(Perform(c, before).value, others[|others| - 1]);
    }
  }

  /** The work that a report enqueues in a controller which has room for it. */
  function NewWork(c: Controller, ev: Event): Item
    requires !Terminates(ev) && MayRunOut(c.ports, ev)
  {
    var serial := |c.queue.past.enqueued|;
    match ev
    case StatEvent(index, stat) => Item(serial, index, StatusJob(stat, Triggers(stat, c.ports[index - 1].stat)), false)
    case UrbEvent(_, _) => Item(serial, Route(c.ports, ev).value, UrbJob(Accepted(ev)), false)
  }

  lemma EnqueuesNewWork(c: Controller, ev: Event)
    requires !Terminates(ev) && MayRunOut(c.ports, ev)
    ensures BgWork(c, ev).queue.past.enqueued == c.queue.past.enqueued + [NewWork(c, ev)]
  {
  }

  function WithoutData(job: Job): Job { if job.UrbJob? then UrbJob(job.urb.(fetched := false)) else job }

  /** What a pass does depends on the table and on how many works were enqueued, not on the lists. */
  lemma LaterPass(c: Controller, later: Controller, ev: Event)
    requires !Terminates(ev) && MayRunOut(c.ports, ev) && later.ports == c.ports
    ensures !Terminates(AfterFailedPass(ev)) && MayRunOut(later.ports, AfterFailedPass(ev))
    ensures
      var atOnce := NewWork(c, ev);
      NewWork(later, AfterFailedPass(ev))
      == Item(|later.queue.past.enqueued|, atOnce.port, WithoutData(atOnce.job), false)
  {
    FailedPassCostsData(c.ports, ev);
  }

  /** A retry loop leaves the lock between two passes.  Whatever the other threads do there, cancelling
      included, the pass that succeeds enqueues the same job for the same port and leaves the same table
      as if it had come at once; only an URB's data is lost, and cancel works may come before it. */
  lemma RetryIsOnePass(c: Controller, others: seq<Action>, ev: Event)
    requires Perform(c, others).Some? && ByOthers(others)
    requires !Terminates(ev) && MayRunOut(c.ports, ev)
    ensures !Terminates(AfterFailedPass(ev))
    ensures
      var between := Perform(c, others).value;
      var atOnce := BgWork(c, ev);
      var later := BgWork(between, AfterFailedPass(ev));
      var one := atOnce.queue.past.enqueued[|c.queue.past.enqueued|..];
      && later.ports == atOnce.ports
      && c.queue.past.enqueued <= between.queue.past.enqueued
      && |one| == 1
      && later.queue.past.enqueued
         == between.queue.past.enqueued
            + [Item(|between.queue.past.enqueued|, one[0].port, WithoutData(one[0].job), false)]
  {
    var between := Perform(c, others).value;
    OthersKeepThroughout(c, others);
    LaterPass(c, between, ev);
    FailedPassCostsData(c.ports, ev);
    EnqueuesNewWork(c, ev);
    EnqueuesNewWork(between, AfterFailedPass(ev));
  }

  // ---------- the works a run enqueues ----------

  /** A report that is no cancellation either enqueues one work or does nothing at all. */
  lemma EnqueuesOrDrops(c: Controller, ev: Event)
    requires !Terminates(ev) && !ev.CancelEvent?
    ensures MayRunOut(c.ports, ev) <==> BgWork(c, ev).queue.past.enqueued != c.queue.past.enqueued
    ensures !MayRunOut(c.ports, ev) ==> BgWork(c, ev) == c
  {
  }

  /** The works that carry an URB. */
  function UrbWorks(items: seq<Item>): (works: seq<Item>)
    ensures forall i :: 0 <= i < |works| ==> works[i].job.UrbJob?
  {
    if items == [] then []
    else
      var w := items[|items| - 1];
      UrbWorks(items[..|items| - 1]) + if w.job.UrbJob? then [w] else []
  }

  datatype Routed = Routed(port: u8, ev: Event)

  /** The URBs that a history of reports routes to a port. */
  function RoutedUrbs(n: u8, evs: seq<Event>): (routed: seq<Routed>)
    requires Survivable(evs)
    ensures forall i :: 0 <= i < |routed| ==> routed[i].ev.UrbEvent?
  {
    if evs == [] then []
    else
      var before := evs[..|evs| - 1];
      var ev := evs[|evs| - 1];
      var r := if ev.UrbEvent? then Route(TableAfter(n, before), ev) else None;
      RoutedUrbs(n, before) + if r.Some? then [Routed(r.value, ev)] else []
  }

  ghost predicate WorksAnswer(works: seq<Item>, routed: seq<Routed>)
    requires forall i :: 0 <= i < |works| ==> works[i].job.UrbJob?
    requires forall i :: 0 <= i < |routed| ==> routed[i].ev.UrbEvent?
  {
    && |works| == |routed|
    && forall i :: 0 <= i < |works| ==>
         works[i].port == routed[i].port && AnsweredFor(routed[i].ev, works[i].job.urb)
  }

  lemma UrbWorksAppend(items: seq<Item>, w: Item)
    ensures UrbWorks(items + [w]) == UrbWorks(items) + if w.job.UrbJob? then [w] else []
  {
    assert (items + [w])[..|items|] == items;
  }

  lemma RoutedAppend(n: u8, evs: seq<Event>, ev: Event)
    requires Survivable(evs) && !Terminates(ev)
    ensures Survivable(evs + [ev])
    ensures
      var r := if ev.UrbEvent? then Route(TableAfter(n, evs), ev) else None;
      RoutedUrbs(n, evs + [ev]) == RoutedUrbs(n, evs) + if r.Some? then [Routed(r.value, ev)] else []
  {
    assert (evs + [ev])[..|evs|] == evs;
  }

  /** What an action adds to the URB works. */
  lemma ActUrbWorks(c: Controller, a: Action)
    requires Act(c, a).Some?
    ensures
      var was, now := UrbWorks(c.queue.past.enqueued), UrbWorks(Act(c, a).value.queue.past.enqueued);
      if a.Kernel? && a.ev.UrbEvent? && Route(c.ports, a.ev).Some? then
        now == was + [Item(|c.queue.past.enqueued|, Route(c.ports, a.ev).value, UrbJob(Accepted(a.ev)), false)]
      else now == was
  {
    var e, e' := c.queue.past.enqueued, Act(c, a).value.queue.past.enqueued;
    NextKeepsEnqueued(c.queue);
    if |e'| > |e| {
      assert e' == e + [e'[|e|]];
      UrbWorksAppend(e, e'[|e|]);
    }
  }

  lemma AnswerAppend(works: seq<Item>, routed: seq<Routed>, w: Item, r: Routed)
    requires forall i :: 0 <= i < |works| ==> works[i].job.UrbJob?
    requires forall i :: 0 <= i < |routed| ==> routed[i].ev.UrbEvent?
    requires WorksAnswer(works, routed) && w.job.UrbJob? && r.ev.UrbEvent?
    requires w.port == r.port && AnsweredFor(r.ev, w.job.urb)
    ensures WorksAnswer(works + [w], routed + [r])
  {
    hide AnsweredFor;
  }

  lemma UrbWorksStep(n: u8, evs: seq<Event>, c: Controller, ev: Event)
    requires Survivable(evs) && c.ports == TableAfter(n, evs) && !Terminates(ev)
    requires WorksAnswer(UrbWorks(c.queue.past.enqueued), RoutedUrbs(n, evs))
    ensures Survivable(evs + [ev])
    ensures WorksAnswer(UrbWorks(BgWork(c, ev).queue.past.enqueued), RoutedUrbs(n, evs + [ev]))
  {
    hide AnsweredFor, Accepted, Terminates, WorksAnswer, Route;
    assert Act(c, Kernel(ev)) == Some(BgWork(c, ev));
    ActUrbWorks(c, Kernel(ev));
    RoutedAppend(n, evs, ev);
    if ev.UrbEvent? && Route(c.ports, ev).Some? {
      var p := Route(c.ports, ev).value;
      AcceptedIsAnswered(ev);
      AnswerAppend(UrbWorks(c.queue.past.enqueued), RoutedUrbs(n, evs),
                   Item(|c.queue.past.enqueued|, p, UrbJob(Accepted(ev)), false), Routed(p, ev));
    } else {
      assert RoutedUrbs(n, evs) + [] == RoutedUrbs(n, evs);
    }
  }

  /** Over every run the works that carry an URB are, in order, the URBs that the reports route to a port,
      each answered as it must be: none is missing and none is made up. */
  lemma {:induction false} UrbWorksAreRoutedUrbs(n: u8, run: seq<Action>)
    requires After(n, run).Some?
    ensures Survivable(Events(run))
    ensures WorksAnswer(UrbWorks(After(n, run).value.queue.past.enqueued), RoutedUrbs(n, Events(run)))
  {
    if run == [] {
    } else {
      var before := run[..|run| - 1];
      var a := run[|run| - 1];
      UrbWorksAreRoutedUrbs(n, before);
      RunTable(n, before);
      if a.Kernel? {
        UrbWorksStep(n, Events(before), After(n, before).value, a.ev);
      } else {
        ActUrbWorks(After(n, before).value, a);
        assert Events(run) == Events(before);
      }
    }
  }

  datatype Asked = Asked(port: u8, handle: Handle)

  /** The cancel works, as what they ask for. */
  function CancelWorks(items: seq<Item>): seq<Asked> {
    if items == [] then []
    else
      var w := items[|items| - 1];
      CancelWorks(items[..|items| - 1]) + if w.job.CancelJob? then [Asked(w.port, w.job.handle)] else []
  }

  /** The cancellations of a run that meet an URB in progress and none in the inbox. */
  ghost function CancelsInProgress(n: u8, run: seq<Action>): seq<Asked>
    requires After(n, run).Some?
  {
    if run == [] then []
    else
      var before := run[..|run| - 1];
      var a := run[|run| - 1];
      var q := After(n, before).value.queue;
      CancelsInProgress(n, before)
      + if a.Kernel? && a.ev.CancelEvent? && NoCarrier(q.inbox, a.ev.handle) && !NoCarrier(q.processing, a.ev.handle)
        then [Asked(q.processing[FindUrb(q.processing, a.ev.handle)].port, a.ev.handle)] else []
  }

  lemma CancelWorksAppend(items: seq<Item>, w: Item)
    ensures CancelWorks(items + [w])
         == CancelWorks(items) + if w.job.CancelJob? then [Asked(w.port, w.job.handle)] else []
  {
    assert (items + [w])[..|items|] == items;
  }

  lemma CancelActs(c: Controller, h: Handle)
    ensures
      var q := c.queue;
      var was, now := CancelWorks(q.past.enqueued), CancelWorks(Cancel(q, h).0.past.enqueued);
      now == was + if NoCarrier(q.inbox, h) && !NoCarrier(q.processing, h)
                   then [Asked(q.processing[FindUrb(q.processing, h)].port, h)] else []
  {
    var q := c.queue;
    var i, j := FindUrb(q.inbox, h), FindUrb(q.processing, h);
    if i < |q.inbox| {
      CancelOfQueued(q, h, i);
    } else if j < |q.processing| {
      CancelOfInProgress(q, h, j);
      CancelWorksAppend(q.past.enqueued, Item(|q.past.enqueued|, q.processing[j].port, CancelJob(h), false));
    } else {
      CancelOfUnknown(q, h);
    }
  }

  lemma OthersEnqueueNoCancel(c: Controller, a: Action)
    requires Act(c, a).Some? && !(a.Kernel? && a.ev.CancelEvent?)
    ensures CancelWorks(Act(c, a).value.queue.past.enqueued) == CancelWorks(c.queue.past.enqueued)
  {
    var e, e' := c.queue.past.enqueued, Act(c, a).value.queue.past.enqueued;
    NextKeepsEnqueued(c.queue);
    if |e'| > |e| {
      assert e' == e + [e'[|e|]];
      CancelWorksAppend(e, e'[|e|]);
    }
  }

  /** Over every run the cancel works are, in order, exactly the cancellations that met an URB in progress
      and none in the inbox, each with that URB's port: the consumer hears of all of them. */
  lemma {:induction false} CancelWorksAreCancelsInProgress(n: u8, run: seq<Action>)
    requires After(n, run).Some?
    ensures CancelWorks(After(n, run).value.queue.past.enqueued) == CancelsInProgress(n, run)
  {
    if run == [] {
    } else {
      var before := run[..|run| - 1];
      var a := run[|run| - 1];
      CancelWorksAreCancelsInProgress(n, before);
      if a.Kernel? && a.ev.CancelEvent? {
        CancelActs(After(n, before).value, a.ev.handle);
      } else {
        OthersEnqueueNoCancel(After(n, before).value, a);
      }
    }
  }

  // ---------- status works ----------

  predicate AreStatusJobs(jobs: seq<Job>) { forall i :: 0 <= i < |jobs| ==> jobs[i].StatusJob? }

  /** The status works for a port, in the order they were enqueued. */
  function StatusWorks(items: seq<Item>, p: nat): (jobs: seq<Job>)
    ensures AreStatusJobs(jobs)
  {
    if items == [] then []
    else
      var w := items[|items| - 1];
      StatusWorks(items[..|items| - 1], p) + if w.job.StatusJob? && w.port == p then [w.job] else []
  }

  function LastStat(jobs: seq<Job>): PortStat
    requires AreStatusJobs(jobs)
  {
    if jobs == [] then ZERO_STAT else jobs[|jobs| - 1].stat
  }

  /** Each work's flags are the edges from the status before it, starting from all zeros. */
  predicate EdgeChain(jobs: seq<Job>)
    requires AreStatusJobs(jobs)
  {
    forall i :: 0 <= i < |jobs| ==> jobs[i].triggers == Triggers(jobs[i].stat, LastStat(jobs[..i]))
  }

  lemma StatusWorksAppend(items: seq<Item>, w: Item, p: nat)
    ensures StatusWorks(items + [w], p)
         == StatusWorks(items, p) + if w.job.StatusJob? && w.port == p then [w.job] else []
  {
    assert (items + [w])[..|items|] == items;
  }

  /** An action enqueues at most one work, and a status work only for a report on that port. */
  lemma ActEnqueued(c: Controller, a: Action)
    requires Act(c, a).Some?
    ensures var e := c.queue.past.enqueued;
      var e' := Act(c, a).value.queue.past.enqueued;
      if a.Kernel? && a.ev.StatEvent? && 1 <= a.ev.index <= |c.ports| then
        var triggers := Triggers(a.ev.stat, c.ports[a.ev.index - 1].stat);
        e' == e + [Item(|e|, a.ev.index, StatusJob(a.ev.stat, triggers), false)]
      else
        e' == e || (|e'| == |e| + 1 && e' == e + [e'[|e|]] && !e'[|e|].job.StatusJob?)
  {
    if a == Poll {
      NextKeepsEnqueued(c.queue);
    }
  }

  lemma ActStatusWorks(c: Controller, a: Action, p: nat)
    requires Act(c, a).Some? && 1 <= p <= |c.ports|
    ensures var c' := Act(c, a).value;
      var old_ := StatusWorks(c.queue.past.enqueued, p);
      var new_ := StatusWorks(c'.queue.past.enqueued, p);
      if a.Kernel? && a.ev.StatEvent? && a.ev.index == p then
        new_ == old_ + [StatusJob(a.ev.stat, Triggers(a.ev.stat, c.ports[p - 1].stat))]
        && c'.ports[p - 1].stat == a.ev.stat
      else
        new_ == old_ && c'.ports[p - 1].stat == c.ports[p - 1].stat
  {
    ActTable(c, a);
    ActEnqueued(c, a);
    var q := c.queue;
    var e := Act(c, a).value.queue.past.enqueued;
    if e != q.past.enqueued {
      StatusWorksAppend(q.past.enqueued, e[|q.past.enqueued|], p);
    }
  }

  lemma EdgeChainAppend(jobs: seq<Job>, stat: PortStat)
    requires AreStatusJobs(jobs) && EdgeChain(jobs)
    ensures var more := jobs + [StatusJob(stat, Triggers(stat, LastStat(jobs)))];
      AreStatusJobs(more) && EdgeChain(more) && LastStat(more) == stat
  {
  }

  /** The status works for port p telescope and end in the status that the table holds. */
  ghost predicate Telescopes(c: Controller, p: nat) {
    var jobs := StatusWorks(c.queue.past.enqueued, p);
    1 <= p <= |c.ports| && EdgeChain(jobs) && c.ports[p - 1].stat == LastStat(jobs)
  }

  lemma ActTelescopes(c: Controller, a: Action, p: nat)
    requires Act(c, a).Some? && Telescopes(c, p)
    ensures Telescopes(Act(c, a).value, p)
  {
    ActTable(c, a);
    ActStatusWorks(c, a, p);
    if a.Kernel? && a.ev.StatEvent? && a.ev.index == p {
      EdgeChainAppend(StatusWorks(c.queue.past.enqueued, p), a.ev.stat);
    }
  }

  /** For each port and any run, each status work's flags are the edges since the one before. */
  lemma {:induction false} TriggersTelescope(n: u8, run: seq<Action>, p: nat)
    requires After(n, run).Some? && 1 <= p <= n
    ensures Telescopes(After(n, run).value, p)
  {
    if run == [] {
    } else {
      TriggersTelescope(n, run[..|run| - 1], p);
      ActTelescopes(After(n, run[..|run| - 1]).value, run[|run| - 1], p);
    }
  }

  /** The power edges among status works, true for POWER_ON. */
  function PowerEdges(jobs: seq<Job>): seq<bool>
    requires AreStatusJobs(jobs)
  {
    if jobs == [] then []
    else
      var t := jobs[|jobs| - 1].triggers;
      PowerEdges(jobs[..|jobs| - 1])
      + (if TriggersPowerOn(t) then [true] else []) + (if TriggersPowerOff(t) then [false] else [])
  }

  lemma EdgeChainPrefix(jobs: seq<Job>)
    requires jobs != [] && AreStatusJobs(jobs) && EdgeChain(jobs)
    ensures var before := jobs[..|jobs| - 1];
      EdgeChain(before) && jobs[|jobs| - 1].triggers == Triggers(jobs[|jobs| - 1].stat, LastStat(before))
  {
  }

  /** POWER_ON and POWER_OFF alternate, POWER_ON first, and the power is on exactly after an odd number
      of them. */
  predicate Alternates(edges: seq<bool>, on: bool) {
    && (forall i :: 0 <= i < |edges| ==> (edges[i] <==> i % 2 == 0))
    && (on <==> |edges| % 2 == 1)
  }

  lemma AlternatesStep(edges: seq<bool>, was: bool, now: bool)
    requires Alternates(edges, was)
    ensures Alternates(edges + (if !was && now then [true] else []) + (if was && !now then [false] else []), now)
  {
  }

  lemma {:induction false} PowerAlternates(jobs: seq<Job>)
    requires AreStatusJobs(jobs) && EdgeChain(jobs)
    ensures Alternates(PowerEdges(jobs), LastStat(jobs).Power())
  {
    if jobs == [] {
      assert !ZERO_STAT.Power();
    } else {
      var before := jobs[..|jobs| - 1];
      EdgeChainPrefix(jobs);
      PowerAlternates(before);
      AlternatesStep(PowerEdges(before), LastStat(before).Power(), LastStat(jobs).Power());
    }
  }

  lemma PowerAlternatesOverRuns(n: u8, run: seq<Action>, p: nat)
    requires After(n, run).Some? && 1 <= p <= n
    ensures
      var c := After(n, run).value;
      var jobs := StatusWorks(c.queue.past.enqueued, p);
      p <= |c.ports| && Alternates(PowerEdges(jobs), c.ports[p - 1].stat.Power())
  {
    TriggersTelescope(n, run, p);
    PowerAlternates(StatusWorks(After(n, run).value.queue.past.enqueued, p));
  }

  // ---------- giving back ----------

  predicate IsCancel(a: Action, h: Handle) { a == Kernel(CancelEvent(h)) }

  predicate IsReport(a: Action, h: Handle) { a.Kernel? && a.ev.UrbEvent? && a.ev.urb.handle == h }

  /** The handle was cancelled and no URB with it was reported since. */
  predicate CanceledSince(run: seq<Action>, h: Handle) {
    exists j :: 0 <= j < |run| && IsCancel(run[j], h) && forall i :: j < i < |run| ==> !IsReport(run[i], h)
  }

  predicate Holds(q: Queue, h: Handle) {
    || (exists i :: 0 <= i < |q.inbox| && q.inbox[i].CarriesUrb(h))
    || (exists i :: 0 <= i < |q.processing| && q.processing[i].CarriesUrb(h))
  }

  predicate FairAction(run: seq<Action>, q: Queue, a: Action) {
    && (a.Kernel? && a.ev.CancelEvent? ==> !CanceledSince(run, a.ev.handle))
    && (a.Kernel? && a.ev.UrbEvent? ==> !Holds(q, a.ev.urb.handle))
  }

  /** What the kernel is relied on for, in its own terms: it cancels an URB at most once, and it
      does not report a handle that a held work still carries. */
  predicate FairKernel(n: u8, run: seq<Action>)
    requires After(n, run).Some?
  {
    run != [] ==>
      var before := run[..|run| - 1];
      FairKernel(n, before) && FairAction(before, After(n, before).value.queue, run[|run| - 1])
  }

  /** Every cancelled work in the inbox was cancelled by a report still in force. */
  ghost predicate TombstonesExplained(run: seq<Action>, q: Queue) {
    forall i :: 0 <= i < |q.inbox| && q.inbox[i].canceled ==>
      q.inbox[i].job.UrbJob? && CanceledSince(run, q.inbox[i].job.urb.handle)
  }

  lemma CanceledSinceStep(run: seq<Action>, h: Handle)
    requires run != [] && !IsReport(run[|run| - 1], h)
    requires IsCancel(run[|run| - 1], h) || CanceledSince(run[..|run| - 1], h)
    ensures CanceledSince(run, h)
  {
  }

  /** A cancelled work in the inbox was there cancelled before, or was cancelled just now; and it
      shields its handle from new reports only if the kernel does not reuse it. */
  lemma TombstoneStep(c: Controller, a: Action, i: nat)
    requires Act(c, a).Some? && i < |Act(c, a).value.queue.inbox| && Act(c, a).value.queue.inbox[i].canceled
    requires forall j :: 0 <= j < |c.queue.inbox| && c.queue.inbox[j].canceled ==> c.queue.inbox[j].job.UrbJob?
    requires a.Kernel? && a.ev.UrbEvent? ==> !Holds(c.queue, a.ev.urb.handle)
    ensures var w := Act(c, a).value.queue.inbox[i];
      w.job.UrbJob? && !IsReport(a, w.job.urb.handle)
      && (IsCancel(a, w.job.urb.handle)
          || exists j :: 0 <= j < |c.queue.inbox| && c.queue.inbox[j].canceled
               && c.queue.inbox[j].CarriesUrb(w.job.urb.handle))
  {
    var q := c.queue;
    var w := Act(c, a).value.queue.inbox[i];
    if a == Poll {
      NextTakesFirstLive(q);
      var k := Tombstones(q.inbox);
      assert w == q.inbox[k + 1 + i];
    } else if i < |q.inbox| && w == q.inbox[i] {
      assert q.inbox[i].CarriesUrb(w.job.urb.handle);
    }
  }

  lemma FairStep(n: u8, run: seq<Action>)
    requires run != [] && After(n, run).Some? && FairKernel(n, run)
    requires var q := After(n, run[..|run| - 1]).value.queue;
      TombstonesExplained(run[..|run| - 1], q) && q.past.doubled == []
    ensures var q' := After(n, run).value.queue; TombstonesExplained(run, q') && q'.past.doubled == []
  {
    var before := run[..|run| - 1];
    var a := run[|run| - 1];
    var q := After(n, before).value.queue;
    var q' := After(n, run).value.queue;
    forall i | 0 <= i < |q'.inbox| && q'.inbox[i].canceled
      ensures q'.inbox[i].job.UrbJob? && CanceledSince(run, q'.inbox[i].job.urb.handle)
    {
      TombstoneStep(After(n, before).value, a, i);
      CanceledSinceStep(run, q'.inbox[i].job.urb.handle);
    }
    if a == Poll {
      NextTakesFirstLive(q);
    }
    if a.Kernel? && a.ev.CancelEvent? {
      CancelDoublesIffStale(q, a.ev.handle);
    }
  }

  lemma {:induction false} FairCancelsAreFresh(n: u8, run: seq<Action>)
    requires After(n, run).Some? && FairKernel(n, run)
    ensures TombstonesExplained(run, After(n, run).value.queue)
    ensures After(n, run).value.queue.past.doubled == []
  {
    if run == [] {
    } else {
      FairCancelsAreFresh(n, run[..|run| - 1]);
      FairStep(n, run);
    }
  }

  /** Under a fair kernel nothing is given back too often: every accepted handle is held or was
      given back, exactly as often as it was accepted. */
  lemma GivebackConserved(n: u8, run: seq<Action>)
    requires After(n, run).Some? && FairKernel(n, run)
    ensures Conserved(After(n, run).value.queue)
  {
    RunKeepsInv(n, run);
    FairCancelsAreFresh(n, run);
    ConservedIffNeverDoubled(After(n, run).value.queue);
  }

  /** No cancel of the run found an already cancelled work first. */
  predicate CancelsFresh(n: u8, run: seq<Action>)
    requires After(n, run).Some?
  {
    run != [] ==>
      var before := run[..|run| - 1];
      var a := run[|run| - 1];
      && CancelsFresh(n, before)
      && (a.Kernel? && a.ev.CancelEvent? ==> CancelIsFresh(After(n, before).value.queue, a.ev.handle))
  }

  lemma ActDoubles(c: Controller, a: Action)
    requires Act(c, a).Some?
    ensures Act(c, a).value.queue.past.doubled == c.queue.past.doubled
      + if a.Kernel? && a.ev.CancelEvent? && !CancelIsFresh(c.queue, a.ev.handle) then [a.ev.handle] else []
  {
    if a == Poll {
      NextTakesFirstLive(c.queue);
    }
    if a.Kernel? && a.ev.CancelEvent? {
      CancelDoublesIffStale(c.queue, a.ev.handle);
    }
  }

  lemma {:induction false} NeverDoubledIffFresh(n: u8, run: seq<Action>)
    requires After(n, run).Some?
    ensures After(n, run).value.queue.past.doubled == [] <==> CancelsFresh(n, run)
  {
    if run == [] {
    } else {
      var before := run[..|run| - 1];
      NeverDoubledIffFresh(n, before);
      ActDoubles(After(n, before).value, run[|run| - 1]);
    }
  }

  /** Without any assumption on the kernel: conservation holds exactly if no cancel in the run
      found an already cancelled work first. */
  lemma ConservedIffCancelsFresh(n: u8, run: seq<Action>)
    requires After(n, run).Some?
    ensures Conserved(After(n, run).value.queue) <==> CancelsFresh(n, run)
  {
    RunKeepsInv(n, run);
    ConservedIffNeverDoubled(After(n, run).value.queue);
    NeverDoubledIffFresh(n, run);
  }

  /** Under a fair kernel a handle accepted once is given back at most once, and has been given
      back exactly when no live work carries it any more. */
  lemma GivenBackExactlyOnce(n: u8, run: seq<Action>, h: Handle)
    requires After(n, run).Some? && FairKernel(n, run)
    requires Carried(After(n, run).value.queue.past.enqueued, h) == 1
    ensures var q := After(n, run).value.queue;
      var given := Times(UrbHandles(q.past.givenBack), h);
      given <= 1 && (given == 1 <==> Carried(q.inbox, h) == 0 && Carried(q.processing, h) == 0)
  {
    GivebackConserved(n, run);
    assert ConservedFor(After(n, run).value.queue, h);
  }

  // ---------- order, causality and ownership over runs ----------

  /** Over every run, delivery is FIFO apart from the URBs cancelled in the inbox. */
  lemma RunDeliversInOrder(n: u8, run: seq<Action>)
    requires After(n, run).Some?
    ensures var q := After(n, run).value.queue;
      && q.past.delivered + Live(q.inbox) == Without(q.past.enqueued, q.past.voided)
      && forall s :: s in q.past.voided ==>
           s < |q.past.enqueued| && q.past.enqueued[s].job.UrbJob? && q.past.enqueued[s] !in q.past.delivered
  {
    RunKeepsInv(n, run);
    var q := After(n, run).value.queue;
    FifoWithTombstones(q);
    forall s | s in q.past.voided ensures q.past.enqueued[s] !in q.past.delivered {
      CancelledNeverDelivered(q, s);
    }
  }

  /** Over every run, a cancel work is delivered only after the URB it cancels, on the same port. */
  lemma CancelFollowsItsUrb(n: u8, run: seq<Action>, k: nat)
    requires After(n, run).Some? && k < |After(n, run).value.queue.past.delivered|
    requires After(n, run).value.queue.past.delivered[k].job.CancelJob?
    ensures
      var d := After(n, run).value.queue.past.delivered;
      exists j :: 0 <= j < k && d[j].port == d[k].port && d[j].CarriesUrb(d[k].job.handle)
  {
    RunKeepsInv(n, run);
    var d := After(n, run).value.queue.past.delivered;
    assert Seen(d[..k], d[k].port, d[k].job.handle);
    var j :| 0 <= j < k && d[..k][j].port == d[k].port && d[..k][j].CarriesUrb(d[k].job.handle);
    assert d[j] == d[..k][j];
  }

  /** Over every run, no work being processed has its cancel flag set. */
  lemma NoneInProcessIsCancelled(n: u8, run: seq<Action>)
    requires After(n, run).Some?
    ensures
      var processing := After(n, run).value.queue.processing;
      forall i :: 0 <= i < |processing| ==> !processing[i].canceled
  {
    RunKeepsInv(n, run);
  }

  /** Over every run, each work is on at most one list, once, and no deleted work is on any. */
  lemma RunListsDisjoint(n: u8, run: seq<Action>)
    requires After(n, run).Some?
    ensures var q := After(n, run).value.queue;
      && (forall i, j :: 0 <= i < |q.inbox| && 0 <= j < |q.processing| ==>
            q.inbox[i].serial != q.processing[j].serial)
      && (forall i, j :: 0 <= i < j < |q.inbox| ==> q.inbox[i].serial != q.inbox[j].serial)
      && (forall i, j :: 0 <= i < j < |q.processing| ==> q.processing[i].serial != q.processing[j].serial)
      && (forall i :: 0 <= i < |q.inbox| ==> q.inbox[i].serial !in q.past.freed)
      && (forall i :: 0 <= i < |q.processing| ==> q.processing[i].serial !in q.past.freed)
  {
    RunKeepsInv(n, run);
    ListsAreDisjoint(After(n, run).value.queue);
  }

  // ---------- where the promise fails ----------

  /** Cancelling the same queued URB twice gives it back twice. */
  lemma CancelTwice(q: Queue, h: Handle)
    requires FindUrb(q.inbox, h) < |q.inbox| && CancelIsFresh(q, h)
    ensures var q' := Cancel(Cancel(q, h).0, h).0;
      q'.past.doubled == q.past.doubled + [h]
      && UrbHandles(q'.past.givenBack) == UrbHandles(q.past.givenBack) + [h, h]
  {
    var i := FindUrb(q.inbox, h);
    var q1 := Cancel(q, h).0;
    var j := FindUrb(q1.inbox, h);
    assert q1.inbox[i].CarriesUrb(h);
    assert j == i;
  }

  /** A run that gets an URB into the inbox: port 1 is reset, then an URB for address 0 arrives. */
  function AcceptingRun(stat: PortStat, urb: Urb): seq<Action> {
    [Kernel(StatEvent(1, stat)), Kernel(UrbEvent(urb, Works))]
  }

  predicate PlainUrb(urb: Urb) { urb.kind.Bulk? && urb.devadr == 0 && !urb.NeedsData() && urb.bufferLength == 0 }

  lemma FindSecond(items: seq<Item>, h: Handle)
    requires |items| == 2 && !items[0].CarriesUrb(h) && items[1].CarriesUrb(h)
    ensures FindUrb(items, h) == 1
  {
    assert FindUrb(items[1..], h) == 0;
  }

  lemma AcceptingRunAccepts(stat: PortStat, urb: Urb)
    requires stat.ResetSucceeded() && PlainUrb(urb)
    ensures After(1, AcceptingRun(stat, urb)).Some?
    ensures var q := After(1, AcceptingRun(stat, urb)).value.queue;
      && FindUrb(q.inbox, urb.handle) < |q.inbox| && CancelIsFresh(q, urb.handle)
      && q.past.doubled == [] && q.past.givenBack == []
  {
    var reset := Kernel(StatEvent(1, stat));
    PerformAppend(Init(1), [], reset);
    PerformAppend(Init(1), [reset], Kernel(UrbEvent(urb, Works)));
    assert [] + [reset] == [reset];
    assert [reset] + [Kernel(UrbEvent(urb, Works))] == AcceptingRun(stat, urb);
    var c := After(1, [reset]).value;
    assert c.ports[0].adr == 0;
    assert Route(c.ports, UrbEvent(urb, Works)) == Some(1);
    var q := After(1, AcceptingRun(stat, urb)).value.queue;
    assert q.inbox[1].CarriesUrb(urb.handle) && !q.inbox[0].CarriesUrb(urb.handle);
    FindSecond(q.inbox, urb.handle);
  }

  /** If the kernel cancels a queued URB twice before the consumer polls, it is given back twice
      although it was accepted once. */
  lemma CancelledTwiceGivenBackTwice(stat: PortStat, urb: Urb)
    requires stat.ResetSucceeded() && PlainUrb(urb)
    ensures var cancel := Kernel(CancelEvent(urb.handle));
      var run := AcceptingRun(stat, urb) + [cancel] + [cancel];
      After(1, run).Some?
      && !Conserved(After(1, run).value.queue)
      && UrbHandles(After(1, run).value.queue.past.givenBack) == [urb.handle, urb.handle]
  {
    var cancel := Kernel(CancelEvent(urb.handle));
    var run := AcceptingRun(stat, urb);
    AcceptingRunAccepts(stat, urb);
    PerformAppend(Init(1), run, cancel);
    PerformAppend(Init(1), run + [cancel], cancel);
    CancelTwice(After(1, run).value.queue, urb.handle);
    RunKeepsInv(1, run + [cancel] + [cancel]);
    ConservedIffNeverDoubled(After(1, run + [cancel] + [cancel]).value.queue);
  }
}
