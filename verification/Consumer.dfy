/** The consumer's loop in the C++ example: poll, process, finish, as long as there is more. */
module Consumer {
  import opened Types
  import opened WorkQueue
  import opened QueueLaws
  import opened PortTable
  import opened RunLaws
  import opened Retries
  import opened LocalHcds
  import opened Controller

  /** What the device does to an URB is arbitrary, but no setter touches the handle. */
  ghost predicate KeepsHandles(reply: Urb -> Urb) { forall u: Urb :: reply(u).handle == u.handle }

  // ---------- one round ----------

  function Process(q: Queue, w: Item, reply: Urb -> Urb): Queue {
    if w.job.UrbJob? && MayAnswer(q, w.serial, reply(w.job.urb))
    then Answer(q, w.serial, reply(w.job.urb)) else q
  }

  function FinishNow(q: Queue, serial: nat): Queue {
    if InProcess(q, serial) then Release(Finish(q, serial), |q.past.finishing|) else q
  }

  /** next_work, and what becomes of the work it hands out. */
  function Round(q: Queue, reply: Urb -> Urb): Queue {
    var p := Next(q);
    if p.work.None? then p.queue
    else FinishNow(Process(p.queue, p.work.value, reply), p.work.value.serial)
  }

  /** The answers to those works that carry an URB, in order. */
  function Replies(items: seq<Item>, reply: Urb -> Urb): seq<Urb> {
    if items == [] then []
    else (if items[0].job.UrbJob? then [reply(items[0].job.urb)] else []) + Replies(items[1..], reply)
  }

  /** What draining comes to: live works are delivered and answered in order, all works are freed
      in order, and works that were in processing before stay there. */
  function Drained(q: Queue, reply: Urb -> Urb): Queue {
    q.(inbox := [],
       past := q.past.(delivered := q.past.delivered + Live(q.inbox),
                       givenBack := q.past.givenBack + Replies(Live(q.inbox), reply),
                       freed := q.past.freed + Serials(q.inbox)))
  }

  predicate Unlisted(items: seq<Item>, serial: nat) { forall i :: 0 <= i < |items| ==> items[i].serial != serial }

  /** Handling the work handed out last leaves the other works in processing alone. */
  lemma HandleLast(q: Queue, w: Item, reply: Urb -> Urb)
    requires KeepsHandles(reply)
    requires q.processing != [] && q.processing[|q.processing| - 1] == w
    requires Unlisted(q.processing[..|q.processing| - 1], w.serial)
    ensures FinishNow(Process(q, w, reply), w.serial)
         == q.(processing := q.processing[..|q.processing| - 1],
               past := q.past.(givenBack := q.past.givenBack + Replies([w], reply),
                               freed := q.past.freed + [w.serial]))
  {
    var last := |q.processing| - 1;
    PositionIs(q.processing, w.serial, last);
    var a := Process(q, w, reply);
    PositionIs(a.processing, w.serial, last);
    assert RemoveAt(a.processing, last) == q.processing[..last];
    assert RemoveAt(q.past.finishing + [w.serial], |q.past.finishing|) == q.past.finishing;
    assert Replies([w], reply) == if w.job.UrbJob? then [reply(w.job.urb)] else [];
    assert q.past.givenBack + [] == q.past.givenBack;
  }

  /** The works in the inbox are not in processing. */
  predicate Apart(q: Queue) {
    forall i :: 0 <= i < |q.inbox| ==> Unlisted(q.processing, q.inbox[i].serial)
  }

  lemma RoundShape(q: Queue, reply: Urb -> Urb)
    requires KeepsHandles(reply) && Apart(q)
    ensures var k := Tombstones(q.inbox);
      Round(q, reply) ==
        if k == |q.inbox| then q.(inbox := [], past := q.past.(freed := q.past.freed + Serials(q.inbox)))
        else q.(inbox := q.inbox[k + 1..],
                past := q.past.(delivered := q.past.delivered + [q.inbox[k]],
                                givenBack := q.past.givenBack + Replies([q.inbox[k]], reply),
                                freed := q.past.freed + Serials(q.inbox[..k]) + [q.inbox[k].serial]))
  {
    NextTakesFirstLive(q);
    var k := Tombstones(q.inbox);
    if k < |q.inbox| {
      var n := Next(q).queue;
      assert n.processing[..|q.processing|] == q.processing;
      HandleLast(n, q.inbox[k], reply);
    }
  }

  // ---------- all rounds ----------

  lemma {:induction false} LiveConcat(a: seq<Item>, b: seq<Item>)
    ensures Live(a + b) == Live(a) + Live(b)
  {
    if a == [] {
      assert a + b == b;
    } else {
      assert (a + b)[1..] == a[1..] + b;
      LiveConcat(a[1..], b);
    }
  }

  lemma {:induction false} NoneLive(items: seq<Item>)
    requires forall i :: 0 <= i < |items| ==> items[i].canceled
    ensures Live(items) == []
  {
    if items == [] {
    } else {
      NoneLive(items[1..]);
    }
  }

  /** The first live work and the live works behind it are all the live works. */
  lemma LiveFrom(items: seq<Item>, k: nat)
    requires k == Tombstones(items) < |items|
    ensures Live(items) == [items[k]] + Live(items[k + 1..])
  {
    assert items == items[..k] + items[k..];
    LiveConcat(items[..k], items[k..]);
    NoneLive(items[..k]);
    assert items[k..][1..] == items[k + 1..];
  }

  lemma SerialsSplit(items: seq<Item>, k: nat)
    requires k < |items|
    ensures Serials(items) == Serials(items[..k]) + [items[k].serial] + Serials(items[k + 1..])
  {
  }

  lemma RepliesFirst(w: Item, rest: seq<Item>, reply: Urb -> Urb)
    ensures Replies([w] + rest, reply) == Replies([w], reply) + Replies(rest, reply)
  {
    assert ([w] + rest)[1..] == rest;
    assert [w][1..] == [];
    assert Replies([], reply) == [];
  }

  lemma Regroup<T>(a: seq<T>, b: seq<T>, c: seq<T>)
    ensures a + b + c == a + (b + c)
  {
  }

  /** A round is a step towards the drained queue. */
  lemma RoundDrains(q: Queue, reply: Urb -> Urb)
    requires KeepsHandles(reply) && Apart(q)
    ensures Drained(Round(q, reply), reply) == Drained(q, reply)
  {
    RoundShape(q, reply);
    var k := Tombstones(q.inbox);
    if k == |q.inbox| {
      NoneLive(q.inbox);
      assert Serials([]) == [];
    } else {
      var w := q.inbox[k];
      var rest := q.inbox[k + 1..];
      LiveFrom(q.inbox, k);
      SerialsSplit(q.inbox, k);
      RepliesFirst(w, Live(rest), reply);
      Regroup(q.past.delivered, [w], Live(rest));
      Regroup(q.past.givenBack, Replies([w], reply), Replies(Live(rest), reply));
      Regroup(q.past.freed, Serials(q.inbox[..k]) + [w.serial], Serials(rest));
      Regroup(q.past.freed, Serials(q.inbox[..k]), [w.serial]);
    }
  }

  /** Draining changes nothing once the inbox is empty. */
  lemma DrainedDone(q: Queue, reply: Urb -> Urb)
    requires q.inbox == []
    ensures Drained(q, reply) == q
  {
    assert Live(q.inbox) == [] && Serials(q.inbox) == [];
    assert q.past.freed + [] == q.past.freed;
  }

  /** "More" is answered exactly if there is more after the round, and every round takes a work off
      the inbox unless there was none. */
  lemma RoundMore(q: Queue, reply: Urb -> Urb)
    requires KeepsHandles(reply) && Apart(q)
    ensures Next(q).more <==> Round(q, reply).inbox != []
    ensures |Round(q, reply).inbox| < |q.inbox| || q.inbox == []
  {
    MoreMeansNonEmpty(q);
    NextTakesFirstLive(q);
    RoundShape(q, reply);
  }

  lemma RoundKeeps(q: Queue, reply: Urb -> Urb)
    requires Inv(q)
    ensures Inv(Round(q, reply))
  {
    NextKeeps(q);
    var p := Next(q);
    if p.work.Some? {
      var w := p.work.value;
      if w.job.UrbJob? && MayAnswer(p.queue, w.serial, reply(w.job.urb)) {
        AnswerKeeps(p.queue, w.serial, reply(w.job.urb));
      }
      var a := Process(p.queue, w, reply);
      if InProcess(a, w.serial) {
        FinishKeeps(a, w.serial);
        ReleaseKeeps(Finish(a, w.serial), |a.past.finishing|);
      }
    }
  }

  /** Draining keeps the invariant, because it is a sequence of rounds. */
  lemma {:induction false} DrainedKeeps(q: Queue, reply: Urb -> Urb)
    requires Inv(q) && KeepsHandles(reply)
    ensures Inv(Drained(q, reply))
    decreases |q.inbox|
  {
    if q.inbox == [] {
      assert Drained(q, reply) == q;
    } else {
      ListsAreDisjoint(q);
      RoundKeeps(q, reply);
      RoundShape(q, reply);
      RoundDrains(q, reply);
      DrainedKeeps(Round(q, reply), reply);
    }
  }

  /** No work is in the consumer's hands. */
  ghost predicate Clean(q: Queue) { Inv(q) && q.processing == [] && q.past.finishing == [] }

  /** From an empty processing list, draining leaves every accepted handle given back and every
      enqueued work freed once. */
  lemma DrainedSettles(q: Queue, reply: Urb -> Urb)
    requires KeepsHandles(reply)
    ensures Clean(q) ==> AllGivenBack(Drained(q, reply)) && FreedOnce(Drained(q, reply))
  {
    if Clean(q) {
      DrainedKeeps(q, reply);
      Settled(Drained(q, reply));
    }
  }

  // ---------- the loop ----------

  /** Whatever was done with an object since its construction, the queue's invariant holds. */
  lemma LawfulMeansInv(hcd: LocalHcd)
    requires hcd.Lawful()
    ensures Inv(hcd.QueueView())
  {
    RunKeepsInv(hcd.portInfo.Length, hcd.run);
  }

  /** And under a fair kernel handles accepted are held or given back, exactly as often. */
  lemma LawfulConserves(hcd: LocalHcd)
    requires hcd.Lawful()
    ensures FairKernel(hcd.portInfo.Length, hcd.run) ==> Conserved(hcd.QueueView())
  {
    if FairKernel(hcd.portInfo.Length, hcd.run) {
      GivebackConserved(hcd.portInfo.Length, hcd.run);
    }
  }

  lemma LawfulSettles(hcd: LocalHcd)
    requires hcd.Lawful() && hcd.inbox == [] && hcd.processing == [] && hcd.past.finishing == []
    ensures AllGivenBack(hcd.QueueView()) && FreedOnce(hcd.QueueView())
  {
    LawfulMeansInv(hcd);
    Settled(hcd.QueueView());
  }

  /** process_urb, and the reactions to the other kinds of work. */
  method ProcessWork(hcd: LocalHcd, w: Work, reply: Urb -> Urb)
    requires hcd.Valid() && w in hcd.processing && KeepsHandles(reply)
    modifies w`job, hcd`run
    ensures hcd.Valid() && (old(hcd.Lawful()) ==> hcd.Lawful())
    ensures hcd.QueueView() == Process(old(hcd.QueueView()), old(w.View()), reply)
  {
    ghost var q := hcd.QueueView();
    ghost var at :| 0 <= at < |hcd.processing| && hcd.processing[at] == w;
    PositionIs(q.processing, w.serial, at);
    match w.job
    case UrbJob(urb) =>
      hcd.Respond(w, reply(urb));
    case StatusJob(_, _) =>
    case CancelJob(_) =>
  }

  /** What the loop does with the work that it was handed last. */
  method HandleWork(hcd: LocalHcd, w: Work, reply: Urb -> Urb)
    requires hcd.Valid() && hcd.processing != [] && hcd.processing[|hcd.processing| - 1] == w && KeepsHandles(reply)
    modifies hcd`processing, hcd`past, hcd`run, w`job
    ensures hcd.Valid() && hcd.inbox == old(hcd.inbox) && (old(hcd.Lawful()) ==> hcd.Lawful())
    ensures hcd.processing == old(hcd.processing)[..|old(hcd.processing)| - 1]
    ensures hcd.QueueView() == FinishNow(Process(old(hcd.QueueView()), old(w.View()), reply), w.serial)
  {
    ProcessWork(hcd, w, reply);
    PositionIs(hcd.QueueView().processing, w.serial, |hcd.processing| - 1);
    hcd.FinishWork(w);
  }

  /** One turn of the loop. */
  method ServeOne(hcd: LocalHcd, reply: Urb -> Urb) returns (more: bool)
    requires hcd.Valid() && KeepsHandles(reply)
    modifies hcd`inbox, hcd`processing, hcd`past, hcd`run, hcd.inbox`job
    ensures hcd.Valid() && forall x :: x in hcd.inbox ==> x in old(hcd.inbox)
    ensures hcd.processing == old(hcd.processing) && (old(hcd.Lawful()) ==> hcd.Lawful())
    ensures hcd.QueueView() == Round(old(hcd.QueueView()), reply)
    ensures more <==> hcd.inbox != []
    ensures |hcd.inbox| < |old(hcd.inbox)| || !more
    ensures Drained(hcd.QueueView(), reply) == Drained(old(hcd.QueueView()), reply)
  {
    ghost var q := hcd.QueueView();
    assert Apart(q);
    var w;
    w, more := hcd.NextWork();
    if w != null {
      HandleWork(hcd, w, reply);
    }
    RoundDrains(q, reply);
    RoundMore(q, reply);
    assert |hcd.QueueView().inbox| == |hcd.inbox|;
  }

  /** Polling as long as there is more empties the inbox, tombstones and all, and does exactly
      what `Drained` says. */
  method Drain(hcd: LocalHcd, reply: Urb -> Urb)
    requires hcd.Valid() && KeepsHandles(reply)
    modifies hcd`inbox, hcd`processing, hcd`past, hcd`run, hcd.inbox`job
    ensures hcd.Valid() && hcd.inbox == []
    ensures hcd.QueueView() == Drained(old(hcd.QueueView()), reply)
    ensures hcd.processing == old(hcd.processing) && hcd.callbacks == old(hcd.callbacks)
    ensures old(hcd.Lawful()) ==> hcd.Lawful()
    ensures old(Clean(hcd.QueueView())) ==>
      AllGivenBack(hcd.QueueView()) && FreedOnce(hcd.QueueView())
  {
    hide Clean, AllGivenBack, FreedOnce, Drained;
    ghost var q := hcd.QueueView();
    var more := true;
    while more
      invariant hcd.Valid() && forall x :: x in hcd.inbox ==> x in old(hcd.inbox)
      invariant hcd.processing == old(hcd.processing) && (old(hcd.Lawful()) ==> hcd.Lawful())
      invariant !more ==> hcd.inbox == []
      invariant Drained(hcd.QueueView(), reply) == Drained(q, reply)
      decreases |hcd.inbox|, more
    {
      assert forall i :: 0 <= i < |hcd.inbox| ==> hcd.inbox[i] in old(hcd.inbox);
      more := ServeOne(hcd, reply);
    }
    DrainedDone(hcd.QueueView(), reply);
    DrainedSettles(q, reply);
  }

  // ---------- whole sessions ----------

  /** A report, and how memory fares while it is handled. */
  datatype Report = Report(ev: Event, tries: seq<Try>)

  /** Whether the program survives the report in any state. */
  predicate Harmless(report: Report) {
    match report.ev
    case StatEvent(_, _) => true
    case UrbEvent(_, _) => !Terminates(report.ev)
    case CancelEvent(_) => FirstPass(report.tries)
  }

  predicate AllHarmless(reports: seq<Report>) { forall k :: 0 <= k < |reports| ==> Harmless(reports[k]) }

  /** The consumer does not act while bg_work waits for memory. */
  predicate AllUndisturbed(reports: seq<Report>) {
    forall k :: 0 <= k < |reports| ==> Undisturbed(reports[k].tries)
  }

  lemma EachUndisturbed(reports: seq<Report>)
    requires AllUndisturbed(reports)
    ensures forall k :: 0 <= k < |reports| ==> Undisturbed(reports[k].tries)
  {
  }

  /** What the controller sees of some reports, and the table after them.  A report counts for nothing if
      bg_work does not survive it or the thread quits, and an URB may have lost its data. */
  datatype Progress = Progress(evs: seq<Event>, ports: Table)

  function Seen(ports: Table, reports: seq<Report>): Progress {
    if reports == [] then Progress([], ports)
    else
      var before := Seen(ports, reports[..|reports| - 1]);
      var r := reports[|reports| - 1];
      if Terminates(r.ev) || Quits(before.ports, r.ev, r.tries) then before
      else
        var ev := SeenBy(before.ports, r.ev, r.tries);
        Progress(before.evs + [ev], TableStep(before.ports, ev))
  }

  lemma SeenNothing(ports: Table)
    ensures Seen(ports, []) == Progress([], ports)
  {
  }

  lemma {:induction false} SeenConcat(ports: Table, a: seq<Report>, b: seq<Report>)
    ensures
      var x := Seen(ports, a);
      var y := Seen(x.ports, b);
      Seen(ports, a + b) == Progress(x.evs + y.evs, y.ports)
  {
    if b == [] {
      assert a + b == a;
    } else {
      var before := b[..|b| - 1];
      SeenConcat(ports, a, before);
      assert (a + b)[..|a + b| - 1] == a + before;
    }
  }

  /** Reports that meet no shortage of memory are seen just as they come. */
  lemma {:induction false} PlainReportsAreSeen(ports: Table, reports: seq<Report>)
    requires forall k :: 0 <= k < |reports| ==> reports[k].tries == [] && !Terminates(reports[k].ev)
    ensures |Seen(ports, reports).evs| == |reports|
    ensures forall k :: 0 <= k < |reports| ==> Seen(ports, reports).evs[k] == reports[k].ev
  {
    if reports == [] {
    } else {
      var before := reports[..|reports| - 1];
      PlainReportsAreSeen(ports, before);
      forall k | 0 <= k < |reports| ensures Seen(ports, reports).evs[k] == reports[k].ev {
        if k < |before| {
          assert before[k] == reports[k];
        }
      }
    }
  }

  lemma FewPorts(hcd: LocalHcd)
    requires hcd.Lawful()
    ensures hcd.portInfo.Length <= 0xff
  {
  }

  /** One report while the consumer is not looking. */
  method Deliver(hcd: LocalHcd, report: Report) returns (alive: bool)
    requires hcd.Lawful() && hcd.processing == [] && Undisturbed(report.tries)
    modifies hcd`inbox, hcd`processing, hcd`past, hcd`calls, hcd`run, hcd`reports, hcd.portInfo, hcd.Held()
    ensures hcd.Lawful() && hcd.processing == [] && hcd.past.finishing == old(hcd.past.finishing)
    ensures forall x :: x in hcd.Held() ==> x in old(hcd.Held()) || fresh(x)
    ensures !alive <==> Dies(old(hcd.View()), report.ev, report.tries)
    ensures !alive ==>
      hcd.View() == old(hcd.View()) && hcd.reports == old(hcd.reports) && hcd.portInfo[..] == old(hcd.portInfo[..])
    ensures alive ==>
      && hcd.portInfo[..] == Seen(old(hcd.portInfo[..]), [report]).ports
      && hcd.reports == old(hcd.reports) + Seen(old(hcd.portInfo[..]), [report]).evs
  {
    hide Dies, Quits, OtherStep, GivesUp, Pauses, TableStep, Terminates;
    ghost var c := hcd.View();
    ghost var seen := SeenBy(c.ports, report.ev, report.tries);
    NoPauses(false, report.tries, true);
    NoPauses(false, report.tries, false);
    assert Seen(c.ports, [report][..0]) == Progress([], c.ports);
    var r := hcd.BgWork(report.ev, report.tries);
    alive := r != Terminated;
    if r != Terminated && r != ShutDown {
      ActTable(c, Kernel(seen));
      BgWorkQueue(c, seen);
    }
    assert |hcd.QueueView().processing| == |hcd.processing|;
  }

  /** The background thread handles some reports, in order, while the consumer is not looking; it stops
      only where the program dies. */
  method Burst(hcd: LocalHcd, reports: seq<Report>) returns (alive: bool, ghost handled: nat)
    requires hcd.Lawful() && hcd.processing == [] && AllUndisturbed(reports)
    modifies hcd`inbox, hcd`processing, hcd`past, hcd`calls, hcd`run, hcd`reports, hcd.portInfo, hcd.Held()
    ensures hcd.Lawful() && hcd.processing == [] && hcd.past.finishing == old(hcd.past.finishing)
    ensures forall x :: x in hcd.Held() ==> x in old(hcd.Held()) || fresh(x)
    ensures handled <= |reports| && (alive <==> handled == |reports|)
    ensures hcd.portInfo[..] == Seen(old(hcd.portInfo[..]), reports[..handled]).ports
    ensures hcd.reports == old(hcd.reports) + Seen(old(hcd.portInfo[..]), reports[..handled]).evs
    ensures !alive ==> Dies(hcd.View(), reports[handled].ev, reports[handled].tries)
  {
    hide *;
    FewPorts(hcd);
    EachUndisturbed(reports);
    ghost var ports := hcd.portInfo[..];
    ghost var base := hcd.reports;
    SeenNothing(ports);
    var i := 0;
    while i < |reports|
      invariant 0 <= i <= |reports| && hcd.Lawful()
      invariant hcd.processing == [] && hcd.past.finishing == old(hcd.past.finishing)
      invariant forall x :: x in hcd.Held() ==> x in old(hcd.Held()) || fresh(x)
      invariant hcd.portInfo[..] == Seen(ports, reports[..i]).ports
      invariant hcd.reports == base + Seen(ports, reports[..i]).evs
    {
      SeenConcat(ports, reports[..i], [reports[i]]);
      assert reports[..i] + [reports[i]] == reports[..i + 1];
      alive := Deliver(hcd, reports[i]);
      if !alive {
        return false, i;
      }
      i := i + 1;
    }
    return true, |reports|;
  }

  /** Some reports, and the consumer's turn after them. */
  method Turn(hcd: LocalHcd, reports: seq<Report>, reply: Urb -> Urb) returns (alive: bool, ghost handled: nat)
    requires hcd.Lawful() && hcd.inbox == [] && hcd.processing == [] && hcd.past.finishing == []
    requires AllUndisturbed(reports) && KeepsHandles(reply)
    modifies hcd`inbox, hcd`processing, hcd`past, hcd`calls, hcd`run, hcd`reports, hcd.portInfo
    ensures hcd.Lawful()
    ensures handled <= |reports| && (alive <==> handled == |reports|)
    ensures hcd.portInfo[..] == Seen(old(hcd.portInfo[..]), reports[..handled]).ports
    ensures hcd.reports == old(hcd.reports) + Seen(old(hcd.portInfo[..]), reports[..handled]).evs
    ensures alive ==> hcd.inbox == [] && hcd.processing == [] && hcd.past.finishing == []
    ensures !alive ==> Dies(hcd.View(), reports[handled].ev, reports[handled].tries)
  {
    hide Seen, Dies, Clean, AllGivenBack, FreedOnce, AllUndisturbed;
    assert hcd.Held() == {};
    alive, handled := Burst(hcd, reports);
    if alive {
      forall k | 0 <= k < |hcd.inbox| ensures fresh(hcd.inbox[k]) {
        assert hcd.inbox[k] in hcd.inbox;
        assert hcd.inbox[k] in hcd.Held();
      }
      Drain(hcd, reply);
    }
  }

  function Flatten(bursts: seq<seq<Report>>): seq<Report> {
    if bursts == [] then [] else Flatten(bursts[..|bursts| - 1]) + bursts[|bursts| - 1]
  }

  lemma FlattenNothing(bursts: seq<seq<Report>>)
    ensures Flatten(bursts[..0]) == []
  {
  }

  lemma {:induction false} FlattenPrefix(bursts: seq<seq<Report>>, i: nat, part: nat)
    requires i < |bursts| && part <= |bursts[i]|
    ensures Flatten(bursts[..i + 1]) == Flatten(bursts[..i]) + bursts[i]
    ensures Flatten(bursts[..i]) + bursts[i][..part] <= Flatten(bursts)
    ensures part < |bursts[i]| ==>
      var n := |Flatten(bursts[..i])| + part;
      n < |Flatten(bursts)| && Flatten(bursts)[n] == bursts[i][part]
  {
    assert bursts[..i + 1][..i] == bursts[..i];
    if i + 1 == |bursts| {
      assert bursts[..i + 1] == bursts;
    } else {
      var before := bursts[..|bursts| - 1];
      FlattenPrefix(before, i, part);
      assert before[..i] == bursts[..i];
    }
  }

  lemma HarmlessLives(c: Controller, reports: seq<Report>, k: nat)
    requires k < |reports|
    ensures AllHarmless(reports) ==> !Dies(c, reports[k].ev, reports[k].tries)
  {
  }

  /** All turns, as long as the program lives. */
  method Turns(hcd: LocalHcd, bursts: seq<seq<Report>>, reply: Urb -> Urb)
    returns (alive: bool, ghost handled: seq<Report>)
    requires hcd.Lawful() && hcd.inbox == [] && hcd.processing == [] && hcd.past.finishing == []
    requires KeepsHandles(reply) && forall i :: 0 <= i < |bursts| ==> AllUndisturbed(bursts[i])
    modifies hcd`inbox, hcd`processing, hcd`past, hcd`calls, hcd`run, hcd`reports, hcd.portInfo
    ensures hcd.Lawful()
    ensures hcd.reports == old(hcd.reports) + Seen(old(hcd.portInfo[..]), handled).evs
    ensures handled <= Flatten(bursts) && (alive <==> handled == Flatten(bursts))
    ensures !alive ==> Dies(hcd.View(), Flatten(bursts)[|handled|].ev, Flatten(bursts)[|handled|].tries)
    ensures AllHarmless(Flatten(bursts)) ==> alive
    ensures alive ==> hcd.inbox == [] && hcd.processing == [] && hcd.past.finishing == []
  {
    hide *;
    FewPorts(hcd);
    FlattenNothing(bursts);
    ghost var ports, base := hcd.portInfo[..], hcd.reports;
    SeenNothing(ports);
    alive, handled := true, [];
    var i := 0;
    while i < |bursts|
      invariant 0 <= i <= |bursts| && alive && hcd.Lawful()
      invariant hcd.inbox == [] && hcd.processing == [] && hcd.past.finishing == []
      invariant handled == Flatten(bursts[..i])
      invariant hcd.reports == base + Seen(ports, handled).evs
      invariant hcd.portInfo[..] == Seen(ports, handled).ports
    {
      ghost var n;
      alive, n := Turn(hcd, bursts[i], reply);
      SeenConcat(ports, handled, bursts[i][..n]);
      FlattenPrefix(bursts, i, n);
      handled := handled + bursts[i][..n];
      if !alive {
        HarmlessLives(hcd.View(), Flatten(bursts), |handled|);
        return;
      }
      assert bursts[i][..n] == bursts[i];
      i := i + 1;
    }
    assert bursts[..i] == bursts;
  }

  /** The program of the example on real objects, for any bursts of reports, each followed by a turn of
      the consumer.  The object is where a run of the controller leads whose reports are those handled, all
      of them in order unless the program died, and then those before the one it died of.  If it lives,
      nothing is queued or in processing, everything accepted was given back, exactly as often as accepted if
      the kernel was fair, and every work was freed once. */
  method Session(ports: u8, signal: Callback, bursts: seq<seq<Report>>, reply: Urb -> Urb)
    returns (hcd: LocalHcd, alive: bool, ghost handled: seq<Report>)
    requires ports != 0 && KeepsHandles(reply)
    requires forall i :: 0 <= i < |bursts| ==> AllUndisturbed(bursts[i])
    ensures fresh(hcd) && hcd.Lawful() && hcd.portInfo.Length == ports && hcd.callbacks == [signal]
    ensures Events(hcd.run) == Seen(FreshTable(ports), handled).evs
    ensures handled <= Flatten(bursts) && (alive <==> handled == Flatten(bursts))
    ensures !alive ==> Dies(hcd.View(), Flatten(bursts)[|handled|].ev, Flatten(bursts)[|handled|].tries)
    ensures AllHarmless(Flatten(bursts)) ==> alive
    ensures alive ==> hcd.inbox == [] && hcd.processing == []
    ensures alive ==> AllGivenBack(hcd.QueueView()) && FreedOnce(hcd.QueueView())
    ensures FairKernel(hcd.portInfo.Length, hcd.run) ==> Conserved(hcd.QueueView())
  {
    hcd := new LocalHcd(ports);
    hcd.AddWorkEnqueuedCallback(signal);
    alive, handled := Turns(hcd, bursts, reply);
    LawfulConserves(hcd);
    if alive {
      LawfulSettles(hcd);
    }
  }
}
