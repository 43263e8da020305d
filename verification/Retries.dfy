/** The retry loops of bg_work: how memory fares in their passes, what other threads do in between, and
    how they end. */
module Retries {
  import opened Types
  import opened PortTable
  import opened WorkQueue
  import opened QueueLaws
  import opened RunLaws
  import C = Controller

  // ---------- passes ----------

  /** What another thread does while bg_work does not hold the lock: it polls, finishes or works on
      the k-th work in processing, or asks for a cancellation, for which there may be no memory. */
  datatype Other =
    | OtherPoll
    | OtherFinish(k: nat)
    | OtherRespond(k: nat, urb: Urb)
    | OtherCancel(handle: Handle, memory: bool)

  /** What one pass through a retry loop meets: whether the thread is shut down while it waits for
      buffers, whether memory for the work object is found and the inbox can grow, and, if not, what
      other threads do before the next pass and whether shutdown is seen then. */
  datatype Try = Try(quits: bool, allocates: bool, enqueues: bool, others: seq<Other>, shutdown: bool)

  const SUCCEEDS := Try(false, true, true, [], false)

  /** Whether the retry loop gives up, `have` telling that the work object is already allocated, and
      `buffers` that the arm needs buffers too.  When the list of tries is used up the next pass
      succeeds. */
  function GivesUp(have: bool, tries: seq<Try>, buffers: bool): bool
    decreases tries
  {
    if tries == [] then false
    else
      var t := tries[0];
      var have' := have || t.allocates;
      if buffers && t.quits then true
      else if have' && t.enqueues then false
      else t.shutdown || GivesUp(have', tries[1..], buffers)
  }

  /** What other threads do while the loop is under way. */
  function Pauses(have: bool, tries: seq<Try>, buffers: bool): seq<Other>
    decreases tries
  {
    if tries == [] then []
    else
      var t := tries[0];
      var have' := have || t.allocates;
      if (buffers && t.quits) || (have' && t.enqueues) then []
      else t.others + if t.shutdown then [] else Pauses(have', tries[1..], buffers)
  }

  /** Whether pass j succeeds if it is reached: the thread does not quit, some pass so far found memory
      for the work, and the inbox can grow. */
  predicate Succeeds(have: bool, tries: seq<Try>, buffers: bool, j: nat)
    requires j < |tries|
  {
    && !(buffers && tries[j].quits)
    && (have || exists i :: 0 <= i <= j && tries[i].allocates)
    && tries[j].enqueues
  }

  /** Whether pass k, if it is reached, ends in shutdown. */
  predicate StopsAt(have: bool, tries: seq<Try>, buffers: bool, k: nat)
    requires k < |tries|
  {
    (buffers && tries[k].quits) || (!Succeeds(have, tries, buffers, k) && tries[k].shutdown)
  }

  /** Whether pass k is reached and ends in shutdown. */
  predicate StopsFirst(have: bool, tries: seq<Try>, buffers: bool, k: nat)
    requires k < |tries|
  {
    StopsAt(have, tries, buffers, k) && forall j :: 0 <= j < k ==> !Succeeds(have, tries, buffers, j)
  }

  lemma SucceedsLater(have: bool, tries: seq<Try>, buffers: bool, j: nat)
    requires j + 1 < |tries|
    ensures Succeeds(have, tries, buffers, j + 1) == Succeeds(have || tries[0].allocates, tries[1..], buffers, j)
  {
    var rest := tries[1..];
    if exists i :: 0 <= i <= j + 1 && tries[i].allocates {
      var i :| 0 <= i <= j + 1 && tries[i].allocates;
      assert i > 0 ==> rest[i - 1].allocates;
    }
    if exists i :: 0 <= i <= j && rest[i].allocates {
      var i :| 0 <= i <= j && rest[i].allocates;
      assert tries[i + 1].allocates;
    }
  }

  lemma StopsLater(have: bool, tries: seq<Try>, buffers: bool, k: nat)
    requires k + 1 < |tries|
    ensures StopsFirst(have, tries, buffers, k + 1)
       <==> !Succeeds(have, tries, buffers, 0) && StopsFirst(have || tries[0].allocates, tries[1..], buffers, k)
  {
    var have', rest := have || tries[0].allocates, tries[1..];
    forall j | 0 <= j <= k ensures Succeeds(have, tries, buffers, j + 1) == Succeeds(have', rest, buffers, j) {
      SucceedsLater(have, tries, buffers, j);
    }
    if StopsFirst(have', rest, buffers, k) && !Succeeds(have, tries, buffers, 0) {
      forall j | 0 <= j < k + 1 ensures !Succeeds(have, tries, buffers, j) {
        assert j > 0 ==> !Succeeds(have', rest, buffers, j - 1);
      }
    }
  }

  /** The loop gives up exactly if shutdown ends one of its passes and none before it succeeds. */
  lemma {:induction false} GivesUpIffStopped(have: bool, tries: seq<Try>, buffers: bool)
    ensures GivesUp(have, tries, buffers) <==>
      exists k :: 0 <= k < |tries| && StopsFirst(have, tries, buffers, k)
    decreases tries
  {
    if tries == [] {
    } else {
      var have' := have || tries[0].allocates;
      var rest := tries[1..];
      GivesUpIffStopped(have', rest, buffers);
      assert Succeeds(have, tries, buffers, 0) == (!(buffers && tries[0].quits) && have' && tries[0].enqueues);
      forall k | 0 <= k < |rest|
        ensures StopsFirst(have, tries, buffers, k + 1)
           <==> !Succeeds(have, tries, buffers, 0) && StopsFirst(have', rest, buffers, k)
      {
        StopsLater(have, tries, buffers, k);
      }
      if k :| 0 <= k < |rest| && StopsFirst(have', rest, buffers, k) {
        assert !Succeeds(have, tries, buffers, 0) ==> StopsFirst(have, tries, buffers, k + 1);
      }
      if k :| 0 < k < |tries| && StopsFirst(have, tries, buffers, k) {
        assert StopsFirst(have', rest, buffers, k - 1);
      }
      assert StopsFirst(have, tries, buffers, 0) == StopsAt(have, tries, buffers, 0);
    }
  }

  /** The actions of other threads in several pauses. */
  function Todo(tries: seq<Try>): seq<Other> { if tries == [] then [] else tries[0].others + Todo(tries[1..]) }

  /** Other threads get their turns after the passes that fail and after no other: the first m passes fail,
      and then one succeeds or quits, or the thread is shut down. */
  lemma {:induction false} PausesFollowFailures(have: bool, tries: seq<Try>, buffers: bool) returns (m: nat)
    ensures m <= |tries| && Pauses(have, tries, buffers) == Todo(tries[..m])
    ensures forall j :: 0 <= j < m ==> !Succeeds(have, tries, buffers, j) && !(buffers && tries[j].quits)
    ensures forall j :: 0 <= j < m - 1 ==> !tries[j].shutdown
    ensures m < |tries| ==>
      Succeeds(have, tries, buffers, m) || (buffers && tries[m].quits) || (m > 0 && tries[m - 1].shutdown)
    decreases tries
  {
    m := 0;
    if tries == [] {
    } else {
      var have' := have || tries[0].allocates;
      var rest := tries[1..];
      assert Succeeds(have, tries, buffers, 0) == (!(buffers && tries[0].quits) && have' && tries[0].enqueues);
      if !(buffers && tries[0].quits) && !(have' && tries[0].enqueues) {
        if tries[0].shutdown {
          m := 1;
          assert tries[..1][1..] == [];
        } else {
          var n := PausesFollowFailures(have', rest, buffers);
          m := n + 1;
          assert tries[..m][1..] == rest[..n];
          forall j | 0 <= j < |rest|
            ensures Succeeds(have, tries, buffers, j + 1) == Succeeds(have', rest, buffers, j)
          {
            SucceedsLater(have, tries, buffers, j);
          }
          forall j | 0 < j < m ensures !Succeeds(have, tries, buffers, j) && !(buffers && tries[j].quits) {
            assert !Succeeds(have', rest, buffers, j - 1);
          }
        }
      }
    }
  }

  predicate QuitsAtOnce(tries: seq<Try>) { tries != [] && tries[0].quits }

  /** Whether a retry loop ends in its first pass. */
  predicate FirstPass(tries: seq<Try>) { tries == [] || (tries[0].allocates && tries[0].enqueues) }

  /** Whether no other thread acts between the passes. */
  predicate Undisturbed(tries: seq<Try>) { forall k :: 0 <= k < |tries| ==> tries[k].others == [] }

  /** The report as the pass meets it that succeeds. */
  function SeenAfter(ev: Event, tries: seq<Try>): Event { if FirstPass(tries) then ev else AfterFailedPass(ev) }

  function SeenBy(ports: Table, ev: Event, tries: seq<Try>): (seen: Event)
    ensures !Terminates(ev) ==> !Terminates(seen)
  {
    if !Terminates(ev) && MayRunOut(ports, ev) then SeenAfter(ev, tries) else ev
  }

  // ---------- how bg_work ends ----------

  /** How bg_work comes out of a report; `Again` only occurs inside the retry loops. */
  datatype Outcome = Done | Dropped | ShutDown | Terminated | Again

  /** How one turn of the retry loop of the URB arm ends. */
  function TurnOutcome(ports: Table, ev: Event, have: bool, t: Try): Outcome
    requires ev.UrbEvent?
  {
    if t.quits then ShutDown
    else if Terminates(ev) then Terminated
    else if !MayRunOut(ports, ev) then Dropped
    else if have && t.enqueues then Done
    else if t.shutdown then ShutDown
    else Again
  }

  /** What other threads do in the pause of such a turn, if it has one. */
  function TurnPause(ports: Table, ev: Event, have: bool, t: Try): seq<Other>
    requires ev.UrbEvent?
  {
    if !t.quits && !Terminates(ev) && MayRunOut(ports, ev) && !(have && t.enqueues) then t.others else []
  }

  datatype Course = Course(outcome: Outcome, pauses: seq<Other>)

  /** How the URB arm ends and what other threads do in its pauses, told turn by turn. */
  function UrbCourse(ports: Table, ev: Event, have: bool, tries: seq<Try>): Course
    requires ev.UrbEvent?
    decreases tries, 1
  {
    var t := if tries == [] then SUCCEEDS else tries[0];
    var later := AfterTurn(ports, ev, have || t.allocates, tries);
    Course(later.outcome, TurnPause(ports, ev, have || t.allocates, t) + later.pauses)
  }

  /** The course after the first turn. */
  function AfterTurn(ports: Table, ev: Event, have: bool, tries: seq<Try>): Course
    requires ev.UrbEvent?
    decreases tries, 0
  {
    var r := TurnOutcome(ports, ev, have, if tries == [] then SUCCEEDS else tries[0]);
    if r == Again && tries != [] then UrbCourse(ports, AfterFailedPass(ev), have, tries[1..]) else Course(r, [])
  }

  /** And told at once: the thread may quit before the first pass, bg_work may not survive the report or
      drop it, and otherwise it ends well unless it gives up for want of memory. */
  lemma {:induction false} UrbCourseIs(ports: Table, ev: Event, have: bool, tries: seq<Try>)
    requires ev.UrbEvent?
    ensures UrbCourse(ports, ev, have, tries).outcome ==
      if QuitsAtOnce(tries) then ShutDown
      else if Terminates(ev) then Terminated
      else if !MayRunOut(ports, ev) then Dropped
      else if GivesUp(have, tries, true) then ShutDown
      else Done
    ensures UrbCourse(ports, ev, have, tries).pauses ==
      if Terminates(ev) || !MayRunOut(ports, ev) then [] else Pauses(have, tries, true)
    decreases tries
  {
    if tries == [] {
    } else if !tries[0].quits && !Terminates(ev) && MayRunOut(ports, ev) {
      FailedPassCostsData(ports, ev);
      UrbCourseIs(ports, AfterFailedPass(ev), have || tries[0].allocates, tries[1..]);
    }
  }

  /** The kernel's data comes with the URB exactly if there is some and the first pass succeeds. */
  lemma DataArrivesIffFirstPass(urb: Urb, fetch: Fetch, tries: seq<Try>)
    requires !Terminates(UrbEvent(urb, fetch)) && !Terminates(SeenAfter(UrbEvent(urb, fetch), tries))
    ensures Accepted(SeenAfter(UrbEvent(urb, fetch), tries)).fetched
       <==> urb.NeedsData() && fetch.Works? && FirstPass(tries)
  {
  }

  /** The latest work carries an URB, with or without the data. */
  predicate LastUrbHasData(q: Queue, data: bool) {
    var works := q.past.enqueued;
    works != [] && works[|works| - 1].job.UrbJob? && works[|works| - 1].job.urb.fetched == data
  }

  lemma DataOfNewWork(c: C.Controller, ev: Event, d: C.Controller)
    requires ev.UrbEvent? && !Terminates(ev) && MayRunOut(c.ports, ev) && C.Act(c, C.Kernel(ev)) == Some(d)
    ensures LastUrbHasData(d.queue, ev.urb.NeedsData() && ev.fetch.Works?)
  {
    EnqueuesNewWork(c, ev);
  }

  /** Whether cancelling the handle enqueues a work: its URB is in processing and none is queued. */
  predicate CancelNeedsMemory(q: Queue, h: Handle)
    ensures CancelNeedsMemory(q, h) <==> Cancel(q, h).1
  {
    FindUrb(q.inbox, h) == |q.inbox| && FindUrb(q.processing, h) < |q.processing|
  }

  /** An exception leaves bg_work: from the URB arm as `Terminates` says, unless the thread quits before,
      or because there is no memory for a cancel work. */
  predicate Dies(c: C.Controller, ev: Event, tries: seq<Try>) {
    match ev
    case StatEvent(_, _) => false
    case UrbEvent(_, _) => !QuitsAtOnce(tries) && Terminates(ev)
    case CancelEvent(handle) => CancelNeedsMemory(c.queue, handle) && !FirstPass(tries)
  }

  /** bg_work returns without having handled the report, because the thread is shut down. */
  predicate Quits(ports: Table, ev: Event, tries: seq<Try>) {
    match ev
    case StatEvent(_, _) => MayRunOut(ports, ev) && GivesUp(false, tries, false)
    case UrbEvent(_, _) =>
      QuitsAtOnce(tries) || (!Terminates(ev) && MayRunOut(ports, ev) && GivesUp(false, tries, true))
    case CancelEvent(_) => false
  }

  /** What other threads do while the report is handled. */
  function Meanwhile(ports: Table, ev: Event, tries: seq<Try>): seq<Other> {
    match ev
    case StatEvent(_, _) => if MayRunOut(ports, ev) then Pauses(false, tries, false) else []
    case UrbEvent(_, _) => if Terminates(ev) || !MayRunOut(ports, ev) then [] else Pauses(false, tries, true)
    case CancelEvent(_) => []
  }

  lemma {:induction false} NoPauses(have: bool, tries: seq<Try>, buffers: bool)
    requires Undisturbed(tries)
    ensures Pauses(have, tries, buffers) == []
    decreases tries
  {
    if tries == [] {
    } else {
      NoPauses(have || tries[0].allocates, tries[1..], buffers);
    }
  }

  // ---------- other threads ----------

  /** What a step of another thread does to the controller. */
  function OtherStep(c: C.Controller, o: Other): (d: C.Controller)
    ensures d.ports == c.ports
  {
    var q := c.queue;
    if o.OtherPoll? then c.(queue := Next(q).queue)
    else if o.OtherFinish? then
      if o.k < |q.processing| && InProcess(q, q.processing[o.k].serial)
      then c.(queue := Release(Finish(q, q.processing[o.k].serial), |q.past.finishing|)) else c
    else if o.OtherRespond? then
      if o.k < |q.processing| && q.processing[o.k].CarriesUrb(o.urb.handle)
        && MayAnswer(q, q.processing[o.k].serial, o.urb)
      then c.(queue := Answer(q, q.processing[o.k].serial, o.urb)) else c
    else if CancelNeedsMemory(q, o.handle) && !o.memory then c
    else c.(queue := Cancel(q, o.handle).0)
  }

  function AfterOthers(c: C.Controller, todo: seq<Other>): (d: C.Controller)
    ensures d.ports == c.ports
    decreases todo
  {
    if todo == [] then c else AfterOthers(OtherStep(c, todo[0]), todo[1..])
  }

  /** The controller actions that such a step stands for. */
  function ActsOf(c: C.Controller, o: Other): seq<C.Action> {
    var q := c.queue;
    match o
    case OtherPoll => [C.Poll]
    case OtherFinish(k) =>
      if k < |q.processing| then [C.Complete(q.processing[k].serial), C.Delete(|q.past.finishing|)] else []
    case OtherRespond(k, urb) =>
      if k < |q.processing| && q.processing[k].CarriesUrb(urb.handle) && MayAnswer(q, q.processing[k].serial, urb)
      then [C.Respond(q.processing[k].serial, urb)] else []
    case OtherCancel(handle, memory) =>
      if CancelNeedsMemory(q, handle) && !memory then [] else [C.Kernel(CancelEvent(handle))]
  }

  function OthersActs(c: C.Controller, todo: seq<Other>): seq<C.Action>
    decreases todo
  {
    if todo == [] then [] else ActsOf(c, todo[0]) + OthersActs(OtherStep(c, todo[0]), todo[1..])
  }

  lemma OneAct(c: C.Controller, a: C.Action)
    ensures C.Perform(c, [a]) == C.Act(c, a)
  {
    C.PerformAppend(c, [], a);
    assert [] + [a] == [a];
  }

  lemma TwoActs(c: C.Controller, a: C.Action, b: C.Action)
    ensures C.Perform(c, [a, b]) == match C.Act(c, a) case None => None case Some(d) => C.Act(d, b)
  {
    OneAct(c, a);
    C.PerformAppend(c, [a], b);
    assert [a] + [b] == [a, b];
  }

  lemma StepActs(c: C.Controller, o: Other)
    ensures C.ByOthers(ActsOf(c, o)) && C.Perform(c, ActsOf(c, o)) == Some(OtherStep(c, o))
  {
    var q := c.queue;
    if o.OtherFinish? {
      if o.k < |q.processing| {
        TwoActs(c, C.Complete(q.processing[o.k].serial), C.Delete(|q.past.finishing|));
      }
    } else if ActsOf(c, o) != [] {
      OneAct(c, ActsOf(c, o)[0]);
      assert ActsOf(c, o) == [ActsOf(c, o)[0]];
    }
  }

  /** What other threads do is a sequence of controller actions, so all that is proved about runs, and about
      retries among them, covers it. */
  lemma {:induction false} OthersAct(c: C.Controller, todo: seq<Other>)
    ensures C.ByOthers(OthersActs(c, todo)) && C.Perform(c, OthersActs(c, todo)) == Some(AfterOthers(c, todo))
    decreases todo
  {
    if todo == [] {
    } else {
      var d := OtherStep(c, todo[0]);
      StepActs(c, todo[0]);
      OthersAct(d, todo[1..]);
      C.PerformConcat(c, ActsOf(c, todo[0]), OthersActs(d, todo[1..]));
    }
  }

  lemma DroppedActs(c: C.Controller, ev: Event)
    requires !Terminates(ev)
    ensures !ev.CancelEvent? && !MayRunOut(c.ports, ev) ==> C.Act(c, C.Kernel(ev)) == Some(c)
  {
    if !ev.CancelEvent? {
      EnqueuesOrDrops(c, ev);
    }
  }

  lemma NoOthers(c: C.Controller)
    ensures AfterOthers(c, []) == c
  {
  }

  lemma OneStepFurther(c: C.Controller, todo: seq<Other>, i: nat, rest: seq<Other>)
    requires i < |todo|
    ensures AfterOthers(c, todo[i..] + rest) == AfterOthers(OtherStep(c, todo[i]), todo[i + 1..] + rest)
  {
    assert (todo[i..] + rest)[0] == todo[i] && (todo[i..] + rest)[1..] == todo[i + 1..] + rest;
  }
}
