/** The controller as a whole: the work queue and the port table of `local_hcd`, driven by the
    background thread and by the consumer, one locked section at a time. */
module Controller {
  import opened Types
  import opened PortTriggers
  import opened PortTable
  import opened WorkQueue

  datatype Controller = Controller(queue: Queue, ports: Table)

  function Init(n: u8): Controller { Controller(EMPTY, FreshTable(n)) }

  /** bg_work for one report.  Whoever calls it must rule out the reports it cannot survive. */
  function BgWork(c: Controller, ev: Event): Controller
    requires !Terminates(ev)
  {
    var ports := TableStep(c.ports, ev);
    match ev
    case StatEvent(index, stat) =>
      if 1 <= index <= |c.ports| then
        var job := StatusJob(stat, Triggers(stat, c.ports[index - 1].stat));
        Controller(Enqueue(c.queue, index, job), ports)
      else c
    case UrbEvent(_, _) =>
      var r := Route(c.ports, ev);
      if r.Some? then Controller(Enqueue(c.queue, r.value, UrbJob(Accepted(ev))), ports) else c
    case CancelEvent(h) => Controller(Cancel(c.queue, h).0, ports)
  }

  /** The locked sections of both threads, and the consumer's work on an URB. */
  datatype Action =
    | Kernel(ev: Event)
    | Poll
    | Respond(serial: nat, urb: Urb)
    | Complete(serial: nat)
    | Delete(index: nat)

  /** `None`: the action is impossible here, or the program does not survive it. */
  function Act(c: Controller, a: Action): Option<Controller> {
    match a
    case Kernel(ev) => if Terminates(ev) then None else Some(BgWork(c, ev))
    case Poll => Some(c.(queue := Next(c.queue).queue))
    case Respond(serial, urb) =>
      if MayAnswer(c.queue, serial, urb) then Some(c.(queue := Answer(c.queue, serial, urb))) else None
    case Complete(serial) =>
      if InProcess(c.queue, serial) then Some(c.(queue := Finish(c.queue, serial))) else None
    case Delete(index) =>
      if index < |c.queue.past.finishing| then Some(c.(queue := Release(c.queue, index))) else None
  }

  /** The state after some actions, if they are possible. */
  function Perform(c: Controller, actions: seq<Action>): Option<Controller> {
    if actions == [] then Some(c)
    else
      match Perform(c, actions[..|actions| - 1])
      case None => None
      case Some(d) => Act(d, actions[|actions| - 1])
  }

  /** The state after a run of a controller with n ports, if the run is possible. */
  function After(n: u8, run: seq<Action>): Option<Controller> { Perform(Init(n), run) }

  lemma PerformAppend(c: Controller, actions: seq<Action>, a: Action)
    ensures Perform(c, actions + [a]) == match Perform(c, actions) case None => None case Some(d) => Act(d, a)
  {
    assert (actions + [a])[..|actions|] == actions;
  }

  lemma {:induction false} PerformConcat(c: Controller, a: seq<Action>, b: seq<Action>)
    requires Perform(c, a).Some?
    ensures Perform(c, a + b) == Perform(Perform(c, a).value, b)
  {
    if b == [] {
      assert a + b == a;
    } else {
      var before := b[..|b| - 1];
      PerformConcat(c, a, before);
      assert (a + b)[..|a + b| - 1] == a + before;
    }
  }

  /** Actions of threads other than the background thread: the consumer's, and cancellations, which
      anybody may request. */
  predicate ByOthers(actions: seq<Action>) {
    forall i :: 0 <= i < |actions| && actions[i].Kernel? ==> actions[i].ev.CancelEvent?
  }

  /** The kernel's part of a run. */
  function Events(run: seq<Action>): seq<Event> {
    if run == [] then []
    else Events(run[..|run| - 1]) + (match run[|run| - 1] case Kernel(ev) => [ev] case _ => [])
  }

  lemma EventsAppend(run: seq<Action>, a: Action)
    ensures Events(run + [a]) == Events(run) + if a.Kernel? then [a.ev] else []
  {
    assert (run + [a])[..|run|] == run;
  }
}
