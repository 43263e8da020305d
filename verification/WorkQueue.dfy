/** The work queue of `hcd`: an inbox, a processing list and the history of what happened
    to every work.  This is the specification that class `LocalHcd` is proved against. */
module WorkQueue {
  import opened Types

  datatype Job =
    | StatusJob(stat: PortStat, triggers: bv8)
    | UrbJob(urb: Urb)
    | CancelJob(handle: Handle)

  /** A work object.  `serial` stands for its identity: the n-th work enqueued has serial n. */
  datatype Item = Item(serial: nat, port: u8, job: Job, canceled: bool) {
    predicate CarriesUrb(h: Handle) { job.UrbJob? && job.urb.handle == h }
  }

  /** What happened so far.
      `voided`    serials of works cancelled while they were still queued;
      `finishing` works already off the lists whose `delete` is still to come;
      `doubled`   handles given back although the work found was already cancelled;
      `notified`  how often the work-enqueued callbacks were run. */
  datatype History = History(
    enqueued: seq<Item>, delivered: seq<Item>, voided: set<nat>,
    finishing: seq<nat>, freed: seq<nat>,
    givenBack: seq<Urb>, doubled: seq<Handle>, notified: nat)

  datatype Queue = Queue(inbox: seq<Item>, processing: seq<Item>, past: History)

  const EMPTY := Queue([], [], History([], [], {}, [], [], [], [], 0))

  // ---------- operations ----------

  /** enqueue_work followed by on_work_enqueued. */
  function Enqueue(q: Queue, port: u8, job: Job): Queue {
    var w := Item(|q.past.enqueued|, port, job, false);
    q.(inbox := q.inbox + [w],
       past := q.past.(enqueued := q.past.enqueued + [w], notified := q.past.notified + 1))
  }

  function GiveBack(q: Queue, job: Job): Queue {
    if job.UrbJob? then q.(past := q.past.(givenBack := q.past.givenBack + [job.urb])) else q
  }

  datatype Polled = Polled(queue: Queue, work: Option<Item>, more: bool)

  function Discard(q: Queue): Queue
    requires q.inbox != []
  {
    q.(inbox := q.inbox[1..], past := q.past.(freed := q.past.freed + [q.inbox[0].serial]))
  }

  function Deliver(q: Queue): Queue
    requires q.inbox != []
  {
    q.(inbox := q.inbox[1..], processing := q.processing + [q.inbox[0]],
       past := q.past.(delivered := q.past.delivered + [q.inbox[0]]))
  }

  /** next_work: cancelled works at the front are deleted, the first other one is handed out. */
  function Next(q: Queue): Polled
    decreases |q.inbox|
  {
    if q.inbox == [] then Polled(q, None, false)
    else if q.inbox[0].canceled then Next(Discard(q))
    else Polled(Deliver(q), Some(q.inbox[0]), |q.inbox| != 1)
  }

  /** The first item carrying an URB with the handle, or the length of the sequence. */
  function FindUrb(items: seq<Item>, h: Handle): (i: nat)
    ensures i <= |items|
    ensures i < |items| ==> items[i].CarriesUrb(h)
    ensures forall k :: 0 <= k < i ==> !items[k].CarriesUrb(h)
  {
    if items == [] then 0
    else if items[0].CarriesUrb(h) then 0
    else 1 + FindUrb(items[1..], h)
  }

  /** The queued branch of cancel_process_urb_work: set the flag, give the URB back. */
  function CancelQueued(q: Queue, i: nat): Queue
    requires i < |q.inbox| && q.inbox[i].job.UrbJob?
  {
    var w := q.inbox[i];
    var q' := q.(inbox := q.inbox[i := w.(canceled := true)],
                 past := q.past.(voided := q.past.voided + {w.serial},
                                 doubled := q.past.doubled + if w.canceled then [w.job.urb.handle] else []));
    GiveBack(q', w.job)
  }

  /** cancel_process_urb_work.  The scan of the inbox does not look at cancel flags. */
  function Cancel(q: Queue, h: Handle): (Queue, bool) {
    var i := FindUrb(q.inbox, h);
    if i < |q.inbox| then (CancelQueued(q, i), false)
    else
      var j := FindUrb(q.processing, h);
      if j < |q.processing| then (Enqueue(q, q.processing[j].port, CancelJob(h)), true)
      else (q, false)
  }

  /** The position of the work with the serial, or the length of the sequence. */
  function Position(items: seq<Item>, serial: nat): (i: nat)
    ensures i <= |items|
    ensures i < |items| ==> items[i].serial == serial
    ensures forall k :: 0 <= k < i ==> items[k].serial != serial
  {
    if items == [] then 0
    else if items[0].serial == serial then 0
    else 1 + Position(items[1..], serial)
  }

  function RemoveAt<T>(s: seq<T>, i: nat): seq<T>
    requires i < |s|
  {
    s[..i] + s[i + 1..]
  }

  predicate InProcess(q: Queue, serial: nat) { Position(q.processing, serial) < |q.processing| }

  function FinishAt(q: Queue, i: nat): Queue
    requires i < |q.processing|
  {
    var q' := GiveBack(q, q.processing[i].job);
    q'.(processing := RemoveAt(q.processing, i),
        past := q'.past.(finishing := q'.past.finishing + [q.processing[i].serial]))
  }

  /** The locked part of finish_work. */
  function Finish(q: Queue, serial: nat): Queue
    requires InProcess(q, serial)
  {
    FinishAt(q, Position(q.processing, serial))
  }

  /** The `delete` at the end of finish_work, after the lock was released. */
  function Release(q: Queue, i: nat): Queue
    requires i < |q.past.finishing|
  {
    q.(past := q.past.(finishing := RemoveAt(q.past.finishing, i), freed := q.past.freed + [q.past.finishing[i]]))
  }

  /** The consumer changes an URB it was given; no setter touches the handle. */
  predicate MayAnswer(q: Queue, serial: nat, urb: Urb) {
    && InProcess(q, serial)
    && q.processing[Position(q.processing, serial)].CarriesUrb(urb.handle)
  }

  function Answer(q: Queue, serial: nat, urb: Urb): Queue
    requires MayAnswer(q, serial, urb)
  {
    var i := Position(q.processing, serial);
    q.(processing := q.processing[i := q.processing[i].(job := UrbJob(urb))])
  }

  function Serials(items: seq<Item>): seq<nat> { seq(|items|, i requires 0 <= i < |items| => items[i].serial) }

  /** The destructor: both lists are deleted, front to back. */
  function Destroy(q: Queue): Queue {
    q.(inbox := [], processing := [],
       past := q.past.(freed := q.past.freed + Serials(q.inbox) + Serials(q.processing)))
  }

  // ---------- vocabulary ----------

  /** The items whose serial is not in `drop`, in order. */
  function Without(items: seq<Item>, drop: set<nat>): seq<Item> {
    if items == [] then []
    else (if items[0].serial in drop then [] else [items[0]]) + Without(items[1..], drop)
  }

  /** The items that are not cancelled, in order. */
  function Live(items: seq<Item>): seq<Item> {
    if items == [] then []
    else (if items[0].canceled then [] else [items[0]]) + Live(items[1..])
  }

  /** Whether a work counts for a handle: it carries the URB and is not cancelled. */
  function Weight(w: Item, h: Handle): nat { if !w.canceled && w.CarriesUrb(h) then 1 else 0 }

  /** How many works that are not cancelled carry an URB with the handle. */
  function Carried(items: seq<Item>, h: Handle): nat {
    if items == [] then 0 else Weight(items[0], h) + Carried(items[1..], h)
  }

  /** How often a handle occurs in a list. */
  ghost function Times(handles: seq<Handle>, h: Handle): nat { multiset(handles)[h] }

  function UrbHandles(urbs: seq<Urb>): seq<Handle> {
    seq(|urbs|, i requires 0 <= i < |urbs| => urbs[i].handle)
  }

  /** Some earlier item of the delivery order carried this URB on this port. */
  predicate Seen(items: seq<Item>, port: u8, h: Handle) {
    exists k :: 0 <= k < |items| && items[k].port == port && items[k].CarriesUrb(h)
  }

  /** The handle of the first work found is not already cancelled. */
  predicate CancelIsFresh(q: Queue, h: Handle) {
    var i := FindUrb(q.inbox, h);
    i < |q.inbox| ==> !q.inbox[i].canceled
  }
}
