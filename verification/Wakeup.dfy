/** The wakeup protocol of the example consumer as an interleaving of single steps.

    The producer is the controller's background thread, of which there is only one; outside the lock
    it touches nothing shared.  The consumer is the loop of `main`.  `lock` is the controller's
    `_lock` and `mutex` is the example's `has_work_mutex`; the producer takes the second inside the
    first. */
module Wakeup {
  import opened Types
  import opened PortTable
  import opened WorkQueue
  import opened QueueLaws
  import opened Controller
  import opened RunLaws

  datatype ProducerPc =
    | Outside
    | Enter             // holds lock, about to handle the report
    | Notify            // a work was pushed; the callback wants mutex
    | SetFlag           // holds mutex, about to set has_work
    | TestWaiting       // about to test waiting_for_work and signal
    | DropMutex         // about to release mutex
    | Leave             // about to release lock
    | Retry             // ran out of memory and released lock, about to try the report again

  datatype ConsumerPc =
    | Register | Registering                        // add_work_enqueued_callback
    | Top                                           // tests cont
    | WantMutex | Check | Clear | Announce | Sleep  // the wait block
    | Blocked                                       // inside pthread_cond_wait
    | Wake | Unlock
    | WantLock | Poll | PollDone                    // next_work
    | Process
    | WantFinish | Finishing | FinishDone | Delete  // finish_work

  datatype Owner = Nobody | ByProducer | ByConsumer

  /** Everything but the controller itself. */
  datatype Threads = Threads(
    lock: Owner, mutex: Owner,
    hasWork: bool, waiting: bool, registered: bool,
    signalled: bool,  // the blocked consumer was signalled and not yet scheduled
    cont: bool,
    work: Option<nat>,  // the consumer's variable, by serial
    producer: ProducerPc, consumer: ConsumerPc)

  /** `report` is what the producer is handling. */
  datatype State = State(c: Controller, report: Event, k: Threads)

  function Start(n: u8): State {
    State(Init(n), CancelEvent(0), Threads(Nobody, Nobody, true, false, false, false, false, None, Outside, Register))
  }

  datatype Move =
    | Arrive(ev: Event)   // the producer takes the lock to handle a new report
    | RunOut              // there is no memory for the work; the producer releases the lock
    | GiveUp              // the producer sees the shutdown flag before it tries again
    | Produce             // the producer's next instruction
    | Consume             // the consumer's next instruction
    | Spurious            // pthread_cond_wait returns for no reason
    | Reply(urb: Urb)     // the consumer works on the URB it has

  predicate Internal(m: Move) { m.Produce? || m.Consume? }

  /** The body of the producer's locked section; before registration there is nobody to call. */
  function HandleReport(t: State): Option<State> {
    if Terminates(t.report) then None
    else
      var c := BgWork(t.c, t.report);
      var pushed := |c.queue.past.enqueued| != |t.c.queue.past.enqueued|;
      Some(t.(c := c, k := t.k.(producer := if pushed && t.k.registered then Notify else Leave)))
  }

  /** The steps of the producer that leave the queue alone: the callback, and the lock. */
  predicate ProducerReady(k: Threads) {
    && !k.producer.Outside?
    && (k.producer.Notify? ==> k.mutex.Nobody?)
    && (k.producer.Retry? ==> k.lock.Nobody?)
  }

  function ProducerStep(k: Threads): Threads {
    if k.producer.Notify? then k.(mutex := ByProducer, producer := SetFlag)
    else if k.producer.SetFlag? then k.(hasWork := true, producer := TestWaiting)
    else if k.producer.TestWaiting? then
      k.(waiting := false, signalled := k.signalled || (k.waiting && k.consumer.Blocked?), producer := DropMutex)
    else if k.producer.DropMutex? then k.(mutex := Nobody, producer := Leave)
    else if k.producer.Leave? then k.(lock := Nobody, producer := Outside)
    else if k.producer.Retry? then k.(lock := ByProducer, producer := Enter)
    else k
  }

  predicate OnQueue(p: ConsumerPc) { p.Poll? || p.Finishing? || p.Delete? }

  function QueueStep(t: State): Option<State> {
    var q := t.c.queue;
    match t.k.consumer
    case Poll =>
      var r := Next(q);
      var got := if r.work.Some? then Some(r.work.value.serial) else None;
      Some(t.(c := t.c.(queue := r.queue), k := t.k.(cont := r.more, work := got, consumer := PollDone)))
    case Finishing =>
      if t.k.work.Some? && InProcess(q, t.k.work.value)
      then Some(t.(c := t.c.(queue := Finish(q, t.k.work.value)), k := t.k.(consumer := FinishDone))) else None
    case Delete =>
      var f := |q.past.finishing|;
      if f > 0 then Some(t.(c := t.c.(queue := Release(q, f - 1)), k := t.k.(consumer := Top))) else None
    case _ => None
  }

  predicate WantsLock(p: ConsumerPc) { p.Register? || p.WantLock? || p.WantFinish? }

  predicate WantsMutex(p: ConsumerPc) { p.WantMutex? || p.Wake? }

  predicate ConsumerReady(k: Threads) {
    && (WantsLock(k.consumer) ==> k.lock.Nobody?)
    && (WantsMutex(k.consumer) ==> k.mutex.Nobody?)
    && (k.consumer.Blocked? ==> k.signalled)
  }

  predicate InWaitBlock(p: ConsumerPc) {
    p.WantMutex? || p.Check? || p.Clear? || p.Announce? || p.Sleep? || p.Blocked? || p.Wake? || p.Unlock?
  }

  predicate InLoop(p: ConsumerPc) {
    || p.Register? || p.Registering? || p.Top? || p.WantLock? || p.PollDone?
    || p.Process? || p.WantFinish? || p.FinishDone?
  }

  /** The block around pthread_cond_wait, under has_work_mutex. */
  function WaitStep(k: Threads): Threads {
    if k.consumer.WantMutex? then k.(mutex := ByConsumer, consumer := Check)
    else if k.consumer.Check? then k.(consumer := if k.hasWork then Clear else Announce)
    else if k.consumer.Clear? then k.(hasWork := false, consumer := Unlock)
    else if k.consumer.Announce? then k.(waiting := true, consumer := Sleep)
    else if k.consumer.Sleep? then k.(mutex := Nobody, consumer := Blocked)
    else if k.consumer.Blocked? then k.(signalled := false, consumer := Wake)
    else if k.consumer.Wake? then k.(mutex := ByConsumer, consumer := Unlock)
    else if k.consumer.Unlock? then k.(mutex := Nobody, consumer := WantLock)
    else k
  }

  /** Everything else: the loop head, and getting in and out of the controller's lock. */
  function LockStep(k: Threads): Threads {
    if k.consumer.Register? then k.(lock := ByConsumer, consumer := Registering)
    else if k.consumer.Registering? then k.(registered := true, lock := Nobody, consumer := Top)
    else if k.consumer.Top? then k.(consumer := if k.cont then WantLock else WantMutex)
    else if k.consumer.WantLock? then k.(lock := ByConsumer, consumer := ConsumerPc.Poll)
    else if k.consumer.PollDone? then k.(lock := Nobody, consumer := if k.work.Some? then Process else Top)
    else if k.consumer.Process? then k.(consumer := WantFinish)
    else if k.consumer.WantFinish? then k.(lock := ByConsumer, consumer := Finishing)
    else if k.consumer.FinishDone? then k.(lock := Nobody, consumer := ConsumerPc.Delete)
    else k
  }

  /** The steps of the consumer that leave the queue alone. */
  function FlagStep(k: Threads): Threads {
    if InWaitBlock(k.consumer) then WaitStep(k) else LockStep(k)
  }

  /** `None` where the thread cannot take the step now. */
  function Step(t: State, m: Move): Option<State> {
    match m
    case Arrive(ev) =>
      if t.k.producer.Outside? && t.k.lock.Nobody? && !Terminates(ev)
      then Some(t.(report := ev, k := t.k.(lock := ByProducer, producer := Enter))) else None
    case RunOut =>
      if t.k.producer.Enter? && !Terminates(t.report) && MayRunOut(t.c.ports, t.report)
      then Some(t.(report := AfterFailedPass(t.report), k := t.k.(lock := Nobody, producer := Retry))) else None
    case GiveUp =>
      if t.k.producer.Retry? then Some(t.(k := t.k.(producer := Outside))) else None
    case Produce =>
      if t.k.producer.Enter? then HandleReport(t)
      else if ProducerReady(t.k) then Some(t.(k := ProducerStep(t.k))) else None
    case Consume =>
      if OnQueue(t.k.consumer) then QueueStep(t)
      else if ConsumerReady(t.k) then Some(t.(k := FlagStep(t.k))) else None
    case Spurious =>
      if t.k.consumer.Blocked? then Some(t.(k := t.k.(consumer := Wake, signalled := false))) else None
    case Reply(urb) =>
      if t.k.consumer.Process? && t.k.work.Some? && MayAnswer(t.c.queue, t.k.work.value, urb)
      then Some(t.(c := t.c.(queue := Answer(t.c.queue, t.k.work.value, urb)))) else None
  }

  /** The state after some steps, if they can be taken. */
  function RunOn(t: State, moves: seq<Move>): Option<State> {
    if moves == [] then Some(t)
    else
      match RunOn(t, moves[..|moves| - 1])
      case None => None
      case Some(t') => Step(t', moves[|moves| - 1])
  }

  function Reach(n: u8, moves: seq<Move>): Option<State> { RunOn(Start(n), moves) }

  // ---------- the invariant ----------

  predicate ConsumerHasLock(p: ConsumerPc) {
    p.Registering? || p.Poll? || p.PollDone? || p.Finishing? || p.FinishDone?
  }

  predicate ConsumerHasMutex(p: ConsumerPc) {
    p.Check? || p.Clear? || p.Announce? || p.Sleep? || p.Unlock?
  }

  predicate ProducerHasMutex(p: ProducerPc) { p.SetFlag? || p.TestWaiting? || p.DropMutex? }

  /** The owner fields say who is inside which critical section, so nobody shares one. */
  predicate Exclusive(k: Threads) {
    && (k.lock.ByProducer? <==> !k.producer.Outside? && !k.producer.Retry?)
    && (k.lock.ByConsumer? <==> ConsumerHasLock(k.consumer))
    && (k.mutex.ByProducer? <==> ProducerHasMutex(k.producer))
    && (k.mutex.ByConsumer? <==> ConsumerHasMutex(k.consumer))
  }

  predicate BeforeCallback(p: ConsumerPc) { p.Register? || p.Registering? }

  /** The consumer will call next_work again before it can block. */
  predicate WillPoll(k: Threads) {
    || k.cont || k.consumer.Unlock? || k.consumer.WantLock? || k.consumer.Poll? || k.consumer.Wake?
    || (k.consumer.Blocked? && k.signalled)
  }

  /** Queued work is always covered by a flag, by a callback on its way, or by a coming poll. */
  predicate Covered(k: Threads, queued: bool) {
    queued ==> k.hasWork || k.producer.Notify? || k.producer.SetFlag? || WillPoll(k)
  }

  predicate FlagsAgree(k: Threads) {
    && (k.registered <==> !BeforeCallback(k.consumer))
    && (BeforeCallback(k.consumer) ==> k.hasWork && !k.waiting && !k.cont)
    && (k.producer.Notify? || ProducerHasMutex(k.producer) ==> k.registered)
    && (k.producer.TestWaiting? ==> k.hasWork)
    && (k.cont ==>
          !ConsumerHasMutex(k.consumer) && !k.consumer.WantMutex? && !k.consumer.Blocked? && !k.consumer.Wake?)
    && (k.consumer.Clear? ==> k.hasWork)
    && (k.consumer.Announce? || k.consumer.Sleep? ==> !k.hasWork)
    && (k.consumer.Sleep? ==> k.waiting)
    && (k.signalled ==> k.consumer.Blocked?)
    && (k.consumer.Blocked? && !k.signalled ==> k.waiting && (k.hasWork ==> k.producer.TestWaiting?))
  }

  predicate ControlSafe(k: Threads, queued: bool) {
    Exclusive(k) && FlagsAgree(k) && Covered(k, queued) && (k.cont ==> queued)
  }

  /** The consumer is busy with its work, or about to delete it. */
  predicate InHand(p: ConsumerPc) { p.PollDone? || p.Process? || p.WantFinish? || p.Finishing? }

  predicate ToDelete(p: ConsumerPc) { p.FinishDone? || p.Delete? }

  /** The processing list holds the consumer's work and nothing else. */
  predicate Holding(q: Queue, k: Threads) {
    && (k.work.None? ==>
          !ToDelete(k.consumer) && !k.consumer.Process? && !k.consumer.WantFinish? && !k.consumer.Finishing?)
    && q.past.finishing == (if ToDelete(k.consumer) then [k.work.value] else [])
    && (if InHand(k.consumer) && k.work.Some?
        then |q.processing| == 1 && q.processing[0].serial == k.work.value
        else q.processing == [])
  }

  predicate Safe(t: State) {
    && ControlSafe(t.k, t.c.queue.inbox != []) && Holding(t.c.queue, t.k)
    && (t.k.producer.Enter? || t.k.producer.Retry? ==> !Terminates(t.report))
  }

  // ---------- how much is left to do ----------

  function ProducerLeft(p: ProducerPc): nat {
    if p.Outside? then 0
    else if p.Leave? then 1
    else if p.DropMutex? then 2
    else if p.TestWaiting? then 3
    else if p.SetFlag? then 4
    else if p.Notify? then 5
    else if p.Enter? then 6
    else 7
  }

  function ConsumerLeft(k: Threads): nat {
    var again := if k.cont then 40 else 0;
    if k.consumer.Register? then 50
    else if k.consumer.Registering? then 49
    else if k.consumer.Wake? then 26
    else if k.consumer.Unlock? then 25
    else if k.consumer.WantLock? then 24
    else if k.consumer.Poll? then 23
    else if k.consumer.PollDone? then again + 22
    else if k.consumer.Process? then again + 21
    else if k.consumer.WantFinish? then again + 20
    else if k.consumer.Finishing? then again + 19
    else if k.consumer.FinishDone? then again + 18
    else if k.consumer.Delete? then again + 17
    else if k.consumer.Top? then again + 16
    else if k.consumer.WantMutex? then 15
    else if k.consumer.Check? then 14
    else if k.consumer.Clear? then 13
    else if k.consumer.Announce? then 13
    else if k.consumer.Sleep? then 12
    else if k.signalled then 40 else 0
  }

  function ControlLeft(k: Threads): nat {
    1000 * ProducerLeft(k.producer) + (if k.hasWork then 20 else 0) + ConsumerLeft(k)
  }

  /** A bound on the steps the threads still take if nothing new arrives. */
  function Remaining(t: State): nat { ControlLeft(t.k) + 100 * |t.c.queue.inbox| }

  // ---------- every step keeps the invariant, and brings the end nearer ----------

  lemma ProducerKeepsOwners(k: Threads)
    requires Exclusive(k) && ProducerReady(k) && !k.producer.Enter?
    ensures
      var k' := ProducerStep(k);
      Exclusive(k') && k'.consumer == k.consumer && (k'.producer.Enter? ==> k.producer.Retry?)
  {
  }

  lemma ProducerKeepsFlags(k: Threads, queued: bool)
    requires ControlSafe(k, queued) && ProducerReady(k) && !k.producer.Enter?
    ensures var k' := ProducerStep(k);
      FlagsAgree(k') && Covered(k', queued) && k'.cont == k.cont && ControlLeft(k') < ControlLeft(k)
  {
  }

  lemma WaitStepKeepsSafe(k: Threads, queued: bool)
    requires ControlSafe(k, queued) && InWaitBlock(k.consumer) && ConsumerReady(k)
    ensures var k' := WaitStep(k); ControlSafe(k', queued) && ControlLeft(k') < ControlLeft(k)
  {
  }

  lemma LockStepKeepsOwners(k: Threads)
    requires Exclusive(k) && InLoop(k.consumer) && ConsumerReady(k)
    ensures Exclusive(LockStep(k))
  {
  }

  lemma LockStepKeepsFlags(k: Threads)
    requires Exclusive(k) && FlagsAgree(k) && InLoop(k.consumer) && ConsumerReady(k)
    ensures FlagsAgree(LockStep(k))
  {
    match k.consumer
    case Register =>
    case Registering =>
    case Top =>
    case WantLock =>
    case PollDone =>
    case Process =>
    case WantFinish =>
    case FinishDone =>
  }

  lemma LockStepKeepsCovered(k: Threads, queued: bool)
    requires ControlSafe(k, queued) && InLoop(k.consumer) && ConsumerReady(k)
    ensures Covered(LockStep(k), queued) && LockStep(k).cont == k.cont
  {
    match k.consumer
    case Register =>
    case Registering =>
    case Top =>
    case WantLock =>
    case PollDone =>
    case Process =>
    case WantFinish =>
    case FinishDone =>
  }

  lemma LockStepProgress(k: Threads)
    requires InLoop(k.consumer) && (k.consumer.Register? || k.consumer.Registering? ==> !k.cont)
    ensures ControlLeft(LockStep(k)) < ControlLeft(k)
  {
  }

  lemma WaitStepKeepsHolding(q: Queue, k: Threads)
    requires Holding(q, k) && InWaitBlock(k.consumer)
    ensures Holding(q, WaitStep(k)) && WaitStep(k).producer == k.producer
  {
  }

  lemma LockStepKeepsHolding(q: Queue, k: Threads)
    requires Holding(q, k) && InLoop(k.consumer)
    ensures Holding(q, LockStep(k)) && LockStep(k).producer == k.producer
  {
  }

  lemma FlagStepKeepsSafe(q: Queue, k: Threads, queued: bool)
    requires ControlSafe(k, queued) && Holding(q, k) && !OnQueue(k.consumer) && ConsumerReady(k)
    ensures var k' := FlagStep(k);
      ControlSafe(k', queued) && Holding(q, k') && k'.producer == k.producer && ControlLeft(k') < ControlLeft(k)
  {
    if InWaitBlock(k.consumer) {
      WaitStepKeepsSafe(k, queued);
      WaitStepKeepsHolding(q, k);
    } else {
      LockStepKeepsOwners(k);
      LockStepKeepsFlags(k);
      LockStepKeepsCovered(k, queued);
      LockStepProgress(k);
      LockStepKeepsHolding(q, k);
    }
  }

  lemma HandleReportKeepsSafe(t: State)
    requires Safe(t) && t.k.producer.Enter?
    ensures var r := HandleReport(t); r.Some? && Safe(r.value) && Remaining(r.value) < Remaining(t)
  {
    BgWorkQueue(t.c, t.report);
  }

  /** What a poll by a consumer with empty hands does. */
  lemma PollOutcome(q: Queue)
    requires q.processing == []
    ensures var r := Next(q);
      && (r.more <==> r.queue.inbox != [])
      && r.queue.past.finishing == q.past.finishing
      && r.queue.processing == (if r.work.Some? then [r.work.value] else [])
      && (if q.inbox == [] then r.queue.inbox == [] else |r.queue.inbox| < |q.inbox|)
  {
    MoreMeansNonEmpty(q);
    NextTakesFirstLive(q);
  }

  lemma FinishOnly(q: Queue, s: nat)
    requires |q.processing| == 1 && q.processing[0].serial == s
    ensures InProcess(q, s)
    ensures Finish(q, s).processing == [] && Finish(q, s).inbox == q.inbox
    ensures Finish(q, s).past.finishing == q.past.finishing + [s]
  {
    assert Position(q.processing, s) == 0;
  }

  lemma PollKeepsSafe(t: State)
    requires Safe(t) && t.k.consumer.Poll?
    ensures var r := QueueStep(t); r.Some? && Safe(r.value) && Remaining(r.value) < Remaining(t)
  {
    PollOutcome(t.c.queue);
  }

  lemma FinishKeepsSafe(t: State)
    requires Safe(t) && t.k.consumer.Finishing?
    ensures var r := QueueStep(t); r.Some? && Safe(r.value) && Remaining(r.value) < Remaining(t)
  {
    FinishOnly(t.c.queue, t.k.work.value);
  }

  lemma DeleteKeepsSafe(t: State)
    requires Safe(t) && t.k.consumer.Delete?
    ensures var r := QueueStep(t); r.Some? && Safe(r.value) && Remaining(r.value) < Remaining(t)
  {
    assert RemoveAt([t.k.work.value], 0) == [];
  }

  lemma QueueStepKeepsSafe(t: State)
    requires Safe(t) && OnQueue(t.k.consumer)
    ensures var r := QueueStep(t); r.Some? && Safe(r.value) && Remaining(r.value) < Remaining(t)
  {
    if t.k.consumer.Poll? {
      PollKeepsSafe(t);
    } else if t.k.consumer.Finishing? {
      FinishKeepsSafe(t);
    } else {
      DeleteKeepsSafe(t);
    }
  }

  lemma InternalStepKeepsSafe(t: State, m: Move)
    requires Safe(t) && Internal(m) && Step(t, m).Some?
    ensures Safe(Step(t, m).value) && Remaining(Step(t, m).value) < Remaining(t)
  {
    var queued := t.c.queue.inbox != [];
    if m == Produce {
      if t.k.producer.Enter? {
        HandleReportKeepsSafe(t);
      } else {
        ProducerKeepsOwners(t.k);
        ProducerKeepsFlags(t.k, queued);
      }
    } else {
      if OnQueue(t.k.consumer) {
        QueueStepKeepsSafe(t);
      } else {
        FlagStepKeepsSafe(t.c.queue, t.k, queued);
      }
    }
  }

  lemma RunOutKeepsSafe(t: State)
    requires Safe(t) && Step(t, RunOut).Some?
    ensures Safe(Step(t, RunOut).value)
  {
    FailedPassCostsData(t.c.ports, t.report);
  }

  lemma OutsideStepKeepsSafe(t: State, m: Move)
    requires Safe(t) && Step(t, m).Some? && !Internal(m) && m != RunOut
    ensures Safe(Step(t, m).value)
  {
  }

  lemma StepKeepsSafe(t: State, m: Move)
    requires Safe(t) && Step(t, m).Some?
    ensures Safe(Step(t, m).value)
  {
    if Internal(m) {
      InternalStepKeepsSafe(t, m);
    } else if m == RunOut {
      RunOutKeepsSafe(t);
    } else {
      OutsideStepKeepsSafe(t, m);
    }
  }

  lemma {:induction false} ReachIsSafe(n: u8, moves: seq<Move>)
    requires Reach(n, moves).Some?
    ensures Safe(Reach(n, moves).value)
  {
    if moves == [] {
    } else {
      ReachIsSafe(n, moves[..|moves| - 1]);
      StepKeepsSafe(Reach(n, moves[..|moves| - 1]).value, moves[|moves| - 1]);
    }
  }

  /** Whether some producer is between its push and the end of its callback's test. */
  predicate CallbackPending(k: Threads) { k.producer.Notify? || k.producer.SetFlag? || k.producer.TestWaiting? }

  /** No lost wakeup: under every interleaving, with spurious wakeups and with reports that come
      before the callback is registered, a consumer that is blocked and not signalled while
      no callback is pending faces an empty inbox. */
  lemma NoLostWakeup(n: u8, moves: seq<Move>)
    requires Reach(n, moves).Some?
    ensures var t := Reach(n, moves).value;
      t.k.consumer.Blocked? && !t.k.signalled && !CallbackPending(t.k) ==> t.c.queue.inbox == []
  {
    ReachIsSafe(n, moves);
  }

  // ---------- the threads run the controller ----------

  /** The controller action that a step performs, if it performs one. */
  function ActionOf(t: State, m: Move): seq<Action> {
    match m
    case Produce => if t.k.producer.Enter? then [Kernel(t.report)] else []
    case Consume =>
      (match t.k.consumer
       case Poll => [Action.Poll]
       case Finishing => if t.k.work.Some? then [Complete(t.k.work.value)] else []
       case Delete => if t.c.queue.past.finishing == [] then [] else [Action.Delete(|t.c.queue.past.finishing| - 1)]
       case _ => [])
    case Reply(urb) => if t.k.consumer.Process? && t.k.work.Some? then [Respond(t.k.work.value, urb)] else []
    case _ => []
  }

  function Actions(n: u8, moves: seq<Move>): seq<Action> {
    if moves == [] then []
    else
      var before := moves[..|moves| - 1];
      Actions(n, before)
      + match Reach(n, before) case Some(t) => ActionOf(t, moves[|moves| - 1]) case None => []
  }

  lemma QueueStepActs(t: State)
    requires OnQueue(t.k.consumer) && QueueStep(t).Some?
    ensures var a := ActionOf(t, Consume); |a| == 1 && Act(t.c, a[0]) == Some(QueueStep(t).value.c)
  {
  }

  lemma StepActs(t: State, m: Move)
    requires Step(t, m).Some?
    ensures var a := ActionOf(t, m);
      if a == [] then Step(t, m).value.c == t.c else |a| == 1 && Act(t.c, a[0]) == Some(Step(t, m).value.c)
  {
    if m == Consume && OnQueue(t.k.consumer) {
      QueueStepActs(t);
    }
  }

  /** Every interleaving of the threads performs a run of the controller, so everything proved
      about runs holds here. */
  lemma {:induction false} InterleavingIsRun(n: u8, moves: seq<Move>)
    requires Reach(n, moves).Some?
    ensures After(n, Actions(n, moves)) == Some(Reach(n, moves).value.c)
  {
    if moves == [] {
    } else {
      var before := moves[..|moves| - 1];
      InterleavingIsRun(n, before);
      var t := Reach(n, before).value;
      var a := ActionOf(t, moves[|moves| - 1]);
      StepActs(t, moves[|moves| - 1]);
      if a != [] {
        assert Actions(n, moves)[..|Actions(n, moves)| - 1] == Actions(n, before);
      } else {
        assert Actions(n, moves) == Actions(n, before);
      }
    }
  }

  // ---------- no report is ignored ----------

  /** The reports that arrived and were not given up again, told from the moves alone. */
  function Arrived(moves: seq<Move>): seq<Event> {
    if moves == [] then []
    else
      var before := Arrived(moves[..|moves| - 1]);
      match moves[|moves| - 1]
      case Arrive(ev) => before + [ev]
      case GiveUp => if before == [] then [] else before[..|before| - 1]
      case _ => before
  }

  /** The same report, with or without the data fetched for it. */
  predicate SameReport(a: Event, b: Event) { b == a || b == AfterFailedPass(a) }

  predicate InProducersHands(k: Threads) { k.producer.Enter? || k.producer.Retry? }

  /** What arrived was handled, in order, except for the report that the producer is still at. */
  ghost predicate HandledSoFar(arrived: seq<Event>, handled: seq<Event>, t: State) {
    && |arrived| == |handled| + (if InProducersHands(t.k) then 1 else 0)
    && (forall i :: 0 <= i < |handled| ==> SameReport(arrived[i], handled[i]))
    && (InProducersHands(t.k) ==> SameReport(arrived[|handled|], t.report))
  }

  lemma ActionEvents(n: u8, moves: seq<Move>)
    requires moves != [] && Reach(n, moves).Some?
    ensures
      var t := Reach(n, moves[..|moves| - 1]).value;
      var m := moves[|moves| - 1];
      Events(Actions(n, moves)) == Events(Actions(n, moves[..|moves| - 1]))
        + if m.Produce? && t.k.producer.Enter? then [t.report] else []
  {
    var before := moves[..|moves| - 1];
    var t := Reach(n, before).value;
    var a := ActionOf(t, moves[|moves| - 1]);
    StepActs(t, moves[|moves| - 1]);
    if a == [] {
      assert Actions(n, before) + a == Actions(n, before);
    } else {
      EventsAppend(Actions(n, before), a[0]);
      assert a == [a[0]];
    }
  }

  lemma FlagStepKeepsProducer(k: Threads)
    ensures FlagStep(k).producer == k.producer
  {
  }

  /** What a step means for the report in the producer's hands. */
  lemma StepAndReport(t: State, m: Move)
    requires Step(t, m).Some?
    ensures
      var t' := Step(t, m).value;
      if m.Arrive? then t'.report == m.ev && InProducersHands(t'.k) && !InProducersHands(t.k)
      else if m.RunOut? then
        t'.report == AfterFailedPass(t.report) && InProducersHands(t'.k) && InProducersHands(t.k)
      else
        && t'.report == t.report
        && (InProducersHands(t'.k) <==>
              InProducersHands(t.k) && !m.GiveUp? && !(m.Produce? && t.k.producer.Enter?))
        && (m.GiveUp? ==> InProducersHands(t.k))
  {
    hide BgWork, Next, Finish, Release, Answer, InProcess, MayAnswer, Terminates, MayRunOut, FlagStep, AfterFailedPass;
    if m == Consume && !OnQueue(t.k.consumer) {
      FlagStepKeepsProducer(t.k);
    }
  }

  lemma FailedTwice(evs: seq<Event>)
    ensures forall i :: 0 <= i < |evs| ==> AfterFailedPass(AfterFailedPass(evs[i])) == AfterFailedPass(evs[i])
  {
  }

  lemma ReportsStep(t: State, m: Move, arrived: seq<Event>, handled: seq<Event>)
    requires Step(t, m).Some? && HandledSoFar(arrived, handled, t)
    ensures
      var now := match m
        case Arrive(ev) => arrived + [ev]
        case GiveUp => arrived[..|arrived| - 1]
        case _ => arrived;
      HandledSoFar(now, handled + (if m.Produce? && t.k.producer.Enter? then [t.report] else []), Step(t, m).value)
  {
    hide Step, AfterFailedPass;
    StepAndReport(t, m);
    FailedTwice(arrived);
  }

  lemma NothingHandled(n: u8)
    ensures HandledSoFar([], [], Start(n))
  {
  }

  lemma GiveUpHasReport(n: u8, moves: seq<Move>, handled: seq<Event>)
    requires Reach(n, moves).Some? && Step(Reach(n, moves).value, GiveUp).Some?
    requires HandledSoFar(Arrived(moves), handled, Reach(n, moves).value)
    ensures Arrived(moves) != []
  {
  }

  /** Under every interleaving the reports handled by the controller are, in order, those that arrived and
      were not given up, up to one that is still under way; a shortage of memory can cost their data. */
  lemma {:induction false} ReportsAreHandled(n: u8, moves: seq<Move>)
    requires Reach(n, moves).Some?
    ensures HandledSoFar(Arrived(moves), Events(Actions(n, moves)), Reach(n, moves).value)
  {
    hide Step, HandledSoFar, ActionOf;
    if moves == [] {
      NothingHandled(n);
    } else {
      var before := moves[..|moves| - 1];
      ReportsAreHandled(n, before);
      ActionEvents(n, moves);
      if moves[|moves| - 1].GiveUp? {
        GiveUpHasReport(n, before, Events(Actions(n, before)));
      }
      ReportsStep(Reach(n, before).value, moves[|moves| - 1], Arrived(before), Events(Actions(n, before)));
    }
  }

  /** What the consumer answers is what its work then carries. */
  lemma AnswerReachesWork(t: State, urb: Urb)
    requires Safe(t) && Step(t, Reply(urb)).Some?
    ensures Step(t, Reply(urb)).value.c.queue.processing == [t.c.queue.processing[0].(job := UrbJob(urb))]
  {
    assert Position(t.c.queue.processing, t.k.work.value) == 0;
  }

  // ---------- progress ----------

  predicate Quiet(t: State) {
    && t.k.producer.Outside? && t.k.consumer.Blocked? && !t.k.signalled
    && t.c.queue.inbox == [] && t.c.queue.processing == [] && t.c.queue.past.finishing == []
  }

  predicate Stuck(t: State) { Step(t, Produce).None? && Step(t, Consume).None? }

  /** There is no deadlock: the threads come to rest only when all work is done. */
  lemma StuckMeansQuiet(t: State)
    requires Safe(t) && Stuck(t)
    ensures Quiet(t)
  {
    if OnQueue(t.k.consumer) {
      QueueStepKeepsSafe(t);
    }
  }

  /** How many instructions the two threads execute in a schedule. */
  function Instructions(moves: seq<Move>): nat {
    if moves == [] then 0
    else Instructions(moves[..|moves| - 1]) + if Internal(moves[|moves| - 1]) then 1 else 0
  }

  /** How many instructions a move from outside can cause at most. */
  function Allows(m: Move): nat {
    match m
    case Arrive(_) => 6000
    case RunOut => 1000
    case Spurious => 26
    case _ => 0
  }

  function Allowance(moves: seq<Move>): nat {
    if moves == [] then 0 else Allowance(moves[..|moves| - 1]) + Allows(moves[|moves| - 1])
  }

  lemma StepIsPaidFor(t: State, m: Move)
    requires Safe(t) && Step(t, m).Some?
    ensures Remaining(Step(t, m).value) + (if Internal(m) then 1 else 0) <= Remaining(t) + Allows(m)
  {
    if Internal(m) {
      InternalStepKeepsSafe(t, m);
    }
  }

  /** However the threads are scheduled, the instructions they execute are bounded by what there is to
      do and by the reports, memory shortages and spurious wakeups that come in: nothing spins. */
  lemma {:induction false} InstructionsAreBounded(t: State, moves: seq<Move>)
    requires Safe(t) && RunOn(t, moves).Some?
    ensures
      var t' := RunOn(t, moves).value;
      Safe(t') && Instructions(moves) + Remaining(t') <= Remaining(t) + Allowance(moves)
  {
    if moves == [] {
    } else {
      var before := moves[..|moves| - 1];
      InstructionsAreBounded(t, before);
      StepKeepsSafe(RunOn(t, before).value, moves[|moves| - 1]);
      StepIsPaidFor(RunOn(t, before).value, moves[|moves| - 1]);
    }
  }

  lemma RunOnAppend(t: State, moves: seq<Move>, m: Move)
    ensures RunOn(t, moves + [m]) == match RunOn(t, moves) case None => None case Some(t') => Step(t', m)
  {
    assert (moves + [m])[..|moves|] == moves;
  }

  lemma {:induction false} ReachMore(t: State, moves: seq<Move>, rest: seq<Move>)
    requires RunOn(t, moves).Some?
    ensures RunOn(t, moves + rest) == RunOn(RunOn(t, moves).value, rest)
  {
    if rest == [] {
      assert moves + rest == moves;
    } else {
      var last := |rest| - 1;
      var before := rest[..last];
      var m := rest[last];
      ReachMore(t, moves, before);
      RunOnAppend(t, moves + before, m);
      RunOnAppend(RunOn(t, moves).value, before, m);
      assert before + [m] == rest;
      assert moves + rest == moves + before + [m];
    }
  }

  /** Draining completes under every schedule: once nothing new arrives, only boundedly many
      instructions are left, and wherever the threads cannot go on, the inbox is empty, every accepted
      handle was given back and every work was freed once. */
  lemma DrainCompletes(n: u8, moves: seq<Move>, rest: seq<Move>)
    requires Reach(n, moves).Some? && RunOn(Reach(n, moves).value, rest).Some?
    requires forall i :: 0 <= i < |rest| ==> !rest[i].Arrive?
    ensures Instructions(rest) <= Remaining(Reach(n, moves).value) + Allowance(rest)
    ensures
      var t := RunOn(Reach(n, moves).value, rest).value;
      Stuck(t) ==> Quiet(t) && AllGivenBack(t.c.queue) && FreedOnce(t.c.queue)
  {
    ReachIsSafe(n, moves);
    InstructionsAreBounded(Reach(n, moves).value, rest);
    ReachMore(Start(n), moves, rest);
    var t := RunOn(Reach(n, moves).value, rest).value;
    if Stuck(t) {
      StuckMeansQuiet(t);
      InterleavingIsRun(n, moves + rest);
      RunKeepsInv(n, Actions(n, moves + rest));
      Settled(t.c.queue);
    }
  }

  /** Where the threads come to rest under a fair kernel, every handle was given back exactly as often
      as it was accepted. */
  lemma RestGivesBackExactly(n: u8, moves: seq<Move>, h: Handle)
    requires Reach(n, moves).Some?
    ensures After(n, Actions(n, moves)).Some?
    ensures
      var past := Reach(n, moves).value.c.queue.past;
      Stuck(Reach(n, moves).value) && FairKernel(n, Actions(n, moves)) ==>
        Carried(past.enqueued, h) == Times(UrbHandles(past.givenBack), h)
  {
    InterleavingIsRun(n, moves);
    if Stuck(Reach(n, moves).value) && FairKernel(n, Actions(n, moves)) {
      ReachIsSafe(n, moves);
      StuckMeansQuiet(Reach(n, moves).value);
      GivebackConserved(n, Actions(n, moves));
      assert ConservedFor(Reach(n, moves).value.c.queue, h);
    }
  }
}
