/** What every operation on the work queue keeps. */
module QueueLaws {
  import opened Types
  import opened WorkQueue

  // ---------- the invariant ----------

  /** How many works have left the inbox. */
  function Left(q: Queue): int { |q.past.enqueued| - |q.inbox| }

  /** The inbox is the unread end of the enqueue order, with the cancel flags of `voided`. */
  ghost predicate Window(q: Queue) {
    && 0 <= Left(q)
    && (forall k :: 0 <= k < |q.past.enqueued| ==> q.past.enqueued[k].serial == k && !q.past.enqueued[k].canceled)
    && (forall i :: 0 <= i < |q.inbox| ==>
          q.inbox[i] == q.past.enqueued[Left(q) + i].(canceled := Left(q) + i in q.past.voided))
    && (forall v :: v in q.past.voided ==> v < |q.past.enqueued| && q.past.enqueued[v].job.UrbJob?)
  }

  /** Works were handed out in enqueue order, without those cancelled in time. */
  ghost predicate InOrder(q: Queue)
    requires 0 <= Left(q)
  {
    q.past.delivered == Without(q.past.enqueued[..Left(q)], q.past.voided)
  }

  ghost function Listed(items: seq<Item>, s: nat): nat { multiset(Serials(items))[s] }

  /** In how many places the work with the serial is. */
  ghost function Places(q: Queue, s: nat): nat {
    Listed(q.inbox, s) + Listed(q.processing, s) + multiset(q.past.finishing)[s] + multiset(q.past.freed)[s]
  }

  /** Every work ever enqueued is in exactly one place, once. */
  ghost predicate OwnedOnce(q: Queue) {
    forall s: nat :: Places(q, s) == if s < |q.past.enqueued| then 1 else 0
  }

  ghost predicate BalancedFor(q: Queue, h: Handle) {
    Carried(q.past.enqueued, h) + Times(q.past.doubled, h)
    == Carried(q.inbox, h) + Carried(q.processing, h) + Times(UrbHandles(q.past.givenBack), h)
  }

  /** Accepted handles are held or given back; cancelling twice gives back twice. */
  ghost predicate Balanced(q: Queue) { forall h: Handle :: BalancedFor(q, h) }

  /** Works in processing were delivered and are not cancelled. */
  ghost predicate ProcessingDelivered(q: Queue) {
    forall i :: 0 <= i < |q.processing| ==>
      var w := q.processing[i];
      !w.canceled && (w.job.UrbJob? ==> Seen(q.past.delivered, w.port, w.job.urb.handle))
  }

  /** A cancel work comes after the URB it is about. */
  ghost predicate Causal(q: Queue) {
    && (forall i :: 0 <= i < |q.inbox| && q.inbox[i].job.CancelJob? ==>
          Seen(q.past.delivered, q.inbox[i].port, q.inbox[i].job.handle))
    && (forall k :: 0 <= k < |q.past.delivered| && q.past.delivered[k].job.CancelJob? ==>
          Seen(q.past.delivered[..k], q.past.delivered[k].port, q.past.delivered[k].job.handle))
  }

  ghost predicate Inv(q: Queue) {
    && Window(q) && InOrder(q) && OwnedOnce(q) && Balanced(q) && ProcessingDelivered(q) && Causal(q)
    && q.past.notified == |q.past.enqueued|
  }

  // ---------- sequences of items ----------

  lemma {:induction false} CarriedConcat(a: seq<Item>, b: seq<Item>, h: Handle)
    ensures Carried(a + b, h) == Carried(a, h) + Carried(b, h)
  {
    if a == [] {
      assert a + b == b;
    } else {
      assert (a + b)[1..] == a[1..] + b;
      CarriedConcat(a[1..], b, h);
    }
  }

  lemma {:induction false} WithoutConcat(a: seq<Item>, b: seq<Item>, drop: set<nat>)
    ensures Without(a + b, drop) == Without(a, drop) + Without(b, drop)
  {
    if a == [] {
      assert a + b == b;
    } else {
      assert (a + b)[1..] == a[1..] + b;
      WithoutConcat(a[1..], b, drop);
    }
  }

  /** Only the verdict on the items' own serials matters. */
  lemma {:induction false} WithoutAgrees(items: seq<Item>, a: set<nat>, b: set<nat>)
    requires forall i :: 0 <= i < |items| ==> (items[i].serial in a <==> items[i].serial in b)
    ensures Without(items, a) == Without(items, b)
  {
    if items == [] {
    } else {
      WithoutAgrees(items[1..], a, b);
    }
  }

  lemma CarriedSplit(items: seq<Item>, i: nat, h: Handle)
    requires i < |items|
    ensures Carried(items, h) == Carried(items[..i], h) + Weight(items[i], h) + Carried(items[i + 1..], h)
  {
    var rest := items[i..];
    assert items == items[..i] + rest;
    CarriedConcat(items[..i], rest, h);
    assert rest[1..] == items[i + 1..];
  }

  lemma CarriedUpdate(items: seq<Item>, i: nat, w: Item, h: Handle)
    requires i < |items|
    ensures Carried(items[i := w], h) + Weight(items[i], h) == Carried(items, h) + Weight(w, h)
  {
    CarriedSplit(items, i, h);
    CarriedSplit(items[i := w], i, h);
    assert items[i := w][..i] == items[..i];
    assert items[i := w][i + 1..] == items[i + 1..];
  }

  lemma CarriedRemoveAt(items: seq<Item>, i: nat, h: Handle)
    requires i < |items|
    ensures Carried(RemoveAt(items, i), h) + Weight(items[i], h) == Carried(items, h)
  {
    CarriedSplit(items, i, h);
    CarriedConcat(items[..i], items[i + 1..], h);
  }

  lemma CarriedAppend(items: seq<Item>, w: Item, h: Handle)
    ensures Carried(items + [w], h) == Carried(items, h) + Weight(w, h)
  {
    CarriedConcat(items, [w], h);
  }

  lemma RemoveAtMultiset<T>(s: seq<T>, i: nat)
    requires i < |s|
    ensures multiset(RemoveAt(s, i)) + multiset{s[i]} == multiset(s)
  {
    assert s == s[..i] + [s[i]] + s[i + 1..];
  }

  lemma SerialsConcat(a: seq<Item>, b: seq<Item>)
    ensures Serials(a + b) == Serials(a) + Serials(b)
  {
  }

  lemma SeenGrows(a: seq<Item>, b: seq<Item>, port: u8, h: Handle)
    requires Seen(a, port, h)
    ensures Seen(a + b, port, h)
  {
    var k :| 0 <= k < |a| && a[k].port == port && a[k].CarriesUrb(h);
    assert (a + b)[k] == a[k];
  }

  lemma GiveBackCounts(q: Queue, job: Job, h: Handle)
    ensures Times(UrbHandles(GiveBack(q, job).past.givenBack), h)
         == Times(UrbHandles(q.past.givenBack), h) + if job.UrbJob? && job.urb.handle == h then 1 else 0
  {
    if job.UrbJob? {
      assert UrbHandles(q.past.givenBack + [job.urb]) == UrbHandles(q.past.givenBack) + [job.urb.handle];
    }
  }

  // ---------- enqueue ----------

  lemma EnqueueKeepsOrder(q: Queue, port: u8, job: Job)
    requires Window(q) && InOrder(q)
    ensures var q' := Enqueue(q, port, job); Window(q') && InOrder(q') && Left(q') == Left(q)
  {
    var q' := Enqueue(q, port, job);
    assert q'.past.enqueued[..Left(q)] == q.past.enqueued[..Left(q)];
  }

  lemma EnqueueKeepsOwned(q: Queue, port: u8, job: Job)
    requires OwnedOnce(q)
    ensures OwnedOnce(Enqueue(q, port, job))
  {
    var q' := Enqueue(q, port, job);
    assert Serials(q'.inbox) == Serials(q.inbox) + [|q.past.enqueued|];
    forall s: nat ensures Places(q', s) == if s < |q'.past.enqueued| then 1 else 0 {
      assert Places(q', s) == Places(q, s) + if s == |q.past.enqueued| then 1 else 0;
    }
  }

  lemma EnqueueKeepsBalance(q: Queue, port: u8, job: Job)
    requires Balanced(q)
    ensures Balanced(Enqueue(q, port, job))
  {
    var q' := Enqueue(q, port, job);
    var w := Item(|q.past.enqueued|, port, job, false);
    forall h: Handle ensures BalancedFor(q', h) {
      assert BalancedFor(q, h);
      CarriedAppend(q.past.enqueued, w, h);
      CarriedAppend(q.inbox, w, h);
    }
  }

  lemma EnqueueKeeps(q: Queue, port: u8, job: Job)
    requires Inv(q)
    requires job.CancelJob? ==> Seen(q.past.delivered, port, job.handle)
    ensures Inv(Enqueue(q, port, job))
  {
    EnqueueKeepsOrder(q, port, job);
    EnqueueKeepsOwned(q, port, job);
    EnqueueKeepsBalance(q, port, job);
  }

  // ---------- next_work ----------

  /** Taking one work off the front, whatever becomes of it. */
  lemma PopKeepsOrder(q: Queue, q': Queue)
    requires Window(q) && InOrder(q) && q.inbox != []
    requires q'.inbox == q.inbox[1..] && q'.past.enqueued == q.past.enqueued && q'.past.voided == q.past.voided
    requires q'.past.delivered == q.past.delivered + if q.inbox[0].canceled then [] else [q.inbox[0]]
    ensures Window(q') && InOrder(q')
  {
    var n := Left(q);
    var e := q.past.enqueued;
    assert e[..n + 1] == e[..n] + [e[n]];
    WithoutConcat(e[..n], [e[n]], q.past.voided);
    assert Without([e[n]], q.past.voided) == if q.inbox[0].canceled then [] else [q.inbox[0]];
  }

  lemma PopSerials(items: seq<Item>)
    requires items != []
    ensures Serials(items) == [items[0].serial] + Serials(items[1..])
  {
  }

  lemma DiscardKeepsOwned(q: Queue)
    requires OwnedOnce(q) && q.inbox != []
    ensures OwnedOnce(Discard(q))
  {
    PopSerials(q.inbox);
    forall s: nat ensures Places(Discard(q), s) == Places(q, s) {
    }
  }

  lemma DiscardKeeps(q: Queue)
    requires Inv(q) && q.inbox != [] && q.inbox[0].canceled
    ensures Inv(Discard(q))
  {
    PopKeepsOrder(q, Discard(q));
    DiscardKeepsOwned(q);
    forall h: Handle ensures BalancedFor(Discard(q), h) {
      assert BalancedFor(q, h);
    }
  }

  lemma DeliverKeepsOwned(q: Queue)
    requires OwnedOnce(q) && q.inbox != []
    ensures OwnedOnce(Deliver(q))
  {
    PopSerials(q.inbox);
    SerialsConcat(q.processing, [q.inbox[0]]);
    forall s: nat ensures Places(Deliver(q), s) == Places(q, s) {
      assert Serials([q.inbox[0]]) == [q.inbox[0].serial];
    }
  }

  lemma DeliverKeepsBalance(q: Queue)
    requires Balanced(q) && q.inbox != []
    ensures Balanced(Deliver(q))
  {
    forall h: Handle ensures BalancedFor(Deliver(q), h) {
      assert BalancedFor(q, h);
      CarriedAppend(q.processing, q.inbox[0], h);
    }
  }

  lemma DeliverKeepsProcessing(q: Queue)
    requires ProcessingDelivered(q) && q.inbox != [] && !q.inbox[0].canceled
    ensures ProcessingDelivered(Deliver(q))
  {
    var q' := Deliver(q);
    forall i | 0 <= i < |q'.processing| && q'.processing[i].job.UrbJob?
      ensures Seen(q'.past.delivered, q'.processing[i].port, q'.processing[i].job.urb.handle)
    {
      if i < |q.processing| {
        SeenGrows(q.past.delivered, [q.inbox[0]], q.processing[i].port, q.processing[i].job.urb.handle);
      } else {
        assert q'.past.delivered[|q.past.delivered|] == q'.processing[i];
      }
    }
  }

  lemma DeliverKeepsCausal(q: Queue)
    requires Causal(q) && q.inbox != [] && !q.inbox[0].canceled
    ensures Causal(Deliver(q))
  {
    var q' := Deliver(q);
    forall i | 0 <= i < |q'.inbox| && q'.inbox[i].job.CancelJob?
      ensures Seen(q'.past.delivered, q'.inbox[i].port, q'.inbox[i].job.handle)
    {
      assert q'.inbox[i] == q.inbox[i + 1];
      SeenGrows(q.past.delivered, [q.inbox[0]], q'.inbox[i].port, q'.inbox[i].job.handle);
    }
    forall k | 0 <= k < |q'.past.delivered| && q'.past.delivered[k].job.CancelJob?
      ensures Seen(q'.past.delivered[..k], q'.past.delivered[k].port, q'.past.delivered[k].job.handle)
    {
      if k < |q.past.delivered| {
        assert q'.past.delivered[..k] == q.past.delivered[..k];
      } else {
        assert q'.past.delivered[..k] == q.past.delivered;
      }
    }
  }

  lemma DeliverKeeps(q: Queue)
    requires Inv(q) && q.inbox != [] && !q.inbox[0].canceled
    ensures Inv(Deliver(q))
  {
    PopKeepsOrder(q, Deliver(q));
    DeliverKeepsOwned(q);
    DeliverKeepsBalance(q);
    DeliverKeepsProcessing(q);
    DeliverKeepsCausal(q);
  }

  lemma {:induction false} NextKeeps(q: Queue)
    requires Inv(q)
    ensures Inv(Next(q).queue)
    decreases |q.inbox|
  {
    if q.inbox == [] {
    } else {
      if q.inbox[0].canceled {
        DiscardKeeps(q);
        NextKeeps(Discard(q));
      } else {
        DeliverKeeps(q);
      }
    }
  }

  /** How many works at the front are cancelled. */
  function Tombstones(items: seq<Item>): (k: nat)
    ensures k <= |items|
    ensures k < |items| ==> !items[k].canceled
    ensures forall i :: 0 <= i < k ==> items[i].canceled
  {
    if items == [] || !items[0].canceled then 0 else 1 + Tombstones(items[1..])
  }

  /** next_work frees the cancelled works at the front and hands out the work behind them; it
      hands out nothing only when every queued work was cancelled. */
  lemma {:induction false} NextTakesFirstLive(q: Queue)
    ensures var r := Next(q);
      var k := Tombstones(q.inbox);
      if k == |q.inbox| then
        r.work == None && r.queue == q.(inbox := [], past := q.past.(freed := q.past.freed + Serials(q.inbox)))
      else
        && r.work == Some(q.inbox[k])
        && r.queue == q.(inbox := q.inbox[k + 1..], processing := q.processing + [q.inbox[k]],
                         past := q.past.(freed := q.past.freed + Serials(q.inbox[..k]),
                                         delivered := q.past.delivered + [q.inbox[k]]))
    decreases |q.inbox|
  {
    if q.inbox == [] || !q.inbox[0].canceled {
      assert q.past.freed + Serials(q.inbox[..0]) == q.past.freed;
    } else {
      var d := Discard(q);
      NextTakesFirstLive(d);
      var k := Tombstones(d.inbox);
      assert q.past.freed + Serials(q.inbox[..k + 1]) == d.past.freed + Serials(d.inbox[..k]);
      if k == |d.inbox| {
        assert q.inbox[..k + 1] == q.inbox;
        assert d.inbox[..k] == d.inbox;
      } else {
        assert q.inbox[k + 2..] == d.inbox[k + 1..];
      }
    }
  }

  /** The answer "more" is exact, although it is computed from the length before the pop. */
  lemma {:induction false} MoreMeansNonEmpty(q: Queue)
    ensures Next(q).more <==> Next(q).queue.inbox != []
    decreases |q.inbox|
  {
    if q.inbox == [] || !q.inbox[0].canceled {
    } else {
      MoreMeansNonEmpty(Discard(q));
    }
  }

  // ---------- cancel ----------

  lemma CancelQueuedKeepsOrder(q: Queue, i: nat)
    requires Window(q) && InOrder(q) && i < |q.inbox| && q.inbox[i].job.UrbJob?
    ensures var q' := CancelQueued(q, i); Window(q') && InOrder(q')
  {
    var q' := CancelQueued(q, i);
    assert q.inbox[i].serial == Left(q) + i;
    WithoutAgrees(q.past.enqueued[..Left(q)], q.past.voided, q'.past.voided);
  }

  lemma CancelQueuedKeepsOwned(q: Queue, i: nat)
    requires OwnedOnce(q) && i < |q.inbox| && q.inbox[i].job.UrbJob?
    ensures OwnedOnce(CancelQueued(q, i))
  {
    assert Serials(CancelQueued(q, i).inbox) == Serials(q.inbox);
    forall s: nat ensures Places(CancelQueued(q, i), s) == Places(q, s) {
    }
  }

  lemma CancelQueuedKeepsBalance(q: Queue, i: nat)
    requires Balanced(q) && i < |q.inbox| && q.inbox[i].job.UrbJob?
    ensures Balanced(CancelQueued(q, i))
  {
    var q' := CancelQueued(q, i);
    var w := q.inbox[i];
    forall h: Handle ensures BalancedFor(q', h) {
      assert BalancedFor(q, h);
      CarriedUpdate(q.inbox, i, w.(canceled := true), h);
      GiveBackCounts(q, w.job, h);
      assert Times(q'.past.doubled, h) == Times(q.past.doubled, h) + if w.canceled && w.CarriesUrb(h) then 1 else 0;
    }
  }

  lemma CancelQueuedKeeps(q: Queue, i: nat)
    requires Inv(q) && i < |q.inbox| && q.inbox[i].job.UrbJob?
    ensures Inv(CancelQueued(q, i))
  {
    CancelQueuedKeepsOrder(q, i);
    CancelQueuedKeepsOwned(q, i);
    CancelQueuedKeepsBalance(q, i);
  }

  lemma CancelKeeps(q: Queue, h: Handle)
    requires Inv(q)
    ensures Inv(Cancel(q, h).0)
  {
    var i := FindUrb(q.inbox, h);
    if i < |q.inbox| {
      CancelQueuedKeeps(q, i);
    } else {
      var j := FindUrb(q.processing, h);
      if j < |q.processing| {
        EnqueueKeeps(q, q.processing[j].port, CancelJob(h));
      }
    }
  }

  /** Whether work i is the first one that carries an URB with the handle. */
  ghost predicate FirstCarrier(items: seq<Item>, h: Handle, i: nat) {
    && i < |items| && items[i].job.UrbJob? && items[i].job.urb.handle == h
    && forall k :: 0 <= k < i ==> !(items[k].job.UrbJob? && items[k].job.urb.handle == h)
  }

  ghost predicate NoCarrier(items: seq<Item>, h: Handle) {
    forall k :: 0 <= k < |items| ==> !(items[k].job.UrbJob? && items[k].job.urb.handle == h)
  }

  /** Cancelling a queued URB marks the first work that carries it and gives back that work's URB, as it
      is; nothing else on the lists or in the books of enqueueing changes. */
  lemma CancelOfQueued(q: Queue, h: Handle, i: nat)
    requires FirstCarrier(q.inbox, h, i)
    ensures !Cancel(q, h).1
    ensures
      var q' := Cancel(q, h).0;
      && q'.inbox == q.inbox[i := q.inbox[i].(canceled := true)] && q'.processing == q.processing
      && q'.past.givenBack == q.past.givenBack + [q.inbox[i].job.urb]
      && q'.past.enqueued == q.past.enqueued && q'.past.notified == q.past.notified
  {
  }

  /** Cancelling an URB in progress enqueues exactly one cancel work, for its port and handle, behind
      everything else, and gives nothing back. */
  lemma CancelOfInProgress(q: Queue, h: Handle, j: nat)
    requires NoCarrier(q.inbox, h) && FirstCarrier(q.processing, h, j)
    ensures Cancel(q, h).1
    ensures
      var q' := Cancel(q, h).0;
      var w := Item(|q.past.enqueued|, q.processing[j].port, CancelJob(h), false);
      && q'.inbox == q.inbox + [w] && q'.past.enqueued == q.past.enqueued + [w]
      && q'.processing == q.processing && q'.past.givenBack == q.past.givenBack
      && q'.past.notified == q.past.notified + 1
  {
  }

  /** Cancelling an URB that nobody holds does nothing. */
  lemma CancelOfUnknown(q: Queue, h: Handle)
    requires NoCarrier(q.inbox, h) && NoCarrier(q.processing, h)
    ensures Cancel(q, h) == (q, false)
  {
  }

  // ---------- finish_work ----------

  /** Finishing the i-th work takes it off the list, and gives back its URB as it is, if it has one. */
  lemma FinishOf(q: Queue, i: nat)
    requires i < |q.processing| && forall k :: 0 <= k < i ==> q.processing[k].serial != q.processing[i].serial
    ensures InProcess(q, q.processing[i].serial)
    ensures
      var w := q.processing[i];
      var q' := Finish(q, w.serial);
      && q'.processing == q.processing[..i] + q.processing[i + 1..] && q'.inbox == q.inbox
      && q'.past.givenBack == q.past.givenBack + (if w.job.UrbJob? then [w.job.urb] else [])
      && q'.past.finishing == q.past.finishing + [w.serial]
      && q'.past.enqueued == q.past.enqueued && q'.past.freed == q.past.freed
  {
    assert Position(q.processing, q.processing[i].serial) == i;
  }


  lemma FinishKeepsOwned(q: Queue, serial: nat)
    requires OwnedOnce(q) && InProcess(q, serial)
    ensures OwnedOnce(Finish(q, serial))
  {
    var q' := Finish(q, serial);
    var i := Position(q.processing, serial);
    assert Serials(q'.processing) == RemoveAt(Serials(q.processing), i);
    RemoveAtMultiset(Serials(q.processing), i);
    forall s: nat ensures Places(q', s) == Places(q, s) {
    }
  }

  lemma FinishKeepsBalance(q: Queue, serial: nat)
    requires Balanced(q) && ProcessingDelivered(q) && InProcess(q, serial)
    ensures Balanced(Finish(q, serial))
  {
    var q' := Finish(q, serial);
    var i := Position(q.processing, serial);
    forall h: Handle ensures BalancedFor(q', h) {
      assert BalancedFor(q, h);
      CarriedRemoveAt(q.processing, i, h);
      GiveBackCounts(q, q.processing[i].job, h);
    }
  }

  lemma FinishKeepsProcessing(q: Queue, serial: nat)
    requires ProcessingDelivered(q) && InProcess(q, serial)
    ensures ProcessingDelivered(Finish(q, serial))
  {
  }

  lemma FinishKeeps(q: Queue, serial: nat)
    requires Inv(q) && InProcess(q, serial)
    ensures Inv(Finish(q, serial))
  {
    FinishKeepsOwned(q, serial);
    FinishKeepsBalance(q, serial);
    FinishKeepsProcessing(q, serial);
  }

  lemma ReleaseKeepsOwned(q: Queue, i: nat)
    requires OwnedOnce(q) && i < |q.past.finishing|
    ensures OwnedOnce(Release(q, i))
  {
    RemoveAtMultiset(q.past.finishing, i);
    forall s: nat ensures Places(Release(q, i), s) == Places(q, s) {
    }
  }

  lemma ReleaseKeeps(q: Queue, i: nat)
    requires Inv(q) && i < |q.past.finishing|
    ensures Inv(Release(q, i))
  {
    ReleaseKeepsOwned(q, i);
    forall h: Handle ensures BalancedFor(Release(q, i), h) {
      assert BalancedFor(q, h);
    }
  }

  lemma AnswerKeepsOwned(q: Queue, serial: nat, urb: Urb)
    requires OwnedOnce(q) && MayAnswer(q, serial, urb)
    ensures OwnedOnce(Answer(q, serial, urb))
  {
    var q' := Answer(q, serial, urb);
    assert Serials(q'.processing) == Serials(q.processing);
    forall s: nat ensures Places(q', s) == Places(q, s) {
    }
  }

  lemma AnswerKeepsBalance(q: Queue, serial: nat, urb: Urb)
    requires Balanced(q) && MayAnswer(q, serial, urb)
    ensures Balanced(Answer(q, serial, urb))
  {
    var q' := Answer(q, serial, urb);
    var i := Position(q.processing, serial);
    forall h: Handle ensures BalancedFor(q', h) {
      assert BalancedFor(q, h);
      CarriedUpdate(q.processing, i, q'.processing[i], h);
    }
  }

  lemma AnswerKeeps(q: Queue, serial: nat, urb: Urb)
    requires Inv(q) && MayAnswer(q, serial, urb)
    ensures Inv(Answer(q, serial, urb))
  {
    AnswerKeepsOwned(q, serial, urb);
    AnswerKeepsBalance(q, serial, urb);
  }

  // ---------- what the invariant says to a user ----------

  lemma {:induction false} LiveWindow(inbox: seq<Item>, tail: seq<Item>, voided: set<nat>)
    requires |inbox| == |tail|
    requires
      forall i :: 0 <= i < |tail| ==>
        !tail[i].canceled && inbox[i] == tail[i].(canceled := tail[i].serial in voided)
    ensures Live(inbox) == Without(tail, voided)
  {
    if inbox == [] {
    } else {
      LiveWindow(inbox[1..], tail[1..], voided);
    }
  }

  /** The live works of the inbox are those enqueued since and not voided. */
  lemma LiveInbox(q: Queue)
    requires Window(q)
    ensures Live(q.inbox) == Without(q.past.enqueued[Left(q)..], q.past.voided)
  {
    var tail := q.past.enqueued[Left(q)..];
    forall i | 0 <= i < |tail|
      ensures !tail[i].canceled && q.inbox[i] == tail[i].(canceled := tail[i].serial in q.past.voided)
    {
      assert tail[i] == q.past.enqueued[Left(q) + i];
    }
    LiveWindow(q.inbox, tail, q.past.voided);
  }

  /** FIFO with tombstones: what was delivered, followed by what is still live in the inbox, is
      the enqueue order with exactly the works cancelled while queued taken out. */
  lemma FifoWithTombstones(q: Queue)
    requires Inv(q)
    ensures q.past.delivered + Live(q.inbox) == Without(q.past.enqueued, q.past.voided)
  {
    var n := Left(q);
    LiveInbox(q);
    WithoutConcat(q.past.enqueued[..n], q.past.enqueued[n..], q.past.voided);
    assert q.past.enqueued == q.past.enqueued[..n] + q.past.enqueued[n..];
  }

  lemma {:induction false} WithoutMembers(items: seq<Item>, drop: set<nat>, w: Item)
    ensures w in Without(items, drop) <==> w in items && w.serial !in drop
  {
    if items == [] {
    } else {
      WithoutMembers(items[1..], drop, w);
      assert items == [items[0]] + items[1..];
    }
  }

  /** A work cancelled in the inbox is an URB work and is never delivered; every other work that
      left the inbox was delivered. */
  lemma CancelledNeverDelivered(q: Queue, s: nat)
    requires Inv(q) && s < |q.past.enqueued|
    ensures q.past.enqueued[s] in q.past.delivered <==> s < Left(q) && s !in q.past.voided
    ensures s in q.past.voided ==> q.past.enqueued[s].job.UrbJob?
  {
    var e := q.past.enqueued;
    WithoutMembers(e[..Left(q)], q.past.voided, e[s]);
    if e[s] in e[..Left(q)] {
      var k :| 0 <= k < Left(q) && e[k] == e[s];
      assert k == s;
    }
    if s < Left(q) {
      assert e[..Left(q)][s] == e[s];
    }
  }

  lemma SerialMultiplicity(items: seq<Item>, i: nat)
    requires i < |items|
    ensures multiset(Serials(items))[items[i].serial] >= 1
  {
    assert Serials(items)[i] == items[i].serial;
    assert Serials(items)[i] in multiset(Serials(items));
  }

  lemma {:induction false} TwiceInSequence(s: seq<nat>, i: nat, j: nat)
    requires i < j < |s| && s[i] == s[j]
    ensures multiset(s)[s[i]] >= 2
  {
    assert s == s[..j] + [s[j]] + s[j + 1..];
    assert s[..j][i] == s[i];
    assert s[i] in multiset(s[..j]);
  }

  /** No work is listed twice, none is on both lists, and no deleted work is on either. */
  lemma ListsAreDisjoint(q: Queue)
    requires Inv(q)
    ensures forall i, j :: 0 <= i < j < |q.inbox| ==> q.inbox[i].serial != q.inbox[j].serial
    ensures forall i, j :: 0 <= i < j < |q.processing| ==> q.processing[i].serial != q.processing[j].serial
    ensures forall i, j :: 0 <= i < |q.inbox| && 0 <= j < |q.processing| ==> q.inbox[i].serial != q.processing[j].serial
    ensures forall i :: 0 <= i < |q.inbox| ==> q.inbox[i].serial !in q.past.freed
    ensures forall i :: 0 <= i < |q.processing| ==> q.processing[i].serial !in q.past.freed
  {
    forall i, j | 0 <= i < j < |q.processing| ensures q.processing[i].serial != q.processing[j].serial {
      assert Places(q, q.processing[i].serial) <= 1;
      if q.processing[i].serial == q.processing[j].serial {
        TwiceInSequence(Serials(q.processing), i, j);
      }
    }
    forall i, j | 0 <= i < |q.inbox| && 0 <= j < |q.processing| ensures q.inbox[i].serial != q.processing[j].serial {
      SerialMultiplicity(q.inbox, i);
      SerialMultiplicity(q.processing, j);
      assert Places(q, q.inbox[i].serial) <= 1;
    }
    forall i | 0 <= i < |q.inbox| ensures q.inbox[i].serial !in q.past.freed {
      SerialMultiplicity(q.inbox, i);
      assert Places(q, q.inbox[i].serial) <= 1;
    }
    forall i | 0 <= i < |q.processing| ensures q.processing[i].serial !in q.past.freed {
      SerialMultiplicity(q.processing, i);
      assert Places(q, q.processing[i].serial) <= 1;
    }
  }

  /** Every work ever enqueued was freed, and only once. */
  ghost predicate FreedOnce(q: Queue) {
    forall s: nat :: multiset(q.past.freed)[s] == if s < |q.past.enqueued| then 1 else 0
  }

  /** Destruction frees every work that was ever enqueued exactly once, provided no finish_work
      is still about to delete its work. */
  lemma DestroyFreesOnce(q: Queue)
    requires Inv(q) && q.past.finishing == []
    ensures Destroy(q).inbox == [] && Destroy(q).processing == [] && FreedOnce(Destroy(q))
  {
    var d := Destroy(q);
    forall s: nat ensures multiset(d.past.freed)[s] == if s < |d.past.enqueued| then 1 else 0 {
      assert multiset(d.past.freed)[s] == Places(q, s);
    }
  }

  ghost predicate ConservedFor(q: Queue, h: Handle) {
    Carried(q.past.enqueued, h)
    == Carried(q.inbox, h) + Carried(q.processing, h) + Times(UrbHandles(q.past.givenBack), h)
  }

  /** Every accepted handle is held or was given back, exactly as often as it was accepted. */
  ghost predicate Conserved(q: Queue) { forall h: Handle :: ConservedFor(q, h) }

  /** Conservation holds exactly as long as no cancel ever hit an already cancelled work. */
  lemma ConservedIffNeverDoubled(q: Queue)
    requires Inv(q)
    ensures Conserved(q) <==> q.past.doubled == []
  {
    if q.past.doubled == [] {
      forall h: Handle ensures ConservedFor(q, h) {
        assert BalancedFor(q, h);
      }
    } else {
      var h := q.past.doubled[0];
      assert h in multiset(q.past.doubled);
      assert BalancedFor(q, h) && !ConservedFor(q, h);
    }
  }

  /** What a cancel adds to the handles given back too often. */
  lemma CancelDoublesIffStale(q: Queue, h: Handle)
    ensures Cancel(q, h).0.past.doubled == q.past.doubled + if CancelIsFresh(q, h) then [] else [h]
  {
  }

  /** A cancel keeps the balance between handles accepted and handles held or given back exactly when
      the first queued work with the handle was not already cancelled. */
  lemma CancelConservesIffFresh(q: Queue, h: Handle)
    requires Inv(q) && Conserved(q)
    ensures Conserved(Cancel(q, h).0) <==> CancelIsFresh(q, h)
  {
    CancelKeeps(q, h);
    ConservedIffNeverDoubled(q);
    ConservedIffNeverDoubled(Cancel(q, h).0);
    CancelDoublesIffStale(q, h);
  }

  /** Every acceptance was answered, and a second cancel of the same work was answered too. */
  ghost predicate AllGivenBack(q: Queue) {
    forall h: Handle ::
      Carried(q.past.enqueued, h) + Times(q.past.doubled, h) == Times(UrbHandles(q.past.givenBack), h)
  }

  /** When nothing is held any more, everything accepted was given back and everything freed. */
  lemma Settled(q: Queue)
    requires Inv(q) && q.inbox == [] && q.processing == [] && q.past.finishing == []
    ensures AllGivenBack(q) && FreedOnce(q)
  {
    forall h: Handle
      ensures Carried(q.past.enqueued, h) + Times(q.past.doubled, h) == Times(UrbHandles(q.past.givenBack), h)
    {
      assert BalancedFor(q, h);
    }
    forall s: nat ensures multiset(q.past.freed)[s] == if s < |q.past.enqueued| then 1 else 0 {
      assert multiset(q.past.freed)[s] == Places(q, s);
    }
  }
}
