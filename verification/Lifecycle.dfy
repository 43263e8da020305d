/** The background thread from creation to join, and destruction of the controller. */
module Lifecycle {
  import opened Types
  import opened PortTable
  import opened WorkQueue
  import opened QueueLaws
  import opened Controller
  import opened RunLaws

  /** Where a background thread is in the loop of bg_thread_start. */
  datatype ThreadPc = AtTest | InWork

  datatype Phase = Alive | Dying | Destroyed

  /** `bg` is the field bg_thread, `joining` tells that join_bg_thread holds thread_sync and waits. */
  datatype State = State(
    c: Controller, threads: map<nat, ThreadPc>, created: nat,
    bg: Option<nat>, shutdown: bool, joining: bool, phase: Phase)

  function Start(n: u8): State { State(Init(n), map[], 0, None, false, false, Alive) }

  datatype Move =
    | InitThread(succeeds: bool)      // init_bg_thread; a thread may fail to be created
    | JoinBegin                       // join_bg_thread up to pthread_join
    | JoinEnd                         // pthread_join returns
    | TestShutdown(t: nat)            // the loop condition of thread t
    | Work(t: nat, ev: Option<Event>) // one bg_work of thread t, None being a timeout
    | Consumer(a: Action)
    | BeginDestroy                    // the destructor is entered
    | FreeWorks                       // both lists are deleted

  function Step(s: State, m: Move): Option<State> {
    match m
    case InitThread(succeeds) =>
      if s.joining || s.phase != Alive then None
      else if s.bg.Some? || !succeeds then Some(s)  // std::exception
      else Some(s.(threads := s.threads[s.created := AtTest], bg := Some(s.created), created := s.created + 1))
    case JoinBegin =>
      if s.joining || s.phase == Destroyed then None
      else if s.bg.None? then Some(s)
      else Some(s.(shutdown := true, joining := true))
    case JoinEnd =>
      if s.joining && s.bg.Some? && s.bg.value !in s.threads
      then Some(s.(shutdown := false, bg := None, joining := false)) else None
    case TestShutdown(t) =>
      if t in s.threads && s.threads[t] == AtTest
      then Some(s.(threads := if s.shutdown then s.threads - {t} else s.threads[t := InWork])) else None
    case Work(t, ev) =>
      if t in s.threads && s.threads[t] == InWork && (ev.Some? ==> !Terminates(ev.value))
      then Some(s.(threads := s.threads[t := AtTest], c := if ev.Some? then BgWork(s.c, ev.value) else s.c)) else None
    case Consumer(a) =>
      if s.phase == Alive && !a.Kernel? && Act(s.c, a).Some? then Some(s.(c := Act(s.c, a).value)) else None
    case BeginDestroy =>
      // whoever destroys an object must be done using it
      if s.phase == Alive && s.c.queue.past.finishing == [] then Some(s.(phase := Dying)) else None
    case FreeWorks =>
      if s.phase == Dying && !s.joining && s.bg.None?
      then Some(s.(phase := Destroyed, c := s.c.(queue := Destroy(s.c.queue)))) else None
  }

  function Reach(n: u8, moves: seq<Move>): Option<State> {
    if moves == [] then Some(Start(n))
    else
      match Reach(n, moves[..|moves| - 1])
      case None => None
      case Some(s) => Step(s, moves[|moves| - 1])
  }

  /** The field names the only thread there is; the flag is up exactly while someone joins. */
  predicate ThreadsAgree(s: State) {
    && (forall t :: t in s.threads ==> s.bg == Some(t))
    && (s.bg.Some? ==> s.bg.value < s.created)
    && (s.shutdown <==> s.joining)
    && (s.joining ==> s.bg.Some?)
    && (s.phase == Destroyed ==> s.bg.None?)
  }

  /** While it lives the controller keeps its invariant; afterwards everything is freed, once. */
  ghost predicate WorksAgree(s: State) {
    if s.phase == Destroyed then s.c.queue.inbox == [] && s.c.queue.processing == [] && FreedOnce(s.c.queue)
    else Inv(s.c.queue) && (s.phase == Dying ==> s.c.queue.past.finishing == [])
  }

  lemma StepKeepsThreads(s: State, m: Move)
    requires ThreadsAgree(s) && Step(s, m).Some?
    ensures ThreadsAgree(Step(s, m).value)
  {
  }

  lemma StepKeepsWorks(s: State, m: Move)
    requires ThreadsAgree(s) && WorksAgree(s) && Step(s, m).Some?
    ensures WorksAgree(Step(s, m).value)
  {
    match m
    case Work(t, ev) =>
      if ev.Some? {
        assert s.phase != Destroyed;
        BgWorkKeeps(s.c, ev.value);
        BgWorkQueue(s.c, ev.value);
      }
    case Consumer(a) => ActKeeps(s.c, a);
    case FreeWorks => DestroyFreesOnce(s.c.queue);
    case _ =>
  }

  lemma {:induction false} ReachAgrees(n: u8, moves: seq<Move>)
    requires Reach(n, moves).Some?
    ensures ThreadsAgree(Reach(n, moves).value) && WorksAgree(Reach(n, moves).value)
  {
    if moves == [] {
      EmptyInv();
    } else {
      var before := moves[..|moves| - 1];
      ReachAgrees(n, before);
      StepKeepsThreads(Reach(n, before).value, moves[|moves| - 1]);
      StepKeepsWorks(Reach(n, before).value, moves[|moves| - 1]);
    }
  }

  /** At most one background thread exists, it is the one the field names, and a destroyed
      controller has none. */
  lemma AtMostOneThread(n: u8, moves: seq<Move>, t: nat, u: nat)
    requires Reach(n, moves).Some?
    ensures var s := Reach(n, moves).value;
      && (t in s.threads && u in s.threads ==> t == u && s.bg == Some(t))
      && (s.phase == Destroyed ==> s.threads == map[])
  {
    ReachAgrees(n, moves);
    var s := Reach(n, moves).value;
    if s.phase == Destroyed {
      assert forall t :: t !in s.threads;
    }
  }

  /** From construction to destruction every work enqueued is freed exactly once. */
  lemma DestructionFreesEveryWorkOnce(n: u8, moves: seq<Move>)
    requires Reach(n, moves).Some? && Reach(n, moves).value.phase == Destroyed
    ensures var q := Reach(n, moves).value.c.queue; q.inbox == [] && q.processing == [] && FreedOnce(q)
  {
    ReachAgrees(n, moves);
  }

  /** How many instructions the thread still executes before pthread_join can return. */
  function JoinLeft(s: State): nat {
    match s.bg
    case None => 0
    case Some(t) => if t !in s.threads then 0 else if s.threads[t] == AtTest then 1 else 2
  }

  /** The background thread can take its next step, at the latest when its fetch times out. */
  predicate ThreadCanStep(s: State) {
    s.bg.Some? && (Step(s, TestShutdown(s.bg.value)).Some? || Step(s, Work(s.bg.value, None)).Some?)
  }

  /** A join ends: as long as the thread is there it can go on, every step of it brings its exit
      nearer, nothing that others do moves the exit away, and once the thread is gone the join can
      return. */
  lemma JoinEnds(s: State, m: Move)
    requires ThreadsAgree(s) && s.joining && Step(s, m).Some? && m != JoinEnd
    ensures var s' := Step(s, m).value;
      && s'.joining && s'.bg == s.bg
      && JoinLeft(s') <= JoinLeft(s)
      && (m.TestShutdown? || m.Work? ==> JoinLeft(s') < JoinLeft(s))
      && (JoinLeft(s') == 0 <==> Step(s', JoinEnd).Some?)
    ensures JoinLeft(s) > 0 ==> ThreadCanStep(s)
  {
  }

  /** The actions that a life of the controller should consist of: the reports its threads came back with
      and what the consumer did. */
  function Run(moves: seq<Move>): seq<Action> {
    if moves == [] then []
    else
      Run(moves[..|moves| - 1])
      + match moves[|moves| - 1]
        case Work(_, ev) => if ev.Some? then [Kernel(ev.value)] else []
        case Consumer(a) => [a]
        case _ => []
  }

  lemma StepActs(s: State, m: Move)
    requires Step(s, m).Some? && s.phase != Destroyed && ThreadsAgree(s)
    ensures
      var s' := Step(s, m).value;
      match m
      case Work(_, ev) => if ev.Some? then Act(s.c, Kernel(ev.value)) == Some(s'.c) else s'.c == s.c
      case Consumer(a) => Act(s.c, a) == Some(s'.c)
      case FreeWorks => s'.c == s.c.(queue := Destroy(s.c.queue))
      case _ => s'.c == s.c
  {
  }

  /** While the controller lives it is where exactly these actions lead, no report ignored; so all theorems
      about runs hold of it. */
  lemma {:induction false} LifeIsRun(n: u8, moves: seq<Move>)
    requires Reach(n, moves).Some? && Reach(n, moves).value.phase != Destroyed
    ensures After(n, Run(moves)) == Some(Reach(n, moves).value.c)
  {
    if moves == [] {
    } else {
      var before := moves[..|moves| - 1];
      var m := moves[|moves| - 1];
      LifeIsRun(n, before);
      ReachAgrees(n, before);
      StepActs(Reach(n, before).value, m);
      if m.Work? && m.ev.Some? {
        PerformAppend(Init(n), Run(before), Kernel(m.ev.value));
      } else if m.Consumer? {
        PerformAppend(Init(n), Run(before), m.a);
      } else {
        assert Run(moves) == Run(before);
      }
    }
  }

  /** A thread can be created whenever there is none, it is a new one and about to test the shutdown flag;
      with one there already, or while someone joins, none is created. */
  lemma InitCreatesIffNone(s: State)
    requires ThreadsAgree(s) && s.phase == Alive
    ensures Step(s, InitThread(true)).Some? <==> !s.joining
    ensures
      !s.joining ==>
        var s' := Step(s, InitThread(true)).value;
        && (s.bg.Some? ==> s' == s)
        && (s.bg.None? ==>
              s'.bg == Some(s.created) && s'.threads == s.threads[s.created := AtTest] && s'.c == s.c && !s'.shutdown)
  {
  }

  /** join_bg_thread raises the flag and waits for the thread that the field names, if there is one; it
      returns at once if there is none, and two threads cannot join at a time. */
  lemma JoinBeginRaisesFlag(s: State)
    requires ThreadsAgree(s) && s.phase != Destroyed
    ensures Step(s, JoinBegin).Some? <==> !s.joining
    ensures
      !s.joining ==>
        var s' := Step(s, JoinBegin).value;
        && (s.bg.None? ==> s' == s)
        && (s.bg.Some? ==> s' == s.(shutdown := true, joining := true))
  {
  }

  /** Nothing but shutdown ends a thread: without it every thread stays, and goes from its test to bg_work and
      back. */
  lemma ThreadsStay(s: State, m: Move, t: nat)
    requires ThreadsAgree(s) && Step(s, m).Some? && t in s.threads && !s.shutdown
    ensures
      var s' := Step(s, m).value;
      && t in s'.threads
      && s'.threads[t] == if m == TestShutdown(t) then InWork else if m.Work? && m.t == t then AtTest else s.threads[t]
  {
  }

  /** Destruction never gets stuck: it may begin when no work is being deleted, its join can begin and end, and
      then the works can be freed. */
  lemma DestructionGoesOn(s: State)
    requires ThreadsAgree(s)
    ensures Step(s, BeginDestroy).Some? <==> s.phase == Alive && s.c.queue.past.finishing == []
    ensures Step(s, BeginDestroy).Some? ==> Step(s, BeginDestroy).value == s.(phase := Dying)
    ensures
      s.phase == Dying ==>
        || (s.bg.Some? && !s.joining && Step(s, JoinBegin).Some?)
        || (s.joining && (ThreadCanStep(s) || Step(s, JoinEnd).Some?))
        || (Step(s, FreeWorks).Some? && Step(s, FreeWorks).value.phase == Destroyed)
  {
  }

  /** A finished join leaves things as if there had been no thread, so that one can be created again. */
  lemma JoinAllowsInit(s: State)
    requires ThreadsAgree(s) && s.phase == Alive && Step(s, JoinEnd).Some?
    ensures
      var s' := Step(s, JoinEnd).value;
      s'.bg == None && !s'.shutdown && !s'.joining && s'.c == s.c && s'.threads == map[]
  {
    assert forall t :: t !in s.threads;
  }
}
