/** What holds in every run of the blocking primitives, whatever the interleaving. */
module SyncTheorems {
  import opened Common
  import opened Scheduler
  import opened WaitQueues
  import opened Sync
  import opened SyncInvariant
  import opened SyncFrames
  import opened SyncSteps
  import opened SyncLifetime

  lemma StepKeeps(s: State, step: Step)
    requires Inv(s) && Enabled(s, step)
    ensures Inv(Apply(s, step))
  {
    hide Inv;
    var t := s.sched.active;
    match step
    case Down(m) => DownKeeps(s, t, m);
    case Up(m) => UpKeeps(s, t, m);
    case WaitOn(c, m) => WaitKeeps(s, t, c, m);
    case NotifyOne(c) =>
      if s.conds[c].queue != [] {
        GatherKeeps(s, t, c, 1);
      }
    case NotifyAll(c) =>
      if s.conds[c].queue != [] {
        GatherKeeps(s, t, c, |s.conds[c].queue|);
      }
    case Wake =>
      if s.pc[t].SetUp? {
        RaiseKeeps(s, t);
      } else if s.pc[t].SetRunnable? {
        MakeRunnableKeeps(s, t);
      } else {
        MaskKeeps(s, t);
      }
    case GoToSleep => GoToSleepKeeps(s, t);
    case Resume => ResumeKeeps(s, t);
    case Check => CheckKeeps(s, t);
    case LockAgain => LockAgainKeeps(s, t);
    case Preempt => SwitchKeeps(s);
    case Tick => SwitchKeeps(s);
    case Spawn(tid) => SpawnKeeps(s, t, tid);
    case Exit => ExitKeeps(s, t);
  }

  lemma InitialTables(s: State)
    requires Initial(s)
    ensures Tables(s)
  {
  }

  lemma InitialQueues(s: State)
    requires Initial(s)
    ensures Queues(s)
  {
  }

  lemma InitialInv(s: State)
    requires Initial(s)
    ensures Inv(s)
  {
    hide Tables, Queues;
    InitialTables(s);
    InitialQueues(s);
    assert RunnableTasks(s.sched.tasks) == {1};
  }

  lemma {:induction false} Reachable(states: seq<State>, steps: seq<Step>, i: nat)
    requires IsRun(states, steps) && i < |states|
    ensures Inv(states[i])
  {
    hide Inv, Initial, Enabled, Apply;
    if i == 0 {
      InitialInv(states[0]);
    } else {
      Reachable(states, steps, i - 1);
      assert states[i] == Apply(states[i - 1], steps[i - 1]);
      StepKeeps(states[i - 1], steps[i - 1]);
    }
  }

  // ----- no lost wake-up

  datatype QueueId = SemQueue(m: SemId) | CondQueue(c: CondId)

  /** Position `i` of a waiter queue holds task `t`. */
  predicate Sits(s: State, t: Tid, q: QueueId, i: nat) {
    match q
    case SemQueue(m) => m in s.sems && i < |s.sems[m].core.queue| && s.sems[m].core.queue[i] == t
    case CondQueue(c) => c in s.conds && i < |s.conds[c].queue| && s.conds[c].queue[i] == t
  }

  function QueueOf(w: Wait): QueueId {
    match w
    case OnSem(m, _) => SemQueue(m)
    case OnCond(c, _, _) => CondQueue(c)
  }

  lemma SitterWaits(s: State, t: Tid, q: QueueId, i: nat)
    requires Queues(s) && Sits(s, t, q, i)
    ensures t in s.pc && Waiting(s.pc[t]) && !s.pc[t].up && QueueOf(s.pc[t].w) == q && (q.CondQueue? ==> t !in s.taken)
  {
    hide Semaphores;
    match q
    case SemQueue(m) => assert t in s.sems[m].core.queue; assert WaitsOnSem(s.pc, t, m);
    case CondQueue(c) => assert t in s.conds[c].queue; assert WaitsOnCond(s.pc, t, c);
  }

  lemma SitsOnce(s: State, t: Tid, q: QueueId, i: nat, q': QueueId, i': nat)
    requires Queues(s) && Sits(s, t, q, i) && Sits(s, t, q', i')
    ensures q == q' && i == i'
  {
    SitterWaits(s, t, q, i);
    SitterWaits(s, t, q', i');
    match q
    case SemQueue(m) => assert Distinct(s.sems[m].core.queue);
    case CondQueue(c) => assert Distinct(s.conds[c].queue);
  }

  /** A waiting task that is not up and not held sits in its queue. */
  lemma QueuedSits(s: State, t: Tid)
    requires t in s.pc && Queued(s.pc[t], t, s.sems, s.conds)
    ensures exists q, i :: Sits(s, t, q, i)
  {
    var w := s.pc[t].w;
    match w
    case OnSem(m, _) =>
      var i :| 0 <= i < |s.sems[m].core.queue| && s.sems[m].core.queue[i] == t;
      assert Sits(s, t, SemQueue(m), i);
    case OnCond(c, _, _) =>
      var i :| 0 <= i < |s.conds[c].queue| && s.conds[c].queue[i] == t;
      assert Sits(s, t, CondQueue(c), i);
  }

  lemma SitsOrHeld(s: State, t: Tid)
    requires Inv(s) && t in s.sched.tasks && s.sched.tasks[t] == Sleeping
    ensures (exists q, i :: Sits(s, t, q, i)) <==> !exists k :: Holds(s.pc, k, t)
  {
    hide Tables, Queues, ReleasedOnce, Timer;
    KeysAgree(s, t);
    SleeperFacts(s, t);
    if t in s.taken {
      assert Holds(s.pc, s.taken[t], t) && HeldOk(s.pc[t], s.sched.tasks[t], s.pc[s.taken[t]], t);
      forall q, i | Sits(s, t, q, i) ensures false {
        SitterWaits(s, t, q, i);
      }
    } else {
      QueuedSits(s, t);
    }
  }

  lemma KeysAgree(s: State, t: Tid)
    requires Tables(s)
    ensures t in s.pc <==> t in s.sched.tasks
  {
    hide Refs, Places, Kept, Joins, Conditions;
  }

  /** For every interleaving: a Sleeping task is in exactly one place of exactly one waiter
      queue, or else in the hands of exactly one notifier that has yet to wake it. */
  lemma NoLostWakeUp(states: seq<State>, steps: seq<Step>, n: nat, t: Tid)
    requires IsRun(states, steps) && n < |states|
    requires t in states[n].sched.tasks && states[n].sched.tasks[t] == Sleeping
    ensures var s := states[n];
      && ((exists q, i :: Sits(s, t, q, i)) <==> !exists k :: Holds(s.pc, k, t))
      && (forall q, i, q', i' :: Sits(s, t, q, i) && Sits(s, t, q', i') ==> q == q' && i == i')
      && (forall k, k' :: Holds(s.pc, k, t) && Holds(s.pc, k', t) ==> k == k')
  {
    hide IsRun, Tables, Queues, ReleasedOnce, Timer;
    var s := states[n];
    Reachable(states, steps, n);
    SitsOrHeld(s, t);
    forall q, i, q', i' | Sits(s, t, q, i) && Sits(s, t, q', i') ensures q == q' && i == i' {
      SitsOnce(s, t, q, i, q', i');
    }
  }

  /** When nobody is Runnable, every task that is not a zombie waits in a queue: nothing is
      left half way through a notification. */
  lemma IdleMeansQueued(states: seq<State>, steps: seq<Step>, n: nat, t: Tid)
    requires IsRun(states, steps) && n < |states|
    requires RunnableTasks(states[n].sched.tasks) == {}
    requires t in states[n].sched.tasks && states[n].sched.tasks[t] != Zombie
    ensures exists q, i :: Sits(states[n], t, q, i)
  {
    hide IsRun, Tables, Queues, Notifiers, ReleasedOnce, Timer;
    var s := states[n];
    Reachable(states, steps, n);
    assert t !in RunnableTasks(s.sched.tasks);
    SitsOrHeld(s, t);
    forall k ensures !Holds(s.pc, k, t) {
      if Holds(s.pc, k, t) {
        NotifierRuns(s, k);
      }
    }
  }

  lemma NotifierRuns(s: State, k: Tid)
    requires Tables(s) && k in s.pc && IsNotifier(s.pc[k])
    ensures k in RunnableTasks(s.sched.tasks)
  {
    hide Tables;
    TaskFacts(s, k);
  }

  lemma UpNotQueued(s: State, t: Tid)
    requires Queues(s) && t in s.pc && Waiting(s.pc[t]) && s.pc[t].up
    ensures !Queued(s.pc[t], t, s.sems, s.conds)
  {
    hide Semaphores;
  }

  /** A waiter that is up belongs to a Runnable task, unless its notifier is between setting
      `up` and setting the task Runnable. */
  lemma UpMeansRunnable(states: seq<State>, steps: seq<Step>, n: nat, t: Tid)
    requires IsRun(states, steps) && n < |states|
    requires t in states[n].pc && Waiting(states[n].pc[t]) && states[n].pc[t].up
    ensures var s := states[n];
      && t in s.sched.tasks
      && (s.sched.tasks[t] == Runnable
          || exists k :: k in s.pc && s.pc[k].SetRunnable? && s.pc[k].ps != [] && s.pc[k].ps[0] == t)
  {
    hide IsRun, Tables, Queues, ReleasedOnce, Timer;
    var s := states[n];
    Reachable(states, steps, n);
    TaskFacts(s, t);
    if s.sched.tasks[t] != Runnable {
      SleeperFacts(s, t);
      UpNotQueued(s, t);
      assert Holds(s.pc, s.taken[t], t) && HeldOk(s.pc[t], s.sched.tasks[t], s.pc[s.taken[t]], t);
    }
  }

  /** Both do-while loops test a flag that is set in every reachable state, so neither body
      runs twice; a condition wait has unlocked its mutex exactly once. */
  lemma LoopBodyRunsOnce(states: seq<State>, steps: seq<Step>, n: nat, t: Tid)
    requires IsRun(states, steps) && n < |states| && t in states[n].pc && Waiting(states[n].pc[t])
    ensures states[n].pc[t].Returned? ==> states[n].pc[t].up
    ensures states[n].pc[t].w.OnCond? ==> states[n].pc[t].w.releases == 1
  {
    hide IsRun, Tables, Queues, Notifiers, ReleasedOnce, Timer;
    Reachable(states, steps, n);
    TaskFacts(states[n], t);
    LentFacts(states[n].pc, states[n].sems, t);
  }

  /** In every reachable state an active task that is inside a wait or a notification can take
      the step its place calls for. */
  lemma NeverStuck(states: seq<State>, steps: seq<Step>, n: nat)
    requires IsRun(states, steps) && n < |states| && states[n].sched.active != 0
    ensures var s := states[n];
      && s.sched.active in s.pc
      && var p := s.pc[s.sched.active];
         !p.Running? ==>
           Enabled(s, if p.Window? then GoToSleep else if p.Saved? then Resume else if p.Returned? then Check
                      else if p.Relock? then LockAgain else Wake)
  {
    hide IsRun, Queues, Notifiers, ReleasedOnce, Timer, Refs, Places, Kept, Joins, Conditions;
    Reachable(states, steps, n);
    TaskFacts(states[n], states[n].sched.active);
  }

  // ----- a woken task stays awake

  predicate InWait(s: State, t: Tid) {
    t in s.pc && Waiting(s.pc[t])
  }

  predicate WokenUp(s: State, t: Tid) {
    InWait(s, t) && s.pc[t].up && Awake(s, t)
  }

  /** A task inside a wait whose waiter is up, and that is Runnable, remains both until it
      leaves that wait. */
  lemma {:induction false} StaysAwake(states: seq<State>, steps: seq<Step>, i: nat, j: nat, t: Tid)
    requires IsRun(states, steps) && i <= j < |states|
    requires forall k :: i <= k <= j ==> InWait(states[k], t)
    requires WokenUp(states[i], t)
    ensures WokenUp(states[j], t)
    decreases j
  {
    hide Initial, Enabled, Apply, Inv, Waiting;
    if i < j {
      StaysAwake(states, steps, i, j - 1, t);
      Reachable(states, steps, j - 1);
      assert states[j] == Apply(states[j - 1], steps[j - 1]) && InWait(states[j], t);
      AwakeStep(states[j - 1], t, steps[j - 1]);
      UpStep(states[j - 1], t, steps[j - 1]);
    }
  }

  /** The only step that puts a task to sleep is one of its own, outside a wait that is up. */
  lemma AwakeStep(s: State, t: Tid, step: Step)
    requires Inv(s) && Enabled(s, step) && WokenUp(s, t)
    ensures Awake(Apply(s, step), t)
  {
    hide Inv, Enabled, Apply;
    if s.sched.active == t {
      AwakeOwnStep(s, t, step);
    } else {
      AwakeOtherStep(s, t, step);
    }
  }

  /** The flag of a waiter is not cleared while the task is in that wait. */
  lemma UpStep(s: State, t: Tid, step: Step)
    requires Inv(s) && Enabled(s, step) && WokenUp(s, t)
    requires InWait(Apply(s, step), t)
    ensures Apply(s, step).pc[t].up
  {
    hide Inv;
    if s.sched.active == t {
      UpOwnStep(s, t, step);
    } else {
      hide Enabled, Apply;
      OthersStay(s, step, t);
    }
  }

  lemma UpOwnStep(s: State, t: Tid, step: Step)
    requires Enabled(s, step) && s.sched.active == t && t in s.pc && Waiting(s.pc[t]) && s.pc[t].up
    requires t in Apply(s, step).pc && Waiting(Apply(s, step).pc[t])
    ensures Apply(s, step).pc[t].up
  {
    hide CyclicNext, Release, Block, Enter, Take, Gather, DoExit, DoWake;
  }

  lemma AwakeOwnStep(s: State, t: Tid, step: Step)
    requires Inv(s) && Enabled(s, step) && s.sched.active == t && t in s.pc && Waiting(s.pc[t]) && s.pc[t].up
    requires Awake(s, t)
    ensures Awake(Apply(s, step), t)
  {
    hide Inv, CyclicNext;
  }

  predicate Awake(s: State, t: Tid) {
    t in s.sched.tasks && s.sched.tasks[t] == Runnable
  }

  lemma ReleaseAwake(s: State, u: Tid, m: SemId, t: Tid)
    requires m in s.sems && Awake(s, t)
    ensures Awake(Release(s, u, m), t)
  {
  }

  lemma ExitAwake(s: State, u: Tid, t: Tid)
    requires StateMutex(u) in s.sems && StateCond(u) in s.conds && Awake(s, t) && t != u
    ensures Awake(DoExit(s, u), t)
  {
    hide Release, CyclicNext;
    var s1 := SetTask(Take(s.(sched := s.sched.(active := 0)), u, StateMutex(u)), u, Zombie);
    var s2 := NotifyNow(s1, StateCond(u));
    ReleaseAwake(s2, u, StateMutex(u), t);
  }

  lemma AwakeOtherStep(s: State, t: Tid, step: Step)
    requires Enabled(s, step) && s.sched.active != t && Awake(s, t)
    ensures Awake(Apply(s, step), t)
  {
    hide Release, CyclicNext, DoExit, DoCheck, DoWake, Gather, Block, Enter, TimerMasked;
    var u := s.sched.active;
    match step
    case Down(m) => BlockAwake(s, u, m, None, t);
    case Up(m) => ReleaseAwake(s, u, m, t);
    case WaitOn(c, m) =>
      EnterAwake(s, u, c, m, t);
      ReleaseAwake(Enter(s, u, c, m), u, m, t);
    case NotifyOne(c) => GatherStays(s, u, c);
    case NotifyAll(c) => GatherStays(s, u, c);
    case Wake => WakeAwake(s, u, t);
    case Check => CheckAwake(s, u, t);
    case LockAgain => BlockAwake(s, u, s.pc[u].m, Some(s.pc[u].c), t);
    case Exit => ExitAwake(s, u, t);
    case _ =>
  }

  lemma BlockAwake(s: State, u: Tid, m: SemId, back: Option<CondId>, t: Tid)
    requires m in s.sems && Awake(s, t) && t != u
    ensures Awake(Block(s, u, m, back), t)
  {
    hide TimerMasked;
  }

  lemma EnterAwake(s: State, u: Tid, c: CondId, m: SemId, t: Tid)
    requires c in s.conds && Awake(s, t) && t != u
    ensures Awake(Enter(s, u, c, m), t) && Enter(s, u, c, m).sems == s.sems
  {
    hide TimerMasked;
  }

  lemma WakeAwake(s: State, u: Tid, t: Tid)
    requires u in s.pc && (s.pc[u].Mask? || ((s.pc[u].SetUp? || s.pc[u].SetRunnable?) && s.pc[u].ps != []))
    requires Awake(s, t)
    ensures Awake(DoWake(s, u), t)
  {
    hide TimerMasked;
  }

  lemma CheckAwake(s: State, u: Tid, t: Tid)
    requires u in s.pc && s.pc[u].Returned? && WaitRefs(s, s.pc[u].w) && Awake(s, t) && t != u
    ensures Awake(DoCheck(s, u), t)
  {
    hide Release, TimerMasked;
    if !s.pc[u].up && s.pc[u].w.OnCond? {
      ReleaseAwake(Prepare(s, u), u, s.pc[u].w.m, t);
    }
  }

  lemma GatherStays(s: State, t: Tid, c: CondId)
    requires c in s.conds
    ensures forall n :: 0 <= n <= |s.conds[c].queue| ==> Gather(s, t, c, n).sched == s.sched
  {
  }

  // ----- semaphores and mutexes

  /** Conservation, modulo the width of the counter, and hand-off in arrival order: whoever
      has been granted a unit arrived before everybody who has not. */
  lemma SemaphoreLaw(states: seq<State>, steps: seq<Step>, n: nat, m: SemId)
    requires IsRun(states, steps) && n < |states| && m in states[n].sems
    ensures var x := states[n].sems[m];
      && x.arrivals == x.granted + x.core.queue
      && (x.core.count > 0 ==> x.core.queue == [])
      && |x.granted| <= x.init + x.ups
      && (x.init + x.ups == |x.granted| + x.core.count <==> x.init + x.ups - |x.granted| < COUNT_LIMIT)
  {
    hide IsRun, Tables, Queues, Notifiers, ReleasedOnce, Timer, Exclusive;
    Reachable(states, steps, n);
    SemFacts(states[n], m);
  }

  /** The counter does wrap: one `up` on a full counter loses every unit. */
  lemma FullCounterWraps(c: SemCore)
    requires c.queue == []
    ensures GiveOrPass(c).count == c.count + 1 <==> c.count + 1 < COUNT_LIMIT
    ensures GiveOrPass(SemCore(COUNT_LIMIT - 1, [])).count == 0
  {
  }

  /** A mutex that is only released by its holder has at most one holder, and then its
      count is 0 and nobody else has been handed its unit. */
  lemma MutualExclusion(states: seq<State>, steps: seq<Step>, n: nat, m: SemId, t: Tid, u: Tid)
    requires IsRun(states, steps) && n < |states| && m in states[n].sems && states[n].sems[m].mutex
    requires t in states[n].sems[m].owners
    requires u in states[n].sems[m].owners || InFlight(states[n].pc, u, m)
    ensures t == u && states[n].sems[m].core.count == 0
    ensures |states[n].sems[m].granted| == 1 + states[n].sems[m].ups
  {
    hide IsRun, Tables, Queues, Notifiers, ReleasedOnce, Timer, Counted;
    Reachable(states, steps, n);
    SemFacts(states[n], m);
  }

  // ----- condition variables

  /** A task comes back from `CondVar::wait` as the only owner of the mutex it gave up. */
  lemma WaitReturnsHolding(states: seq<State>, steps: seq<Step>, n: nat, t: Tid, m: SemId)
    requires IsRun(states, steps) && n < |steps| && t in states[n].pc && Lent(states[n].pc[t]) == Some(m)
    requires t in states[n + 1].pc && states[n + 1].pc[t].Running?
    ensures m in states[n + 1].sems && states[n + 1].sems[m].owners == {t}
  {
    hide Inv, Enabled, Apply;
    var s, s' := states[n], states[n + 1];
    Reachable(states, steps, n);
    Reachable(states, steps, n + 1);
    BackAsOwner(s, steps[n], t, m);
    OneOwner(s', m, t);
  }

  lemma OneOwner(s: State, m: SemId, t: Tid)
    requires Inv(s) && m in s.sems && s.sems[m].mutex && t in s.sems[m].owners
    ensures s.sems[m].owners == {t}
  {
    hide Tables, Queues, Notifiers, ReleasedOnce, Timer, Counted;
    SemFacts(s, m);
    forall u | u in s.sems[m].owners ensures u == t {
    }
  }

  /** Only the task itself can leave its wait, and it does so by becoming an owner. */
  lemma BackAsOwner(s: State, step: Step, t: Tid, m: SemId)
    requires Inv(s) && Enabled(s, step) && t in s.pc && Lent(s.pc[t]) == Some(m)
    requires t in Apply(s, step).pc && Apply(s, step).pc[t].Running?
    ensures var s' := Apply(s, step); m in s'.sems && s'.sems[m].mutex && t in s'.sems[m].owners
  {
    hide Tables, Queues, Notifiers, ReleasedOnce, Timer, CyclicNext, TimerMasked, Apply;
    TaskFacts(s, t);
    if s.sched.active == t && step.LockAgain? {
      OwnAfterLock(s, t, m);
    } else if s.sched.active == t && step.Check? {
      OwnAfterCheck(s, t, m);
    } else {
      NoOtherExit(s, step, t);
    }
  }

  lemma OwnAfterLock(s: State, t: Tid, m: SemId)
    requires s.sched.active == t && Enabled(s, LockAgain) && Lent(s.pc[t]) == Some(m) && s.sems[m].mutex
    requires Apply(s, LockAgain).pc[t].Running?
    ensures var s' := Apply(s, LockAgain); m in s'.sems && s'.sems[m].mutex && t in s'.sems[m].owners
  {
  }

  lemma OwnAfterCheck(s: State, t: Tid, m: SemId)
    requires s.sched.active == t && Enabled(s, Check) && Lent(s.pc[t]) == Some(m) && s.sems[m].mutex
    requires s.pc[t].up && Apply(s, Check).pc[t].Running?
    ensures var s' := Apply(s, Check); m in s'.sems && s'.sems[m].mutex && t in s'.sems[m].owners
  {
  }

  /** The tables are left alone except for places that are raised, and all places survive. */
  ghost predicate OnlyRaises(s: State, s': State) {
    forall t :: t in s.pc ==> t in s'.pc && (s'.pc[t] == s.pc[t] || (Waiting(s.pc[t]) && s'.pc[t] == Raised(s.pc[t])))
  }

  lemma ReleaseFrame(s: State, u: Tid, m: SemId)
    requires m in s.sems
    ensures Release(s, u, m).conds == s.conds && OnlyRaises(s, Release(s, u, m))
  {
    hide Masking, SetState, RaiseUp, OnlyRaises, GiveOrPass;
    var q, s1 := s.sems[m].core.queue, PassOn(s, u, m);
    if q != [] {
      RaiseFrame(s1, q[0]);
      SamePlaces(s, s1, RaiseUp(s1, q[0]), Release(s, u, m));
    } else {
      SamePlaces(s, s, s1, s1);
    }
  }

  lemma RaiseFrame(s: State, t: Tid)
    ensures var s' := RaiseUp(s, t);
      OnlyRaises(s, s') && s'.sems == s.sems && s'.conds == s.conds && s'.sched == s.sched
  {
  }

  /** Only the places count. */
  lemma SamePlaces(s: State, s1: State, s2: State, s': State)
    requires s1.pc == s.pc && s2.pc == s'.pc && (OnlyRaises(s1, s2) || s1.pc == s2.pc)
    ensures OnlyRaises(s, s')
  {
  }

  lemma ExitFrame(s: State, u: Tid)
    requires StateMutex(u) in s.sems && StateCond(u) in s.conds
    ensures OnlyRaises(s, DoExit(s, u))
    ensures forall c :: c in s.conds && c != StateCond(u) ==>
      c in DoExit(s, u).conds && DoExit(s, u).conds[c] == s.conds[c]
  {
    hide Release, CyclicNext, TimerMasked, OnlyRaises, Take, NotifyNow;
    TakeFrame(s.(sched := s.sched.(active := 0)), u, StateMutex(u));
    var s1 := SetTask(Take(s.(sched := s.sched.(active := 0)), u, StateMutex(u)), u, Zombie);
    var s2 := NotifyNow(s1, StateCond(u));
    NotifyFrame(s1, StateCond(u));
    assert s2.sems == s1.sems && StateMutex(u) in s2.sems;
    ReleaseFrame(s2, u, StateMutex(u));
    RaisesTwice(s, s1, s2, Release(s2, u, StateMutex(u)), DoExit(s, u));
  }

  lemma RaisesTwice(s: State, s1: State, s2: State, s3: State, s4: State)
    requires s1.pc == s.pc && OnlyRaises(s1, s2) && OnlyRaises(s2, s3) && s4.pc == s3.pc
    ensures OnlyRaises(s, s4)
  {
  }

  lemma NotifyFrame(s: State, c: CondId)
    requires c in s.conds
    ensures var s' := NotifyNow(s, c);
      && s'.sems == s.sems && s'.conds.Keys == s.conds.Keys && OnlyRaises(s, s')
      && forall d :: d in s.conds && d != c ==> s'.conds[d] == s.conds[d]
  {
    hide Masking, SetState, RaiseUp, OnlyRaises;
    if s.conds[c].queue != [] {
      var s1 := Dequeue(s, c);
      RaiseFrame(s1, s.conds[c].queue[0]);
      SamePlaces(s, s1, RaiseUp(s1, s.conds[c].queue[0]), NotifyNow(s, c));
    } else {
      SamePlaces(s, s, s, s);
    }
  }

  lemma TakeFrame(s: State, u: Tid, m: SemId)
    requires m in s.sems
    ensures var s' := Take(s, u, m); s'.pc == s.pc && s'.conds == s.conds && s'.sched == s.sched && m in s'.sems
  {
  }

  /** A step moves its own task; the place of another task is at most raised. */
  lemma OthersStay(s: State, step: Step, t: Tid)
    requires Enabled(s, step) && t in s.pc && t in s.sched.tasks && t != s.sched.active
    ensures t in Apply(s, step).pc
    ensures Apply(s, step).pc[t] == s.pc[t] || (Waiting(s.pc[t]) && Apply(s, step).pc[t] == Raised(s.pc[t]))
  {
    hide Release, CyclicNext, DoExit, DoCheck, DoWake, Gather, Block, Enter, TimerMasked;
    var u := s.sched.active;
    match step
    case Down(m) => BlockPlace(s, u, m, None, t);
    case Up(m) => ReleaseFrame(s, u, m);
    case WaitOn(c, m) =>
      EnterPlace(s, u, c, m, t);
      ReleaseFrame(Enter(s, u, c, m), u, m);
    case NotifyOne(c) => GatherPlace(s, u, c, t);
    case NotifyAll(c) => GatherPlace(s, u, c, t);
    case Wake => WakePlace(s, u, t);
    case Check => CheckPlace(s, u, t);
    case LockAgain => BlockPlace(s, u, s.pc[u].m, Some(s.pc[u].c), t);
    case Exit => ExitFrame(s, u);
    case _ =>
  }

  /** Task `t` stands where it stood, or its waiter has been raised there. */
  predicate StaysPut(s: State, s': State, t: Tid) {
    t in s.pc && t in s'.pc && (s'.pc[t] == s.pc[t] || (Waiting(s.pc[t]) && s'.pc[t] == Raised(s.pc[t])))
  }

  lemma BlockPlace(s: State, u: Tid, m: SemId, back: Option<CondId>, t: Tid)
    requires m in s.sems && t in s.pc && t != u
    ensures StaysPut(s, Block(s, u, m, back), t)
  {
  }

  lemma EnterPlace(s: State, u: Tid, c: CondId, m: SemId, t: Tid)
    requires c in s.conds && t in s.pc && t != u
    ensures var s' := Enter(s, u, c, m); t in s'.pc && s'.pc[t] == s.pc[t] && s'.sems == s.sems
  {
  }

  lemma GatherPlace(s: State, u: Tid, c: CondId, t: Tid)
    requires c in s.conds && t in s.pc && t != u
    ensures forall n :: 0 <= n <= |s.conds[c].queue| ==> StaysPut(s, Gather(s, u, c, n), t)
  {
  }

  lemma WakePlace(s: State, u: Tid, t: Tid)
    requires u in s.pc && (s.pc[u].Mask? || ((s.pc[u].SetUp? || s.pc[u].SetRunnable?) && s.pc[u].ps != []))
    requires t in s.pc && t != u
    ensures StaysPut(s, DoWake(s, u), t)
  {
  }

  lemma CheckPlace(s: State, u: Tid, t: Tid)
    requires u in s.pc && s.pc[u].Returned? && WaitRefs(s, s.pc[u].w) && t in s.pc && t != u
    ensures StaysPut(s, DoCheck(s, u), t)
  {
    hide Release;
    if !s.pc[u].up && s.pc[u].w.OnCond? {
      ReleaseFrame(Prepare(s, u), u, s.pc[u].w.m);
    }
  }

  lemma NoOtherExit(s: State, step: Step, t: Tid)
    requires Enabled(s, step) && t in s.pc && (Waiting(s.pc[t]) || s.pc[t].Relock?)
    requires s.sched.active != t || !(step.LockAgain? || step.Check?)
    requires t in s.sched.tasks
    ensures t in Apply(s, step).pc && !Apply(s, step).pc[t].Running?
  {
    hide CyclicNext;
    if t != s.sched.active {
      OthersStay(s, step, t);
    } else {
      assert step.GoToSleep? || step.Resume? || step.Preempt? || step.Tick?;
    }
  }

  // ----- who takes a task out of a condition queue

  predicate InCondQueue(s: State, c: CondId, t: Tid) {
    c in s.conds && t in s.conds[c].queue
  }

  /** A notification of condition variable `c`. */
  predicate Notifies(s: State, step: Step, c: CondId) {
    step == NotifyOne(c) || step == NotifyAll(c) || (step == Exit && c == StateCond(s.sched.active))
  }

  lemma OnlyNotifiersDequeue(s: State, step: Step, c: CondId, t: Tid)
    requires Enabled(s, step) && InCondQueue(s, c, t) && !Notifies(s, step, c)
    requires !step.Spawn? || c != StateCond(step.tid)
    ensures InCondQueue(Apply(s, step), c, t)
  {
    hide Release, CyclicNext, DoExit, TimerMasked;
    var u := s.sched.active;
    match step
    case Up(m) => ReleaseFrame(s, u, m);
    case WaitOn(_, m) => ReleaseFrame(Enter(s, u, step.c, m), u, m);
    case Check =>
      if !s.pc[u].up && s.pc[u].w.OnCond? {
        ReleaseFrame(Prepare(s, u), u, s.pc[u].w.m);
      }
    case Exit => ExitFrame(s, u);
    case _ =>
  }

  /** A task that sits in the queue of `c` at one time and no longer later was taken out by a
      notification of `c` in between. */
  lemma {:induction false} DequeuedByNotification(states: seq<State>, steps: seq<Step>, i: nat, j: nat, c: CondId,
                                                  t: Tid)
    requires IsRun(states, steps) && i <= j < |states|
    requires InCondQueue(states[i], c, t) && !InCondQueue(states[j], c, t)
    ensures exists k :: i <= k < j && DequeuedAt(states, steps, k, c, t)
    decreases j - i
  {
    hide Inv, Enabled, Apply, Initial;
    if InCondQueue(states[i + 1], c, t) {
      DequeuedByNotification(states, steps, i + 1, j, c, t);
    } else {
      Reachable(states, steps, i);
      assert Enabled(states[i], steps[i]) && states[i + 1] == Apply(states[i], steps[i]);
      if steps[i].Spawn? {
        NotSpawned(states[i], steps[i], c);
      }
      if !Notifies(states[i], steps[i], c) {
        OnlyNotifiersDequeue(states[i], steps[i], c, t);
      }
      assert DequeuedAt(states, steps, i, c, t);
    }
  }

  /** Step `k` notifies `c`, and takes `t` out of its queue. */
  predicate DequeuedAt(states: seq<State>, steps: seq<Step>, k: int, c: CondId, t: Tid) {
    && 0 <= k < |steps| && k + 1 < |states| && Notifies(states[k], steps[k], c)
    && InCondQueue(states[k], c, t) && !InCondQueue(states[k + 1], c, t)
  }

  lemma NotSpawned(s: State, step: Step, c: CondId)
    requires Inv(s) && Enabled(s, step) && c in s.conds && step.Spawn?
    ensures c != StateCond(step.tid)
  {
    hide Refs, Places, Kept, Joins, Conditions, Queues, Notifiers, ReleasedOnce, Timer;
    SpawnFresh(s, step.tid);
  }

  /** Hence a wait on `c` reaches the point where it locks its mutex again only after a
      notification of `c` that dequeued it. */
  lemma WaitNeedsNotification(states: seq<State>, steps: seq<Step>, i: nat, j: nat, c: CondId, t: Tid)
    requires IsRun(states, steps) && i <= j < |states| && InCondQueue(states[i], c, t)
    requires t in states[j].pc && states[j].pc[t].Relock?
    ensures exists k :: i <= k < j && DequeuedAt(states, steps, k, c, t)
  {
    hide IsRun, Tables, Queues, Notifiers, ReleasedOnce, Timer;
    Reachable(states, steps, j);
    QueueFacts(states[j], t);
    DequeuedByNotification(states, steps, i, j, c, t);
  }

  /** Waiters of a condition variable are dequeued in the order in which they entered. */
  lemma NotifiedInOrder(states: seq<State>, steps: seq<Step>, n: nat, c: CondId)
    requires IsRun(states, steps) && n < |states| && c in states[n].conds
    ensures var x := states[n].conds[c]; x.entered == x.dequeued + x.queue
  {
    hide IsRun, Shape, Refs, Places, Kept, Joins, Queues, Notifiers, ReleasedOnce, Timer;
    Reachable(states, steps, n);
  }

  // ----- timer and waiting for a child

  /** Unless a notifier stands just before recomputing it, the timer mask is right: the timer
      ticks exactly when at least two tasks are Runnable. */
  lemma TimerFollowsRunnable(states: seq<State>, steps: seq<Step>, n: nat)
    requires IsRun(states, steps) && n < |states|
    requires forall k :: k in states[n].pc ==> !states[n].pc[k].Mask?
    ensures !states[n].sched.timerMasked <==> |RunnableTasks(states[n].sched.tasks)| >= 2
  {
    hide IsRun, Tables, Queues, Notifiers, ReleasedOnce;
    Reachable(states, steps, n);
  }

  /** A task that waits for its child has been notified exactly when the child is a zombie:
      it cannot return early, and it cannot miss the end of the child. */
  lemma JoinSeesTheEnd(states: seq<State>, steps: seq<Step>, n: nat, t: Tid, k: Tid)
    requires IsRun(states, steps) && n < |states| && t in states[n].pc && Child(states[n].pc[t]) == Some(k)
    ensures var s := states[n];
      && k in s.sched.tasks && k in s.parent && s.parent[k] == t
      && (Notified(s.pc[t]) <==> s.sched.tasks[k] == Zombie)
      && (s.sched.tasks[k] != Zombie ==> InCondQueue(s, StateCond(k), t))
  {
    hide IsRun, Tables, Queues, Notifiers, ReleasedOnce, Timer;
    Reachable(states, steps, n);
    TaskFacts(states[n], t);
    if states[n].sched.tasks[k] != Zombie {
      WaiterQueued(states[n], k, t);
    }
  }
}
