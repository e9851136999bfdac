/** What the steps of module Sync do, in terms of what can be observed: counts, queues, flags and
    scheduling states. The histories kept there are tied to the steps that were taken. */
module SyncEffects {
  import opened Common
  import opened Scheduler
  import opened WaitQueues
  import opened Sync
  import opened SyncInvariant
  import opened SyncFrames
  import opened SyncLifetime
  import opened SyncTheorems

  // ----- what a step leaves alone

  /** Apart from the tasks `ts`, the semaphores `ms` and the condition variables `cs`, nothing has
      changed, and nothing has come or gone. */
  ghost predicate Rest(s: State, s': State, ts: set<Tid>, ms: set<SemId>, cs: set<CondId>) {
    && s'.pc.Keys == s.pc.Keys && s'.sched.tasks.Keys == s.sched.tasks.Keys
    && s'.sems.Keys == s.sems.Keys && s'.conds.Keys == s.conds.Keys
    && s'.parent == s.parent && s'.sched.nextTid == s.sched.nextTid
    && (forall x :: x in s.pc && x !in ts ==> s'.pc[x] == s.pc[x])
    && (forall x :: x in s.sched.tasks && x !in ts ==> s'.sched.tasks[x] == s.sched.tasks[x])
    && (forall m :: m in s.sems && m !in ms ==> s'.sems[m] == s.sems[m])
    && (forall c :: c in s.conds && c !in cs ==> s'.conds[c] == s.conds[c])
  }

  /** The timer ticks exactly if two tasks are Runnable. */
  ghost predicate TimerExact(s: State) {
    s.sched.timerMasked <==> |RunnableTasks(s.sched.tasks)| < 2
  }

  /** Task `h` has been woken where it waits: its flag is up and it is Runnable. */
  predicate WokenAt(s: State, s': State, h: Tid) {
    && h in s.pc && Waiting(s.pc[h]) && h in s'.pc && Waiting(s'.pc[h]) && s'.pc[h].w == s.pc[h].w && s'.pc[h].up
    && h in s'.sched.tasks && s'.sched.tasks[h] == Runnable
  }

  function Head(q: seq<Tid>): set<Tid> {
    if q == [] then {} else {q[0]}
  }

  // ----- release of a semaphore or mutex

  /** Task `t` has released `m`: without waiters the count goes up by one, modulo its width; else
      the first waiter leaves the queue with the unit, its flag up and Runnable. */
  ghost predicate Released(s: State, s': State, m: SemId, t: Tid) {
    && m in s.sems && m in s'.sems
    && var x, x' := s.sems[m], s'.sems[m];
       var q := x.core.queue;
       && x'.ups == x.ups + 1 && x'.owners == x.owners - {t} && x'.arrivals == x.arrivals
       && x'.mutex == x.mutex && x'.init == x.init
       && (q == [] ==>
             x'.core.count == (x.core.count + 1) % COUNT_LIMIT && x'.core.queue == [] && x'.granted == x.granted)
       && (q != [] ==>
             && x'.core.count == x.core.count && [q[0]] + x'.core.queue == q && x'.granted == x.granted + [q[0]]
             && WokenAt(s, s', q[0]))
  }

  lemma ReleaseEffect(s: State, t: Tid, m: SemId)
    requires m in s.sems
    requires var q := s.sems[m].core.queue;
      q != [] ==> q[0] in s.pc && Waiting(s.pc[q[0]]) && q[0] in s.sched.tasks
    ensures var s' := Release(s, t, m);
      && Released(s, s', m, t) && Rest(s, s', Head(s.sems[m].core.queue), {m}, {})
      && s'.sched.active == s.sched.active && s'.taken == s.taken
      && (s.sems[m].core.queue != [] || TimerExact(s) ==> TimerExact(s'))
  {
  }

  lemma HeadWaits(s: State, m: SemId)
    requires Inv(s) && m in s.sems && s.sems[m].core.queue != []
    ensures var h := s.sems[m].core.queue[0];
      h in s.pc && WaitsOnSem(s.pc, h, m) && h in s.sched.tasks && (s.sched.active in s.pc ==>
        (s.pc[s.sched.active].Running? ==> h != s.sched.active))
  {
    hide Tables, Queues, Notifiers, ReleasedOnce, Timer;
    SemFacts(s, m);
    TaskFacts(s, s.sems[m].core.queue[0]);
  }

  /** `up`, and the unlocking of a mutex. */
  lemma UpEffect(s: State, m: SemId)
    requires Inv(s) && Enabled(s, Up(m))
    ensures var s' := Apply(s, Up(m));
      && Released(s, s', m, s.sched.active) && Rest(s, s', Head(s.sems[m].core.queue), {m}, {})
      && s'.sched.active == s.sched.active && s'.taken == s.taken
  {
    hide Inv, Release, Rest, Released;
    if s.sems[m].core.queue != [] {
      HeadWaits(s, m);
    }
    ReleaseEffect(s, s.sched.active, m);
  }

  /** Task `t` is last in the queue of `c` and asleep, and has released `m`. */
  ghost predicate Entered(s: State, s': State, t: Tid, c: CondId, m: SemId) {
    && m in s.sems && c in s.conds && t in s.pc && t in s.sched.tasks
    && Released(s, s', m, t) && Rest(s, s', Head(s.sems[m].core.queue) + {t}, {m}, {c})
    && s'.conds[c] == Cond(s.conds[c].queue + [t], s.conds[c].entered + [t], s.conds[c].dequeued)
    && s'.pc[t] == Window(OnCond(c, m, 1), false) && s'.sched.tasks[t] == Sleeping
    && s'.sched.active == s.sched.active && s'.taken == s.taken
  }

  /** `CondVar::wait`, up to its release of the spin lock. */
  lemma WaitOnEffect(s: State, c: CondId, m: SemId)
    requires Inv(s) && Enabled(s, WaitOn(c, m))
    ensures Entered(s, Apply(s, WaitOn(c, m)), s.sched.active, c, m)
  {
    hide Inv, Release, Rest, Released, TimerMasked;
    var t := s.sched.active;
    EnterEffect(s, t, c, m);
    var s1 := Enter(s, t, c, m);
    if s.sems[m].core.queue != [] {
      HeadWaits(s, m);
      StillWaits(s, s1, t, s.sems[m].core.queue[0]);
    }
    ReleaseEffect(s1, t, m);
    ReleasedLater(s, s1, Release(s1, t, m), m, c, t);
  }

  lemma EnterEffect(s: State, t: Tid, c: CondId, m: SemId)
    requires c in s.conds && t in s.pc && t in s.sched.tasks
    ensures var s' := Enter(s, t, c, m);
      && Rest(s, s', {t}, {}, {c}) && s'.sems == s.sems && s'.taken == s.taken && s'.sched.active == s.sched.active
      && s'.conds[c] == Cond(s.conds[c].queue + [t], s.conds[c].entered + [t], s.conds[c].dequeued)
      && s'.pc[t] == Window(OnCond(c, m, 1), false) && s'.sched.tasks[t] == Sleeping
  {
    hide TimerMasked;
  }

  lemma StillWaits(s: State, s1: State, t: Tid, h: Tid)
    requires exists c :: Rest(s, s1, {t}, {}, {c})
    requires h in s.pc && Waiting(s.pc[h]) && h in s.sched.tasks && h != t
    ensures h in s1.pc && Waiting(s1.pc[h]) && h in s1.sched.tasks
  {
  }

  lemma ReleasedLater(s: State, s1: State, s': State, m: SemId, c: CondId, t: Tid)
    requires Rest(s, s1, {t}, {}, {c}) && s1.sems == s.sems && m in s.sems && t in s.pc && t in s.sched.tasks
    requires Released(s1, s', m, t) && Rest(s1, s', Head(s.sems[m].core.queue), {m}, {}) && c in s.conds
    requires var q := s.sems[m].core.queue; q != [] ==> q[0] != t && q[0] in s.pc && Waiting(s.pc[q[0]])
    ensures Released(s, s', m, t) && Rest(s, s', Head(s.sems[m].core.queue) + {t}, {m}, {c})
    ensures s'.conds[c] == s1.conds[c] && s'.pc[t] == s1.pc[t] && s'.sched.tasks[t] == s1.sched.tasks[t]
  {
  }

  // ----- down

  /** Task `t` has asked for a unit of `m`: it is taken if one is left, else the task is last in the
      queue and asleep, in a wait on `m` on behalf of `back`. */
  ghost predicate Asked(s: State, s': State, t: Tid, m: SemId, back: Option<CondId>) {
    && m in s.sems && t in s.pc && t in s.sched.tasks && Rest(s, s', {t}, {m}, {})
    && s'.taken == s.taken && s'.sched.active == s.sched.active
    && var x, x' := s.sems[m], s'.sems[m];
       && x'.arrivals == x.arrivals + [t] && x'.ups == x.ups && x'.mutex == x.mutex && x'.init == x.init
       && (x.core.count > 0 ==>
             && x'.core.count == x.core.count - 1 && x'.core.queue == x.core.queue && x'.granted == x.granted + [t]
             && x'.owners == (if x.mutex then x.owners + {t} else x.owners)
             && s'.pc[t] == Running && s'.sched == s.sched)
       && (x.core.count == 0 ==>
             && x'.core.count == 0 && x'.core.queue == x.core.queue + [t] && x'.granted == x.granted
             && x'.owners == x.owners && s'.pc[t] == Window(OnSem(m, back), false)
             && s'.sched.tasks[t] == Sleeping && TimerExact(s'))
  }

  lemma TakeAsks(s: State, t: Tid, m: SemId)
    requires m in s.sems && t in s.pc && t in s.sched.tasks && s.sems[m].core.count > 0
    ensures Asked(s, MoveTo(Take(s, t, m), t, Running), t, m, None)
    ensures forall back :: Asked(s, MoveTo(Take(s, t, m), t, Running), t, m, back)
  {
  }

  lemma BlockAsks(s: State, t: Tid, m: SemId, back: Option<CondId>)
    requires m in s.sems && t in s.pc && t in s.sched.tasks && s.sems[m].core.count == 0
    ensures Asked(s, Block(s, t, m, back), t, m, back)
  {
  }

  /** `down` and `lock`. */
  lemma DownEffect(s: State, m: SemId)
    requires Enabled(s, Down(m))
    ensures Asked(s, Apply(s, Down(m)), s.sched.active, m, None)
  {
    hide Asked, Take, Block;
    var t := s.sched.active;
    if s.sems[m].core.count > 0 {
      TakeAsks(s, t, m);
      TakeFrame(s, t, m);
      assert s.pc[t := Running] == s.pc;
      assert MoveTo(Take(s, t, m), t, Running) == Take(s, t, m);
    } else {
      BlockAsks(s, t, m, None);
    }
  }

  /** The lock at the end of `CondVar::wait`. */
  lemma LockAgainEffect(s: State)
    requires Enabled(s, LockAgain)
    ensures Asked(s, Apply(s, LockAgain), s.sched.active, s.pc[s.sched.active].m, Some(s.pc[s.sched.active].c))
  {
    hide Asked, Take, Block;
    var t := s.sched.active;
    if s.sems[s.pc[t].m].core.count > 0 {
      TakeAsks(s, t, s.pc[t].m);
    } else {
      BlockAsks(s, t, s.pc[t].m, Some(s.pc[t].c));
    }
  }

  // ----- notification

  /** Notifier `t` has taken `ws` from the front of the queue of `c`; they are in its hands now. */
  ghost predicate TookOver(s: State, s': State, t: Tid, c: CondId, ws: seq<Tid>) {
    && c in s.conds && t in s.pc && Rest(s, s', {t}, {}, {c}) && s'.sched == s.sched && s'.sems == s.sems
    && ws + s'.conds[c].queue == s.conds[c].queue && s'.conds[c].dequeued == s.conds[c].dequeued + ws
    && s'.conds[c].entered == s.conds[c].entered && s'.pc[t] == SetUp(ws)
    && (forall h :: h in s'.taken <==> h in s.taken || h in ws)
    && (forall h :: h in s'.taken ==> s'.taken[h] == if h in ws then t else s.taken[h])
  }

  lemma GatherTakes(s: State, t: Tid, c: CondId, n: nat)
    requires c in s.conds && t in s.pc && n <= |s.conds[c].queue|
    ensures TookOver(s, Gather(s, t, c, n), t, c, s.conds[c].queue[..n])
  {
  }

  /** `notify_one` takes the first waiter, and nobody when nobody waits. */
  lemma NotifyOneEffect(s: State, c: CondId)
    requires Enabled(s, NotifyOne(c))
    ensures var s', t, q := Apply(s, NotifyOne(c)), s.sched.active, s.conds[c].queue;
      if q == [] then s' == s else TookOver(s, s', t, c, [q[0]])
  {
    hide TookOver, Gather;
    var q := s.conds[c].queue;
    if q != [] {
      GatherTakes(s, s.sched.active, c, 1);
      assert q[..1] == [q[0]];
    }
  }

  /** `notify_all` takes all the waiters in their order. */
  lemma NotifyAllEffect(s: State, c: CondId)
    requires Enabled(s, NotifyAll(c))
    ensures var s', t, q := Apply(s, NotifyAll(c)), s.sched.active, s.conds[c].queue;
      if q == [] then s' == s else TookOver(s, s', t, c, q) && c in s'.conds && s'.conds[c].queue == []
  {
    hide Gather;
    var q := s.conds[c].queue;
    if q != [] {
      GatherTakes(s, s.sched.active, c, |q|);
      assert q[..|q|] == q;
    }
  }

  /** The three statements that a notifier runs for each waiter: first the flag is raised, */
  ghost predicate FlagRaised(s: State, s': State, t: Tid, ps: seq<Tid>) {
    && ps != [] && t in s.pc && ps[0] in s.pc && Waiting(s.pc[ps[0]]) && Rest(s, s', {t, ps[0]}, {}, {})
    && s'.pc[t] == SetRunnable(ps) && s'.pc[ps[0]] == s.pc[ps[0]].(up := true)
    && s'.sched == s.sched && s'.taken == s.taken
  }

  /** then the task is made Runnable, */
  ghost predicate MadeRunnable(s: State, s': State, t: Tid, ps: seq<Tid>) {
    && ps != [] && t in s.pc && ps[0] in s.pc && Rest(s, s', {t, ps[0]}, {}, {})
    && s'.pc[t] == Mask(ps[1..]) && s'.pc[ps[0]] == s.pc[ps[0]] && WokenAt(s, s', ps[0])
    && s'.taken == s.taken - {ps[0]} && s'.sched.active == s.sched.active
  }

  /** and last the timer is recomputed, before the next waiter or the end. */
  ghost predicate Remasked(s: State, s': State, t: Tid, ps: seq<Tid>) {
    && t in s.pc && Rest(s, s', {t}, {}, {}) && s'.pc[t] == (if ps == [] then Running else SetUp(ps))
    && s'.sched.tasks == s.sched.tasks && TimerExact(s') && s'.sched.active == s.sched.active && s'.taken == s.taken
  }

  ghost predicate Progressed(s: State, s': State, t: Tid) {
    t in s.pc &&
      match s.pc[t]
      case SetUp(ps) => FlagRaised(s, s', t, ps)
      case SetRunnable(ps) => MadeRunnable(s, s', t, ps)
      case Mask(ps) => Remasked(s, s', t, ps)
      case _ => false
  }

  lemma WakeEffect(s: State)
    requires Inv(s) && Enabled(s, Wake)
    ensures Progressed(s, Apply(s, Wake), s.sched.active)
  {
    hide Inv, FlagRaised, MadeRunnable, Remasked, DoWake;
    var t := s.sched.active;
    if s.pc[t].Mask? {
      MaskStage(s, t);
    } else {
      HeldFacts(s, t, s.pc[t].ps[0]);
      if s.pc[t].SetUp? {
        RaiseStage(s, t);
      } else {
        RunnableStage(s, t);
      }
    }
  }

  lemma RaiseStage(s: State, t: Tid)
    requires t in s.pc && s.pc[t].SetUp? && s.pc[t].ps != []
    requires var h := s.pc[t].ps[0]; h in s.pc && Waiting(s.pc[h]) && h != t
    ensures FlagRaised(s, DoWake(s, t), t, s.pc[t].ps)
  {
    hide TimerMasked;
  }

  lemma RunnableStage(s: State, t: Tid)
    requires t in s.pc && s.pc[t].SetRunnable? && s.pc[t].ps != []
    requires var h := s.pc[t].ps[0]; h in s.pc && Waiting(s.pc[h]) && s.pc[h].up && h in s.sched.tasks && h != t
    ensures MadeRunnable(s, DoWake(s, t), t, s.pc[t].ps)
  {
    hide TimerMasked;
  }

  lemma MaskStage(s: State, t: Tid)
    requires t in s.pc && s.pc[t].Mask?
    ensures Remasked(s, DoWake(s, t), t, s.pc[t].ps)
  {
  }

  /** A task in the hands of a notifier sleeps in a wait on a condition variable. */
  lemma HeldFacts(s: State, k: Tid, h: Tid)
    requires Inv(s) && Holds(s.pc, k, h)
    ensures h in s.pc && (s.pc[h].Window? || s.pc[h].Saved?) && s.pc[h].w.OnCond? && h != k
    ensures h in s.sched.tasks && s.sched.tasks[h] == Sleeping && h in s.taken && h != s.sched.active
    ensures s.pc[h].up <==> s.pc[k].SetRunnable? && h == s.pc[k].ps[0]
  {
    hide Queues, ReleasedOnce, Timer, Refs, Kept, Joins, Conditions;
    assert h in s.taken && s.taken[h] == k;
    assert HeldOk(s.pc[h], s.sched.tasks[h], s.pc[k], h);
  }

  // ----- sleeping, returning, switching

  /** The body of `putMeToSleep`: a task that was woken in between goes on, any other gives the
      processor to the next Runnable task. */
  ghost predicate Slept(s: State, s': State, t: Tid) {
    && t in s.pc && Waiting(s.pc[t]) && t in s.sched.tasks && Rest(s, s', {t}, {}, {})
    && s'.sched.tasks == s.sched.tasks && s'.taken == s.taken && s'.sched.timerMasked == s.sched.timerMasked
    && (s.sched.tasks[t] == Sleeping ==> s'.pc[t] == Saved(s.pc[t].w, s.pc[t].up) && NextRuns(s, s', t))
    && (s.sched.tasks[t] != Sleeping ==> s'.pc[t] == Returned(s.pc[t].w, s.pc[t].up) && s'.sched.active == t)
  }

  lemma SleepEffect(s: State)
    requires Enabled(s, GoToSleep)
    ensures Slept(s, Apply(s, GoToSleep), s.sched.active)
  {
    hide NextRuns, CyclicNext;
    if s.sched.tasks[s.sched.active] == Sleeping {
      ScheduleEffect(s);
      NextRunsSame(s, Switch(s), Apply(s, GoToSleep), s.sched.active);
    }
  }

  lemma ScheduleEffect(s: State)
    ensures NextRuns(s, Switch(s), s.sched.active)
    ensures Switch(s) == s.(sched := s.sched.(active := Switch(s).sched.active))
  {
    assert forall u :: u in RunnableTasks(s.sched.tasks) <==> u in s.sched.tasks && s.sched.tasks[u] == Runnable;
  }

  lemma NextRunsSame(s: State, s1: State, s': State, a: Tid)
    requires NextRuns(s, s1, a) && s'.sched.active == s1.sched.active
    ensures NextRuns(s, s', a)
  {
  }

  /** The Runnable task that comes next after `a` is active, or nobody if none is Runnable. */
  ghost predicate NextRuns(s: State, s': State, a: Tid) {
    if RunnableTasks(s.sched.tasks) == {} then s'.sched.active == 0 else
      && s'.sched.active in s.sched.tasks && s.sched.tasks[s'.sched.active] == Runnable
      && forall u :: u in s.sched.tasks && s.sched.tasks[u] == Runnable && u != s'.sched.active ==>
           Before(a, s'.sched.active, u)
  }

  lemma SwitchEffect(s: State, step: Step)
    requires Enabled(s, step) && (step.Preempt? || step.Tick?)
    ensures var s' := Apply(s, step);
      NextRuns(s, s', s.sched.active) && s' == s.(sched := s.sched.(active := s'.sched.active))
  {
    hide NextRuns;
    ScheduleEffect(s);
  }

  lemma ResumeEffect(s: State)
    requires Enabled(s, Resume)
    ensures var s', t := Apply(s, Resume), s.sched.active;
      && Rest(s, s', {t}, {}, {}) && s'.pc[t] == Returned(s.pc[t].w, s.pc[t].up) && s'.sched == s.sched
      && s'.taken == s.taken
  {
  }

  /** The wait of `t` is over: `down` has returned, as an owner if it was a mutex, or a condition wait
      goes on to lock its mutex. */
  ghost predicate CameBackFrom(s: State, s': State, t: Tid, w: Wait) {
    && t in s.pc && Waiting(s.pc[t]) && s.pc[t].w == w && s.pc[t].up && s'.sched == s.sched && s'.taken == s.taken
    && match w
       case OnSem(m, _) =>
         && m in s.sems && Rest(s, s', {t}, {m}, {}) && s'.pc[t] == Running
         && s'.sems[m] == s.sems[m].(owners := s'.sems[m].owners)
         && s'.sems[m].owners == (if s.sems[m].mutex then s.sems[m].owners + {t} else s.sems[m].owners)
       case OnCond(c, m, _) => Rest(s, s', {t}, {}, {}) && s'.pc[t] == Relock(c, m)
  }

  ghost predicate CameBack(s: State, s': State, t: Tid) {
    t in s.pc && Waiting(s.pc[t]) && CameBackFrom(s, s', t, s.pc[t].w)
  }

  /** The loop test: in every reachable state the flag is up. */
  lemma CheckEffect(s: State)
    requires Inv(s) && Enabled(s, Check)
    ensures CameBack(s, Apply(s, Check), s.sched.active)
  {
    hide Inv, CameBackFrom, DoCheck;
    FlagIsUp(s, s.sched.active);
    UpReturns(s, s.sched.active);
  }

  lemma FlagIsUp(s: State, t: Tid)
    requires t in s.pc && s.pc[t].Returned? && Inv(s)
    ensures s.pc[t].up
  {
    hide Tables, Queues, Notifiers, ReleasedOnce, Timer;
    TaskFacts(s, t);
  }

  lemma UpReturns(s: State, t: Tid)
    requires t in s.pc && s.pc[t].Returned? && s.pc[t].up && WaitRefs(s, s.pc[t].w)
    ensures CameBackFrom(s, DoCheck(s, t), t, s.pc[t].w)
  {
    hide Release, TimerMasked;
  }

  // ----- tasks come and go

  /** A new task is Runnable, has the lowest free identifier, a parent, and a fresh state. */
  lemma SpawnEffect(s: State, tid: Tid)
    requires Inv(s) && Enabled(s, Spawn(tid))
    ensures tid !in s.pc && tid !in s.sched.tasks && StateMutex(tid) !in s.sems && StateCond(tid) !in s.conds
    ensures var s', t := Apply(s, Spawn(tid)), s.sched.active;
      && s'.pc == s.pc[tid := Running] && s'.sched.tasks == s.sched.tasks[tid := Runnable] && s'.sched.active == t
      && s'.sched.nextTid == tid + 1 && s'.parent == s.parent[tid := t] && s'.taken == s.taken && TimerExact(s')
      && s'.sems == s.sems[StateMutex(tid) := Sem(true, 1, SemCore(1, []), [], [], 0, {})]
      && s'.conds == s.conds[StateCond(tid) := Cond([], [], [])]
  {
    hide Refs, Places, Kept, Joins, Conditions, Queues, Notifiers, ReleasedOnce, Timer;
    SpawnFresh(s, tid);
  }

  /** The end of task `t`: it is a zombie, the first that waits for it is woken, its state mutex is as
      free as it was, and the search for the next task starts at 0. */
  ghost predicate Ended(s: State, s': State, t: Tid) {
    && t in s.pc && t in s.sched.tasks && StateMutex(t) in s.sems && StateCond(t) in s.conds
    && var m, c := StateMutex(t), StateCond(t);
       var q := s.conds[c].queue;
       && Rest(s, s', Head(q) + {t}, {m}, {c}) && s'.sched.tasks[t] == Zombie && s'.pc[t] == Running
       && s'.sems[m].core == s.sems[m].core && s'.sems[m].ups == s.sems[m].ups + 1 && s'.taken == s.taken
       && s'.sems[m].arrivals == s.sems[m].arrivals + [t] && s'.sems[m].granted == s.sems[m].granted + [t]
       && s'.sems[m].init == s.sems[m].init && s'.sems[m].mutex == s.sems[m].mutex
       && FirstWoken(s, s', c) && TimerExact(s') && NextRuns(s', s', 0)
  }

  /** The first waiter of `c`, if there is one, has left its queue and is awake. */
  ghost predicate FirstWoken(s: State, s': State, c: CondId) {
    && c in s.conds && c in s'.conds
    && var q := s.conds[c].queue;
       if q == [] then s'.conds[c] == s.conds[c] else
         && WokenAt(s, s', q[0]) && [q[0]] + s'.conds[c].queue == q && s'.conds[c].entered == s.conds[c].entered
         && s'.conds[c].dequeued == s.conds[c].dequeued + [q[0]]
  }

  lemma ExitEffect(s: State)
    requires Inv(s) && Enabled(s, Exit)
    ensures Ended(s, Apply(s, Exit), s.sched.active)
  {
    hide Inv, Rest, FirstWoken, Take, NotifyNow, Release, Switch, NextRuns, TimerMasked, TimerExact, Head;
    var t := s.sched.active;
    var m, c, n := StateMutex(t), StateCond(t), s.sems[StateMutex(t)].core.count;
    ExitFacts(s);
    TakeFrame(s.(sched := s.sched.(active := 0)), t, m);
    var s1 := SetTask(Take(s.(sched := s.sched.(active := 0)), t, m), t, Zombie);
    BuriedEffect(s, s1, t);
    FirstStays(s, s1, t);
    NotifyNowEffect(s1, c);
    var s2 := NotifyNow(s1, c);
    LastRelease(s2, t, m, n);
    var s3 := Release(s2, t, m);
    SearchFromZero(Remask(s3));
    ExitAdds(s, s1, s2, s3, Apply(s, Exit), t);
  }

  lemma FirstStays(s: State, s1: State, t: Tid)
    requires StateCond(t) in s.conds && s1.conds == s.conds && s1.pc == s.pc && Rest(s, s1, {t}, {StateMutex(t)}, {})
    requires var q := s.conds[StateCond(t)].queue; q != [] ==> q[0] in s.sched.tasks
    ensures var q := s.conds[StateCond(t)].queue; q != [] ==> q[0] in s1.sched.tasks
  {
  }

  lemma ExitFacts(s: State)
    requires Inv(s) && Enabled(s, Exit)
    ensures var t := s.sched.active; var q := s.conds[StateCond(t)].queue; var x := s.sems[StateMutex(t)];
      && x.core.queue == [] && x.core.count < COUNT_LIMIT
      && (q != [] ==> q[0] in s.pc && Waiting(s.pc[q[0]]) && q[0] in s.sched.tasks && q[0] != t)
  {
    hide Tables, Notifiers, ReleasedOnce, Timer, Semaphores, SemQueues;
    var t := s.sched.active;
    SemFacts(s, StateMutex(t));
    var q := s.conds[StateCond(t)].queue;
    if q != [] {
      assert q[0] in q;
      assert WaitsOnCond(s.pc, q[0], StateCond(t));
      TaskFacts(s, q[0]);
    }
  }

  lemma BuriedEffect(s: State, s1: State, t: Tid)
    requires StateMutex(t) in s.sems && s.sems[StateMutex(t)].core.count > 0 && t in s.sched.tasks
    requires s1 == SetTask(Take(s.(sched := s.sched.(active := 0)), t, StateMutex(t)), t, Zombie)
    ensures var x, x' := s.sems[StateMutex(t)], s1.sems[StateMutex(t)];
      && Rest(s, s1, {t}, {StateMutex(t)}, {}) && s1.pc == s.pc && s1.sched.tasks[t] == Zombie && s1.conds == s.conds
      && x'.core == SemCore(x.core.count - 1, x.core.queue) && x'.ups == x.ups && x'.arrivals == x.arrivals + [t]
      && x'.granted == x.granted + [t] && x'.init == x.init && x'.mutex == x.mutex
      && s1.sched.active == 0 && s1.taken == s.taken
  {
  }

  lemma NotifyNowEffect(s: State, c: CondId)
    requires c in s.conds
    requires var q := s.conds[c].queue; q != [] ==> q[0] in s.pc && Waiting(s.pc[q[0]]) && q[0] in s.sched.tasks
    ensures var s' := NotifyNow(s, c);
      && Rest(s, s', Head(s.conds[c].queue), {}, {c}) && s'.sems == s.sems && s'.sched.active == s.sched.active
      && s'.taken == s.taken && FirstWoken(s, s', c)
  {
    hide TimerMasked;
  }

  lemma LastRelease(s: State, t: Tid, m: SemId, n: nat)
    requires m in s.sems && 0 < n < COUNT_LIMIT && s.sems[m].core == SemCore(n - 1, [])
    ensures var s', x := Release(s, t, m), s.sems[m];
      && s'.pc == s.pc && s'.sched == s.sched && s'.conds == s.conds && s'.taken == s.taken
      && Rest(s, s', {}, {m}, {}) && m in s'.sems
      && s'.sems[m] == x.(core := SemCore(n, []), ups := x.ups + 1, owners := x.owners - {t})
  {
    assert (n - 1 + 1) % COUNT_LIMIT == n;
  }

  lemma SearchFromZero(s: State)
    requires s.sched.active == 0 && s.sched.timerMasked == TimerMasked(s.sched.tasks)
    ensures var s' := Switch(s);
      s' == s.(sched := s.sched.(active := s'.sched.active)) && NextRuns(s', s', 0) && TimerExact(s')
  {
    hide NextRuns;
    ScheduleEffect(s);
    NextRunsAfter(s, Switch(s), 0);
  }

  lemma NextRunsAfter(s: State, s': State, a: Tid)
    requires NextRuns(s, s', a) && s'.sched.tasks == s.sched.tasks
    ensures NextRuns(s', s', a)
  {
  }

  lemma ExitAdds(s: State, s1: State, s2: State, s3: State, s': State, t: Tid)
    requires t in s.sched.tasks && t in s.pc && s.pc[t] == Running && StateMutex(t) in s.sems && StateCond(t) in s.conds
    requires var q := s.conds[StateCond(t)].queue; q != [] ==> q[0] != t && q[0] in s.pc && Waiting(s.pc[q[0]])
    requires Rest(s, s1, {t}, {StateMutex(t)}, {}) && s1.pc == s.pc && s1.conds == s.conds
    requires s1.sched.tasks[t] == Zombie && s2.sems == s1.sems
    requires Rest(s1, s2, Head(s.conds[StateCond(t)].queue), {}, {StateCond(t)})
    requires FirstWoken(s1, s2, StateCond(t))
    requires Rest(s2, s3, {}, {StateMutex(t)}, {}) && s3.pc == s2.pc && s3.conds == s2.conds && s3.sched == s2.sched
    requires s'.pc == s3.pc && s'.sems == s3.sems && s'.conds == s3.conds && s'.parent == s3.parent
    requires s'.sched.tasks == s3.sched.tasks && s'.sched.nextTid == s3.sched.nextTid
    ensures Rest(s, s', Head(s.conds[StateCond(t)].queue) + {t}, {StateMutex(t)}, {StateCond(t)})
    ensures s'.sched.tasks[t] == Zombie && s'.pc[t] == Running && FirstWoken(s, s', StateCond(t))
  {
  }

  // ----- what client code may do

  /** Runs do start: one task, and any semaphore and condition variable. */
  lemma SomeStart(n: nat) returns (s: State)
    requires n < COUNT_LIMIT
    ensures Initial(s) && Plain(0) in s.sems && s.sems[Plain(0)].core.count == n && PlainCond(0) in s.conds
  {
    s := State(Sched(map[1 := Runnable], 0, 2, true), map[1 := Running],
               map[StateMutex(1) := FreshMutex(), Plain(0) := Sem(false, n, SemCore(n, []), [], [], 0, {})],
               map[StateCond(1) := Cond([], [], []), PlainCond(0) := Cond([], [], [])], map[], map[]);
  }

  /** A task in client code may use every semaphore and condition variable that is not a task's own,
      unlock what it has locked, add a task, end if it is not the first one and nobody looks at
      its state, and be preempted. */
  lemma ClientMay(s: State, n: nat, k: nat, tid: Tid)
    requires Inv(s) && s.sched.active in s.pc && s.pc[s.sched.active].Running?
    ensures var t := s.sched.active;
      && (Plain(n) in s.sems ==> Enabled(s, Down(Plain(n))))
      && (Plain(n) in s.sems && (!s.sems[Plain(n)].mutex || t in s.sems[Plain(n)].owners) ==> Enabled(s, Up(Plain(n))))
      && (PlainCond(k) in s.conds ==> Enabled(s, NotifyOne(PlainCond(k))) && Enabled(s, NotifyAll(PlainCond(k))))
      && (Plain(n) in s.sems && s.sems[Plain(n)].mutex && t in s.sems[Plain(n)].owners && PlainCond(k) in s.conds ==>
            Enabled(s, WaitOn(PlainCond(k), Plain(n))))
      && (IsFreeTid(s.sched, tid) ==> Enabled(s, Spawn(tid))) && Enabled(s, Preempt)
      && (t != 1 && StateMutex(t) in s.sems && s.sems[StateMutex(t)].core.count > 0 ==> Enabled(s, Exit))
  {
    hide Tables, Queues, Notifiers, ReleasedOnce, Timer;
    TaskFacts(s, s.sched.active);
  }
}
