/** Every step keeps the invariant. */
module SyncSteps {
  import opened Common
  import opened Scheduler
  import opened WaitQueues
  import opened Sync
  import opened SyncInvariant
  import opened SyncFrames

  /** Giving the processor to a Runnable task, or to nobody. */
  lemma ActivateKeeps(s: State, a: Tid)
    requires Inv(s) && (a == 0 || (a in s.sched.tasks && s.sched.tasks[a] == Runnable))
    ensures Inv(s.(sched := s.sched.(active := a)))
  {
    hide Refs, Places, Kept, Notifiers, Conditions, Joins, SemQueues, CondQueues, Semaphores, ReleasedOnce;
    ShapeKeep(s, s.(sched := s.sched.(active := a)));
  }

  lemma SwitchKeeps(s: State)
    requires Inv(s)
    ensures Inv(Switch(s))
  {
    hide Inv;
    ActivateKeeps(s, Switch(s).sched.active);
  }

  lemma TakeUnit(x: Sem, pc: Pcs, m: SemId, t: Tid)
    requires Counted(x) && (x.mutex ==> Exclusive(x, pc, m)) && x.core.count > 0
    requires !InFlight(pc, t, m)
    ensures var x' := x.(core := TakeOrQueue(x.core, t), arrivals := x.arrivals + [t], granted := x.granted + [t],
                         owners := if x.mutex then x.owners + {t} else x.owners);
            Counted(x') && (x.mutex ==> Exclusive(x', pc, m))
  {
  }

  /** The uncontended `down` of a task that is not lending this mutex. */
  lemma TakeKeeps(s: State, t: Tid, m: SemId)
    requires Inv(s) && t in s.pc && m in s.sems && s.sems[m].core.count > 0 && Lent(s.pc[t]) != Some(m)
    requires !Waiting(s.pc[t])
    ensures Inv(Take(s, t, m))
  {
    hide Tables, SemQueues, CondQueues, Semaphores, Notifiers, ReleasedOnce, Counted, Exclusive;
    var s' := Take(s, t, m);
    var x, x' := s.sems[m], s'.sems[m];
    SemFacts(s, m);
    TakeUnit(x, s.pc, m, t);
    SemChange(s, m, x');
    SemQueuesSet(s.pc, s.sems, m, x');
    SemaphoresSet(s.pc, s.sems, m, x');
    ReleasedSet(s.pc, s.sems, m, x', t);
  }

  lemma QueueUnit(x: Sem, pc: Pcs, m: SemId, t: Tid)
    requires Counted(x) && (x.mutex ==> Exclusive(x, pc, m)) && x.core.count == 0
    ensures var x' := x.(core := TakeOrQueue(x.core, t), arrivals := x.arrivals + [t]);
            Counted(x') && (x.mutex ==> Exclusive(x', pc, m))
  {
  }

  /** The contended `down`, from client code or at the end of `CondVar::wait`. */
  lemma BlockKeeps(s: State, t: Tid, m: SemId, back: Option<CondId>)
    requires Inv(s) && t == s.sched.active && t in s.pc && m in s.sems && s.sems[m].core.count == 0
    requires t in s.sched.tasks && s.sched.tasks[t] == Runnable
    requires if back.None? then s.pc[t].Running? else s.pc[t] == Relock(back.value, m)
    ensures Inv(Block(s, t, m, back))
  {
    hide Tables, SemQueues, CondQueues, Semaphores, Notifiers, ReleasedOnce, Counted, Exclusive, InNoSemQueue,
        InNoCondQueue;
    var s' := Block(s, t, m, back);
    var x, x' := s.sems[m], s'.sems[m];
    var p := Window(OnSem(m, back), false);
    TaskFacts(s, t);
    QueueFacts(s, t);
    SemChange(s, m, x');
    TaskChange(WithSem(s, m, x'), t, p, Sleeping, s'.sched.timerMasked);
    NotifiersTask(s.pc, s.sched.tasks, s.taken, t, Sleeping);
    NotifiersMove(s.pc, s'.sched.tasks, s.taken, t, p);
    SemQueuesPush(s.pc, s.sems, m, x', t, p);
    CondQueuesMove(s.pc, s.conds, s.taken, t, p);
    SemFacts(s, m);
    QueueUnit(x, s.pc, m, t);
    SemaphoresSet(s.pc, s.sems, m, x');
    SemaphoresMove(s.pc, s'.sems, t, p);
    LentFacts(s.pc, s.sems, t);
    ReleasedSet(s.pc, s.sems, m, x', t);
    ReleasedMove(s.pc, s'.sems, t, p);
  }

  lemma RemainderIs(n: nat, q: nat, r: nat)
    requires n == COUNT_LIMIT * q + r && r < COUNT_LIMIT
    ensures n % COUNT_LIMIT == r
  {
  }

  /** Counting modulo the width of the counter, one up. */
  lemma CountUp(n: nat)
    ensures (n % COUNT_LIMIT + 1) % COUNT_LIMIT == (n + 1) % COUNT_LIMIT
  {
    var q, r := n / COUNT_LIMIT, n % COUNT_LIMIT;
    if r + 1 < COUNT_LIMIT {
      RemainderIs(n + 1, q, r + 1);
      RemainderIs(r + 1, 0, r + 1);
    } else {
      RemainderIs(n + 1, q + 1, 0);
      RemainderIs(r + 1, 1, 0);
    }
  }

  lemma BankUnit(x: Sem, pc: Pcs, m: SemId, t: Tid)
    requires Counted(x) && (x.mutex ==> Exclusive(x, pc, m) && t in x.owners) && x.core.queue == []
    ensures var x' := x.(core := GiveOrPass(x.core), ups := x.ups + 1, owners := x.owners - {t});
            Counted(x') && (x.mutex ==> Exclusive(x', pc, m))
  {
    var x' := x.(core := GiveOrPass(x.core), ups := x.ups + 1, owners := x.owners - {t});
    CountUp(x.init + x.ups - |x.granted|);
    if x.mutex {
      forall u ensures u !in x'.owners && !InFlight(pc, u, m) {
        assert u in x.owners || InFlight(pc, u, m) ==> HasUnit(x, u);
      }
    }
  }

  /** The unit goes straight to the head of the queue: nobody else can take it in between. */
  lemma PassUnit(x: Sem, pc: Pcs, m: SemId, t: Tid, h: Tid)
    requires Counted(x) && (x.mutex ==> Exclusive(x, pc, m) && t in x.owners) && x.core.queue != []
    requires h == x.core.queue[0] && WaitsOnSem(pc, h, m) && !pc[h].up && h != t
    ensures var x' := x.(core := GiveOrPass(x.core), ups := x.ups + 1, owners := x.owners - {t},
                         granted := x.granted + [h]);
            Counted(x') && (x.mutex ==> Exclusive(x', pc[h := Raised(pc[h])], m))
  {
    var x' := x.(core := GiveOrPass(x.core), ups := x.ups + 1, owners := x.owners - {t}, granted := x.granted + [h]);
    var pc' := pc[h := Raised(pc[h])];
    assert x.core.queue == [h] + x.core.queue[1..];
    assert x'.arrivals == x'.granted + x'.core.queue;
    if x.mutex {
      forall u ensures u !in x'.owners && (InFlight(pc', u, m) ==> u == h) {
        assert u in x.owners || InFlight(pc, u, m) ==> HasUnit(x, u);
      }
    }
  }

  /** A semaphore granted to its head while all others stay as they are. */
  lemma SemaphoresGrant(pc: Pcs, sems: Sems, m: SemId, x: Sem, h: Tid)
    requires Semaphores(pc, sems) && WaitsOnSem(pc, h, m)
    requires Counted(x) && (x.mutex ==> Exclusive(x, pc[h := Raised(pc[h])], m))
    ensures Semaphores(pc[h := Raised(pc[h])], sems[m := x])
  {
    var pc', sems' := pc[h := Raised(pc[h])], sems[m := x];
    forall n | n in sems' && sems'[n].mutex ensures Exclusive(sems'[n], pc', n) {
      if n != m {
        assert Exclusive(sems[n], pc, n);
        forall u ensures InFlight(pc', u, n) <==> InFlight(pc, u, n) {
        }
      }
    }
  }

  /** What `up` keeps in the middle of `CondVar::wait`, where ReleasedOnce does not hold. */
  ghost predicate Mid(s: State) {
    Tables(s) && Queues(s) && Notifiers(s.pc, s.sched.tasks, s.taken) && Timer(s.pc, s.sched)
  }

  lemma ReleaseBanks(s: State, t: Tid, m: SemId)
    requires Mid(s) && t in s.pc && m in s.sems && s.sems[m].core.queue == []
    requires s.sems[m].mutex ==> t in s.sems[m].owners
    ensures Mid(Release(s, t, m))
  {
    hide Tables, SemQueues, CondQueues, Semaphores, Notifiers, Counted, Exclusive;
    var x, x' := s.sems[m], Release(s, t, m).sems[m];
    SemFacts(s, m);
    BankUnit(x, s.pc, m, t);
    SemChange(s, m, x');
    SemQueuesSet(s.pc, s.sems, m, x');
    SemaphoresSet(s.pc, s.sems, m, x');
  }

  lemma ReleasePasses(s: State, t: Tid, m: SemId)
    requires Mid(s) && t in s.pc && m in s.sems && s.sems[m].core.queue != []
    requires s.sems[m].mutex ==> t in s.sems[m].owners
    requires s.sched.active == t || s.sched.active == 0
    requires !(Waiting(s.pc[t]) && s.pc[t].w.OnSem?)
    ensures Mid(Release(s, t, m))
  {
    hide Tables, SemQueues, CondQueues, Semaphores, Notifiers, Counted, Exclusive, InNoSemQueue, InNoCondQueue;
    var s' := Release(s, t, m);
    var x, x' := s.sems[m], s'.sems[m];
    var h := x.core.queue[0];
    SemFacts(s, m);
    var p := Raised(s.pc[h]);
    TaskFacts(s, h);
    QueueFacts(s, h);
    PassUnit(x, s.pc, m, t, h);
    TaskChange(s, h, p, Runnable, s'.sched.timerMasked);
    SemChange(WithTask(s, h, p, Runnable, s'.sched.timerMasked), m, x');
    NotifiersTask(s.pc, s.sched.tasks, s.taken, h, Runnable);
    NotifiersMove(s.pc, s'.sched.tasks, s.taken, h, p);
    SemQueuesPop(s.pc, s.sems, m, x');
    SemQueuesMove(s.pc, s'.sems, h, p);
    CondQueuesMove(s.pc, s.conds, s.taken, h, p);
    SemaphoresGrant(s.pc, s.sems, m, x', h);
  }

  /** `up` by a task that does not wait for a semaphore itself. */
  lemma ReleaseKeeps(s: State, t: Tid, m: SemId)
    requires Mid(s) && t in s.pc && m in s.sems
    requires s.sems[m].mutex ==> t in s.sems[m].owners
    requires s.sched.active == t || s.sched.active == 0
    requires !(Waiting(s.pc[t]) && s.pc[t].w.OnSem?)
    ensures Mid(Release(s, t, m))
  {
    hide Mid;
    if s.sems[m].core.queue == [] {
      ReleaseBanks(s, t, m);
    } else {
      ReleasePasses(s, t, m);
    }
  }

  /** The releasing task may be the one that lends this very mutex: it no longer owns it. */
  lemma ReleaseReleases(s: State, t: Tid, m: SemId)
    requires m in s.sems && t in s.pc
    requires forall u :: u in s.pc && u != t ==> LentOk(s.pc[u], u, s.sems)
    requires Lent(s.pc[t]).None? || Lent(s.pc[t]) == Some(m)
    requires Waiting(s.pc[t]) && s.pc[t].w.OnCond? ==> s.pc[t].w.releases == 1
    ensures var s' := Release(s, t, m); ReleasedOnce(s'.pc, s'.sems)
  {
    var s' := Release(s, t, m);
    forall u | u in s'.pc ensures LentOk(s'.pc[u], u, s'.sems) {
      assert u != t ==> LentOk(s.pc[u], u, s.sems);
      assert Lent(s'.pc[u]) == Lent(s.pc[u]);
    }
  }

  lemma ReleaseByRunning(s: State, t: Tid, m: SemId)
    requires m in s.sems && t in s.pc && s.pc[t].Running? && ReleasedOnce(s.pc, s.sems)
    ensures var s' := Release(s, t, m); ReleasedOnce(s'.pc, s'.sems)
  {
    ReleaseReleases(s, t, m);
  }

  /** Queueing on a condition variable and preparing for sleep. */
  lemma EnterKeeps(s: State, t: Tid, c: CondId, m: SemId)
    requires Inv(s) && t == s.sched.active && t in s.pc && s.pc[t].Running? && c in s.conds && IsMutex(s.sems, m)
    requires t in s.sched.tasks && s.sched.tasks[t] == Runnable
    requires c.StateCond? ==>
      c.t in s.parent && s.parent[c.t] == t && c.t in s.sched.tasks && s.sched.tasks[c.t] != Zombie
    ensures Mid(Enter(s, t, c, m))
  {
    hide SemQueues, CondQueues, Semaphores, Notifiers, ReleasedOnce, InNoSemQueue, InNoCondQueue;
    hide Shape, Refs, Places, Kept, Joins;
    var s' := Enter(s, t, c, m);
    var x' := s'.conds[c];
    var p := Window(OnCond(c, m, 1), false);
    TaskFacts(s, t);
    QueueFacts(s, t);
    CondChange(s, c, x', s.taken);
    TaskChange(s.(conds := s.conds[c := x']), t, p, Sleeping, s'.sched.timerMasked);
    NotifiersTask(s.pc, s.sched.tasks, s.taken, t, Sleeping);
    NotifiersMove(s.pc, s'.sched.tasks, s.taken, t, p);
    SemQueuesMove(s.pc, s.sems, t, p);
    CondQueuesPush(s.pc, s.conds, s.taken, c, x', t, p);
    SemaphoresMove(s.pc, s.sems, t, p);
  }

  lemma WaitKeeps(s: State, t: Tid, c: CondId, m: SemId)
    requires Inv(s) && t == s.sched.active && Enabled(s, WaitOn(c, m))
    ensures Inv(Apply(s, WaitOn(c, m)))
  {
    hide Tables, Queues, Notifiers, Timer;
    TaskFacts(s, t);
    ActiveFacts(s);
    EnterKeeps(s, t, c, m);
    ReleaseKeeps(Enter(s, t, c, m), t, m);
    ReleaseReleases(Enter(s, t, c, m), t, m);
  }

  lemma UpKeeps(s: State, t: Tid, m: SemId)
    requires Inv(s) && t == s.sched.active && Enabled(s, Up(m))
    ensures Inv(Apply(s, Up(m)))
  {
    hide Tables, Queues, Notifiers, Timer, ReleasedOnce;
    ReleaseKeeps(s, t, m);
    ReleaseByRunning(s, t, m);
  }

  /** A task that is done waiting takes the next place in its own code. */
  lemma MoveOn(s: State, t: Tid, p: Pc)
    requires Inv(s) && t in s.pc && t in s.sched.tasks && s.sched.tasks[t] == Runnable && t !in s.taken
    requires InNoSemQueue(s.sems, t) && InNoCondQueue(s.conds, t)
    requires !IsNotifier(s.pc[t]) && !IsNotifier(p) && PlaceOk(p, Runnable)
    requires RefsOk(p, s.sems, s.conds) && JoinOk(p, t, s.sched.tasks, s.parent) && LentOk(p, t, s.sems)
    requires forall m :: InFlight(s.pc[t := p], t, m) ==> InFlight(s.pc, t, m)
    ensures Inv(MoveTo(s, t, p))
  {
    hide Tables, SemQueues, CondQueues, Semaphores, Notifiers, ReleasedOnce, Timer, InNoSemQueue, InNoCondQueue;
    TaskChange(s, t, p, Runnable, s.sched.timerMasked);
    NotifiersMove(s.pc, s.sched.tasks, s.taken, t, p);
    SemQueuesMove(s.pc, s.sems, t, p);
    CondQueuesMove(s.pc, s.conds, s.taken, t, p);
    SemaphoresMove(s.pc, s.sems, t, p);
    ReleasedMove(s.pc, s.sems, t, p);
    TimerMove(s.pc, s.sched, t, p);
    assert MoveTo(s, t, p) == WithTask(s, t, p, Runnable, s.sched.timerMasked);
  }

  lemma DownKeeps(s: State, t: Tid, m: SemId)
    requires Inv(s) && t == s.sched.active && Enabled(s, Down(m))
    ensures Inv(Apply(s, Down(m)))
  {
    hide Inv;
    if s.sems[m].core.count > 0 {
      TakeKeeps(s, t, m);
    } else {
      ActiveRunnable(s, t);
      BlockKeeps(s, t, m, None);
    }
  }

  /** The active task is Runnable outside the window before `putMeToSleep`. */
  lemma ActiveRunnable(s: State, t: Tid)
    requires Inv(s) && t == s.sched.active && t in s.pc && !s.pc[t].Window?
    ensures t in s.sched.tasks && s.sched.tasks[t] == Runnable
  {
    hide Tables, Queues, Notifiers, ReleasedOnce, Timer;
    ActiveFacts(s);
  }

  lemma LockAgainKeeps(s: State, t: Tid)
    requires Inv(s) && t == s.sched.active && Enabled(s, LockAgain)
    ensures Inv(Apply(s, LockAgain))
  {
    hide Tables, Queues, Notifiers, ReleasedOnce, Timer, InNoSemQueue, InNoCondQueue;
    var c, m := s.pc[t].c, s.pc[t].m;
    ActiveRunnable(s, t);
    if s.sems[m].core.count > 0 {
      QueueFacts(s, t);
      MoveOn(s, t, Running);
      TakeKeeps(MoveTo(s, t, Running), t, m);
      assert Apply(s, LockAgain) == Take(MoveTo(s, t, Running), t, m);
    } else {
      BlockKeeps(s, t, m, Some(c));
    }
  }

  /** Out of `putMeToSleep`: only a task whose waiter is up gets here. */
  lemma ReturnKeeps(s: State, t: Tid)
    requires Inv(s) && t in s.pc && Waiting(s.pc[t]) && t in s.sched.tasks && s.sched.tasks[t] == Runnable
    ensures Inv(MoveTo(s, t, Returned(s.pc[t].w, s.pc[t].up)))
  {
    hide Tables, Queues, Notifiers, ReleasedOnce, Timer, InNoSemQueue, InNoCondQueue;
    TaskFacts(s, t);
    QueueFacts(s, t);
    LentFacts(s.pc, s.sems, t);
    MoveOn(s, t, Returned(s.pc[t].w, s.pc[t].up));
  }

  /** The context is saved while nobody else can run; then another task is chosen. */
  lemma SaveKeeps(s: State, t: Tid)
    requires Inv(s) && s.sched.active == 0 && t in s.pc && s.pc[t].Window? && t in s.sched.tasks
    requires s.sched.tasks[t] == Sleeping && t !in s.taken
    ensures Inv(MoveTo(s, t, Saved(s.pc[t].w, s.pc[t].up)))
  {
    hide Tables, SemQueues, CondQueues, Semaphores, Notifiers, ReleasedOnce, Timer, InNoSemQueue, InNoCondQueue;
    var p := Saved(s.pc[t].w, s.pc[t].up);
    TaskFacts(s, t);
    SleeperFacts(s, t);
    LentFacts(s.pc, s.sems, t);
    TaskChange(s, t, p, Sleeping, s.sched.timerMasked);
    NotifiersMove(s.pc, s.sched.tasks, s.taken, t, p);
    SemQueuesMove(s.pc, s.sems, t, p);
    CondQueuesMove(s.pc, s.conds, s.taken, t, p);
    SemaphoresMove(s.pc, s.sems, t, p);
    ReleasedMove(s.pc, s.sems, t, p);
    TimerMove(s.pc, s.sched, t, p);
    assert MoveTo(s, t, p) == WithTask(s, t, p, Sleeping, s.sched.timerMasked);
  }

  lemma GoToSleepKeeps(s: State, t: Tid)
    requires Inv(s) && t == s.sched.active && Enabled(s, GoToSleep)
    ensures Inv(Apply(s, GoToSleep))
  {
    hide Tables, Queues, Notifiers, ReleasedOnce, Timer;
    TaskFacts(s, t);
    ActiveFacts(s);
    if s.sched.tasks[t] == Sleeping {
      SleeperFacts(s, t);
      var s0 := s.(sched := s.sched.(active := 0));
      ActivateKeeps(s, 0);
      SaveKeeps(s0, t);
      ActivateKeeps(MoveTo(s0, t, Saved(s.pc[t].w, s.pc[t].up)), Apply(s, GoToSleep).sched.active);
      assert Apply(s, GoToSleep).sched.tasks == s.sched.tasks;
    } else {
      ReturnKeeps(s, t);
    }
  }

  lemma ResumeKeeps(s: State, t: Tid)
    requires Inv(s) && t == s.sched.active && Enabled(s, Resume)
    ensures Inv(Apply(s, Resume))
  {
    hide Inv;
    ActiveRunnable(s, t);
    ReturnKeeps(s, t);
  }

  /** A blocked task whose unit was handed over while it slept returns from `down`. */
  lemma GrantedKeeps(s: State, t: Tid, m: SemId)
    requires Inv(s) && t == s.sched.active && t in s.pc && s.pc[t].Returned? && InFlight(s.pc, t, m) && m in s.sems
    ensures Inv(Granted(s, t, m))
  {
    hide Tables, SemQueues, CondQueues, Semaphores, Notifiers, ReleasedOnce, Timer, InNoSemQueue, InNoCondQueue,
        Counted;
    var s' := Granted(s, t, m);
    var x, x' := s.sems[m], s'.sems[m];
    ActiveRunnable(s, t);
    QueueFacts(s, t);
    SemFacts(s, m);
    MoveOn(s, t, Running);
    SemChange(MoveTo(s, t, Running), m, x');
    SemQueuesSet(s'.pc, s.sems, m, x');
    GrantedUnit(x, s.pc, m, t);
    SemaphoresSet(s'.pc, s.sems, m, x');
    ReleasedSet(s'.pc, s.sems, m, x', t);
  }

  lemma GrantedUnit(x: Sem, pc: Pcs, m: SemId, t: Tid)
    requires Counted(x) && (x.mutex ==> Exclusive(x, pc, m)) && InFlight(pc, t, m)
    ensures var x' := x.(owners := if x.mutex then x.owners + {t} else x.owners);
      Counted(x') && (x.mutex ==> Exclusive(x', pc[t := Running], m))
  {
    var pc' := pc[t := Running];
    forall u | InFlight(pc', u, m) ensures InFlight(pc, u, m) && u != t {
    }
  }

  /** The loop test. `up` is always set here, so neither loop body runs twice. */
  lemma CheckKeeps(s: State, t: Tid)
    requires Inv(s) && t == s.sched.active && Enabled(s, Check)
    ensures Inv(Apply(s, Check))
  {
    hide Tables, Queues, Notifiers, ReleasedOnce, Timer, InNoSemQueue, InNoCondQueue;
    var w := s.pc[t].w;
    TaskFacts(s, t);
    ActiveRunnable(s, t);
    QueueFacts(s, t);
    LentFacts(s.pc, s.sems, t);
    if w.OnSem? {
      GrantedKeeps(s, t, w.s);
    } else {
      MoveOn(s, t, Relock(w.c, w.m));
    }
  }

  lemma GatherFacts(s: State, t: Tid, c: CondId, n: nat)
    requires Inv(s) && t in s.pc && s.pc[t].Running? && c in s.conds && c.PlainCond? && n <= |s.conds[c].queue|
    ensures var ws := s.conds[c].queue[..n];
      Distinct(ws) && t !in ws
      && forall h :: h in ws ==> h !in s.taken && h in s.pc && h in s.sched.tasks
                                 && HeldOk(s.pc[h], s.sched.tasks[h], SetUp(ws), h)
  {
    hide Refs, Kept, Conditions, Joins, SemQueues, Semaphores, Notifiers, ReleasedOnce, Timer;
    var q := s.conds[c].queue;
    assert Distinct(q);
    forall h | h in q[..n] ensures WaitsOnCond(s.pc, h, c) && !s.pc[h].up && h !in s.taken && h in s.sched.tasks {
      assert h in q;
    }
  }

  /** A notifier takes the first `n` waiters off the queue. */
  lemma GatherKeeps(s: State, t: Tid, c: CondId, n: nat)
    requires Inv(s) && t == s.sched.active && t in s.pc && s.pc[t].Running?
    requires c in s.conds && c.PlainCond? && 0 < n <= |s.conds[c].queue|
    ensures Inv(Gather(s, t, c, n))
  {
    hide Shape, Refs, Places, Kept, Joins, SemQueues, CondQueues, Semaphores, Notifiers, ReleasedOnce, Timer;
    hide InNoSemQueue, InNoCondQueue;
    var s' := Gather(s, t, c, n);
    var x, x' := s.conds[c], s'.conds[c];
    var ws := x.queue[..n];
    ActiveRunnable(s, t);
    TaskFacts(s, t);
    QueueFacts(s, t);
    GatherFacts(s, t, c, n);
    assert x.queue == ws + x'.queue;
    CondChange(s, c, x', s'.taken);
    TaskChange(s.(conds := s'.conds, taken := s'.taken), t, SetUp(ws), Runnable, s.sched.timerMasked);
    NotifiersTake(s.pc, s.sched.tasks, s.taken, t, ws);
    SemQueuesMove(s.pc, s.sems, t, SetUp(ws));
    CondQueuesPop(s.pc, s.conds, s.taken, c, x', n);
    CondQueuesTaken(s.pc, s'.conds, s.taken, s'.taken);
    OutOfCondQueues(s.pc, s'.conds, s'.taken, t);
    CondQueuesMove(s.pc, s'.conds, s'.taken, t, SetUp(ws));
    SemaphoresMove(s.pc, s.sems, t, SetUp(ws));
    ReleasedMove(s.pc, s.sems, t, SetUp(ws));
    TimerMove(s.pc, s.sched, t, SetUp(ws));
    assert s' == WithTask(s.(conds := s'.conds, taken := s'.taken), t, SetUp(ws), Runnable, s.sched.timerMasked);
  }

  /** `curWaiter->up = true`. */
  lemma RaiseKeeps(s: State, t: Tid)
    requires Inv(s) && t == s.sched.active && t in s.pc && s.pc[t].SetUp? && s.pc[t].ps != []
    ensures Inv(DoWake(s, t))
  {
    hide Tables, SemQueues, CondQueues, Semaphores, Notifiers, ReleasedOnce, Timer, InNoSemQueue, InNoCondQueue;
    var s' := DoWake(s, t);
    var ps := s.pc[t].ps;
    var h := ps[0];
    NotifiersRaise(s.pc, s.sched.tasks, s.taken, t, ps);
    var p := Raised(s.pc[h]);
    ActiveRunnable(s, t);
    TaskFacts(s, t);
    TaskFacts(s, h);
    QueueFacts(s, t);
    QueueFacts(s, h);
    LentFacts(s.pc, s.sems, h);
    var s1 := WithTask(s, h, p, Sleeping, s.sched.timerMasked);
    TaskChange(s, h, p, Sleeping, s.sched.timerMasked);
    TaskChange(s1, t, SetRunnable(ps), Runnable, s.sched.timerMasked);
    SemQueuesMove(s.pc, s.sems, h, p);
    SemQueuesMove(s1.pc, s.sems, t, SetRunnable(ps));
    CondQueuesMove(s.pc, s.conds, s.taken, h, p);
    CondQueuesMove(s1.pc, s.conds, s.taken, t, SetRunnable(ps));
    SemaphoresMove(s.pc, s.sems, h, p);
    SemaphoresMove(s1.pc, s.sems, t, SetRunnable(ps));
    ReleasedMove(s.pc, s.sems, h, p);
    ReleasedMove(s1.pc, s.sems, t, SetRunnable(ps));
    TimerMove(s.pc, s.sched, h, p);
    TimerMove(s1.pc, s.sched, t, SetRunnable(ps));
    assert s' == WithTask(s1, t, SetRunnable(ps), Runnable, s.sched.timerMasked);
  }

  /** `task.sh.state = Runnable`; the timer mask is only recomputed in the next step. */
  lemma MakeRunnableKeeps(s: State, t: Tid)
    requires Inv(s) && t == s.sched.active && t in s.pc && s.pc[t].SetRunnable? && s.pc[t].ps != []
    ensures Inv(DoWake(s, t))
  {
    hide Tables, SemQueues, CondQueues, Semaphores, Notifiers, ReleasedOnce, InNoSemQueue, InNoCondQueue;
    var s' := DoWake(s, t);
    var ps := s.pc[t].ps;
    var h := ps[0];
    NotifiersWake(s.pc, s.sched.tasks, s.taken, t, ps);
    ActiveRunnable(s, t);
    TaskFacts(s, t);
    TaskFacts(s, h);
    QueueFacts(s, t);
    var p := Mask(ps[1..]);
    var s1 := WithTask(s, h, s.pc[h], Runnable, s.sched.timerMasked);
    TaskChange(s, h, s.pc[h], Runnable, s.sched.timerMasked);
    LetGo(s1, h);
    TaskChange(s1.(taken := s.taken - {h}), t, p, Runnable, s.sched.timerMasked);
    SemQueuesMove(s.pc, s.sems, t, p);
    CondQueuesMove(s.pc, s.conds, s.taken, t, p);
    CondQueuesTaken(s'.pc, s.conds, s.taken, s'.taken);
    SemaphoresMove(s.pc, s.sems, t, p);
    ReleasedMove(s.pc, s.sems, t, p);
    assert s'.pc[t].Mask?;
    assert s' == WithTask(s1.(taken := s.taken - {h}), t, p, Runnable, s.sched.timerMasked);
  }

  lemma MaskKeeps(s: State, t: Tid)
    requires Inv(s) && t == s.sched.active && t in s.pc && s.pc[t].Mask?
    ensures Inv(DoWake(s, t))
  {
    hide Tables, SemQueues, CondQueues, Semaphores, Notifiers, ReleasedOnce, InNoSemQueue, InNoCondQueue;
    var s' := DoWake(s, t);
    var ps := s.pc[t].ps;
    var p := if ps == [] then Running else SetUp(ps);
    NotifiersNext(s.pc, s.sched.tasks, s.taken, t, ps);
    ActiveRunnable(s, t);
    QueueFacts(s, t);
    TaskChange(s, t, p, Runnable, s'.sched.timerMasked);
    SemQueuesMove(s.pc, s.sems, t, p);
    CondQueuesMove(s.pc, s.conds, s.taken, t, p);
    SemaphoresMove(s.pc, s.sems, t, p);
    ReleasedMove(s.pc, s.sems, t, p);
    assert s' == WithTask(s, t, p, Runnable, s'.sched.timerMasked);
  }
}
