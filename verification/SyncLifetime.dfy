/** Creation and termination of tasks keep the invariant of module SyncInvariant. */
module SyncLifetime {
  import opened Common
  import opened Scheduler
  import opened WaitQueues
  import opened Sync
  import opened SyncInvariant
  import opened SyncFrames
  import opened SyncSteps

  // ----- creation: each part again, now with one more task, mutex and condition

  lemma SpawnFresh(s: State, tid: Tid)
    requires Shape(s.sched, s.pc, s.sems, s.conds, s.parent) && IsFreeTid(s.sched, tid)
    ensures tid !in s.pc && StateMutex(tid) !in s.sems && StateCond(tid) !in s.conds && tid !in s.parent && tid > 0
  {
  }

  lemma SpawnShape(s: State, t: Tid, tid: Tid)
    requires Shape(s.sched, s.pc, s.sems, s.conds, s.parent) && tid > 0
    ensures var s' := DoSpawn(s, t, tid); Shape(s'.sched, s'.pc, s'.sems, s'.conds, s'.parent)
  {
    hide IsFreeTid, TimerMasked;
    var s' := DoSpawn(s, t, tid);
    assert s'.pc.Keys == s.pc.Keys + {tid} && s'.sched.tasks.Keys == s.sched.tasks.Keys + {tid};
  }

  lemma SpawnRefs(pc: Pcs, sems: Sems, conds: Conds, tid: Tid)
    requires Refs(pc, sems, conds) && StateMutex(tid) !in sems
    ensures Refs(pc[tid := Running], sems[StateMutex(tid) := FreshMutex()], conds[StateCond(tid) := Cond([], [], [])])
  {
    forall u | u in pc && u != tid
      ensures RefsOk(pc[u], sems[StateMutex(tid) := FreshMutex()], conds[StateCond(tid) := Cond([], [], [])])
    {
      assert RefsOk(pc[u], sems, conds);
    }
  }

  lemma SpawnKept(pc: Pcs, tasks: Tasks, sems: Sems, conds: Conds, taken: map<Tid, Tid>, tid: Tid)
    requires Kept(pc, tasks, sems, conds, taken) && StateMutex(tid) !in sems && StateCond(tid) !in conds
    ensures Kept(pc[tid := Running], tasks[tid := Runnable], sems[StateMutex(tid) := FreshMutex()],
                 conds[StateCond(tid) := Cond([], [], [])], taken)
  {
    forall u | u in pc && u in tasks && u != tid && tasks[u] == Sleeping && u !in taken
      ensures Queued(pc[u], u, sems[StateMutex(tid) := FreshMutex()], conds[StateCond(tid) := Cond([], [], [])])
    {
      assert Queued(pc[u], u, sems, conds);
    }
  }

  lemma SpawnJoins(pc: Pcs, tasks: Tasks, parent: map<Tid, Tid>, t: Tid, tid: Tid)
    requires Joins(pc, tasks, parent) && tid !in parent
    ensures Joins(pc[tid := Running], tasks[tid := Runnable], parent[tid := t])
  {
    forall u | u in pc && u != tid ensures JoinOk(pc[u], u, tasks[tid := Runnable], parent[tid := t]) {
      assert JoinOk(pc[u], u, tasks, parent);
    }
  }

  lemma SpawnSemQueues(pc: Pcs, sems: Sems, tid: Tid)
    requires SemQueues(pc, sems) && tid !in pc
    ensures SemQueues(pc[tid := Running], sems[StateMutex(tid) := FreshMutex()])
  {
    var pc', sems' := pc[tid := Running], sems[StateMutex(tid) := FreshMutex()];
    forall m, u | m in sems' && u in sems'[m].core.queue ensures WaitsOnSem(pc', u, m) && !pc'[u].up {
      assert WaitsOnSem(pc, u, m);
    }
  }

  lemma SpawnCondQueues(pc: Pcs, conds: Conds, taken: map<Tid, Tid>, tid: Tid)
    requires CondQueues(pc, conds, taken) && tid !in pc
    ensures CondQueues(pc[tid := Running], conds[StateCond(tid) := Cond([], [], [])], taken)
  {
    var pc', conds' := pc[tid := Running], conds[StateCond(tid) := Cond([], [], [])];
    forall c, u | c in conds' && u in conds'[c].queue ensures WaitsOnCond(pc', u, c) && !pc'[u].up && u !in taken {
      assert WaitsOnCond(pc, u, c);
    }
  }

  lemma SpawnSemaphores(pc: Pcs, sems: Sems, conds: Conds, tid: Tid)
    requires Semaphores(pc, sems) && Refs(pc, sems, conds) && tid !in pc && StateMutex(tid) !in sems
    ensures Semaphores(pc[tid := Running], sems[StateMutex(tid) := FreshMutex()])
  {
    var pc', sems' := pc[tid := Running], sems[StateMutex(tid) := FreshMutex()];
    forall m | m in sems' && sems'[m].mutex ensures Exclusive(sems'[m], pc', m) {
      forall u ensures InFlight(pc', u, m) <==> InFlight(pc, u, m) {
      }
      if m == StateMutex(tid) {
        forall u ensures !InFlight(pc, u, m) {
          assert u in pc ==> RefsOk(pc[u], sems, conds);
        }
      } else {
        assert Exclusive(sems[m], pc, m);
      }
    }
  }

  lemma SpawnNotifiers(pc: Pcs, tasks: Tasks, taken: map<Tid, Tid>, tid: Tid)
    requires Notifiers(pc, tasks, taken) && tid !in pc
    ensures Notifiers(pc[tid := Running], tasks[tid := Runnable], taken)
  {
    var pc', tasks' := pc[tid := Running], tasks[tid := Runnable];
    forall k, u | Holds(pc', k, u) ensures u in taken && taken[u] == k {
      assert Holds(pc, k, u);
    }
    forall u | u in taken
      ensures Holds(pc', taken[u], u) && u in pc' && u in tasks' && HeldOk(pc'[u], tasks'[u], pc'[taken[u]], u)
    {
      assert Holds(pc, taken[u], u) && HeldOk(pc[u], tasks[u], pc[taken[u]], u);
    }
  }

  lemma SpawnReleased(pc: Pcs, sems: Sems, conds: Conds, tid: Tid)
    requires ReleasedOnce(pc, sems) && Refs(pc, sems, conds) && tid !in pc && StateMutex(tid) !in sems
    ensures ReleasedOnce(pc[tid := Running], sems[StateMutex(tid) := FreshMutex()])
  {
    forall u | u in pc ensures LentOk(pc[u], u, sems[StateMutex(tid) := FreshMutex()]) {
      assert LentOk(pc[u], u, sems) && RefsOk(pc[u], sems, conds);
    }
  }

  lemma SpawnKeeps(s: State, t: Tid, tid: Tid)
    requires Inv(s) && t == s.sched.active && Enabled(s, Spawn(tid))
    ensures Inv(Apply(s, Spawn(tid)))
  {
    hide Shape, Refs, Places, Kept, Joins, SemQueues, CondQueues, Semaphores, Notifiers, ReleasedOnce;
    SpawnFresh(s, tid);
    SpawnShape(s, t, tid);
    SpawnRefs(s.pc, s.sems, s.conds, tid);
    PlacesSet(s.pc, s.sched.tasks, tid, Running, Runnable);
    SpawnKept(s.pc, s.sched.tasks, s.sems, s.conds, s.taken, tid);
    SpawnJoins(s.pc, s.sched.tasks, s.parent, t, tid);
    SpawnSemQueues(s.pc, s.sems, tid);
    SpawnCondQueues(s.pc, s.conds, s.taken, tid);
    SpawnSemaphores(s.pc, s.sems, s.conds, tid);
    SpawnNotifiers(s.pc, s.sched.tasks, s.taken, tid);
    SpawnReleased(s.pc, s.sems, s.conds, tid);
  }

  // ----- termination

  /** Whoever waits for a task that is still alive sits alone in the queue of its state condition. */
  lemma WaitersOf(s: State, k: Tid)
    requires Inv(s) && k in s.pc && k in s.sched.tasks && s.sched.tasks[k] != Zombie
    ensures StateCond(k) in s.conds
    ensures forall u :: u in s.pc && Child(s.pc[u]) == Some(k) ==> u in s.conds[StateCond(k)].queue
    ensures |s.conds[StateCond(k)].queue| <= 1
  {
    TaskFacts(s, k);
    assert |s.conds[StateCond(k)].queue| <= 1 by { OneWaiter(s, k); }
    forall u | u in s.pc && Child(s.pc[u]) == Some(k) ensures u in s.conds[StateCond(k)].queue {
      WaiterQueued(s, k, u);
    }
  }

  lemma OneWaiter(s: State, k: Tid)
    requires Tables(s) && Queues(s) && StateCond(k) in s.conds
    ensures |s.conds[StateCond(k)].queue| <= 1
  {
    hide Shape, Refs, Places, Kept, Conditions, SemQueues, Semaphores;
    var q := s.conds[StateCond(k)].queue;
    forall w | w in q ensures k in s.parent && s.parent[k] == w {
      assert WaitsOnCond(s.pc, w, StateCond(k));
      assert JoinOk(s.pc[w], w, s.sched.tasks, s.parent);
    }
    if |q| > 1 {
      TwoDiffer(q);
      assert false;
    }
  }

  lemma TwoDiffer(q: seq<Tid>)
    requires Distinct(q) && |q| > 1
    ensures exists a, b :: a in q && b in q && a != b
  {
    assert q[0] in q && q[1] in q && q[0] != q[1];
  }

  lemma WaiterQueued(s: State, k: Tid, u: Tid)
    requires Inv(s) && k in s.sched.tasks && s.sched.tasks[k] != Zombie && u in s.pc && Child(s.pc[u]) == Some(k)
    ensures StateCond(k) in s.conds && u in s.conds[StateCond(k)].queue
  {
    hide Tables, Queues, Notifiers, ReleasedOnce, Timer;
    TaskFacts(s, u);
    QueueFacts(s, u);
    SleeperFacts(s, u);
  }

  /** The exiting task has become a zombie, and the task that waits for it, if any, is woken. */
  function Buried(s: State, t: Tid): State
    requires StateCond(t) in s.conds
  {
    Remask(NotifyNow(SetTask(s, t, Zombie), StateCond(t)))
  }

  /** With nobody waiting, only the state of the exiting task changes. */
  lemma BuryAlone(s: State, t: Tid)
    requires Inv(s) && s.sched.active == 0 && t in s.pc && s.pc[t].Running? && t in s.sched.tasks
    requires s.sched.tasks[t] != Zombie && StateCond(t) in s.conds && s.conds[StateCond(t)].queue == []
    ensures Inv(Buried(s, t))
  {
    hide Shape, Refs, Places, Kept, Joins, SemQueues, CondQueues, Semaphores, Notifiers, ReleasedOnce;
    var s' := Buried(s, t);
    QueueFacts(s, t);
    WaitersOf(s, t);
    PlacesSet(s.pc, s.sched.tasks, t, Running, Zombie);
    KeptTask(s.pc, s.sched.tasks, s.sems, s.conds, s.taken, t, Running, Zombie);
    NotifiersTask(s.pc, s.sched.tasks, s.taken, t, Zombie);
    JoinsEnd(s.pc, s.sched.tasks, s.parent, t);
    ShapeKeep(s, s');
    assert s.pc[t := Running] == s.pc;
  }

  lemma JoinsEnd(pc: Pcs, tasks: Tasks, parent: map<Tid, Tid>, t: Tid)
    requires Joins(pc, tasks, parent) && forall u :: u in pc ==> Child(pc[u]) != Some(t)
    ensures Joins(pc, tasks[t := Zombie], parent)
  {
    forall u | u in pc ensures JoinOk(pc[u], u, tasks[t := Zombie], parent) {
      assert JoinOk(pc[u], u, tasks, parent);
    }
  }

  lemma JoinsNotify(pc: Pcs, tasks: Tasks, parent: map<Tid, Tid>, t: Tid, h: Tid)
    requires Joins(pc, tasks, parent) && h in pc && t in tasks && h in tasks && h != t && tasks[h] != Zombie
    requires WaitsOnCond(pc, h, StateCond(t))
    requires forall u :: u in pc && u != h ==> Child(pc[u]) != Some(t)
    ensures Joins(pc[h := Raised(pc[h])], tasks[t := Zombie][h := Runnable], parent)
  {
    var pc', tasks' := pc[h := Raised(pc[h])], tasks[t := Zombie][h := Runnable];
    forall u | u in pc' ensures JoinOk(pc'[u], u, tasks', parent) {
      assert JoinOk(pc[u], u, tasks, parent);
      assert Child(pc'[u]) == Child(pc[u]);
    }
  }

  /** The waiting parent is taken off the queue, its waiter is up and it is Runnable. */
  lemma BuryTables(s: State, t: Tid, h: Tid)
    requires Inv(s) && s.sched.active == 0 && t in s.pc && s.pc[t].Running? && t in s.sched.tasks
    requires s.sched.tasks[t] != Zombie && StateCond(t) in s.conds && s.conds[StateCond(t)].queue == [h]
    requires WaitsOnCond(s.pc, h, StateCond(t)) && !s.pc[h].up
    ensures Tables(Buried(s, t))
  {
    hide Shape, Refs, Places, Kept, Joins, Conditions, Queues, Notifiers, ReleasedOnce, Timer;
    var s' := Buried(s, t);
    var p := Raised(s.pc[h]);
    TaskFacts(s, h);
    WaitersOf(s, t);
    ConditionsPop(s.conds, StateCond(t));
    RefsKeep(s.pc, s.sems, s.conds, s'.sems, s'.conds);
    RefsSet(s.pc, s'.sems, s'.conds, h, p);
    PlacesSet(s.pc, s.sched.tasks, t, Running, Zombie);
    KeptTask(s.pc, s.sched.tasks, s.sems, s.conds, s.taken, t, Running, Zombie);
    assert s.pc[t := Running] == s.pc;
    var tasks := s.sched.tasks[t := Zombie];
    PlacesSet(s.pc, tasks, h, p, Runnable);
    KeptTask(s.pc, tasks, s.sems, s.conds, s.taken, h, p, Runnable);
    KeptCond(s'.pc, s'.sched.tasks, s.sems, s.conds, s.taken, s.taken, StateCond(t), s'.conds[StateCond(t)]);
    JoinsNotify(s.pc, s.sched.tasks, s.parent, t, h);
    ShapeKeep(s, s');
  }

  lemma BuryNotifies(s: State, t: Tid, h: Tid)
    requires Inv(s) && s.sched.active == 0 && t in s.pc && s.pc[t].Running? && t in s.sched.tasks
    requires s.sched.tasks[t] != Zombie && StateCond(t) in s.conds && s.conds[StateCond(t)].queue == [h]
    ensures Inv(Buried(s, t))
  {
    hide Tables, SemQueues, Semaphores, Notifiers, ReleasedOnce, InNoSemQueue, InNoCondQueue;
    var s' := Buried(s, t);
    assert h in s.conds[StateCond(t)].queue && h in s.conds[StateCond(t)].queue[..1];
    assert WaitsOnCond(s.pc, h, StateCond(t)) && !s.pc[h].up;
    var p := Raised(s.pc[h]);
    BuryTables(s, t, h);
    QueueFacts(s, t);
    QueueFacts(s, h);
    LentFacts(s.pc, s.sems, h);
    NotifiersTask(s.pc, s.sched.tasks, s.taken, t, Zombie);
    NotifiersTask(s.pc, s.sched.tasks[t := Zombie], s.taken, h, Runnable);
    NotifiersMove(s.pc, s'.sched.tasks, s.taken, h, p);
    SemQueuesMove(s.pc, s.sems, h, p);
    CondQueuesPop(s.pc, s.conds, s.taken, StateCond(t), s'.conds[StateCond(t)], 1);
    CondQueuesMove(s.pc, s'.conds, s.taken, h, p);
    SemaphoresMove(s.pc, s.sems, h, p);
    ReleasedMove(s.pc, s.sems, h, p);
  }

  lemma BuryKeeps(s: State, t: Tid)
    requires Inv(s) && s.sched.active == 0 && t in s.pc && s.pc[t].Running? && t in s.sched.tasks
    requires s.sched.tasks[t] != Zombie && StateCond(t) in s.conds
    ensures Inv(Buried(s, t))
  {
    hide Inv;
    WaitersOf(s, t);
    if s.conds[StateCond(t)].queue == [] {
      BuryAlone(s, t);
    } else {
      BuryNotifies(s, t, s.conds[StateCond(t)].queue[0]);
    }
  }

  /** The state mutex was free, so nobody is waiting for it when the exiting task unlocks it,
      and recomputing the timer mask before or after that makes no difference. */
  lemma ExitInParts(s: State, t: Tid)
    requires StateMutex(t) in s.sems && StateCond(t) in s.conds
    requires s.sems[StateMutex(t)].core.count > 0 && s.sems[StateMutex(t)].core.queue == []
    ensures var s1 := Take(s.(sched := s.sched.(active := 0)), t, StateMutex(t));
      DoExit(s, t) == Switch(Release(Buried(s1, t), t, StateMutex(t)))
  {
    hide TimerMasked, CyclicNext;
  }

  lemma ExitKeeps(s: State, t: Tid)
    requires Inv(s) && t == s.sched.active && Enabled(s, Exit)
    ensures Inv(Apply(s, Exit))
  {
    hide Tables, Queues, Notifiers, ReleasedOnce, Timer, Exclusive, DoExit, Switch, Release, Buried;
    var m := StateMutex(t);
    ActiveRunnable(s, t);
    TaskFacts(s, t);
    SemFacts(s, m);
    ExitInParts(s, t);
    var s0 := s.(sched := s.sched.(active := 0));
    ActivateKeeps(s, 0);
    TakeKeeps(s0, t, m);
    var s1 := Take(s0, t, m);
    BuryKeeps(s1, t);
    ReleaseAfterBurial(s1, t, m);
    SwitchKeeps(Release(Buried(s1, t), t, m));
  }

  lemma ReleaseAfterBurial(s: State, t: Tid, m: SemId)
    requires StateCond(t) in s.conds && m in s.sems && t in s.sems[m].owners
    requires s.sched.active == 0 && t in s.pc && s.pc[t].Running? && Inv(Buried(s, t))
    ensures m in Buried(s, t).sems && Inv(Release(Buried(s, t), t, m))
  {
    hide Tables, Queues, Notifiers, ReleasedOnce, Timer;
    ReleaseKeeps(Buried(s, t), t, m);
    ReleaseByRunning(Buried(s, t), t, m);
  }
}
