/** How each part of the invariant reacts to a change of the tables it speaks about. */
module SyncFrames {
  import opened Common
  import opened Scheduler
  import opened WaitQueues
  import opened Sync
  import opened SyncInvariant

  /** The two updates that every step is made of: the place and the state of one task. */
  lemma PlacesSet(pc: Pcs, tasks: Tasks, t: Tid, p: Pc, st: TaskState)
    requires Places(pc, tasks) && PlaceOk(p, st)
    ensures Places(pc[t := p], tasks[t := st])
  {
  }

  lemma RefsSet(pc: Pcs, sems: Sems, conds: Conds, t: Tid, p: Pc)
    requires Refs(pc, sems, conds) && RefsOk(p, sems, conds)
    ensures Refs(pc[t := p], sems, conds)
  {
  }

  predicate SameObjects(sems: Sems, conds: Conds, sems': Sems, conds': Conds) {
    && sems.Keys == sems'.Keys && conds.Keys == conds'.Keys
    && forall m :: m in sems ==> sems[m].mutex == sems'[m].mutex
  }

  lemma RefsKeep(pc: Pcs, sems: Sems, conds: Conds, sems': Sems, conds': Conds)
    requires Refs(pc, sems, conds) && SameObjects(sems, conds, sems', conds')
    ensures Refs(pc, sems', conds')
  {
    forall t | t in pc ensures RefsOk(pc[t], sems', conds') {
      assert RefsOk(pc[t], sems, conds);
    }
  }

  lemma ShapeKeep(s: State, s': State)
    requires Shape(s.sched, s.pc, s.sems, s.conds, s.parent) && s'.sched.nextTid == s.sched.nextTid
    requires s'.sched.active == s.sched.active || s'.sched.active == 0 || s'.sched.active in s'.sched.tasks
    requires s'.pc.Keys == s.pc.Keys && s'.sched.tasks.Keys == s.sched.tasks.Keys && s'.parent == s.parent
    requires SameObjects(s.sems, s.conds, s'.sems, s'.conds)
    ensures Shape(s'.sched, s'.pc, s'.sems, s'.conds, s'.parent)
  {
  }

  // ----- semaphore queues

  ghost predicate InNoSemQueue(sems: Sems, t: Tid) {
    forall m :: m in sems ==> t !in sems[m].core.queue
  }

  ghost predicate InNoCondQueue(conds: Conds, t: Tid) {
    forall c :: c in conds ==> t !in conds[c].queue
  }

  lemma OutOfCondQueues(pc: Pcs, conds: Conds, taken: map<Tid, Tid>, t: Tid)
    requires CondQueues(pc, conds, taken) && t in pc
    requires !(Waiting(pc[t]) && pc[t].w.OnCond? && !pc[t].up && t !in taken)
    ensures InNoCondQueue(conds, t)
  {
  }

  lemma SemQueuesMove(pc: Pcs, sems: Sems, t: Tid, p: Pc)
    requires SemQueues(pc, sems) && t in pc
    requires InNoSemQueue(sems, t) || (Waiting(p) && Waiting(pc[t]) && p.w == pc[t].w && p.up == pc[t].up)
    ensures SemQueues(pc[t := p], sems)
  {
    var pc' := pc[t := p];
    forall m, u | m in sems && u in sems[m].core.queue ensures WaitsOnSem(pc', u, m) && !pc'[u].up {
      assert WaitsOnSem(pc, u, m);
    }
  }

  lemma SemQueuesSet(pc: Pcs, sems: Sems, m: SemId, x: Sem)
    requires SemQueues(pc, sems) && m in sems && x.core.queue == sems[m].core.queue
    ensures SemQueues(pc, sems[m := x])
  {
  }

  lemma SemQueuesPush(pc: Pcs, sems: Sems, m: SemId, x: Sem, t: Tid, p: Pc)
    requires SemQueues(pc, sems) && t in pc && m in sems && InNoSemQueue(sems, t)
    requires x.core.queue == sems[m].core.queue + [t]
    requires Waiting(p) && p.w.OnSem? && p.w.s == m && !p.up
    ensures SemQueues(pc[t := p], sems[m := x])
  {
    SemQueuesMove(pc, sems, t, p);
  }

  lemma SemQueuesPop(pc: Pcs, sems: Sems, m: SemId, x: Sem)
    requires SemQueues(pc, sems) && m in sems && sems[m].core.queue != []
    requires x.core.queue == sems[m].core.queue[1..]
    ensures SemQueues(pc, sems[m := x]) && InNoSemQueue(sems[m := x], sems[m].core.queue[0])
  {
    var h := sems[m].core.queue[0];
    assert WaitsOnSem(pc, h, m);
    forall m' | m' in sems && m' != m ensures h !in sems[m'].core.queue {
      assert h in sems[m'].core.queue ==> WaitsOnSem(pc, h, m');
    }
  }

  // ----- condition queues

  lemma CondQueuesMove(pc: Pcs, conds: Conds, taken: map<Tid, Tid>, t: Tid, p: Pc)
    requires CondQueues(pc, conds, taken) && t in pc
    requires InNoCondQueue(conds, t) || (Waiting(p) && Waiting(pc[t]) && p.w == pc[t].w && p.up == pc[t].up)
    ensures CondQueues(pc[t := p], conds, taken)
  {
    var pc' := pc[t := p];
    forall c, u | c in conds && u in conds[c].queue ensures WaitsOnCond(pc', u, c) && !pc'[u].up && u !in taken {
      assert WaitsOnCond(pc, u, c);
    }
  }

  lemma CondQueuesPush(pc: Pcs, conds: Conds, taken: map<Tid, Tid>, c: CondId, x: Cond, t: Tid, p: Pc)
    requires CondQueues(pc, conds, taken) && t in pc && c in conds && InNoCondQueue(conds, t) && t !in taken
    requires x.queue == conds[c].queue + [t]
    requires Waiting(p) && p.w.OnCond? && p.w.c == c && !p.up
    ensures CondQueues(pc[t := p], conds[c := x], taken)
  {
    CondQueuesMove(pc, conds, taken, t, p);
  }

  /** Removing a prefix of a queue; the tasks of that prefix may then be marked as taken. */
  lemma CondQueuesPop(pc: Pcs, conds: Conds, taken: map<Tid, Tid>, c: CondId, x: Cond, n: nat)
    requires CondQueues(pc, conds, taken) && c in conds && n <= |conds[c].queue|
    requires x.queue == conds[c].queue[n..]
    ensures CondQueues(pc, conds[c := x], taken)
    ensures forall h :: h in conds[c].queue[..n] ==> InNoCondQueue(conds[c := x], h)
  {
    forall h | h in conds[c].queue[..n] ensures InNoCondQueue(conds[c := x], h) {
      assert WaitsOnCond(pc, h, c);
      forall c' | c' in conds && c' != c ensures h !in conds[c'].queue {
        assert h in conds[c'].queue ==> WaitsOnCond(pc, h, c');
      }
    }
  }

  lemma CondQueuesTaken(pc: Pcs, conds: Conds, taken: map<Tid, Tid>, taken': map<Tid, Tid>)
    requires CondQueues(pc, conds, taken)
    requires forall h :: h in taken' && h !in taken ==> InNoCondQueue(conds, h)
    ensures CondQueues(pc, conds, taken')
  {
  }

  // ----- nobody is forgotten

  lemma KeptTask(pc: Pcs, tasks: Tasks, sems: Sems, conds: Conds, taken: map<Tid, Tid>, t: Tid, p: Pc, st: TaskState)
    requires Kept(pc, tasks, sems, conds, taken)
    requires st == Sleeping ==> t in taken || Queued(p, t, sems, conds)
    ensures Kept(pc[t := p], tasks[t := st], sems, conds, taken)
  {
  }

  /** A queue may lose whoever does not sleep, or is held by a notifier. */
  lemma KeptSem(pc: Pcs, tasks: Tasks, sems: Sems, conds: Conds, taken: map<Tid, Tid>, m: SemId, x: Sem)
    requires Kept(pc, tasks, sems, conds, taken) && m in sems
    requires forall u :: u in sems[m].core.queue && u in tasks && tasks[u] == Sleeping ==> u in x.core.queue
    ensures Kept(pc, tasks, sems[m := x], conds, taken)
  {
    forall u | u in pc && u in tasks && tasks[u] == Sleeping && u !in taken
      ensures Queued(pc[u], u, sems[m := x], conds)
    {
      assert Queued(pc[u], u, sems, conds);
    }
  }

  lemma KeptCond(pc: Pcs, tasks: Tasks, sems: Sems, conds: Conds, taken: map<Tid, Tid>, taken': map<Tid, Tid>,
                 c: CondId, x: Cond)
    requires Kept(pc, tasks, sems, conds, taken) && c in conds && taken.Keys <= taken'.Keys
    requires forall u :: u in conds[c].queue && u in tasks && tasks[u] == Sleeping ==> u in x.queue || u in taken'
    ensures Kept(pc, tasks, sems, conds[c := x], taken')
  {
    forall u | u in pc && u in tasks && tasks[u] == Sleeping && u !in taken'
      ensures Queued(pc[u], u, sems, conds[c := x])
    {
      assert u !in taken.Keys;
      assert Queued(pc[u], u, sems, conds);
    }
  }

  // ----- notifiers

  lemma NotifiersMove(pc: Pcs, tasks: Tasks, taken: map<Tid, Tid>, t: Tid, p: Pc)
    requires Notifiers(pc, tasks, taken) && t in pc && t !in taken && !IsNotifier(pc[t]) && !IsNotifier(p)
    ensures Notifiers(pc[t := p], tasks, taken)
  {
    var pc' := pc[t := p];
    forall k, u | Holds(pc', k, u) ensures u in taken && taken[u] == k {
      assert Holds(pc, k, u);
    }
    forall u | u in taken
      ensures Holds(pc', taken[u], u) && u in pc' && u in tasks && HeldOk(pc'[u], tasks[u], pc'[taken[u]], u)
    {
      assert Holds(pc, taken[u], u) && HeldOk(pc[u], tasks[u], pc[taken[u]], u);
    }
  }

  lemma NotifiersTask(pc: Pcs, tasks: Tasks, taken: map<Tid, Tid>, t: Tid, st: TaskState)
    requires Notifiers(pc, tasks, taken) && t !in taken
    ensures Notifiers(pc, tasks[t := st], taken)
  {
    forall u | u in taken
      ensures Holds(pc, taken[u], u) && u in pc && u in tasks[t := st]
              && HeldOk(pc[u], tasks[t := st][u], pc[taken[u]], u)
    {
      assert Holds(pc, taken[u], u) && HeldOk(pc[u], tasks[u], pc[taken[u]], u);
    }
  }

  /** A task becomes a notifier that holds the tasks `q` it has just dequeued. */
  lemma NotifiersTake(pc: Pcs, tasks: Tasks, taken: map<Tid, Tid>, t: Tid, q: seq<Tid>)
    requires Notifiers(pc, tasks, taken) && t in pc && t !in taken && pc[t].Running? && Distinct(q) && t !in q
    requires forall h :: h in q ==> h !in taken && h in pc && h in tasks && HeldOk(pc[h], tasks[h], SetUp(q), h)
    ensures Notifiers(pc[t := SetUp(q)], tasks, taken + map w | w in q :: t)
  {
    var pc', taken' := pc[t := SetUp(q)], taken + map w | w in q :: t;
    forall k, u | Holds(pc', k, u) ensures u in taken' && taken'[u] == k {
      if k != t {
        assert Holds(pc, k, u);
      }
    }
    forall u | u in taken'
      ensures Holds(pc', taken'[u], u) && u in pc' && u in tasks && HeldOk(pc'[u], tasks[u], pc'[taken'[u]], u)
    {
      if u in q {
        assert Holds(pc', t, u);
      } else {
        assert Holds(pc, taken[u], u) && HeldOk(pc[u], tasks[u], pc[taken[u]], u);
      }
    }
  }

  /** `up` of the first held task is set. */
  lemma NotifiersRaise(pc: Pcs, tasks: Tasks, taken: map<Tid, Tid>, t: Tid, ps: seq<Tid>)
    requires Notifiers(pc, tasks, taken) && t in pc && pc[t] == SetUp(ps) && ps != []
    ensures var h := ps[0];
      && h in taken && h in pc && h in tasks && h != t && (pc[h].Window? || pc[h].Saved?)
      && tasks[h] == Sleeping && pc[h].w.OnCond? && pc[h].w.c.PlainCond? && !pc[h].up
      && Notifiers(pc[h := Raised(pc[h])][t := SetRunnable(ps)], tasks, taken)
  {
    var h := ps[0];
    assert Holds(pc, t, h);
    var pc' := pc[h := Raised(pc[h])][t := SetRunnable(ps)];
    forall k, u | Holds(pc', k, u) ensures u in taken && taken[u] == k {
      assert Holds(pc, k, u);
    }
    forall u | u in taken
      ensures Holds(pc', taken[u], u) && u in pc' && u in tasks && HeldOk(pc'[u], tasks[u], pc'[taken[u]], u)
    {
      assert Holds(pc, taken[u], u) && HeldOk(pc[u], tasks[u], pc[taken[u]], u);
      if taken[u] == t && u != h {
        assert !pc[u].up;
      }
    }
  }

  /** The first held task is made Runnable and let go. */
  lemma NotifiersWake(pc: Pcs, tasks: Tasks, taken: map<Tid, Tid>, t: Tid, ps: seq<Tid>)
    requires Notifiers(pc, tasks, taken) && t in pc && pc[t] == SetRunnable(ps) && ps != []
    ensures var h := ps[0];
      && h in taken && h in pc && h in tasks && h != t && (pc[h].Window? || pc[h].Saved?)
      && tasks[h] == Sleeping && pc[h].up
      && Notifiers(pc[t := Mask(ps[1..])], tasks[h := Runnable], taken - {h})
  {
    var h := ps[0];
    assert Holds(pc, t, h);
    var pc', tasks', taken' := pc[t := Mask(ps[1..])], tasks[h := Runnable], taken - {h};
    forall k, u | Holds(pc', k, u) ensures u in taken' && taken'[u] == k {
      assert Holds(pc, k, u);
      if k == t {
        assert u in ps[1..];
      }
    }
    forall u | u in taken'
      ensures Holds(pc', taken'[u], u) && u in pc' && u in tasks' && HeldOk(pc'[u], tasks'[u], pc'[taken'[u]], u)
    {
      assert Holds(pc, taken[u], u) && HeldOk(pc[u], tasks[u], pc[taken[u]], u);
      if taken[u] == t {
        assert u in ps[1..];
      }
    }
  }

  /** The timer mask is recomputed; the next held task, if any, is up. */
  lemma NotifiersNext(pc: Pcs, tasks: Tasks, taken: map<Tid, Tid>, t: Tid, ps: seq<Tid>)
    requires Notifiers(pc, tasks, taken) && t in pc && pc[t] == Mask(ps)
    ensures t !in taken && Notifiers(pc[t := if ps == [] then Running else SetUp(ps)], tasks, taken)
  {
    var pc' := pc[t := if ps == [] then Running else SetUp(ps)];
    forall k, u | Holds(pc', k, u) ensures u in taken && taken[u] == k {
      assert Holds(pc, k, u);
    }
    forall u | u in taken
      ensures Holds(pc', taken[u], u) && u in pc' && u in tasks && HeldOk(pc'[u], tasks[u], pc'[taken[u]], u)
    {
      assert Holds(pc, taken[u], u) && HeldOk(pc[u], tasks[u], pc[taken[u]], u);
    }
  }

  // ----- semaphores

  lemma SemaphoresMove(pc: Pcs, sems: Sems, t: Tid, p: Pc)
    requires Semaphores(pc, sems) && t in pc
    requires forall m :: InFlight(pc[t := p], t, m) ==> InFlight(pc, t, m)
    ensures Semaphores(pc[t := p], sems)
  {
    var pc' := pc[t := p];
    forall m | m in sems && sems[m].mutex ensures Exclusive(sems[m], pc', m) {
      var x := sems[m];
      forall u | InFlight(pc', u, m) ensures HasUnit(x, u) {
        assert InFlight(pc, u, m);
      }
      forall u | u in x.owners ensures HasUnit(x, u) && !InFlight(pc', u, m) {
        assert !InFlight(pc, u, m);
      }
    }
  }

  /** Changing one semaphore. */
  lemma SemaphoresSet(pc: Pcs, sems: Sems, m: SemId, x: Sem)
    requires Semaphores(pc, sems) && Counted(x) && (x.mutex ==> Exclusive(x, pc, m))
    ensures Semaphores(pc, sems[m := x])
  {
  }

  // ----- the rest

  lemma ReleasedMove(pc: Pcs, sems: Sems, t: Tid, p: Pc)
    requires ReleasedOnce(pc, sems) && LentOk(p, t, sems)
    ensures ReleasedOnce(pc[t := p], sems)
  {
  }

  /** Owners only ever lose tasks, or gain the one that is not lending this mutex. */
  lemma ReleasedSet(pc: Pcs, sems: Sems, m: SemId, x: Sem, t: Tid)
    requires ReleasedOnce(pc, sems) && m in sems && t in pc
    requires x.owners <= sems[m].owners || (x.owners == sems[m].owners + {t} && Lent(pc[t]) != Some(m))
    ensures ReleasedOnce(pc, sems[m := x])
  {
    forall u | u in pc ensures LentOk(pc[u], u, sems[m := x]) {
      assert LentOk(pc[u], u, sems);
    }
  }

  lemma ConditionsPop(conds: Conds, c: CondId)
    requires Conditions(conds) && c in conds && conds[c].queue != []
    ensures var x := conds[c];
      Conditions(conds[c := x.(queue := x.queue[1..], dequeued := x.dequeued + [x.queue[0]])])
  {
    assert conds[c].queue == [conds[c].queue[0]] + conds[c].queue[1..];
  }

  lemma TimerMove(pc: Pcs, sched: Sched, t: Tid, p: Pc)
    requires Timer(pc, sched) && t in pc && !pc[t].Mask?
    ensures Timer(pc[t := p], sched)
  {
    var pc' := pc[t := p];
    if forall k :: k in pc' ==> !pc'[k].Mask? {
      forall k | k in pc ensures !pc[k].Mask? {
        assert k in pc';
      }
    }
  }

  lemma JoinsMove(pc: Pcs, tasks: Tasks, parent: map<Tid, Tid>, t: Tid, p: Pc)
    requires Joins(pc, tasks, parent) && JoinOk(p, t, tasks, parent)
    ensures Joins(pc[t := p], tasks, parent)
  {
  }

  lemma JoinsTask(pc: Pcs, tasks: Tasks, parent: map<Tid, Tid>, t: Tid, st: TaskState)
    requires Joins(pc, tasks, parent) && t in tasks && tasks[t] != Zombie && st != Zombie
    ensures Joins(pc, tasks[t := st], parent)
  {
    forall u | u in pc ensures JoinOk(pc[u], u, tasks[t := st], parent) {
      assert JoinOk(pc[u], u, tasks, parent);
    }
  }

  // ----- single facts out of the invariant

  lemma TaskFacts(s: State, t: Tid)
    requires Tables(s) && t in s.pc
    ensures t in s.sched.tasks && PlaceOk(s.pc[t], s.sched.tasks[t]) && RefsOk(s.pc[t], s.sems, s.conds)
    ensures JoinOk(s.pc[t], t, s.sched.tasks, s.parent) && StateMutex(t) in s.sems && StateCond(t) in s.conds
    ensures s.sems[StateMutex(t)].mutex && t != 0
  {
    hide Kept, Conditions;
  }

  lemma ActiveFacts(s: State)
    requires Tables(s) && s.sched.active in s.pc
    ensures var t := s.sched.active;
      t in s.sched.tasks && s.sched.tasks[t] != Zombie && (s.sched.tasks[t] == Sleeping ==> s.pc[t].Window?)
  {
    hide Kept, Conditions;
  }

  lemma QueueFacts(s: State, t: Tid)
    requires Queues(s) && Notifiers(s.pc, s.sched.tasks, s.taken) && t in s.pc
    ensures !(Waiting(s.pc[t]) && s.pc[t].w.OnSem? && !s.pc[t].up) ==> InNoSemQueue(s.sems, t)
    ensures !(Waiting(s.pc[t]) && s.pc[t].w.OnCond? && !s.pc[t].up && t !in s.taken) ==> InNoCondQueue(s.conds, t)
    ensures !(s.pc[t].Window? || s.pc[t].Saved?) || s.pc[t].w.OnSem? || s.pc[t].w.c.StateCond? ==> t !in s.taken
    ensures t in s.sched.tasks && s.sched.tasks[t] != Sleeping ==> t !in s.taken
  {
    hide Semaphores;
  }

  lemma SleeperFacts(s: State, t: Tid)
    requires Tables(s) && t in s.pc && t in s.sched.tasks && s.sched.tasks[t] == Sleeping
    ensures t in s.taken || Queued(s.pc[t], t, s.sems, s.conds)
    ensures t == s.sched.active && t != 0 ==> s.pc[t].Window? && !s.pc[t].up && t !in s.taken
  {
    hide Shape, Refs, Places, Joins;
  }

  lemma LentFacts(pc: Pcs, sems: Sems, t: Tid)
    requires ReleasedOnce(pc, sems) && t in pc
    ensures LentOk(pc[t], t, sems)
  {
  }

  lemma SemFacts(s: State, m: SemId)
    requires Queues(s) && m in s.sems
    ensures Counted(s.sems[m]) && (s.sems[m].mutex ==> Exclusive(s.sems[m], s.pc, m)) && Distinct(s.sems[m].core.queue)
    ensures s.sems[m].core.queue != [] ==>
      WaitsOnSem(s.pc, s.sems[m].core.queue[0], m) && !s.pc[s.sems[m].core.queue[0]].up
  {
    hide CondQueues;
  }

  // ----- whole updates

  /** One task changes its place and its state, and the timer mask may follow. */
  function WithTask(s: State, t: Tid, p: Pc, st: TaskState, masked: bool): State {
    s.(pc := s.pc[t := p], sched := s.sched.(tasks := s.sched.tasks[t := st], timerMasked := masked))
  }

  lemma TaskChange(s: State, t: Tid, p: Pc, st: TaskState, masked: bool)
    requires Tables(s) && t in s.pc && t in s.sched.tasks && s.sched.tasks[t] != Zombie && st != Zombie
    requires PlaceOk(p, st) && RefsOk(p, s.sems, s.conds) && JoinOk(p, t, s.sched.tasks, s.parent)
    requires st == Sleeping ==> t in s.taken || Queued(p, t, s.sems, s.conds)
    requires t == s.sched.active && st == Sleeping ==> p.Window? && !p.up && t !in s.taken
    ensures Tables(WithTask(s, t, p, st, masked))
  {
    hide Shape, Refs, Places, Kept, Conditions, Joins;
    var s' := WithTask(s, t, p, st, masked);
    RefsSet(s.pc, s.sems, s.conds, t, p);
    PlacesSet(s.pc, s.sched.tasks, t, p, st);
    KeptTask(s.pc, s.sched.tasks, s.sems, s.conds, s.taken, t, p, st);
    JoinsMove(s.pc, s.sched.tasks, s.parent, t, p);
    JoinsTask(s'.pc, s.sched.tasks, s.parent, t, st);
    ShapeKeep(s, s');
  }

  function WithSem(s: State, m: SemId, x: Sem): State {
    s.(sems := s.sems[m := x])
  }

  /** One semaphore changes. */
  lemma SemChange(s: State, m: SemId, x: Sem)
    requires Tables(s) && m in s.sems && x.mutex == s.sems[m].mutex
    requires forall u :: u in s.sems[m].core.queue && u in s.sched.tasks && s.sched.tasks[u] == Sleeping ==>
                           u in x.core.queue
    ensures Tables(WithSem(s, m, x))
  {
    hide Shape, Refs, Places, Kept, Conditions, Joins;
    var s' := WithSem(s, m, x);
    RefsKeep(s.pc, s.sems, s.conds, s'.sems, s'.conds);
    KeptSem(s.pc, s.sched.tasks, s.sems, s.conds, s.taken, m, x);
    ShapeKeep(s, s');
  }

  /** Waiters enter or leave a condition queue; the latter are in the hands of a notifier. */
  lemma CondChange(s: State, c: CondId, x: Cond, taken: map<Tid, Tid>)
    requires Tables(s) && c in s.conds && x.entered == x.dequeued + x.queue && s.taken.Keys <= taken.Keys
    requires forall u :: u in s.conds[c].queue && u in s.sched.tasks && s.sched.tasks[u] == Sleeping ==>
                           u in x.queue || u in taken
    requires s.sched.active in s.sched.tasks && s.sched.tasks[s.sched.active] == Sleeping ==>
               s.sched.active !in taken
    ensures Tables(s.(conds := s.conds[c := x], taken := taken))
  {
    hide Shape, Refs, Places, Kept, Joins;
    var s' := s.(conds := s.conds[c := x], taken := taken);
    RefsKeep(s.pc, s.sems, s.conds, s'.sems, s'.conds);
    KeptCond(s.pc, s.sched.tasks, s.sems, s.conds, s.taken, taken, c, x);
    ShapeKeep(s, s');
  }

  /** A notifier lets go of a task that it has made Runnable. */
  lemma LetGo(s: State, h: Tid)
    requires Tables(s) && h in s.sched.tasks && s.sched.tasks[h] != Sleeping
    ensures Tables(s.(taken := s.taken - {h}))
  {
    hide Shape, Refs, Places, Joins;
  }
}
