/** What every step of the system in module Sync keeps. Each part names the tables it
    speaks about, so that a step that leaves those alone keeps it for free. */
module SyncInvariant {
  import opened Common
  import opened Scheduler
  import opened WaitQueues
  import opened Sync

  predicate IsMutex(sems: Sems, m: SemId) {
    m in sems && sems[m].mutex
  }

  predicate IsNotifier(pc: Pc) {
    pc.SetUp? || pc.SetRunnable? || pc.Mask?
  }

  /** Notifier `k` has dequeued `t` and has yet to make it Runnable. */
  predicate Holds(pc: Pcs, k: Tid, t: Tid) {
    k in pc && IsNotifier(pc[k]) && t in pc[k].ps
  }

  // ----- tables

  ghost predicate Shape(sched: Sched, pc: Pcs, sems: Sems, conds: Conds, parent: map<Tid, Tid>) {
    && ValidSched(sched) && pc.Keys == sched.tasks.Keys
    && (forall t :: t in pc <==> StateMutex(t) in sems)
    && (forall t :: t in pc <==> StateCond(t) in conds)
    && (forall t :: t in pc ==> sems[StateMutex(t)].mutex)
    && (forall k :: k in parent ==> k in pc)
  }

  /** Every reference held by a task in a blocking operation is to an existing object. */
  predicate RefsOk(p: Pc, sems: Sems, conds: Conds) {
    if Waiting(p) then
      match p.w
      case OnSem(m, back) => m in sems && (back.Some? ==> back.value in conds && sems[m].mutex)
      case OnCond(c, m, _) => c in conds && IsMutex(sems, m)
    else
      p.Relock? ==> p.c in conds && IsMutex(sems, p.m)
  }

  ghost predicate Refs(pc: Pcs, sems: Sems, conds: Conds) {
    forall t :: t in pc ==> RefsOk(pc[t], sems, conds)
  }

  /** What the place of a task says about its scheduling state. In particular a waiting
      task that is Runnable has `up` set: no wake-up is spurious. */
  predicate PlaceOk(p: Pc, st: TaskState) {
    match p
    case Running => st != Sleeping
    case Window(_, up) => st != Zombie && (st == Runnable ==> up)
    case Saved(_, up) => st != Zombie && (st == Runnable ==> up)
    case Returned(_, up) => st == Runnable && up
    case Relock(_, _) => st == Runnable
    case SetUp(ps) => st == Runnable && ps != []
    case SetRunnable(ps) => st == Runnable && ps != []
    case Mask(_) => st == Runnable
  }

  ghost predicate Places(pc: Pcs, tasks: Tasks) {
    forall t :: t in pc && t in tasks ==> PlaceOk(pc[t], tasks[t])
  }

  // ----- queues

  predicate WaitsOnSem(pc: Pcs, t: Tid, m: SemId) {
    t in pc && Waiting(pc[t]) && pc[t].w.OnSem? && pc[t].w.s == m
  }

  predicate WaitsOnCond(pc: Pcs, t: Tid, c: CondId) {
    t in pc && Waiting(pc[t]) && pc[t].w.OnCond? && pc[t].w.c == c
  }

  ghost predicate SemQueues(pc: Pcs, sems: Sems) {
    && (forall m :: m in sems ==> Distinct(sems[m].core.queue))
    && (forall m, t :: m in sems && t in sems[m].core.queue ==> WaitsOnSem(pc, t, m) && !pc[t].up)
  }

  ghost predicate CondQueues(pc: Pcs, conds: Conds, taken: map<Tid, Tid>) {
    && (forall c :: c in conds ==> Distinct(conds[c].queue))
    && (forall c, t :: c in conds && t in conds[c].queue ==> WaitsOnCond(pc, t, c) && !pc[t].up && t !in taken)
  }

  /** The waiting task sits in the queue it entered. */
  predicate Queued(p: Pc, t: Tid, sems: Sems, conds: Conds) {
    && Waiting(p)
    && match p.w
       case OnSem(m, _) => m in sems && t in sems[m].core.queue
       case OnCond(c, _, _) => c in conds && t in conds[c].queue
  }

  /** No wake-up is lost: whoever sleeps is in its queue or in the hands of a notifier. */
  ghost predicate Kept(pc: Pcs, tasks: Tasks, sems: Sems, conds: Conds, taken: map<Tid, Tid>) {
    forall t :: t in pc && t in tasks && tasks[t] == Sleeping ==> t in taken || Queued(pc[t], t, sems, conds)
  }

  /** The active task is alive, and Sleeping only in the window where it still sits in its queue. */
  predicate ActiveOk(active: Tid, tasks: Tasks, pc: Pcs, taken: map<Tid, Tid>) {
    active != 0 && active in pc && active in tasks ==>
      && tasks[active] != Zombie
      && (tasks[active] == Sleeping ==> pc[active].Window? && !pc[active].up && active !in taken)
  }

  // ----- notifiers

  predicate HeldOk(p: Pc, st: TaskState, k: Pc, t: Tid) {
    && (p.Window? || p.Saved?) && p.w.OnCond? && p.w.c.PlainCond? && st == Sleeping
    && (p.up <==> k.SetRunnable? && k.ps != [] && t == k.ps[0])
  }

  ghost predicate Notifiers(pc: Pcs, tasks: Tasks, taken: map<Tid, Tid>) {
    && (forall k :: k in pc && IsNotifier(pc[k]) ==> Distinct(pc[k].ps))
    && (forall k, t :: Holds(pc, k, t) ==> t in taken && taken[t] == k)
    && (forall t :: t in taken ==>
          && Holds(pc, taken[t], t) && t in pc && t in tasks && HeldOk(pc[t], tasks[t], pc[taken[t]], t))
  }

  // ----- semaphores

  /** Granted while asleep and not yet returned from `down`. */
  predicate InFlight(pc: Pcs, t: Tid, m: SemId) {
    WaitsOnSem(pc, t, m) && pc[t].up
  }

  predicate Counted(x: Sem) {
    && x.init < COUNT_LIMIT && x.core.count < COUNT_LIMIT
    && |x.granted| <= x.init + x.ups
    && x.core.count == (x.init + x.ups - |x.granted|) % COUNT_LIMIT
    && x.arrivals == x.granted + x.core.queue
    && (x.core.count > 0 ==> x.core.queue == [])
  }

  predicate HasUnit(x: Sem, t: Tid) {
    x.core.count == 0 && x.granted != [] && t == x.granted[|x.granted| - 1]
  }

  ghost predicate Exclusive(x: Sem, pc: Pcs, m: SemId) {
    && x.init == 1 && x.core.count + |x.granted| == 1 + x.ups && x.core.count <= 1
    && (forall t :: t in x.owners ==> HasUnit(x, t) && !InFlight(pc, t, m))
    && (forall t :: InFlight(pc, t, m) ==> HasUnit(x, t))
  }

  ghost predicate Semaphores(pc: Pcs, sems: Sems) {
    && (forall m :: m in sems ==> Counted(sems[m]))
    && (forall m :: m in sems && sems[m].mutex ==> Exclusive(sems[m], pc, m))
  }

  // ----- condition variables

  ghost predicate Conditions(conds: Conds) {
    forall c :: c in conds ==> conds[c].entered == conds[c].dequeued + conds[c].queue
  }

  /** The mutex a task inside `CondVar::wait` has given up and will take again. */
  function Lent(p: Pc): Option<SemId> {
    if Waiting(p) then
      match p.w
      case OnSem(m, back) => if back.Some? then Some(m) else None
      case OnCond(_, m, _) => Some(m)
    else if p.Relock? then Some(p.m) else None
  }

  /** A waiter has unlocked its mutex once and does not own it until it has locked it again. */
  predicate LentOk(p: Pc, t: Tid, sems: Sems) {
    && (Lent(p).Some? && Lent(p).value in sems ==> t !in sems[Lent(p).value].owners)
    && (Waiting(p) && p.w.OnCond? ==> p.w.releases == 1)
  }

  ghost predicate ReleasedOnce(pc: Pcs, sems: Sems) {
    forall t :: t in pc ==> LentOk(pc[t], t, sems)
  }

  // ----- timer

  ghost predicate Timer(pc: Pcs, sched: Sched) {
    (forall k :: k in pc ==> !pc[k].Mask?) ==> sched.timerMasked == TimerMasked(sched.tasks)
  }

  // ----- waiting for a child

  /** The child whose end a task inside `CondVar::wait` is waiting for. */
  function Child(p: Pc): Option<Tid> {
    var c := if Waiting(p) then
               match p.w
               case OnSem(_, back) => back
               case OnCond(c, _, _) => Some(c)
             else if p.Relock? then Some(p.c) else None;
    if c.Some? && c.value.StateCond? then Some(c.value.t) else None
  }

  /** It has passed its notification. */
  predicate Notified(p: Pc) {
    p.Relock? || (Waiting(p) && (p.w.OnSem? || p.up))
  }

  predicate JoinOk(p: Pc, t: Tid, tasks: Tasks, parent: map<Tid, Tid>) {
    Child(p).Some? ==>
      var k := Child(p).value;
      && k in parent && parent[k] == t && k in tasks
      && (Notified(p) <==> tasks[k] == Zombie)
  }

  ghost predicate Joins(pc: Pcs, tasks: Tasks, parent: map<Tid, Tid>) {
    forall t :: t in pc ==> JoinOk(pc[t], t, tasks, parent)
  }

  /** The parts about single tasks. */
  ghost predicate Tables(s: State) {
    && Shape(s.sched, s.pc, s.sems, s.conds, s.parent)
    && Refs(s.pc, s.sems, s.conds)
    && Places(s.pc, s.sched.tasks)
    && Kept(s.pc, s.sched.tasks, s.sems, s.conds, s.taken)
    && ActiveOk(s.sched.active, s.sched.tasks, s.pc, s.taken)
    && Conditions(s.conds)
    && Joins(s.pc, s.sched.tasks, s.parent)
  }

  /** The parts about the queues and the units. */
  ghost predicate Queues(s: State) {
    && SemQueues(s.pc, s.sems)
    && CondQueues(s.pc, s.conds, s.taken)
    && Semaphores(s.pc, s.sems)
  }

  ghost predicate Inv(s: State) {
    && Tables(s) && Queues(s) && Notifiers(s.pc, s.sched.tasks, s.taken)
    && ReleasedOnce(s.pc, s.sems) && Timer(s.pc, s.sched)
  }
}
