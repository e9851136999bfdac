/** Blocking synchronisation on one processor as a step system: source/Semaphore.cpp,
    source/CondVar.cpp, source/Mutex.hpp and the sleeping half of source/TaskManager.cpp.

    A region with interrupts disabled is one step. Everywhere else the timer may
    switch tasks, which is the step `Preempt`. */
module Sync {
  import opened Common
  import opened Scheduler
  import opened WaitQueues

  /** A task's own state mutex and condition variable are what `wait` on a child uses. */
  datatype SemId = Plain(n: nat) | StateMutex(t: Tid)
  datatype CondId = PlainCond(n: nat) | StateCond(t: Tid)

  /** What a task that prepared itself for sleep is waiting for. `back` is the condition
      variable on whose behalf a mutex is taken again; `releases` counts how often this
      wait has unlocked its mutex. */
  datatype Wait =
    | OnSem(s: SemId, back: Option<CondId>)
    | OnCond(c: CondId, m: SemId, releases: nat)

  /** Where a task stands between two steps. `up` is the flag in its waiter. */
  datatype Pc =
    | Running
      // prepared for sleep and the spin lock released, `putMeToSleep` not yet entered
    | Window(w: Wait, up: bool)
      // context saved inside `putMeToSleep`
    | Saved(w: Wait, up: bool)
      // out of `putMeToSleep`, the spin lock not yet taken again
    | Returned(w: Wait, up: bool)
      // `CondVar::wait` has left its loop, `waitMutex.lock()` comes next
    | Relock(c: CondId, m: SemId)
      // a notifier: next sets `up` of ps[0], sets ps[0] Runnable, recomputes the timer mask
    | SetUp(ps: seq<Tid>)
    | SetRunnable(ps: seq<Tid>)
    | Mask(ps: seq<Tid>)

  predicate Waiting(pc: Pc) {
    pc.Window? || pc.Saved? || pc.Returned?
  }

  /** `arrivals`, `granted` and `ups` are histories: who called down, who was granted a
      unit, how often up was called. `owners` are the tasks that returned from locking a
      mutex and have not unlocked it. */
  datatype Sem = Sem(mutex: bool, init: nat, core: SemCore,
                     arrivals: seq<Tid>, granted: seq<Tid>, ups: nat, owners: set<Tid>)

  /** `entered` and `dequeued` are histories: who called wait, who was taken by a notifier. */
  datatype Cond = Cond(queue: seq<Tid>, entered: seq<Tid>, dequeued: seq<Tid>)

  type Pcs = map<Tid, Pc>
  type Sems = map<SemId, Sem>
  type Conds = map<CondId, Cond>

  /** `taken` is a history too: which notifier has dequeued a task that it has yet to wake. */
  datatype State = State(sched: Sched, pc: Pcs, sems: Sems, conds: Conds,
                         parent: map<Tid, Tid>, taken: map<Tid, Tid>)

  function FreshMutex(): Sem {
    Sem(true, 1, SemCore(1, []), [], [], 0, {})
  }

  // ----- the pieces of a step

  function MoveTo(s: State, t: Tid, pc: Pc): State {
    s.(pc := s.pc[t := pc])
  }

  /** `prepareMeForSleep` of the active task. */
  function Prepare(s: State, t: Tid): State {
    s.(sched := Masking(SetState(s.sched, t, Sleeping)))
  }

  /** `waiter.up = true`. */
  function RaiseUp(s: State, t: Tid): State {
    if t in s.pc && Waiting(s.pc[t]) then MoveTo(s, t, Raised(s.pc[t])) else s
  }

  function Raised(p: Pc): Pc
    requires Waiting(p)
  {
    p.(up := true)
  }

  function SetTask(s: State, t: Tid, st: TaskState): State {
    s.(sched := SetState(s.sched, t, st))
  }

  function Remask(s: State): State {
    s.(sched := Masking(s.sched))
  }

  function Switch(s: State): State {
    s.(sched := Schedule(s.sched))
  }

  /** The uncontended half of `down`. */
  function Take(s: State, t: Tid, m: SemId): State
    requires m in s.sems
  {
    var x := s.sems[m];
    s.(sems := s.sems[m := x.(core := TakeOrQueue(x.core, t), arrivals := x.arrivals + [t],
                               granted := x.granted + [t],
                               owners := if x.mutex then x.owners + {t} else x.owners)])
  }

  /** The contended half of `down`, up to the release of the spin lock. */
  function Block(s: State, t: Tid, m: SemId, back: Option<CondId>): State
    requires m in s.sems
  {
    var x := s.sems[m];
    var s1 := s.(sems := s.sems[m := x.(core := TakeOrQueue(x.core, t), arrivals := x.arrivals + [t])]);
    MoveTo(Prepare(s1, t), t, Window(OnSem(m, back), false))
  }

  /** A blocked task whose unit has arrived returns from `down`. */
  function Granted(s: State, t: Tid, m: SemId): State
    requires m in s.sems
  {
    var x := s.sems[m];
    MoveTo(s.(sems := s.sems[m := x.(owners := if x.mutex then x.owners + {t} else x.owners)]), t, Running)
  }

  /** `up`, the whole of it. */
  function Release(s: State, t: Tid, m: SemId): State
    requires m in s.sems
  {
    var q := s.sems[m].core.queue;
    if q == [] then PassOn(s, t, m) else Remask(SetTask(RaiseUp(PassOn(s, t, m), q[0]), q[0], Runnable))
  }

  function PassOn(s: State, t: Tid, m: SemId): State
    requires m in s.sems
  {
    var x := s.sems[m];
    var q := x.core.queue;
    s.(sems := s.sems[m := x.(core := GiveOrPass(x.core), ups := x.ups + 1, owners := x.owners - {t},
                              granted := if q == [] then x.granted else x.granted + [q[0]])])
  }

  /** The queueing and preparing part of `CondVar::wait`. */
  function Enter(s: State, t: Tid, c: CondId, m: SemId): State
    requires c in s.conds
  {
    var x := s.conds[c];
    var s1 := s.(conds := s.conds[c := x.(queue := x.queue + [t], entered := x.entered + [t])]);
    MoveTo(Prepare(s1, t), t, Window(OnCond(c, m, 1), false))
  }

  function Dequeue(s: State, c: CondId): State
    requires c in s.conds && s.conds[c].queue != []
  {
    var x := s.conds[c];
    s.(conds := s.conds[c := x.(queue := x.queue[1..], dequeued := x.dequeued + [x.queue[0]])])
  }

  /** The first `n` waiters leave the queue and are now in the hands of notifier `t`. */
  function Gather(s: State, t: Tid, c: CondId, n: nat): State
    requires c in s.conds && n <= |s.conds[c].queue|
  {
    var x := s.conds[c];
    var ws := x.queue[..n];
    var s1 := s.(conds := s.conds[c := x.(queue := x.queue[n..], dequeued := x.dequeued + ws)],
                 taken := s.taken + map w | w in ws :: t);
    MoveTo(s1, t, SetUp(ws))
  }

  /** `notify_one` with interrupts disabled throughout, as in `terminateCurrentTask`. */
  function NotifyNow(s: State, c: CondId): State
    requires c in s.conds
  {
    var q := s.conds[c].queue;
    if q == [] then s else Remask(SetTask(RaiseUp(Dequeue(s, c), q[0]), q[0], Runnable))
  }

  // ----- the steps

  datatype Step =
    | Down(m: SemId)          // client code: down / lock
    | Up(m: SemId)            // client code: up / unlock
    | WaitOn(c: CondId, m: SemId)
    | NotifyOne(c: CondId)
    | NotifyAll(c: CondId)
    | Wake                    // the next stage of a notifier
    | GoToSleep               // the body of putMeToSleep
    | Resume                  // task_save returns for the second time
    | Check                   // the spin lock is back: while (!waiter.up)
    | LockAgain               // waitMutex.lock() at the end of CondVar::wait
    | Preempt                 // timer interrupt while a task is active
    | Tick                    // interrupt while everybody sleeps
    | Spawn(tid: Tid)         // addTask by the active task
    | Exit                    // terminateCurrentTask

  /** A task's state mutex is used by its parent; only its own exit notifies its state
      condition; a mutex is released by its holder; a child is waited for once it was
      seen not to be a zombie. */
  predicate Enabled(s: State, step: Step) {
    var t := s.sched.active;
    if step.Tick? then t == 0 else
    && t in s.pc && t in s.sched.tasks
    && match step
       case Down(m) => s.pc[t].Running? && m in s.sems
                       && (m.StateMutex? ==> m.t in s.parent && s.parent[m.t] == t)
       case Up(m) => s.pc[t].Running? && m in s.sems && (s.sems[m].mutex ==> t in s.sems[m].owners)
       case WaitOn(c, m) =>
         && s.pc[t].Running? && m in s.sems && c in s.conds
         && s.sems[m].mutex && t in s.sems[m].owners
         && (c.StateCond? ==>
               && m == StateMutex(c.t) && c.t in s.parent && s.parent[c.t] == t
               && c.t in s.sched.tasks && s.sched.tasks[c.t] != Zombie)
       case NotifyOne(c) => s.pc[t].Running? && c.PlainCond? && c in s.conds
       case NotifyAll(c) => s.pc[t].Running? && c.PlainCond? && c in s.conds
       case Wake => s.pc[t].Mask? || ((s.pc[t].SetUp? || s.pc[t].SetRunnable?) && s.pc[t].ps != [])
       case GoToSleep => s.pc[t].Window?
       case Resume => s.pc[t].Saved?
       case Check => s.pc[t].Returned? && WaitRefs(s, s.pc[t].w)
       case LockAgain => s.pc[t].Relock? && s.pc[t].m in s.sems
       case Preempt => true
       case Spawn(tid) => s.pc[t].Running? && IsFreeTid(s.sched, tid)
       case Exit =>
         && s.pc[t].Running? && t != 1 && StateMutex(t) in s.sems && StateCond(t) in s.conds
         && s.sems[StateMutex(t)].core.count > 0
  }

  predicate WaitRefs(s: State, w: Wait) {
    match w
    case OnSem(m, _) => m in s.sems
    case OnCond(c, m, _) => c in s.conds && m in s.sems
  }

  function DoSpawn(s: State, t: Tid, tid: Tid): State {
    State(Insert(s.sched, tid, Runnable), s.pc[tid := Running], s.sems[StateMutex(tid) := FreshMutex()],
          s.conds[StateCond(tid) := Cond([], [], [])], s.parent[tid := t], s.taken)
  }

  /** The active task is cleared first, so the search for the next one starts at 0. */
  function DoExit(s: State, t: Tid): State
    requires StateMutex(t) in s.sems && StateCond(t) in s.conds
  {
    var s1 := SetTask(Take(s.(sched := s.sched.(active := 0)), t, StateMutex(t)), t, Zombie);
    var s2 := NotifyNow(s1, StateCond(t));
    Switch(Remask(Release(s2, t, StateMutex(t))))
  }

  /** The loop test of both blocking operations. When `up` is not set the body runs again:
      a semaphore only prepares for sleep, a condition variable also unlocks its mutex again. */
  function DoCheck(s: State, t: Tid): State
    requires t in s.pc && s.pc[t].Returned? && WaitRefs(s, s.pc[t].w)
  {
    var w := s.pc[t].w;
    if s.pc[t].up then
      if w.OnSem? then Granted(s, t, w.s) else MoveTo(s, t, Relock(w.c, w.m))
    else
      if w.OnSem? then MoveTo(Prepare(s, t), t, Window(w, false))
      else MoveTo(Release(Prepare(s, t), t, w.m), t, Window(w.(releases := w.releases + 1), false))
  }

  function DoWake(s: State, t: Tid): State
    requires t in s.pc && (s.pc[t].Mask? || ((s.pc[t].SetUp? || s.pc[t].SetRunnable?) && s.pc[t].ps != []))
  {
    var ps := s.pc[t].ps;
    match s.pc[t]
    case SetUp(_) => MoveTo(RaiseUp(s, ps[0]), t, SetRunnable(ps))
    case SetRunnable(_) =>
      var s1 := s.(taken := s.taken - {ps[0]});
      MoveTo(SetTask(s1, ps[0], Runnable), t, Mask(ps[1..]))
    case Mask(_) => MoveTo(Remask(s), t, if ps == [] then Running else SetUp(ps))
  }

  function Apply(s: State, step: Step): State
    requires Enabled(s, step)
  {
    var t := s.sched.active;
    match step
    case Down(m) => if s.sems[m].core.count > 0 then Take(s, t, m) else Block(s, t, m, None)
    case Up(m) => Release(s, t, m)
    case WaitOn(c, m) => Release(Enter(s, t, c, m), t, m)
    case NotifyOne(c) => if s.conds[c].queue == [] then s else Gather(s, t, c, 1)
    case NotifyAll(c) => if s.conds[c].queue == [] then s else Gather(s, t, c, |s.conds[c].queue|)
    case Wake => DoWake(s, t)
    case GoToSleep =>
      if s.sched.tasks[t] == Sleeping then Switch(MoveTo(s, t, Saved(s.pc[t].w, s.pc[t].up)))
      else MoveTo(s, t, Returned(s.pc[t].w, s.pc[t].up))
    case Resume => MoveTo(s, t, Returned(s.pc[t].w, s.pc[t].up))
    case Check => DoCheck(s, t)
    case LockAgain =>
      var c, m := s.pc[t].c, s.pc[t].m;
      if s.sems[m].core.count > 0 then MoveTo(Take(s, t, m), t, Running) else Block(s, t, m, Some(c))
    case Preempt => Switch(s)
    case Tick => Switch(s)
    case Spawn(tid) => DoSpawn(s, t, tid)
    case Exit => DoExit(s, t)
  }

  /** The first task exists, nobody runs yet, and all semaphores hold their initial count. */
  predicate Initial(s: State) {
    && s.sched == Sched(map[1 := Runnable], 0, 2, true)
    && s.pc == map[1 := Running] && s.parent == map[] && s.taken == map[]
    && StateMutex(1) in s.sems && StateCond(1) in s.conds
    && (forall m :: m in s.sems ==>
          var x := s.sems[m];
          && x == Sem(x.mutex, x.init, SemCore(x.init, []), [], [], 0, {}) && x.init < COUNT_LIMIT
          && (x.mutex ==> x.init == 1) && (m.StateMutex? ==> x.mutex && m.t == 1))
    && (forall c :: c in s.conds ==> s.conds[c] == Cond([], [], []) && (c.StateCond? ==> c.t == 1))
  }

  /** A run: every step is enabled where it is taken. */
  ghost predicate IsRun(states: seq<State>, steps: seq<Step>) {
    && |states| == |steps| + 1 && Initial(states[0])
    && forall i :: 0 <= i < |steps| ==> Enabled(states[i], steps[i]) && states[i + 1] == Apply(states[i], steps[i])
  }
}
