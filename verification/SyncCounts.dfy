/** Laws of the blocking primitives over runs that speak of the steps taken: how many releases and
    requests there were, and what becomes of everybody whom a notification took. */
module SyncCounts {
  import opened Common
  import opened Scheduler
  import opened WaitQueues
  import opened Sync
  import opened SyncInvariant
  import opened SyncFrames
  import opened SyncLifetime
  import opened SyncTheorems
  import opened SyncEffects

  // ----- counting the steps

  /** The step gives a unit back to `m`: `up`, the release inside `CondVar::wait`, or the scoped lock
      of a task's own state when it ends. */
  predicate Releases(s: State, step: Step, m: SemId) {
    match step
    case Up(n) => n == m
    case WaitOn(_, n) => n == m
    case Exit => m == StateMutex(s.sched.active)
    case _ => false
  }

  /** The step asks for a unit of `m`. */
  predicate Requests(s: State, step: Step, m: SemId) {
    match step
    case Down(n) => n == m
    case LockAgain => s.sched.active in s.pc && s.pc[s.sched.active].Relock? && s.pc[s.sched.active].m == m
    case Exit => m == StateMutex(s.sched.active)
    case _ => false
  }

  function ReleaseCount(states: seq<State>, steps: seq<Step>, n: nat, m: SemId): nat
    requires n <= |steps| <= |states|
  {
    if n == 0 then 0
    else ReleaseCount(states, steps, n - 1, m) + if Releases(states[n - 1], steps[n - 1], m) then 1 else 0
  }

  function RequestCount(states: seq<State>, steps: seq<Step>, n: nat, m: SemId): nat
    requires n <= |steps| <= |states|
  {
    if n == 0 then 0
    else RequestCount(states, steps, n - 1, m) + if Requests(states[n - 1], steps[n - 1], m) then 1 else 0
  }

  /** The histories of `m` have grown by what the step did to it. */
  predicate HistoryStep(s: State, step: Step, s': State, m: SemId) {
    && m in s.sems && m in s'.sems && s'.sems[m].init == s.sems[m].init
    && s'.sems[m].ups == s.sems[m].ups + (if Releases(s, step, m) then 1 else 0)
    && |s'.sems[m].arrivals| == |s.sems[m].arrivals| + (if Requests(s, step, m) then 1 else 0)
  }

  lemma Untouched(s: State, step: Step, s': State, m: SemId)
    requires m in s.sems && m in s'.sems && s'.sems[m] == s.sems[m] && !Releases(s, step, m) && !Requests(s, step, m)
    ensures HistoryStep(s, step, s', m)
  {
  }

  lemma RestKeeps(s: State, s': State, ts: set<Tid>, ms: set<SemId>, cs: set<CondId>, m: SemId)
    requires Rest(s, s', ts, ms, cs) && m in s.sems
    ensures m in s'.sems && (m !in ms ==> s'.sems[m] == s.sems[m])
  {
  }

  lemma ReleasedHistory(s: State, s': State, m: SemId, t: Tid)
    requires Released(s, s', m, t)
    ensures m in s.sems && m in s'.sems && s'.sems[m].init == s.sems[m].init
    ensures s'.sems[m].ups == s.sems[m].ups + 1 && s'.sems[m].arrivals == s.sems[m].arrivals
  {
  }

  lemma AskedHistory(s: State, s': State, t: Tid, n: SemId, back: Option<CondId>, m: SemId)
    requires Asked(s, s', t, n, back) && m in s.sems
    ensures m in s'.sems && (m != n ==> s'.sems[m] == s.sems[m])
    ensures m == n ==> s'.sems[m].init == s.sems[m].init && s'.sems[m].ups == s.sems[m].ups
                       && s'.sems[m].arrivals == s.sems[m].arrivals + [t]
  {
  }

  lemma EndedHistory(s: State, s': State, t: Tid, m: SemId)
    requires Ended(s, s', t) && m in s.sems
    ensures m in s'.sems && (m != StateMutex(t) ==> s'.sems[m] == s.sems[m])
    ensures m == StateMutex(t) ==> s'.sems[m].init == s.sems[m].init && s'.sems[m].ups == s.sems[m].ups + 1
                                   && s'.sems[m].arrivals == s.sems[m].arrivals + [t]
  {
    hide TimerExact, NextRuns, FirstWoken;
  }

  lemma EnteredHistory(s: State, s': State, t: Tid, c: CondId, n: SemId, m: SemId)
    requires Entered(s, s', t, c, n) && m in s.sems
    ensures m in s'.sems && (m != n ==> s'.sems[m] == s.sems[m])
    ensures Released(s, s', n, t)
  {
    hide Released;
  }

  lemma TookOverHistory(s: State, s': State, t: Tid, c: CondId, ws: seq<Tid>)
    requires TookOver(s, s', t, c, ws)
    ensures s'.sems == s.sems
  {
  }

  lemma ProgressedHistory(s: State, s': State, t: Tid, m: SemId)
    requires Progressed(s, s', t) && m in s.sems
    ensures m in s'.sems && s'.sems[m] == s.sems[m]
  {
    hide TimerExact, WokenAt;
  }

  lemma SleptHistory(s: State, s': State, t: Tid, m: SemId)
    requires Slept(s, s', t) && m in s.sems
    ensures m in s'.sems && s'.sems[m] == s.sems[m]
  {
    hide NextRuns;
  }

  lemma CameBackHistory(s: State, s': State, t: Tid, m: SemId)
    requires CameBack(s, s', t) && m in s.sems
    ensures m in s'.sems && s'.sems[m] == s.sems[m].(owners := s'.sems[m].owners)
  {
  }

  lemma SemStep(s: State, step: Step, m: SemId)
    requires Inv(s) && Enabled(s, step) && m in s.sems
    ensures HistoryStep(s, step, Apply(s, step), m)
  {
    hide Inv, Apply, Rest, Released, Asked, Ended, Entered, TookOver, Progressed, Slept, CameBack, NextRuns;
    var t, s' := s.sched.active, Apply(s, step);
    match step
    case Down(n) =>
      DownEffect(s, n);
      AskedHistory(s, s', t, n, None, m);
    case Up(n) =>
      UpEffect(s, n);
      RestKeeps(s, s', Head(s.sems[n].core.queue), {n}, {}, m);
      ReleasedHistory(s, s', n, t);
    case WaitOn(c, n) =>
      WaitOnEffect(s, c, n);
      EnteredHistory(s, s', t, c, n, m);
      ReleasedHistory(s, s', n, t);
    case NotifyOne(c) =>
      NotifyOneEffect(s, c);
      if s.conds[c].queue != [] {
        TookOverHistory(s, s', t, c, [s.conds[c].queue[0]]);
      }
    case NotifyAll(c) =>
      NotifyAllEffect(s, c);
      if s.conds[c].queue != [] {
        TookOverHistory(s, s', t, c, s.conds[c].queue);
      }
    case Wake =>
      WakeEffect(s);
      ProgressedHistory(s, s', t, m);
    case GoToSleep =>
      SleepEffect(s);
      SleptHistory(s, s', t, m);
    case Resume =>
      ResumeEffect(s);
      RestKeeps(s, s', {t}, {}, {}, m);
    case Check =>
      CheckEffect(s);
      CameBackHistory(s, s', t, m);
    case LockAgain =>
      LockAgainEffect(s);
      AskedHistory(s, s', t, s.pc[t].m, Some(s.pc[t].c), m);
    case Preempt => SwitchEffect(s, step);
    case Tick => SwitchEffect(s, step);
    case Spawn(tid) => SpawnEffect(s, tid);
    case Exit =>
      ExitEffect(s);
      EndedHistory(s, s', t, m);
  }

  lemma RestKeys(s: State, s': State, ts: set<Tid>, ms: set<SemId>, cs: set<CondId>)
    requires Rest(s, s', ts, ms, cs)
    ensures s'.sems.Keys == s.sems.Keys
  {
  }

  /** Semaphores come into being only with a new task. */
  lemma SameSems(s: State, step: Step)
    requires Inv(s) && Enabled(s, step) && !step.Spawn?
    ensures Apply(s, step).sems.Keys == s.sems.Keys
  {
    hide Inv, Apply, Rest, Released, WokenAt, TimerExact, NextRuns, FirstWoken;
    var t, s' := s.sched.active, Apply(s, step);
    match step
    case Down(n) =>
      DownEffect(s, n);
      RestKeys(s, s', {t}, {n}, {});
    case Up(n) =>
      UpEffect(s, n);
      RestKeys(s, s', Head(s.sems[n].core.queue), {n}, {});
    case WaitOn(c, n) =>
      WaitOnEffect(s, c, n);
      RestKeys(s, s', Head(s.sems[n].core.queue) + {t}, {n}, {c});
    case NotifyOne(c) => NotifyOneEffect(s, c);
    case NotifyAll(c) => NotifyAllEffect(s, c);
    case Wake => WakeKeys(s);
    case GoToSleep =>
      SleepEffect(s);
      RestKeys(s, s', {t}, {}, {});
    case Resume =>
      ResumeEffect(s);
      RestKeys(s, s', {t}, {}, {});
    case Check => CheckKeys(s);
    case LockAgain =>
      LockAgainEffect(s);
      RestKeys(s, s', {t}, {s.pc[t].m}, {});
    case Exit =>
      ExitEffect(s);
      RestKeys(s, s', Head(s.conds[StateCond(t)].queue) + {t}, {StateMutex(t)}, {StateCond(t)});
    case _ => SwitchEffect(s, step);
  }

  lemma WakeKeys(s: State)
    requires Inv(s) && Enabled(s, Wake)
    ensures Apply(s, Wake).sems.Keys == s.sems.Keys
  {
    hide Inv, Apply, WokenAt, TimerExact;
    WakeEffect(s);
  }

  lemma CheckKeys(s: State)
    requires Inv(s) && Enabled(s, Check)
    ensures Apply(s, Check).sems.Keys == s.sems.Keys
  {
    hide Inv, Apply;
    CheckEffect(s);
  }

  lemma NewSem(s: State, step: Step, m: SemId)
    requires Inv(s) && Enabled(s, step) && m !in s.sems
    ensures !Releases(s, step, m) && !Requests(s, step, m)
    ensures m in Apply(s, step).sems ==> Apply(s, step).sems[m] == Sem(true, 1, SemCore(1, []), [], [], 0, {})
  {
    hide Inv, Apply;
    if step.Spawn? {
      SpawnEffect(s, step.tid);
    } else {
      SameSems(s, step);
    }
  }

  // ----- the law of a semaphore

  /** The units that `m` starts with: what it holds at the start of the run, or one for the state
      mutex of a task that is added later. */
  function StartCount(states: seq<State>, m: SemId): nat
    requires states != []
  {
    if m in states[0].sems then states[0].sems[m].core.count else 1
  }

  lemma {:induction false} Histories(states: seq<State>, steps: seq<Step>, n: nat, m: SemId)
    requires IsRun(states, steps) && n < |states| == |steps| + 1
    ensures m in states[n].sems ==>
      && states[n].sems[m].ups == ReleaseCount(states, steps, n, m)
      && |states[n].sems[m].arrivals| == RequestCount(states, steps, n, m)
      && states[n].sems[m].init == StartCount(states, m)
    ensures m !in states[n].sems ==>
      ReleaseCount(states, steps, n, m) == 0 == RequestCount(states, steps, n, m) && m !in states[0].sems
    decreases n
  {
    hide Enabled, Apply, Inv, Releases, Requests;
    if n > 0 {
      hide Initial;
      Histories(states, steps, n - 1, m);
      Reachable(states, steps, n - 1);
      var s, step := states[n - 1], steps[n - 1];
      assert Enabled(s, step) && states[n] == Apply(s, step);
      if m in s.sems {
        SemStep(s, step, m);
      } else {
        NewSem(s, step, m);
      }
    }
  }

  /** In every run: the units a semaphore started with and the releases among the steps equal the
      requests that have been served, all but those still queued, and the units left, if and only
      if the counter has not overflowed. */
  lemma SemaphoreCounts(states: seq<State>, steps: seq<Step>, n: nat, m: SemId)
    requires IsRun(states, steps) && n < |states| == |steps| + 1 && m in states[n].sems
    ensures var given := StartCount(states, m) + ReleaseCount(states, steps, n, m);
      var count, waiting := states[n].sems[m].core.count, |states[n].sems[m].core.queue|;
      var served := RequestCount(states, steps, n, m) - waiting;
      && 0 <= served <= given && (count > 0 ==> waiting == 0)
      && (given == served + count <==> given - served < COUNT_LIMIT)
  {
    hide IsRun, ReleaseCount, RequestCount, StartCount;
    Histories(states, steps, n, m);
    SemaphoreLaw(states, steps, n, m);
  }

  // ----- a released unit reaches the first waiter

  /** In every run: whoever is first in the queue of `m` when it is released is awake in its wait on
      `m` right after, and remains so until it has left that wait. */
  lemma HandOver(states: seq<State>, steps: seq<Step>, i: nat, j: nat, m: SemId, h: Tid)
    requires IsRun(states, steps) && i < j < |states| == |steps| + 1 && m in states[i].sems
    requires (steps[i].Up? || steps[i].WaitOn?) && Releases(states[i], steps[i], m)
    requires states[i].sems[m].core.queue != [] && states[i].sems[m].core.queue[0] == h
    ensures m in states[i + 1].sems && h !in states[i + 1].sems[m].core.queue
    ensures WokenUp(states[i + 1], h) && WaitsOnSem(states[i + 1].pc, h, m)
    ensures WokenUp(states[j], h) || exists z :: i < z <= j && !InWait(states[z], h)
  {
    hide Initial, Apply, Inv, Rest, WokenUp, InWait, Waiting;
    var s, step := states[i], steps[i];
    assert Enabled(s, step) && states[i + 1] == Apply(s, step);
    Reachable(states, steps, i);
    HeadWaits(s, m);
    QueueOnce(s, m);
    if step.Up? {
      UpEffect(s, m);
    } else {
      hide Released;
      WaitOnEffect(s, step.c, m);
    }
    FirstWakes(s, states[i + 1], m, s.sched.active);
    UntilLeft(states, steps, i + 1, j, h);
  }

  lemma QueueOnce(s: State, m: SemId)
    requires Inv(s) && m in s.sems
    ensures Distinct(s.sems[m].core.queue)
  {
    hide Tables, Queues, Notifiers, ReleasedOnce, Timer;
    SemFacts(s, m);
  }

  lemma FirstWakes(s: State, s': State, m: SemId, t: Tid)
    requires Released(s, s', m, t) && s.sems[m].core.queue != [] && Distinct(s.sems[m].core.queue)
    requires WaitsOnSem(s.pc, s.sems[m].core.queue[0], m)
    ensures var h := s.sems[m].core.queue[0];
      m in s'.sems && h !in s'.sems[m].core.queue && WokenUp(s', h) && WaitsOnSem(s'.pc, h, m)
  {
    var q, q' := s.sems[m].core.queue, s'.sems[m].core.queue;
    forall n | 0 <= n < |q'| ensures q'[n] != q[0] {
      assert q[n + 1] == q'[n];
    }
  }

  lemma UntilLeft(states: seq<State>, steps: seq<Step>, i: nat, j: nat, h: Tid)
    requires IsRun(states, steps) && i <= j < |states| && WokenUp(states[i], h)
    ensures WokenUp(states[j], h) || exists z :: i <= z <= j && !InWait(states[z], h)
  {
    hide IsRun, WokenUp, InWait;
    if forall z :: i <= z <= j ==> InWait(states[z], h) {
      StaysAwake(states, steps, i, j, h);
    }
  }

  // ----- a notification reaches everybody whom it took

  /** Task `h` is awake in its wait on `c`. */
  predicate WokenIn(s: State, h: Tid, c: CondId) {
    WaitsOnCond(s.pc, h, c) && s.pc[h].up && h in s.sched.tasks && s.sched.tasks[h] == Runnable
  }

  /** A task in the hands of a notifier stays there, in its wait, until it is awake in it. */
  lemma HeldStep(s: State, step: Step, k: Tid, h: Tid, c: CondId)
    requires Inv(s) && Enabled(s, step) && Holds(s.pc, k, h) && WaitsOnCond(s.pc, h, c)
    ensures var s' := Apply(s, step); (Holds(s'.pc, k, h) && WaitsOnCond(s'.pc, h, c)) || WokenIn(s', h, c)
  {
    hide Inv, Apply, TimerExact, NextRuns;
    HeldFacts(s, k, h);
    if s.sched.active == k {
      if step.Wake? {
        hide Enabled;
        WakeEffect(s);
        HeldProgress(s, Apply(s, step), k, h, c);
      } else {
        SwitchEffect(s, step);
      }
    } else {
      NotifierTask(s, k);
      OthersStay(s, step, k);
      OthersStay(s, step, h);
    }
  }

  lemma NotifierTask(s: State, k: Tid)
    requires Inv(s) && k in s.pc
    ensures k in s.sched.tasks
  {
    hide Refs, Places, Kept, Joins, Conditions, Queues, Notifiers, ReleasedOnce, Timer;
  }

  lemma HeldProgress(s: State, s': State, k: Tid, h: Tid, c: CondId)
    requires Progressed(s, s', k) && Holds(s.pc, k, h) && WaitsOnCond(s.pc, h, c) && h != k && h in s.sched.tasks
    ensures (Holds(s'.pc, k, h) && WaitsOnCond(s'.pc, h, c)) || WokenIn(s', h, c)
  {
    hide TimerExact;
    var ps := s.pc[k].ps;
    if s.pc[k].SetRunnable? && h != ps[0] {
      assert ps == [ps[0]] + ps[1..];
      assert h in ps[1..];
    }
  }

  lemma {:induction false} HeldUntilWoken(states: seq<State>, steps: seq<Step>, i: nat, j: nat, k: Tid, h: Tid,
                                          c: CondId)
    requires IsRun(states, steps) && i <= j < |states| && Holds(states[i].pc, k, h) && WaitsOnCond(states[i].pc, h, c)
    ensures (Holds(states[j].pc, k, h) && WaitsOnCond(states[j].pc, h, c))
            || exists x :: i < x <= j && WokenIn(states[x], h, c)
    decreases j
  {
    hide Initial, Enabled, Apply, Inv, Holds, WaitsOnCond, WokenIn;
    if i < j {
      HeldUntilWoken(states, steps, i, j - 1, k, h, c);
      if Holds(states[j - 1].pc, k, h) && WaitsOnCond(states[j - 1].pc, h, c) {
        Reachable(states, steps, j - 1);
        assert Enabled(states[j - 1], steps[j - 1]) && states[j] == Apply(states[j - 1], steps[j - 1]);
        HeldStep(states[j - 1], steps[j - 1], k, h, c);
      }
    }
  }

  /** Whom the notification takes: everybody in the queue, or the first. */
  predicate IsNotified(s: State, step: Step, c: CondId, h: Tid) {
    && c in s.conds && s.conds[c].queue != []
    && ((step == NotifyAll(c) && h in s.conds[c].queue) || (step == NotifyOne(c) && h == s.conds[c].queue[0]))
  }

  lemma NotifiedIsHeld(s: State, step: Step, c: CondId, h: Tid)
    requires Inv(s) && Enabled(s, step) && IsNotified(s, step, c, h)
    ensures var s' := Apply(s, step); Holds(s'.pc, s.sched.active, h) && WaitsOnCond(s'.pc, h, c)
  {
    hide Inv, Apply;
    var t, q := s.sched.active, s.conds[c].queue;
    QueuedWaits(s, c, h);
    if step.NotifyAll? {
      NotifyAllEffect(s, c);
      TakenIsHeld(s, Apply(s, step), t, c, q, h);
    } else {
      NotifyOneEffect(s, c);
      TakenIsHeld(s, Apply(s, step), t, c, [q[0]], h);
    }
  }

  lemma QueuedWaits(s: State, c: CondId, h: Tid)
    requires Inv(s) && c in s.conds && h in s.conds[c].queue
    ensures WaitsOnCond(s.pc, h, c)
  {
    hide Tables, SemQueues, Semaphores, Notifiers, ReleasedOnce, Timer;
  }

  lemma TakenIsHeld(s: State, s': State, t: Tid, c: CondId, ws: seq<Tid>, h: Tid)
    requires TookOver(s, s', t, c, ws) && h in ws && WaitsOnCond(s.pc, h, c) && s.pc[t].Running?
    ensures Holds(s'.pc, t, h) && WaitsOnCond(s'.pc, h, c)
  {
  }

  /** In every run: once a notifier is through with its notification, everybody whom it took from the
      queue has been awake in that wait since, and still is unless it has left the wait. */
  lemma NotificationWakes(states: seq<State>, steps: seq<Step>, i: nat, j: nat, c: CondId, h: Tid)
    requires IsRun(states, steps) && i < j < |states| == |steps| + 1 && IsNotified(states[i], steps[i], c, h)
    requires var k := states[i].sched.active; k in states[j].pc && !IsNotifier(states[j].pc[k])
    ensures exists x :: i < x <= j && WokenIn(states[x], h, c)
                        && (WokenUp(states[j], h) || exists z :: x <= z <= j && !InWait(states[z], h))
  {
    hide Initial, Enabled, Apply, Inv, WokenUp, InWait, WaitsOnCond;
    var k := states[i].sched.active;
    Reachable(states, steps, i);
    assert Enabled(states[i], steps[i]) && states[i + 1] == Apply(states[i], steps[i]);
    NotifiedIsHeld(states[i], steps[i], c, h);
    HeldUntilWoken(states, steps, i + 1, j, k, h, c);
    var x :| i + 1 < x <= j && WokenIn(states[x], h, c);
    AwakeThere(states[x], h, c);
    UntilLeft(states, steps, x, j, h);
  }

  lemma AwakeThere(s: State, h: Tid, c: CondId)
    requires WokenIn(s, h, c)
    ensures WokenUp(s, h)
  {
  }
}
