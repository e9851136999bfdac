/** Fairness of the round-robin choice in runs of the step machine: who runs after a switch or
    an exit, and that a task that has ended never runs again. */
module SyncFairness {
  import opened Common
  import opened Scheduler
  import opened WaitQueues
  import opened Sync
  import opened SyncInvariant
  import opened SyncFrames
  import opened SyncTheorems

  // ----- zombies

  predicate Dead(s: State, x: Tid) {
    x in s.sched.tasks && s.sched.tasks[x] == Zombie
  }

  /** A zombie is nowhere in a wait, so nobody can wake it. */
  lemma DeadFacts(s: State, x: Tid)
    requires Inv(s) && Dead(s, x)
    ensures x != s.sched.active && InNoSemQueue(s.sems, x) && InNoCondQueue(s.conds, x) && x !in s.taken
  {
    hide Refs, Kept, Joins, Conditions, Queues, Notifiers, ReleasedOnce, Timer;
    assert x in s.pc;
    TaskFacts(s, x);
    QueueFacts(s, x);
  }

  lemma ReleaseDead(s: State, u: Tid, m: SemId, x: Tid)
    requires m in s.sems && InNoSemQueue(s.sems, x) && Dead(s, x)
    ensures Dead(Release(s, u, m), x)
  {
    hide TimerMasked, GiveOrPass;
  }

  lemma BlockDead(s: State, u: Tid, m: SemId, back: Option<CondId>, x: Tid)
    requires m in s.sems && u != x && Dead(s, x)
    ensures Dead(Take(s, u, m), x) && Dead(Block(s, u, m, back), x)
  {
    hide TimerMasked, TakeOrQueue;
  }

  lemma EnterDead(s: State, u: Tid, c: CondId, m: SemId, x: Tid)
    requires c in s.conds && u != x && Dead(s, x)
    ensures Dead(Enter(s, u, c, m), x) && Enter(s, u, c, m).sems == s.sems
  {
    hide TimerMasked;
  }

  lemma WakeDead(s: State, u: Tid, x: Tid)
    requires u in s.pc && (s.pc[u].Mask? || ((s.pc[u].SetUp? || s.pc[u].SetRunnable?) && s.pc[u].ps != []))
    requires Notifiers(s.pc, s.sched.tasks, s.taken) && x !in s.taken && Dead(s, x)
    ensures Dead(DoWake(s, u), x)
  {
    hide TimerMasked;
    if s.pc[u].SetRunnable? {
      assert Holds(s.pc, u, s.pc[u].ps[0]);
    }
  }

  lemma CheckDead(s: State, u: Tid, x: Tid)
    requires u in s.pc && s.pc[u].Returned? && s.pc[u].up && WaitRefs(s, s.pc[u].w) && Dead(s, x)
    ensures Dead(DoCheck(s, u), x)
  {
    hide Release;
  }

  /** The task that exits is a zombie afterwards, like every task that was one before. */
  lemma ExitDead(s: State, u: Tid, x: Tid)
    requires StateMutex(u) in s.sems && StateCond(u) in s.conds && s.sems[StateMutex(u)].core.count > 0
    requires s.sems[StateMutex(u)].core.queue == [] && InNoCondQueue(s.conds, x) && (x == u || Dead(s, x))
    ensures Dead(DoExit(s, u), x)
  {
    hide TimerMasked, CyclicNext, GiveOrPass, Release;
    var s1 := SetTask(Take(s.(sched := s.sched.(active := 0)), u, StateMutex(u)), u, Zombie);
    assert Dead(s1, x) && s1.sems[StateMutex(u)].core.queue == [];
    var s2 := NotifyNow(s1, StateCond(u));
    NotifyDead(s1, StateCond(u), x);
    NobodyPassed(s2, u, StateMutex(u));
  }

  lemma NotifyDead(s: State, c: CondId, x: Tid)
    requires c in s.conds && InNoCondQueue(s.conds, x) && Dead(s, x)
    ensures Dead(NotifyNow(s, c), x) && NotifyNow(s, c).sems == s.sems
  {
    hide TimerMasked;
  }

  lemma NobodyPassed(s: State, u: Tid, m: SemId)
    requires m in s.sems && s.sems[m].core.queue == []
    ensures Release(s, u, m).sched == s.sched
  {
  }

  /** No step brings a zombie back. */
  lemma DeadStep(s: State, step: Step, x: Tid)
    requires Inv(s) && Enabled(s, step) && Dead(s, x)
    ensures Dead(Apply(s, step), x)
  {
    hide Release, DoExit, DoCheck, DoWake, Gather, Block, Enter, Take, CyclicNext, TimerMasked, Tables, Queues,
      Notifiers, ReleasedOnce, Timer, InNoSemQueue, InNoCondQueue;
    DeadFacts(s, x);
    var u := s.sched.active;
    match step
    case Down(m) => BlockDead(s, u, m, None, x);
    case Up(m) => ReleaseDead(s, u, m, x);
    case WaitOn(c, m) =>
      EnterDead(s, u, c, m, x);
      ReleaseDead(Enter(s, u, c, m), u, m, x);
    case NotifyOne(c) => GatherStays(s, u, c);
    case NotifyAll(c) => GatherStays(s, u, c);
    case Wake => WakeDead(s, u, x);
    case Check =>
      TaskFacts(s, u);
      CheckDead(s, u, x);
    case LockAgain => BlockDead(s, u, s.pc[u].m, Some(s.pc[u].c), x);
    case Exit =>
      SemFacts(s, StateMutex(u));
      ExitDead(s, u, x);
    case _ =>
  }

  /** In every run a task that has ended stays a zombie and is never active again. */
  lemma {:induction false} DeadForEver(states: seq<State>, steps: seq<Step>, i: nat, j: nat, x: Tid)
    requires IsRun(states, steps) && i <= j < |states| && Dead(states[i], x)
    ensures Dead(states[j], x) && states[j].sched.active != x
    decreases j
  {
    hide Initial, Enabled, Apply, Inv;
    Reachable(states, steps, j);
    if i < j {
      DeadForEver(states, steps, i, j - 1, x);
      Reachable(states, steps, j - 1);
      assert states[j] == Apply(states[j - 1], steps[j - 1]);
      DeadStep(states[j - 1], steps[j - 1], x);
    }
    DeadFacts(states[j], x);
  }

  // ----- runs as histories of the scheduler

  /** The scheduler's part of a stretch of a run, and which of its steps are exits. */
  function Scheds(states: seq<State>): seq<Sched> {
    seq(|states|, i requires 0 <= i < |states| => states[i].sched)
  }

  function Exits(steps: seq<Step>): seq<bool> {
    seq(|steps|, i requires 0 <= i < |steps| => steps[i].Exit?)
  }

  lemma SwitchOrStay(s: State, step: Step)
    requires Enabled(s, step) && !step.Exit?
    ensures Apply(s, step).sched == Schedule(s.sched) || Apply(s, step).sched.active == s.sched.active
  {
    hide Release, DoExit, DoCheck, DoWake, Gather, Block, Enter, Take, Schedule, TimerMasked;
    var t := s.sched.active;
    match step
    case Down(m) => BlockStays(s, t, m, None);
    case Up(m) => ReleaseStays(s, t, m);
    case WaitOn(c, m) =>
      EnterStays(s, t, c, m);
      ReleaseStays(Enter(s, t, c, m), t, m);
    case NotifyOne(c) => GatherStays(s, t, c);
    case NotifyAll(c) => GatherStays(s, t, c);
    case Check => CheckStays(s, t);
    case Wake => WakeStays(s, t);
    case LockAgain => BlockStays(s, t, s.pc[t].m, Some(s.pc[t].c));
    case _ =>
  }

  lemma ReleaseStays(s: State, t: Tid, m: SemId)
    requires m in s.sems
    ensures Release(s, t, m).sched.active == s.sched.active
  {
  }

  lemma BlockStays(s: State, t: Tid, m: SemId, back: Option<CondId>)
    requires m in s.sems
    ensures Take(s, t, m).sched == s.sched && Block(s, t, m, back).sched.active == s.sched.active
  {
  }

  lemma EnterStays(s: State, t: Tid, c: CondId, m: SemId)
    requires c in s.conds
    ensures Enter(s, t, c, m).sched.active == s.sched.active && Enter(s, t, c, m).sems == s.sems
  {
  }

  lemma CheckStays(s: State, t: Tid)
    requires t in s.pc && s.pc[t].Returned? && WaitRefs(s, s.pc[t].w)
    ensures DoCheck(s, t).sched.active == s.sched.active
  {
    hide Release;
    if !s.pc[t].up && s.pc[t].w.OnCond? {
      ReleaseStays(Prepare(s, t), t, s.pc[t].w.m);
    }
  }

  lemma WakeStays(s: State, t: Tid)
    requires t in s.pc && (s.pc[t].Mask? || ((s.pc[t].SetUp? || s.pc[t].SetRunnable?) && s.pc[t].ps != []))
    ensures DoWake(s, t).sched.active == s.sched.active
  {
  }

  /** An exit makes the active task a zombie, and the search for the next one starts at 0. */
  lemma ExitLeaves(s: State)
    requires Inv(s) && Enabled(s, Exit)
    ensures var s' := Apply(s, Exit); Dead(s', s.sched.active) && s'.sched == Schedule(s'.sched.(active := 0))
  {
    hide Tables, Queues, Notifiers, ReleasedOnce, Timer, InNoCondQueue, Schedule, TimerMasked, DoExit;
    var u := s.sched.active;
    SemFacts(s, StateMutex(u));
    TaskFacts(s, u);
    QueueFacts(s, u);
    ExitDead(s, u, u);
    ExitRestarts(s, u);
  }

  lemma ExitRestarts(s: State, u: Tid)
    requires StateMutex(u) in s.sems && StateCond(u) in s.conds
    ensures DoExit(s, u).sched == Schedule(DoExit(s, u).sched.(active := 0))
  {
    hide Release, CyclicNext, TimerMasked, Take, NotifyNow;
    TakeFrame(s.(sched := s.sched.(active := 0)), u, StateMutex(u));
    var s1 := SetTask(Take(s.(sched := s.sched.(active := 0)), u, StateMutex(u)), u, Zombie);
    NotifyFrame(s1, StateCond(u));
    var s2 := NotifyNow(s1, StateCond(u));
    NotifyStays(s1, StateCond(u));
    ReleaseStays(s2, u, StateMutex(u));
    var x := Masking(Release(s2, u, StateMutex(u)).sched);
    assert x.active == 0 && DoExit(s, u).sched == Schedule(x);
  }

  lemma NotifyStays(s: State, c: CondId)
    requires c in s.conds
    ensures NotifyNow(s, c).sched.active == s.sched.active
  {
    hide TimerMasked;
  }

  /** Every stretch of a run is a history of the scheduler. */
  lemma RunIsHistory(states: seq<State>, steps: seq<Step>, i: nat, j: nat)
    requires IsRun(states, steps) && i <= j < |states|
    ensures History(Scheds(states[i..j + 1]), Exits(steps[i..j]))
  {
    hide Initial, Enabled, Apply, Schedule, Inv;
    var run, exits := Scheds(states[i..j + 1]), Exits(steps[i..j]);
    forall k | 0 <= k < |exits|
      ensures exits[k] ==> Leaves(run, k)
      ensures !exits[k] ==> Switches(run, k) || run[k + 1].active == run[k].active
    {
      var s, step := states[i + k], steps[i + k];
      assert run[k] == s.sched && run[k + 1] == states[i + k + 1].sched && states[i + k + 1] == Apply(s, step);
      Reachable(states, steps, i + k);
      if exits[k] {
        ExitLeaves(s);
      } else {
        SwitchOrStay(s, step);
      }
    }
    forall k, x | 0 <= k < |exits| && IsZombie(run, k, x) ensures IsZombie(run, k + 1, x) {
      assert run[k] == states[i + k].sched && run[k + 1] == states[i + k + 1].sched;
      DeadForEver(states, steps, i + k, i + k + 1, x);
    }
  }

  /** In every run: while `t` is Runnable and passed over, `u` is given the processor at most
      once, and once more for every task between `u` and `t` that exits meanwhile. */
  lemma BypassInRuns(states: seq<State>, steps: seq<Step>, i: nat, j: nat, t: Tid, u: Tid)
    requires IsRun(states, steps) && i <= j < |states| == |steps| + 1
    requires forall k :: i <= k <= j ==> Awake(states[k], t) && states[k].sched.active != t
    ensures var run, exits := Scheds(states[i..j + 1]), Exits(steps[i..j]);
      PickCount(run, exits, j - i, u) <= 1 + ExitsBetween(run, exits, j - i, u, t)
  {
    hide IsRun, History, PickCount, ExitsBetween, Inv;
    RunIsHistory(states, steps, i, j);
    var run, exits := Scheds(states[i..j + 1]), Exits(steps[i..j]);
    forall k | 0 <= k < |run| ensures t in run[k].tasks && run[k].tasks[t] == Runnable && run[k].active != t {
      assert run[k] == states[i + k].sched && Awake(states[i + k], t);
    }
    Reachable(states, steps, i);
    assert Awake(states[i], t);
    NotNobody(states[i], t);
    BypassBound(run, exits, j - i, t, u);
  }

  lemma NotNobody(s: State, t: Tid)
    requires Inv(s) && t in s.sched.tasks
    ensures t > 0
  {
    hide Refs, Places, Kept, Joins, Conditions, Queues, Notifiers, ReleasedOnce, Timer;
  }

  // ----- a run that meets the bound

  /** Tasks 1 to `n` exist and are ready, `t` is active, and nobody has used task 2's state. */
  ghost predicate Ready(s: State, t: Tid, n: Tid) {
    && (forall x: Tid :: x in s.sched.tasks <==> 1 <= x <= n)
    && (forall x: Tid :: 1 <= x <= n ==> s.sched.tasks[x] == Runnable && x in s.pc && s.pc[x] == Running)
    && s.sched.active == t && s.sched.nextTid == n + 1
    && (n >= 2 ==> StateMutex(2) in s.sems && s.sems[StateMutex(2)] == FreshMutex())
    && (n >= 2 ==> StateCond(2) in s.conds && s.conds[StateCond(2)] == Cond([], [], []))
  }

  lemma FirstTaskRuns(s: State)
    requires Initial(s)
    ensures Enabled(s, Tick) && Ready(Apply(s, Tick), 1, 1)
  {
    hide CyclicNext;
    FirstAfter(s.sched.tasks, 0, 1);
  }

  lemma OneMoreTask(s: State, n: Tid)
    requires Ready(s, 1, n) && n >= 1
    ensures Enabled(s, Spawn(n + 1)) && Ready(Apply(s, Spawn(n + 1)), 1, n + 1)
  {
    hide TimerMasked;
  }

  /** The search comes round to the lowest Runnable task. */
  lemma FirstAround(tasks: Tasks, a: Tid, next: Tid)
    requires next in tasks && tasks[next] == Runnable
    requires forall x :: x in tasks && tasks[x] == Runnable ==> next <= x <= a
    ensures CyclicNext(tasks, a) == Some(next)
  {
    assert next in RunnableTasks(tasks);
  }

  lemma NextInTurn(s: State, t: Tid, n: Tid)
    requires Ready(s, t, n) && 1 <= t <= n
    ensures Enabled(s, Preempt) && Ready(Apply(s, Preempt), if t < n then t + 1 else 1, n)
    ensures Apply(s, Preempt).sched == Schedule(s.sched)
  {
    hide CyclicNext;
    if t < n {
      FirstAfter(s.sched.tasks, t, t + 1);
    } else {
      FirstAround(s.sched.tasks, t, 1);
    }
  }

  /** Task 2 ends, and 1 is next; everybody else is as ready as before. */
  lemma TwoEnds(s: State, n: Tid)
    requires Ready(s, 2, n) && n >= 2
    ensures Enabled(s, Exit) && Apply(s, Exit).sched.active == 1
    ensures forall x :: 2 < x <= n ==> Awake(Apply(s, Exit), x)
  {
    hide CyclicNext, TimerMasked;
    FirstAfter(s.sched.tasks[2 := Zombie], 0, 1);
  }

  ghost predicate IsStretch(states: seq<State>, steps: seq<Step>) {
    && |states| == |steps| + 1
    && forall i :: 0 <= i < |steps| ==> Enabled(states[i], steps[i]) && states[i + 1] == Apply(states[i], steps[i])
  }

  lemma OneMoreStep(states: seq<State>, steps: seq<Step>, step: Step)
    requires IsStretch(states, steps) && Enabled(states[|steps|], step)
    ensures IsStretch(states + [Apply(states[|steps|], step)], steps + [step])
  {
    hide Enabled, Apply;
  }

  /** Four tasks are there, and each has had its turn up to the last one. */
  lemma {:induction false} FourInTurn(s: State, n: nat) returns (states: seq<State>, steps: seq<Step>)
    requires Initial(s) && n <= 6
    ensures IsStretch(states, steps) && |steps| == n + 1 && states[0] == s
    ensures n <= 3 ==> Ready(states[n + 1], 1, n + 1)
    ensures n > 3 ==> Ready(states[n + 1], n - 2, 4)
    decreases n
  {
    hide Initial, Enabled, Apply, Ready;
    if n == 0 {
      FirstTaskRuns(s);
      states, steps := [s, Apply(s, Tick)], [Tick];
    } else {
      states, steps := FourInTurn(s, n - 1);
      var last, step := states[n], if n <= 3 then Spawn(n + 1) else Preempt;
      if n <= 3 {
        OneMoreTask(last, n);
      } else {
        NextInTurn(last, n - 3, 4);
      }
      OneMoreStep(states, steps, step);
      states, steps := states + [Apply(last, step)], steps + [step];
    }
  }

  /** With tasks 1 to 4 ready and 4 active, 1 runs, then 2, and after the exit of 2 it is 1 again,
      while 3 was ready throughout: the bound on bypassing is met in a run from every start. */
  lemma BoundMetInRuns(s: State) returns (states: seq<State>, steps: seq<Step>, i: nat)
    requires Initial(s)
    ensures IsRun(states, steps) && states[0] == s && i + 3 < |states| == |steps| + 1
    ensures forall k :: i <= k <= i + 3 ==> Awake(states[k], 3) && states[k].sched.active != 3
    ensures var run, exits := Scheds(states[i..i + 4]), Exits(steps[i..i + 3]);
      PickCount(run, exits, 3, 1) == 2 == 1 + ExitsBetween(run, exits, 3, 1, 3)
  {
    hide Initial, Enabled, Apply, Ready, PickCount, ExitsBetween, Schedule;
    states, steps := FourInTurn(s, 6);
    i := 7;
    var s7 := states[7];
    NextInTurn(s7, 4, 4);
    OneMoreStep(states, steps, Preempt);
    var s8 := Apply(s7, Preempt);
    states, steps := states + [s8], steps + [Preempt];
    NextInTurn(s8, 1, 4);
    OneMoreStep(states, steps, Preempt);
    var s9 := Apply(s8, Preempt);
    states, steps := states + [s9], steps + [Preempt];
    TwoEnds(s9, 4);
    OneMoreStep(states, steps, Exit);
    var s10 := Apply(s9, Exit);
    states, steps := states + [s10], steps + [Exit];
    ReadyFacts(s7, 4, 4, 3);
    ReadyFacts(s8, 1, 4, 3);
    ReadyFacts(s9, 2, 4, 3);
    var run, exits := Scheds(states[7..11]), Exits(steps[7..10]);
    assert run == [s7.sched, s8.sched, s9.sched, s10.sched] && exits == [false, false, true];
    StartsOverCounts(run, exits, 1, 2, 3);
  }

  lemma ReadyFacts(s: State, t: Tid, n: Tid, x: Tid)
    requires Ready(s, t, n) && 1 <= x <= n
    ensures Awake(s, x) && s.sched.active == t
  {
  }
}
