/** The task table and the round-robin choice of source/TaskManager.cpp. */
module Scheduler {
  import opened Common

  /** A task identifier; 0 means "no task". */
  type Tid = nat

  datatype TaskState = Runnable | Sleeping | Zombie

  type Tasks = map<Tid, TaskState>

  function RunnableTasks(tasks: Tasks): set<Tid> {
    set t | t in tasks && tasks[t] == Runnable
  }

  /** The timer only ticks when there is somebody to switch to. */
  predicate TimerMasked(tasks: Tasks) {
    |RunnableTasks(tasks)| < 2
  }

  predicate IsLeast(s: set<Tid>, above: int, t: Tid) {
    t in s && t > above && forall u :: u in s && u > above ==> t <= u
  }

  lemma {:induction false} LeastExists(s: set<Tid>, above: int)
    requires exists t: Tid :: t in s && t > above
    ensures exists t: Tid :: IsLeast(s, above, t)
  {
    var t: Tid :| t in s && t > above;
    if u: Tid :| u in s && above < u < t {
      var rest := set v | v in s && v < t;
      assert u in rest && t !in rest;
      LeastExists(rest, above);
      var l: Tid :| IsLeast(rest, above, l);
      assert l in rest;
      forall v | v in s && v > above ensures l <= v {
        assert v < t ==> v in rest;
      }
      assert IsLeast(s, above, l);
    } else {
      assert IsLeast(s, above, t);
    }
  }

  /** `std::set::upper_bound`: the least task above `id`. */
  function UpperBound(s: set<Tid>, id: int): (r: Option<Tid>)
    ensures r.None? ==> forall t :: t in s ==> t <= id
    ensures r.Some? ==> IsLeast(s, id, r.value)
  {
    if t: Tid :| t in s && t > id then
      LeastExists(s, id);
      var l: Tid :| IsLeast(s, id, l);
      Some(l)
    else
      None
  }

  /** `x` comes before `y` in the cyclic order that starts just after `t` and ends at `t`. */
  predicate Before(t: Tid, x: Tid, y: Tid) {
    if x > t then y <= t || x < y else x < y <= t
  }

  /** The cyclically next Runnable task after `active`, itself coming last. */
  function CyclicNext(tasks: Tasks, active: Tid): (r: Option<Tid>)
    ensures r.None? <==> RunnableTasks(tasks) == {}
    ensures r.Some? ==> r.value in tasks && tasks[r.value] == Runnable
    ensures r.Some? ==> forall u :: u in RunnableTasks(tasks) && u != r.value ==> Before(active, r.value, u)
  {
    var ready := RunnableTasks(tasks);
    match UpperBound(ready, active)
    case Some(t) => Some(t)
    case None =>
      match UpperBound(ready, -1)
      case Some(t) => Some(t)
      case None => assert forall t :: t in ready ==> t <= -1; assert ready == {}; None
  }

  lemma {:induction false} BoundExists(s: set<Tid>) returns (bound: Tid)
    ensures forall t :: t in s ==> t <= bound
  {
    if s == {} {
      bound := 0;
    } else {
      var t :| t in s;
      var b := BoundExists(s - {t});
      bound := if t > b then t else b;
      forall u | u in s ensures u <= bound {
        assert u == t || u in s - {t};
      }
    }
  }

  /** The scheduler's fields as a value. */
  datatype Sched = Sched(tasks: Tasks, active: Tid, nextTid: Tid, timerMasked: bool)

  /** Well-formed task table: 0 is nobody, the active task exists. */
  predicate ValidSched(s: Sched) {
    0 !in s.tasks && s.nextTid > 0 && (s.active != 0 ==> s.active in s.tasks)
  }

  function Masking(s: Sched): Sched {
    s.(timerMasked := TimerMasked(s.tasks))
  }

  function SetState(s: Sched, t: Tid, st: TaskState): Sched {
    s.(tasks := s.tasks[t := st])
  }

  /** Who runs after a switch: the next Runnable task, or nobody. */
  function Schedule(s: Sched): Sched {
    match CyclicNext(s.tasks, s.active)
    case Some(t) => s.(active := t)
    case None => s.(active := 0)
  }

  predicate IsFreeTid(s: Sched, tid: Tid) {
    s.nextTid <= tid && tid !in s.tasks && forall u :: s.nextTid <= u < tid ==> u in s.tasks
  }

  function Insert(s: Sched, tid: Tid, st: TaskState): Sched {
    var s' := s.(tasks := s.tasks[tid := st], nextTid := tid + 1);
    if st == Runnable then Masking(s') else s'
  }

  class TaskManager {
    var tasks: Tasks
    var active: Tid
    var nextTid: Tid
    var timerMasked: bool

    function Value(): Sched
      reads this
    {
      Sched(tasks, active, nextTid, timerMasked)
    }

    predicate Valid()
      reads this
    {
      ValidSched(Value())
    }

    constructor ()
      ensures Valid() && Value() == Sched(map[], 0, 1, true)
      ensures timerMasked == TimerMasked(tasks)
    {
      tasks, active, nextTid, timerMasked := map[], 0, 1, true;
      new;
      assert RunnableTasks(tasks) == {};
    }

    /** Walks the ordered task set and stops at the second Runnable task. */
    method DoInterruptMasking()
      modifies this`timerMasked
      ensures Value() == Masking(old(Value()))
    {
      var foundFirst := false;
      var id: int := -1;
      ghost var bound := BoundExists(tasks.Keys);
      ghost var seen: set<Tid> := {};
      while UpperBound(tasks.Keys, id).Some?
        invariant -1 <= id
        invariant seen == set t | t in RunnableTasks(tasks) && t <= id
        invariant |seen| == if foundFirst then 1 else 0
        decreases bound - id
      {
        var t := UpperBound(tasks.Keys, id).value;
        ghost var before := seen;
        id := t;
        seen := set u | u in RunnableTasks(tasks) && u <= id;
        if tasks[t] == Runnable {
          assert seen == before + {t} && t !in before;
          if foundFirst {
            timerMasked := false;
            SubsetSize(seen, RunnableTasks(tasks));
            return;
          }
          foundFirst := true;
        } else {
          assert seen == before;
        }
      }
      assert seen == RunnableTasks(tasks);
      timerMasked := true;
    }

    method UpdateNextTid()
      modifies this`nextTid
      ensures old(nextTid) <= nextTid && nextTid !in tasks
      ensures forall u :: old(nextTid) <= u < nextTid ==> u in tasks
    {
      ghost var bound := BoundExists(tasks.Keys);
      while nextTid in tasks
        invariant old(nextTid) <= nextTid
        invariant forall u :: old(nextTid) <= u < nextTid ==> u in tasks
        decreases bound - nextTid
      {
        nextTid := nextTid + 1;
      }
    }

    /** `addTask`: the lowest identifier not in use from `nextTid` on. */
    method AddTask(st: TaskState) returns (tid: Tid)
      requires Valid()
      modifies this
      ensures Valid()
      ensures IsFreeTid(old(Value()), tid)
      ensures Value() == Insert(old(Value()), tid, st)
      ensures tasks == old(tasks)[tid := st] && active == old(active) && nextTid == tid + 1
      ensures st == Runnable ==> (timerMasked <==> |RunnableTasks(tasks)| < 2)
      ensures st != Runnable ==> timerMasked == old(timerMasked)
    {
      UpdateNextTid();
      tid := nextTid;
      nextTid := nextTid + 1;
      tasks := tasks[tid := st];
      if st == Runnable {
        DoInterruptMasking();
      }
    }

    method PrepareMeForSleep()
      requires Valid() && active != 0
      modifies this
      ensures Valid()
      ensures Value() == Masking(SetState(old(Value()), active, Sleeping))
      ensures tasks == old(tasks)[active := Sleeping] && active == old(active) && nextTid == old(nextTid)
      ensures timerMasked <==> |RunnableTasks(tasks)| < 2
    {
      tasks := tasks[active := Sleeping];
      DoInterruptMasking();
    }

    method WakeUpTask(t: Tid)
      requires Valid() && t in tasks
      modifies this
      ensures Valid()
      ensures Value() == Masking(SetState(old(Value()), t, Runnable))
      ensures tasks == old(tasks)[t := Runnable] && active == old(active) && nextTid == old(nextTid)
      ensures timerMasked <==> |RunnableTasks(tasks)| < 2
    {
      tasks := tasks[t := Runnable];
      DoInterruptMasking();
    }

    /** `getNext`: at most two passes over the ordered set, one candidate id at a time. */
    method GetNext() returns (r: Option<Tid>)
      requires Valid()
      ensures r == CyclicNext(tasks, active)
    {
      var id := active;
      var looped := false;
      ghost var bound := BoundExists(tasks.Keys);
      while true
        invariant !looped ==> active <= id && forall t :: t in RunnableTasks(tasks) ==> t <= active || id < t
        invariant looped ==> forall t :: t in RunnableTasks(tasks) ==> id < t <= active
        decreases !looped, bound - id
      {
        var iter := UpperBound(tasks.Keys, id);
        if iter.None? {
          if looped {
            assert RunnableTasks(tasks) == {};
            return None;
          }
          id, looped := 0, true;
        } else {
          if tasks[iter.value] == Runnable {
            assert iter.value in RunnableTasks(tasks);
            return iter;
          }
          id := id + 1;
        }
      }
    }

    /** The switch itself, `tryScheduleNext` followed by `enterSleep` when nobody is Runnable. */
    method ScheduleNext()
      requires Valid()
      modifies this`active
      ensures Valid()
      ensures Value() == Schedule(old(Value()))
      ensures RunnableTasks(tasks) == {} ==> active == 0
      ensures RunnableTasks(tasks) != {} ==>
        && active in RunnableTasks(tasks)
        && forall u :: u in RunnableTasks(tasks) && u != active ==> Before(old(active), active, u)
    {
      var next := GetNext();
      match next
      case Some(t) => active := t;
      case None => active := 0;
    }
  }

  lemma SubsetSize(a: set<Tid>, b: set<Tid>)
    requires a <= b
    ensures |a| <= |b|
  {
    assert b == a + (b - a);
  }

  lemma PickAdvances(tasks: Tasks, a: Tid, t: Tid)
    requires t in tasks && tasks[t] == Runnable && a != t
    ensures var next := CyclicNext(tasks, a); next.Some? && (next.value == t || Before(t, a, next.value))
  {
    assert t in RunnableTasks(tasks);
  }

  // ----- fairness

  /** A history of the table. `exits[k]` says that the step from `run[k]` is the exit of the
      active task; any other step is a switch, or keeps the active task. Zombies stay zombies. */
  ghost predicate History(run: seq<Sched>, exits: seq<bool>) {
    && |run| == |exits| + 1
    && (forall k :: 0 <= k < |exits| && exits[k] ==> Leaves(run, k))
    && (forall k :: 0 <= k < |exits| && !exits[k] ==> Switches(run, k) || run[k + 1].active == run[k].active)
    && (forall k, x :: 0 <= k < |exits| && IsZombie(run, k, x) ==> IsZombie(run, k + 1, x))
  }

  predicate Switches(run: seq<Sched>, k: int) {
    0 <= k < |run| - 1 && run[k + 1] == Schedule(run[k])
  }

  predicate IsZombie(run: seq<Sched>, k: int, x: Tid) {
    0 <= k < |run| && x in run[k].tasks && run[k].tasks[x] == Zombie
  }

  /** The active task becomes a zombie, and the search for the next one starts at 0. */
  predicate Leaves(run: seq<Sched>, k: int) {
    && 0 <= k < |run| - 1 && IsZombie(run, k + 1, run[k].active)
    && run[k + 1] == Schedule(run[k + 1].(active := 0))
  }

  /** Task `t` is ready all the time, and is not given the processor. */
  ghost predicate PassedOver(run: seq<Sched>, t: Tid) {
    forall k :: 0 <= k < |run| ==> t in run[k].tasks && run[k].tasks[t] == Runnable && run[k].active != t
  }

  /** The step from `run[k]` gives the processor to `u`. */
  predicate Picks(run: seq<Sched>, exits: seq<bool>, k: int, u: Tid) {
    0 <= k < |exits| && k + 1 < |run| && (exits[k] || Switches(run, k)) && run[k + 1].active == u
  }

  /** How often `u` is given the processor in the first `n` steps. */
  function PickCount(run: seq<Sched>, exits: seq<bool>, n: nat, u: Tid): nat {
    if n == 0 then 0 else PickCount(run, exits, n - 1, u) + if Picks(run, exits, n - 1, u) then 1 else 0
  }

  /** The step from `run[k]` is the exit of a task that comes between `u` and `t`. */
  predicate ExitBetween(run: seq<Sched>, exits: seq<bool>, k: int, u: Tid, t: Tid) {
    0 <= k < |exits| && k < |run| && exits[k] && u < run[k].active < t
  }

  function ExitsBetween(run: seq<Sched>, exits: seq<bool>, n: nat, u: Tid, t: Tid): nat {
    if n == 0 then 0
    else ExitsBetween(run, exits, n - 1, u, t) + if ExitBetween(run, exits, n - 1, u, t) then 1 else 0
  }

  /** The round has come past `u` on its way to `t`, or `u` is gone. */
  predicate Past(run: seq<Sched>, n: nat, t: Tid, u: Tid) {
    n < |run| && (run[n].active == u || Before(t, u, run[n].active) || IsZombie(run, n, u))
  }

  /** Bounded bypass: while `t` is ready and passed over, `u` is given the processor at most
      once, and once more for every exit of a task between `u` and `t`. When the bound is
      reached the round has already come past `u`. */
  lemma {:induction false} BypassBound(run: seq<Sched>, exits: seq<bool>, n: nat, t: Tid, u: Tid)
    requires History(run, exits) && PassedOver(run, t) && n <= |exits| && t > 0
    ensures PickCount(run, exits, n, u) <= 1 + ExitsBetween(run, exits, n, u, t)
    ensures PickCount(run, exits, n, u) == 1 + ExitsBetween(run, exits, n, u, t) ==> Past(run, n, t, u)
    decreases n
  {
    hide History, PassedOver, Picks, ExitBetween, Past;
    if n > 0 {
      BypassBound(run, exits, n - 1, t, u);
      PickedIsPast(run, exits, n - 1, t, u);
      if Past(run, n - 1, t, u) {
        PastStays(run, exits, n - 1, t, u);
      }
    }
  }

  lemma PickedIsPast(run: seq<Sched>, exits: seq<bool>, k: nat, t: Tid, u: Tid)
    ensures Picks(run, exits, k, u) ==> Past(run, k + 1, t, u)
  {
  }

  /** Once the round is past `u`, it stays so until a task between `u` and `t` exits. */
  lemma PastStays(run: seq<Sched>, exits: seq<bool>, k: nat, t: Tid, u: Tid)
    requires History(run, exits) && PassedOver(run, t) && k < |exits| && t > 0 && Past(run, k, t, u)
    ensures Past(run, k + 1, t, u) || ExitBetween(run, exits, k, u, t)
    ensures Picks(run, exits, k, u) ==> ExitBetween(run, exits, k, u, t)
  {
    hide CyclicNext;
    assert run[k].active != t && run[k + 1].active != t;
    ZombieNotPicked(run, exits, k, t, u);
    if exits[k] {
      assert Leaves(run, k);
      RestartsBelow(run[k + 1].tasks, t);
    } else {
      PickAdvances(run[k].tasks, run[k].active, t);
    }
  }

  lemma ZombieNotPicked(run: seq<Sched>, exits: seq<bool>, k: nat, t: Tid, u: Tid)
    requires History(run, exits) && PassedOver(run, t) && k < |exits|
    ensures IsZombie(run, k, u) ==> IsZombie(run, k + 1, u)
    ensures IsZombie(run, k + 1, u) ==> !Picks(run, exits, k, u)
  {
    assert t in RunnableTasks(run[k].tasks) && t in RunnableTasks(run[k + 1].tasks);
    assert exits[k] ==> Leaves(run, k);
  }

  /** A search that starts at 0 does not go beyond a Runnable task. */
  lemma RestartsBelow(tasks: Tasks, t: Tid)
    requires t in tasks && tasks[t] == Runnable && t > 0
    ensures var next := CyclicNext(tasks, 0); next.Some? && next.value <= t
  {
    assert t in RunnableTasks(tasks);
  }

  /** Whatever happens, `u` bypasses `t` at most once, exactly if no task can be between them. */
  lemma BypassedOnceIff(t: Tid, u: Tid)
    requires t > 0 && u > 0 && t != u
    ensures t <= u + 1 <==>
      forall run, exits :: History(run, exits) && PassedOver(run, t) ==> PickCount(run, exits, |exits|, u) <= 1
  {
    hide History, PassedOver, Picks, PickCount;
    if t <= u + 1 {
      forall run, exits | History(run, exits) && PassedOver(run, t) ensures PickCount(run, exits, |exits|, u) <= 1 {
        BypassBound(run, exits, |exits|, t, u);
        NoneBetween(run, exits, |exits|, u, t);
      }
    } else {
      var run, exits := ExitStartsOver(u, u + 1, t);
    }
  }

  lemma {:induction false} NoneBetween(run: seq<Sched>, exits: seq<bool>, n: nat, u: Tid, t: Tid)
    requires t <= u + 1 || forall k :: 0 <= k < |exits| ==> !exits[k]
    ensures ExitsBetween(run, exits, n, u, t) == 0
  {
    if n > 0 {
      NoneBetween(run, exits, n - 1, u, t);
    }
  }

  /** Without exits, between two times `u` is given the processor, a task that is ready all
      the time has run. */
  lemma BypassedAtMostOnce(run: seq<Sched>, exits: seq<bool>, t: Tid, u: Tid)
    requires History(run, exits) && PassedOver(run, t) && t > 0 && forall k :: 0 <= k < |exits| ==> !exits[k]
    ensures forall i, j :: Picks(run, exits, i, u) && Picks(run, exits, j, u) ==> i == j
  {
    hide History, PassedOver, Picks, PickCount, ExitsBetween;
    forall i, j | Picks(run, exits, i, u) && Picks(run, exits, j, u) ensures i == j {
      PickedTime(run, exits, i, u);
      PickedTime(run, exits, j, u);
      if i != j {
        var first, second := if i < j then i else j, if i < j then j else i;
        TwicePicked(run, exits, first, second, u);
        BypassBound(run, exits, second + 1, t, u);
        NoneBetween(run, exits, second + 1, u, t);
      }
    }
  }

  lemma PickedTime(run: seq<Sched>, exits: seq<bool>, k: int, u: Tid)
    requires Picks(run, exits, k, u)
    ensures 0 <= k < |exits|
  {
  }

  lemma {:induction false} TwicePicked(run: seq<Sched>, exits: seq<bool>, i: nat, j: nat, u: Tid)
    requires i < j && Picks(run, exits, i, u) && Picks(run, exits, j, u)
    ensures PickCount(run, exits, j + 1, u) >= 2
  {
    PicksOnce(run, exits, i, j, u);
  }

  lemma {:induction false} PicksOnce(run: seq<Sched>, exits: seq<bool>, i: nat, n: nat, u: Tid)
    requires i < n && Picks(run, exits, i, u)
    ensures PickCount(run, exits, n, u) >= 1
    decreases n
  {
    if i + 1 < n {
      PicksOnce(run, exits, i, n - 1, u);
    }
  }

  /** Exits do break the round: `u` runs, then `w`, and after the exit of `w` the search starts
      over, so that `u` runs a second time while `t` was ready throughout. The bound is met. */
  lemma ExitStartsOver(u: Tid, w: Tid, t: Tid) returns (run: seq<Sched>, exits: seq<bool>)
    requires 0 < u < w < t
    ensures History(run, exits) && PassedOver(run, t) && |exits| == 3
    ensures PickCount(run, exits, 3, u) == 2 == 1 + ExitsBetween(run, exits, 3, u, t)
  {
    hide CyclicNext;
    var all := map[u := Runnable, w := Runnable, t := Runnable];
    var left := all[w := Zombie];
    FirstAfter(all, 0, u);
    FirstAfter(all, u, w);
    FirstAfter(left, 0, u);
    run := [Sched(all, 0, t + 1, false), Sched(all, u, t + 1, false), Sched(all, w, t + 1, false),
            Sched(left, u, t + 1, false)];
    exits := [false, false, true];
    assert Switches(run, 0) && Switches(run, 1) && Leaves(run, 2);
    StartsOverCounts(run, exits, u, w, t);
  }

  lemma StartsOverCounts(run: seq<Sched>, exits: seq<bool>, u: Tid, w: Tid, t: Tid)
    requires u < w < t && |run| == 4 && exits == [false, false, true] && Switches(run, 0)
    requires run[1].active == u && run[2].active == w && run[3].active == u
    ensures PickCount(run, exits, 3, u) == 2 && ExitsBetween(run, exits, 3, u, t) == 1
  {
    hide Switches;
    assert PickCount(run, exits, 0, u) == 0 && ExitsBetween(run, exits, 0, u, t) == 0;
    assert PickCount(run, exits, 1, u) == 1 && ExitsBetween(run, exits, 1, u, t) == 0;
    assert PickCount(run, exits, 2, u) == 1 && ExitsBetween(run, exits, 2, u, t) == 0;
  }

  lemma FirstAfter(tasks: Tasks, a: Tid, next: Tid)
    requires next in tasks && tasks[next] == Runnable && a < next
    requires forall x :: x in tasks && tasks[x] == Runnable && x > a ==> next <= x
    ensures CyclicNext(tasks, a) == Some(next)
  {
    assert next in RunnableTasks(tasks);
  }
}
