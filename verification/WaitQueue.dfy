/** The intrusive waiter list of source/Semaphore.cpp and source/CondVar.cpp, and the
    two places where a semaphore touches it with interrupts disabled. */
module WaitQueues {
  import opened Common
  import opened Scheduler

  const COUNT_LIMIT: nat := 0x1_0000_0000

  /** A semaphore between two critical sections: its 32-bit count and the waiting tasks. */
  datatype SemCore = SemCore(count: nat, queue: seq<Tid>)

  function TakeOrQueue(c: SemCore, t: Tid): SemCore {
    if c.count > 0 then c.(count := c.count - 1) else c.(queue := c.queue + [t])
  }

  function GiveOrPass(c: SemCore): SemCore {
    if c.queue == [] then c.(count := (c.count + 1) % COUNT_LIMIT) else c.(queue := c.queue[1..])
  }

  /** Lives on the stack of the waiting task. */
  class Waiter {
    const task: Tid
    var up: bool
    var next: Waiter?

    constructor (task: Tid)
      ensures this.task == task && !up && next == null
    {
      this.task, up, next := task, false, null;
    }
  }

  class WaitQueue {
    var first: Waiter?
    var last: Waiter?
    ghost var nodes: seq<Waiter>

    ghost predicate Valid()
      reads this, nodes
    {
      && (forall i, j :: 0 <= i < j < |nodes| ==> nodes[i] != nodes[j])
      && (forall i :: 0 <= i < |nodes| - 1 ==> nodes[i].next == nodes[i + 1])
      && (nodes == [] ==> first == null && last == null)
      && (nodes != [] ==> first == nodes[0] && last == nodes[|nodes| - 1] && last.next == null)
    }

    ghost function Tasks(): seq<Tid>
      reads this
    {
      seq(|nodes|, i requires 0 <= i < |nodes| reads this => nodes[i].task)
    }

    constructor ()
      ensures Valid() && nodes == []
    {
      first, last, nodes := null, null, [];
    }

    method Push(w: Waiter)
      requires Valid() && w !in nodes && w.next == null
      modifies this, last
      ensures Valid() && nodes == old(nodes) + [w]
      ensures Tasks() == old(Tasks()) + [w.task]
    {
      if last != null {
        last.next := w;
        last := w;
      } else {
        first, last := w, w;
      }
      nodes := nodes + [w];
    }

    /** Unlinks the head; its own `next` is left as it was. */
    method Pop() returns (w: Waiter?)
      requires Valid()
      modifies this
      ensures Valid()
      ensures w == null <==> old(nodes) == []
      ensures w == null ==> nodes == []
      ensures w != null ==> old(nodes) == [w] + nodes && old(Tasks()) == [w.task] + Tasks()
    {
      w := first;
      if first == null {
        return;
      }
      if first == last {
        last := null;
      }
      assert |nodes| > 1 ==> nodes[0].next == nodes[1];
      first := first.next;
      nodes := nodes[1..];
    }

    /** `notify_all`: collects every waiter by following `next`, then empties the list. */
    method DrainAll() returns (ws: seq<Waiter>)
      requires Valid()
      modifies this
      ensures Valid() && nodes == []
      ensures ws == old(nodes)
    {
      ws := [];
      var cur := first;
      while cur != null
        invariant |ws| <= |nodes| && ws == nodes[..|ws|]
        invariant |ws| < |nodes| ==> cur == nodes[|ws|]
        invariant |ws| == |nodes| ==> cur == null
        decreases |nodes| - |ws|
      {
        assert |ws| + 1 < |nodes| ==> nodes[|ws|].next == nodes[|ws| + 1];
        ws := ws + [cur];
        cur := cur.next;
      }
      first, last, nodes := null, null, [];
    }
  }

  class Semaphore {
    var count: nat
    const waiters: WaitQueue

    ghost predicate Valid()
      reads this, waiters, waiters.nodes
    {
      waiters.Valid() && count < COUNT_LIMIT
    }

    ghost function Value(): SemCore
      reads this, waiters
    {
      SemCore(count, waiters.Tasks())
    }

    constructor (init: nat)
      requires init < COUNT_LIMIT
      ensures Valid() && Value() == SemCore(init, [])
    {
      count := init;
      waiters := new WaitQueue();
    }

    /** `down` up to the point where it either returns or has prepared the caller for sleep. */
    method Down(tm: TaskManager) returns (waiter: Waiter?)
      requires Valid() && tm.Valid() && tm.active != 0
      modifies this, waiters, waiters.nodes, tm
      ensures Valid() && tm.Valid()
      ensures Value() == TakeOrQueue(old(Value()), tm.active)
      ensures waiter == null <==> old(count) > 0
      ensures waiter == null ==> tm.Value() == old(tm.Value())
      ensures waiter != null ==>
        && fresh(waiter) && waiter.task == tm.active && !waiter.up && waiters.nodes == old(waiters.nodes) + [waiter]
        && tm.Value() == Masking(SetState(old(tm.Value()), tm.active, Sleeping))
    {
      waiter := null;
      if count != 0 {
        count := count - 1;
      } else {
        waiter := new Waiter(tm.active);
        waiters.Push(waiter);
        tm.PrepareMeForSleep();
      }
    }

    /** `up`: hand the unit to the first waiter, or bank it. */
    method Up(tm: TaskManager) returns (woken: Waiter?)
      requires Valid() && tm.Valid()
      requires forall w :: w in waiters.nodes ==> w.task in tm.tasks
      modifies this, waiters, waiters.nodes, tm
      ensures Valid() && tm.Valid()
      ensures Value() == GiveOrPass(old(Value()))
      ensures woken == null <==> old(Value()).queue == []
      ensures woken == null ==> tm.Value() == old(tm.Value())
      ensures woken != null ==>
        && woken.up && woken.task == old(Value()).queue[0]
        && tm.Value() == Masking(SetState(old(tm.Value()), woken.task, Runnable))
    {
      woken := waiters.Pop();
      if woken == null {
        count := (count + 1) % COUNT_LIMIT;
      } else {
        woken.up := true;
        tm.WakeUpTask(woken.task);
      }
    }
  }
}
