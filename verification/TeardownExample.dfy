/** A concrete run in which a waiter that was signalled before the semaphore was destroyed gets the failure of
    a waiter that was not. */
module TeardownExample {
  import opened Config
  import T = Tasks
  import TI = TasksInv
  import M = Space
  import MemoryLaws
  import Boot
  import opened Kernel

  /** The facts about the queues that the run depends on: tasks 8, 7 and 6 exist or can be made, and semaphore 1,
      owned by task 8, is in slot 0. */
  ghost predicate At(q: T.Queues, cur: int, ready: seq<int>, slot: T.Slot, blocked: seq<int>, left: int,
          waits: seq<int>)
  {
    && T.Shape(q) && q.cur == cur && q.idle == Boot.IDLE && q.ready == ready && q.left == left
    && q.slots[0] == slot && q.blocked[0] == blocked
    && |waits| == 3 && q.pcb[8].wait == waits[0] && q.pcb[7].wait == waits[1] && q.pcb[6].wait == waits[2]
    && q.pcb[8].pid == 1 && (forall t :: 6 <= t <= 8 ==> q.pcb[t].quantum == DEFAULT_QUANTUM)
  }

  const LIVE := T.Slot(1, 0, 1, 1)

  /** The queue part of a step. */
  lemma QueueStep(s: State, op: Op)
    requires Inv(s) && Enabled(s, op) && !op.Store? && !op.Clone? && !op.Exit?
    ensures Inv(Step(s, op).s) && T.Shape(s.q)
    ensures op.Fork? && s.q.free != [] ==> Step(s, op).s.q == T.Spawn(s.q).q && Step(s, op).ev == T.Spawn(s.q).ev
    ensures op.Tick? ==> Step(s, op).s.q == T.Tick(s.q).q && Step(s, op).ev == T.Tick(s.q).ev
    ensures op.SemInit? ==> Step(s, op).s.q == T.SemInit(s.q, op.id, op.value).q
    ensures op.SemWait? ==> Step(s, op).s.q == T.SemWait(s.q, op.id).q
    ensures op.SemSignal? ==>
              Step(s, op).s.q == T.SemSignal(s.q, op.id).q && Step(s, op).ev == T.SemSignal(s.q, op.id).ev
    ensures op.SemDestroy? ==>
              Step(s, op).s.q == T.SemDestroy(s.q, op.id).q && Step(s, op).ev == T.SemDestroy(s.q, op.id).ev
  {
    hide TI.Places, TI.Pids, TI.SlotTable, TI.Owners, TI.Waits, TI.Drains, TI.Quanta;
    StepKeeps(s, op);
    if op.Fork? && s.q.free != [] {
      MemoryLaws.ForkGetsFrames(s);
    }
  }

  ghost function Ticks(n: nat): seq<Op> {
    seq(n, _ => Tick)
  }

  lemma {:induction false} ExecConcat(s: State, a: seq<Op>, b: seq<Op>)
    requires Inv(s)
    ensures Exec(s, a + b) == Trace(Exec(Exec(s, a).s, b).s, Exec(s, a).ev + Exec(Exec(s, a).s, b).ev)
    decreases |a|
  {
    hide Inv, Step;
    if a == [] {
      assert a + b == b;
    } else {
      StepKeeps(s, a[0]);
      assert (a + b)[1..] == a[1..] + b;
      ExecConcat(Step(s, a[0]).s, a[1..], b);
    }
  }

  lemma ExecOne(s: State, op: Op)
    requires Inv(s)
    ensures Exec(s, [op]) == Trace(Step(s, op).s, Step(s, op).ev)
  {
    hide Inv, Step;
    assert [op][1..] == [];
  }

  lemma TickMore(q: T.Queues, cur: int, ready: seq<int>, slot: T.Slot, left: int, waits: seq<int>)
    requires At(q, cur, ready, slot, [], left, waits) && 6 <= cur <= 8 && left > 1
    ensures At(T.Tick(q).q, cur, ready, slot, [], left - 1, waits)
  {
  }

  /** The slot after a resumption in it. */
  ghost function Resumed(slot: T.Slot): T.Slot {
    slot.(used := if slot.used < 0 then slot.used + 1 else slot.used)
  }

  lemma TickLast(q: T.Queues, cur: int, next: int, rest: seq<int>, slot: T.Slot, waits: seq<int>)
    requires At(q, cur, [next] + rest, slot, [], 1, waits)
    requires 6 <= cur <= 8 && 6 <= next <= 8 && next != cur && -1 <= waits[8 - next] <= 0
    ensures var r := T.Tick(q);
            && (waits[8 - next] < 0 ==> At(r.q, next, rest + [cur], slot, [], DEFAULT_QUANTUM, waits))
            && (waits[8 - next] == 0 ==>
                  && At(r.q, next, rest + [cur], Resumed(slot), [], DEFAULT_QUANTUM, waits[8 - next := -1])
                  && T.Resume(0, next, if slot.used < 0 then -2 else 0) in r.ev)
  {
    var q1 := q.(left := 0);
    var y := T.Yield(q1).q;
    assert y.ready == [next] + (rest + [cur]);
    assert y.ready[1..] == rest + [cur];
  }

  /** A quantum runs down, and at its end the next ready task gets the processor. */
  lemma {:induction false} RunDown(s: State, cur: int, next: int, rest: seq<int>, slot: T.Slot, left: nat,
          waits: seq<int>)
    requires Inv(s) && At(s.q, cur, [next] + rest, slot, [], left, waits)
    requires 6 <= cur <= 8 && 6 <= next <= 8 && next != cur && left >= 1 && -1 <= waits[8 - next] <= 0
    ensures var r := Exec(s, Ticks(left));
            && (waits[8 - next] < 0 ==> At(r.s.q, next, rest + [cur], slot, [], DEFAULT_QUANTUM, waits))
            && (waits[8 - next] == 0 ==>
                  && At(r.s.q, next, rest + [cur], Resumed(slot), [], DEFAULT_QUANTUM, waits[8 - next := -1])
                  && T.Resume(0, next, if slot.used < 0 then -2 else 0) in r.ev)
    decreases left
  {
    hide Inv, Step, At, T.Tick;
    AtShape(s.q, cur, [next] + rest, slot, left, waits);
    QueueStep(s, Tick);
    var a := Step(s, Tick);
    assert Ticks(left)[0] == Tick && Ticks(left)[1..] == Ticks(left - 1);
    if left > 1 {
      TickMore(s.q, cur, [next] + rest, slot, left, waits);
      RunDown(a.s, cur, next, rest, slot, left - 1, waits);
    } else {
      TickLast(s.q, cur, next, rest, slot, waits);
      assert Ticks(0) == [];
    }
  }

  lemma AtShape(q: T.Queues, cur: int, ready: seq<int>, slot: T.Slot, left: int, waits: seq<int>)
    requires At(q, cur, ready, slot, [], left, waits)
    ensures T.Shape(q) && |waits| == 3
  {
  }

  const DESTROYED := T.Slot(DEAD, 0, 1, -1)
  const UNUSED := T.Slot(DEAD, 0, 1, 0)

  /** Task 8 makes the semaphore and two children. */
  lemma Begin(s: State)
    requires Inv(s) && s.q == Boot.Queues()
    ensures At(Exec(s, [SemInit(1, 0), Fork, Fork]).s.q, 8, [7, 6], LIVE, [], DEFAULT_QUANTUM, [-1, -1, -1])
  {
    hide Inv, Step, At, T.SemInit, T.Spawn;
    var q := s.q;
    Made();
    QueueStep(s, SemInit(1, 0));
    var s1 := Step(s, SemInit(1, 0)).s;
    QueueStep(s1, Fork);
    var s2 := Step(s1, Fork).s;
    QueueStep(s2, Fork);
    Three(s, SemInit(1, 0), Fork, Fork);
  }

  lemma Three(s: State, a: Op, b: Op, c: Op)
    requires Inv(s)
    ensures Inv(Step(s, a).s) && Inv(Step(Step(s, a).s, b).s)
    ensures Exec(s, [a, b, c]).s == Step(Step(Step(s, a).s, b).s, c).s
  {
    hide Inv, Step;
    StepKeeps(s, a);
    var s1 := Step(s, a).s;
    StepKeeps(s1, b);
    var s2 := Step(s1, b).s;
    assert [a, b, c][1..] == [b, c] && [b, c][1..] == [c];
    ExecOne(s2, c);
    assert Exec(s1, [b, c]).s == Exec(s2, [c]).s;
  }

  lemma Made()
    ensures var q1 := T.SemInit(Boot.Queues(), 1, 0).q;
            && T.Shape(q1) && q1.free != [] && q1.cur == 8 && q1.idle == 9
            && var q2 := T.Spawn(q1).q;
            && T.Shape(q2) && q2.free != [] && q2.cur == 8 && q2.idle == 9
            && At(T.Spawn(q2).q, 8, [7, 6], LIVE, [], DEFAULT_QUANTUM, [-1, -1, -1])
  {
    hide T.Spawn, T.SemInit, Boot.Queues, Boot.Down;
    Claimed();
    var q1 := T.SemInit(Boot.Queues(), 1, 0).q;
    Child(q1, []);
    assert [] + [7] == [7];
    Child(T.Spawn(q1).q, [7]);
    assert [7] + [6] == [7, 6];
  }

  /** The tasks from 6 on before and after the second fork, with an untouched semaphore in slot 0. */
  ghost predicate Fresh(q: T.Queues, ready: seq<int>) {
    && T.Shape(q) && q.cur == 8 && q.idle == 9 && q.ready == ready && q.left == DEFAULT_QUANTUM
    && q.slots[0] == LIVE && q.blocked[0] == []
    && q.pcb[8] == T.Pcb(1, DEFAULT_QUANTUM, -1)
    && (forall t :: t in ready && t >= 6 ==> q.pcb[t].quantum == DEFAULT_QUANTUM && q.pcb[t].wait == -1)
    && |ready| < 8 && q.free == Boot.Down(8 - |ready|)
  }

  lemma Claimed()
    ensures Fresh(T.SemInit(Boot.Queues(), 1, 0).q, [])
  {
    var q := Boot.Queues();
    assert T.FindId(q.slots, 1, 0) == -1;
    assert T.FindFree(q.slots, 0) == 0;
  }

  lemma Child(q: T.Queues, ready: seq<int>)
    requires Fresh(q, ready) && |ready| < 7
    ensures Fresh(T.Spawn(q).q, ready + [7 - |ready|])
  {
    assert q.free[1..] == Boot.Down(7 - |ready|);
  }

  /** Both children wait. */
  lemma Wait(q: T.Queues)
    requires At(q, 7, [6, 8], LIVE, [], DEFAULT_QUANTUM, [-1, -1, -1])
    ensures var q1 := T.SemWait(q, 1).q;
            && T.Shape(q1) && q1.cur == 6 && q1.idle == 9
            && At(T.SemWait(q1, 1).q, 8, [], LIVE, [7, 6], DEFAULT_QUANTUM, [-1, 0, 0])
  {
    assert T.FindId(q.slots, 1, 0) == 0;
    var b := T.BlockOn(q, 0).q;
    assert b.ready[0] == 6 && b.ready[1..] == [8];
    var q1 := T.SemWait(q, 1).q;
    assert T.FindId(q1.slots, 1, 0) == 0;
    assert q1.blocked[0] == [7];
    var b1 := T.BlockOn(q1, 0).q;
    assert b1.blocked[0] == [7, 6];
    assert b1.ready[0] == 8 && b1.ready[1..] == [];
  }

  /** Task 8 signals once and destroys the semaphore. */
  lemma SignalDestroy(q: T.Queues)
    requires At(q, 8, [], LIVE, [7, 6], DEFAULT_QUANTUM, [-1, 0, 0])
    ensures var a := T.SemSignal(q, 1);
            && T.Shape(a.q) && a.q.cur == 8 && a.q.idle == 9 && T.Wake(0, 7, 8) in a.ev
            && At(T.SemDestroy(a.q, 1).q, 8, [7, 6], DESTROYED, [], DEFAULT_QUANTUM, [-1, 0, 0])
            && T.Destroy(0) in T.SemDestroy(a.q, 1).ev
  {
    assert T.FindId(q.slots, 1, 0) == 0;
    var a := T.SemSignal(q, 1);
    assert a.ev[0] == T.Wake(0, 7, 8);
    assert a.q.blocked[0] == [6] && a.q.ready == [7];
    assert T.FindId(a.q.slots, 1, 0) == 0;
    assert T.SemDestroy(a.q, 1).ev[0] == T.Destroy(0);
  }

  lemma Two(s: State, a: Op, b: Op)
    requires Inv(s)
    ensures Inv(Step(s, a).s)
    ensures Exec(s, [a, b]) == Trace(Step(Step(s, a).s, b).s, Step(s, a).ev + Step(Step(s, a).s, b).ev)
  {
    hide Inv, Step;
    StepKeeps(s, a);
    assert [a, b][1..] == [b];
    ExecOne(Step(s, a).s, b);
  }

  lemma Waits(s: State)
    requires Inv(s) && At(s.q, 7, [6, 8], LIVE, [], DEFAULT_QUANTUM, [-1, -1, -1])
    ensures At(Exec(s, [SemWait(1), SemWait(1)]).s.q, 8, [], LIVE, [7, 6], DEFAULT_QUANTUM, [-1, 0, 0])
  {
    hide Inv, Step, T.SemWait;
    QueueStep(s, SemWait(1));
    Wait(s.q);
    QueueStep(Step(s, SemWait(1)).s, SemWait(1));
    Two(s, SemWait(1), SemWait(1));
  }

  lemma Destroys(s: State)
    requires Inv(s) && At(s.q, 8, [], LIVE, [7, 6], DEFAULT_QUANTUM, [-1, 0, 0])
    ensures var r := Exec(s, [SemSignal(1), SemDestroy(1)]);
            && At(r.s.q, 8, [7, 6], DESTROYED, [], DEFAULT_QUANTUM, [-1, 0, 0])
            && T.Wake(0, 7, 8) in r.ev && T.Destroy(0) in r.ev
  {
    hide Inv, Step, T.SemSignal, T.SemDestroy;
    QueueStep(s, SemSignal(1));
    SignalDestroy(s.q);
    QueueStep(Step(s, SemSignal(1)).s, SemDestroy(1));
    Two(s, SemSignal(1), SemDestroy(1));
  }

  /** The run: two waiters, one signal, then the semaphore is destroyed before the signalled waiter runs. */
  ghost function Ops(): seq<Op> {
    [SemInit(1, 0), Fork, Fork] + (Ticks(DEFAULT_QUANTUM) + ([SemWait(1), SemWait(1)] +
      ([SemSignal(1), SemDestroy(1)] + (Ticks(DEFAULT_QUANTUM) + Ticks(DEFAULT_QUANTUM)))))
  }

  /** From boot: task 7 is signalled and yet returns failure, task 6 is not and returns success. */
  lemma SignalledWaiterFails(ram: seq<M.Byte>)
    requires |ram| == TOTAL_PAGES * PAGE_SIZE
    ensures Inv(Boot.State(ram))
    ensures var ev := Exec(Boot.State(ram), Ops()).ev;
            && T.Wake(0, 7, 8) in ev && T.Destroy(0) in ev
            && T.Resume(0, 7, -2) in ev && T.Resume(0, 6, 0) in ev
  {
    hide Inv, Step, Exec, At, Boot.Memory, Ticks;
    Boot.BootInv(ram);
    var s0 := Boot.State(ram);
    Begin(s0);
    var a, b, c, d, t := [SemInit(1, 0), Fork, Fork], [SemWait(1), SemWait(1)], [SemSignal(1), SemDestroy(1)],
                         Ticks(DEFAULT_QUANTUM), Ticks(DEFAULT_QUANTUM);
    var s1 := Exec(s0, a).s;
    assert [7] + [6] == [7, 6] && [6] + [8] == [6, 8] && [-1, 0, 0][1 := -1] == [-1, -1, 0];
    RunDown(s1, 8, 7, [6], LIVE, DEFAULT_QUANTUM, [-1, -1, -1]);
    var s2 := Exec(s1, t).s;
    Waits(s2);
    var s3 := Exec(s2, b).s;
    Destroys(s3);
    var s4 := Exec(s3, c).s;
    RunDown(s4, 8, 7, [6], DESTROYED, DEFAULT_QUANTUM, [-1, 0, 0]);
    var s5 := Exec(s4, t).s;
    RunDown(s5, 7, 6, [8], UNUSED, DEFAULT_QUANTUM, [-1, -1, 0]);
    ExecConcat(s4, t, d);
    ExecConcat(s3, c, t + d);
    ExecConcat(s2, b, c + (t + d));
    ExecConcat(s1, t, b + (c + (t + d)));
    ExecConcat(s0, a, t + (b + (c + (t + d))));
  }
}
