/** Round robin over whole runs: bounded waiting, the idle task, and process identifiers. */
module SchedulingLaws {
  import opened Config
  import T = Tasks
  import TI = TasksInv
  import MI = SpaceInv
  import opened SlotTraces
  import opened Kernel
  import KernelLaws

  // ---- one dispatch per step, and only ticks use up the quantum ----

  /** While tasks are ready, a step dispatches at most one task; a dispatch refills the quantum, and
      without one the quantum changes by `ticks` only. */
  ghost predicate Turn(q: T.Queues, o: T.Outcome, ticks: int) {
    q.ready != [] ==>
      && |Dispatched(o.ev)| <= 1
      && (Dispatched(o.ev) == [] ==> o.q.left == q.left - ticks)
      && (Dispatched(o.ev) != [] ==> o.q.left == DEFAULT_QUANTUM)
  }

  lemma OneEvent(e: T.Event)
    ensures Dispatched([e]) == if e.Dispatch? then [e.task] else []
  {
    assert [e][1..] == [];
  }

  lemma SchedNextTurn(q: T.Queues)
    requires TI.Core(q) && q.ready != []
    ensures Dispatched(T.SchedNext(q).ev) == [q.ready[0]] && T.SchedNext(q).q.left == DEFAULT_QUANTUM
  {
    var t := q.ready[0];
    assert t in q.ready && q.at[t] == T.OnReady;
    var r := T.SchedNext(q);
    DispatchedConcat([T.Dispatch(t)], r.ev[1..]);
    OneEvent(T.Dispatch(t));
    if q.pcb[t].wait >= 0 {
      assert r.ev[1..] == [r.ev[1]];
      OneEvent(r.ev[1]);
    } else {
      assert r.ev[1..] == [];
    }
    assert r.ev == [T.Dispatch(t)] + r.ev[1..];
  }

  lemma TickTurn(q: T.Queues)
    requires TI.Inv(q)
    ensures Turn(q, T.Tick(q), 1)
  {
    hide TI.Places, TI.Pids, TI.SlotTable, TI.Owners, TI.Waits, TI.Drains, TI.Quanta, T.SchedNext;
    var q1 := q.(left := q.left - 1);
    TI.LeftCore(q, q1.left);
    if q1.left == 0 && q.ready != [] {
      TI.YieldKeeps(q1);
      var y := T.Yield(q1);
      SchedNextTurn(y.q);
      DispatchedConcat(y.ev, T.SchedNext(y.q).ev);
      OneEvent(T.Arrive(q.cur));
      assert [] + Dispatched(T.SchedNext(y.q).ev) == Dispatched(T.SchedNext(y.q).ev);
    }
  }

  lemma WaitTurn(q: T.Queues, id: int)
    requires TI.Inv(q) && q.cur != q.idle
    ensures Turn(q, T.SemWait(q, id), 0)
  {
    hide TI.Places, TI.Pids, TI.SlotTable, TI.Owners, TI.Waits, TI.Drains, TI.Quanta, T.SchedNext;
    var k := T.FindId(q.slots, id, 0);
    if k >= 0 && q.slots[k].used > 0 {
      OneEvent(T.Take(k, q.cur));
      TI.SlotFact(q, k);
      if q.slots[k].count == 0 && q.ready != [] {
        TI.BlockKeeps(q, k);
        var b := T.BlockOn(q, k);
        SchedNextTurn(b.q);
        DispatchedConcat(b.ev, T.SchedNext(b.q).ev);
        OneEvent(T.Block(k, q.cur));
        assert [] + Dispatched(T.SchedNext(b.q).ev) == Dispatched(T.SchedNext(b.q).ev);
      }
    }
  }

  lemma SignalTurn(q: T.Queues, id: int)
    requires TI.Inv(q) && q.cur != q.idle
    ensures Turn(q, T.SemSignal(q, id), 0)
  {
    var r := T.SemSignal(q, id);
    if |r.ev| == 2 {
      assert r.ev == [r.ev[0]] + [r.ev[1]];
      DispatchedConcat([r.ev[0]], [r.ev[1]]);
      OneEvent(r.ev[0]);
      OneEvent(r.ev[1]);
    } else if |r.ev| == 1 {
      OneEvent(r.ev[0]);
    }
  }

  lemma InternalDestroyTurn(q: T.Queues, k: int)
    requires T.Shape(q) && T.IsSlot(k)
    ensures Dispatched(T.InternalDestroy(q, k).ev) == [] && T.InternalDestroy(q, k).q.left == q.left
    ensures q.ready != [] ==> T.InternalDestroy(q, k).q.ready != []
  {
    DestroyFlow(q.blocked[k], k);
  }

  lemma {:induction false} DestroyOwnedTurn(q: T.Queues, pid: int, i: nat)
    requires T.Shape(q) && i <= N_SEMAFORS
    ensures Dispatched(T.DestroyOwned(q, pid, i).ev) == []
    ensures q.ready != [] ==> T.DestroyOwned(q, pid, i).q.ready != []
    decreases N_SEMAFORS - i
  {
    hide T.InternalDestroy;
    if i < N_SEMAFORS {
      if q.slots[i].used > 0 && q.slots[i].owner == pid {
        T.DrainShape(q, i);
        InternalDestroyTurn(q, i);
        var r := T.InternalDestroy(q, i);
        DestroyOwnedTurn(r.q, pid, i + 1);
        DispatchedConcat(r.ev, T.DestroyOwned(r.q, pid, i + 1).ev);
      } else {
        DestroyOwnedTurn(q, pid, i + 1);
      }
    }
  }

  lemma ExitTurn(q: T.Queues)
    requires TI.Inv(q) && q.cur != q.idle
    ensures Turn(q, T.Exit(q), 0)
  {
    hide TI.Places, TI.Pids, TI.SlotTable, TI.Owners, TI.Waits, TI.Drains, TI.Quanta, T.SchedNext, T.DestroyOwned;
    if q.ready != [] {
      var pid := q.pcb[q.cur].pid;
      var a := T.DestroyOwned(q, pid, 0);
      TI.DestroyOwnedKeeps(q, pid, 0);
      DestroyOwnedTurn(q, pid, 0);
      TI.BuryKeeps(a.q);
      var b := T.Bury(a.q);
      SchedNextTurn(b.q);
      DispatchedConcat(a.ev, b.ev);
      DispatchedConcat(a.ev + b.ev, T.SchedNext(b.q).ev);
      assert [] + Dispatched(T.SchedNext(b.q).ev) == Dispatched(T.SchedNext(b.q).ev);
    }
  }

  lemma StepTurn(s: State, op: Op)
    requires Inv(s)
    ensures var r := Step(s, op); Turn(s.q, T.Outcome(r.s.q, r.reply, r.ev), if op.Tick? then 1 else 0)
  {
    hide TI.Places, TI.Pids, TI.SlotTable, TI.Owners, TI.Waits, TI.Drains, TI.Quanta, MI.Inv,
         T.Tick, T.SemWait, T.SemSignal, T.Exit;
    if Enabled(s, op) {
      if op.Tick? {
        TickTurn(s.q);
      } else if op.SemWait? {
        WaitTurn(s.q, op.id);
      } else if op.SemSignal? {
        SignalTurn(s.q, op.id);
      } else if op.Exit? {
        ExitTurn(s.q);
      } else if op.SemDestroy? {
        var k := T.FindId(s.q.slots, op.id, 0);
        if k >= 0 {
          InternalDestroyTurn(s.q, k);
        }
      } else if |Step(s, op).ev| == 1 {
        OneEvent(Step(s, op).ev[0]);
      }
    }
  }

  // ---- time slices ----

  lemma SliceOf(q: T.Queues, op: Op)
    requires TI.Inv(q) && q.cur != q.idle && (op.SemWait? || op.SemSignal? || op.SemDestroy? || op.SemInit?)
    ensures var r := match op
                     case SemWait(id) => T.SemWait(q, id)
                     case SemSignal(id) => T.SemSignal(q, id)
                     case SemDestroy(id) => T.SemDestroy(q, id)
                     case SemInit(id, value) => T.SemInit(q, id, value)
                     case _ => T.Outcome(q, T.Switched, []);
            r.q.cur == q.cur ==> r.q.left == q.left
  {
    hide TI.Pids, TI.SlotTable, TI.Owners, TI.Waits, TI.Drains, TI.Quanta;
    if q.ready != [] {
      assert q.ready[0] in q.ready;
    }
  }

  /** A program that keeps the processor over a step has one tick less left after a tick, unless that was its last one,
      and as much as before after every other operation.  Whether other tasks are ready makes no difference. */
  lemma SliceKept(s: State, op: Op)
    requires Inv(s) && s.q.cur != s.q.idle && Step(s, op).s.q.cur == s.q.cur && (op.Tick? ==> s.q.left > 1)
    ensures Step(s, op).s.q.left == s.q.left - (if op.Tick? then 1 else 0)
  {
    hide TI.Core, MI.Inv, Linked, T.SemWait, T.SemSignal, T.SemDestroy, T.SemInit, T.Exit;
    if Enabled(s, op) {
      if op.SemWait? || op.SemSignal? || op.SemDestroy? || op.SemInit? {
        SliceOf(s.q, op);
      } else if op.Exit? {
        ExitSwitches(s.q);
      }
    }
  }

  lemma ExitSwitches(q: T.Queues)
    requires TI.Inv(q) && q.cur != q.idle
    ensures T.Exit(q).q.cur != q.cur
  {
    hide TI.Places, TI.Pids, TI.SlotTable, TI.Owners, TI.Waits, TI.Drains, TI.Quanta, T.SchedNext, T.DestroyOwned;
    var a := T.DestroyOwned(q, q.pcb[q.cur].pid, 0).q;
    TI.DestroyOwnedKeeps(q, q.pcb[q.cur].pid, 0);
    TI.BuryKeeps(a);
    NotFreeNext(T.Bury(a).q);
  }

  lemma NotFreeNext(q: T.Queues)
    requires TI.Core(q) && TI.Vacant(q)
    ensures q.at[T.SchedNext(q).q.cur] != T.OnFree
  {
    hide TI.Pids, TI.SlotTable, TI.Owners, TI.Waits, TI.Drains, TI.Quanta;
    if q.ready != [] {
      assert q.ready[0] in q.ready;
    }
  }

  // ---- bounded waiting ----

  ghost function Ticks(ops: seq<Op>): nat {
    if ops == [] then 0 else (if ops[0].Tick? then 1 else 0) + Ticks(ops[1..])
  }

  /** One step: task t, at place p of the ready queue, is dispatched or comes closer to it. */
  lemma Closer(s: State, op: Op, p: nat) returns (p': nat)
    requires Inv(s) && p < |s.q.ready|
    ensures var r := Step(s, op);
            s.q.ready[p] in Dispatched(r.ev) ||
            (&& p' < |r.s.q.ready| && r.s.q.ready[p'] == s.q.ready[p]
             && r.s.q.left + p' * DEFAULT_QUANTUM <= s.q.left + p * DEFAULT_QUANTUM - (if op.Tick? then 1 else 0))
  {
    hide TI.Core, MI.Inv, Step;
    StepKeeps(s, op);
    KernelLaws.StepExplained(s, op);
    StepTurn(s, op);
    var r := Step(s, op);
    var d, all := Dispatched(r.ev), s.q.ready + Arrived(r.ev);
    assert all == d + r.s.q.ready;
    p' := p;
    if d == [] {
      assert r.s.q.ready == all;
    } else if p == 0 {
      assert d[0] == all[0];
    } else {
      p' := p - 1;
      assert all[p] == (d + r.s.q.ready)[p];
    }
  }

  /** Bounded waiting: a task at place p of the ready queue is dispatched within left + p * quantum ticks,
      whatever system calls happen in between. */
  lemma {:induction false} BoundedWaiting(s: State, ops: seq<Op>, p: nat)
    requires Inv(s) && p < |s.q.ready| && Ticks(ops) >= s.q.left + p * DEFAULT_QUANTUM
    ensures s.q.ready[p] in Dispatched(Exec(s, ops).ev)
    decreases |ops|
  {
    hide TI.Core, MI.Inv, Step;
    assert s.q.left >= 1;
    var a := Step(s, ops[0]);
    var p' := Closer(s, ops[0], p);
    StepKeeps(s, ops[0]);
    var r := Exec(a.s, ops[1..]);
    DispatchedConcat(a.ev, r.ev);
    if s.q.ready[p] !in Dispatched(a.ev) {
      BoundedWaiting(a.s, ops[1..], p');
    }
  }

  // ---- the idle task ----

  lemma IdleStep(s: State, op: Op)
    requires Inv(s) && s.q.cur == s.q.idle
    ensures var r := Step(s, op);
            r.s.q.cur == r.s.q.idle == s.q.idle && r.s.q.at == s.q.at && r.ev == []
  {
    hide TI.Places, TI.Pids, TI.SlotTable, TI.Owners, TI.Waits, TI.Drains, TI.Quanta, MI.Inv, Linked;
  }

  /** The idle task runs only when nothing can ever run again: no task is ready, and whatever happens
      afterwards none becomes ready. */
  lemma {:induction false} IdleForever(s: State, ops: seq<Op>)
    requires Inv(s) && s.q.cur == s.q.idle
    ensures var r := Exec(s, ops);
            r.s.q.cur == s.q.idle && r.s.q.ready == [] && r.ev == [] && r.s.q.at == s.q.at
    decreases |ops|
  {
    hide Step, TI.Core, MI.Inv, Linked;
    if ops != [] {
      StepKeeps(s, ops[0]);
      IdleStep(s, ops[0]);
      IdleForever(Step(s, ops[0]).s, ops[1..]);
    }
  }

  // ---- process identifiers ----

  /** In one transition the pid of a control block stays, is cleared, or is the next new one. */
  ghost predicate PidStep(q: T.Queues, q': T.Queues)
    requires T.Shape(q) && T.Shape(q')
  {
    && q'.lastPid >= q.lastPid
    && forall t :: T.IsTask(t) ==>
         q'.pcb[t].pid == q.pcb[t].pid || q'.pcb[t].pid == -1 || (q.pcb[t].pid == -1 && q'.pcb[t].pid > q.lastPid)
  }

  lemma SchedNextPid(q: T.Queues)
    requires T.Shape(q) && T.Shape(T.SchedNext(q).q)
    ensures T.SchedNext(q).q.lastPid == q.lastPid
    ensures forall t :: T.IsTask(t) ==> T.SchedNext(q).q.pcb[t].pid == q.pcb[t].pid
  {
  }

  lemma ExitPid(q: T.Queues)
    requires TI.Inv(q) && q.cur != q.idle
    ensures T.Shape(T.Exit(q).q) && PidStep(q, T.Exit(q).q) && T.Exit(q).q.lastPid == q.lastPid
  {
    hide TI.Places, TI.Pids, TI.SlotTable, TI.Owners, TI.Waits, TI.Drains, TI.Quanta, T.SchedNext, T.DestroyOwned;
    var pid := q.pcb[q.cur].pid;
    var a := T.DestroyOwned(q, pid, 0);
    TI.DestroyOwnedKeeps(q, pid, 0);
    TI.BuryKeeps(a.q);
    var b := T.Bury(a.q);
    TI.SchedNextKeeps(b.q);
    SchedNextPid(b.q);
  }

  lemma SpawnPid(q: T.Queues)
    requires TI.Inv(q) && q.free != [] && T.Shape(T.Spawn(q).q)
    ensures PidStep(q, T.Spawn(q).q)
  {
    assert q.free[0] in q.free;
  }

  lemma StepPid(s: State, op: Op)
    requires Inv(s)
    ensures T.Shape(Step(s, op).s.q) && PidStep(s.q, Step(s, op).s.q)
  {
    hide TI.Places, TI.Pids, TI.SlotTable, TI.Owners, TI.Waits, TI.Drains, TI.Quanta, MI.Inv, T.Exit, T.SchedNext,
         T.Spawn;
    StepKeeps(s, op);
    var q, q' := s.q, Step(s, op).s.q;
    if Enabled(s, op) {
      if op.Exit? {
        ExitPid(q);
      } else if op.Fork? || op.Clone? {
        if q' != q {
          SpawnPid(q);
        }
      } else if op.Tick? {
        TickPid(q);
      } else if op.SemWait? {
        WaitPid(q, op.id);
      }
    }
  }

  lemma TickPid(q: T.Queues)
    requires TI.Inv(q)
    ensures T.Shape(T.Tick(q).q) && PidStep(q, T.Tick(q).q)
  {
    hide TI.Places, TI.Pids, TI.SlotTable, TI.Owners, TI.Waits, TI.Drains, TI.Quanta, T.SchedNext;
    var q1 := q.(left := q.left - 1);
    TI.LeftCore(q, q1.left);
    TI.YieldKeeps(q1);
    TI.SchedNextKeeps(T.Yield(q1).q);
    SchedNextPid(T.Yield(q1).q);
  }

  lemma WaitPid(q: T.Queues, id: int)
    requires TI.Inv(q) && q.cur != q.idle
    ensures T.Shape(T.SemWait(q, id).q) && PidStep(q, T.SemWait(q, id).q)
  {
    hide TI.Places, TI.Pids, TI.SlotTable, TI.Owners, TI.Waits, TI.Drains, TI.Quanta, T.SchedNext;
    var k := T.FindId(q.slots, id, 0);
    if k >= 0 && q.slots[k].used > 0 {
      TI.SlotFact(q, k);
      if q.slots[k].count == 0 {
        TI.BlockKeeps(q, k);
        TI.SchedNextKeeps(T.BlockOn(q, k).q);
        SchedNextPid(T.BlockOn(q, k).q);
      }
    }
  }

  /** Pids are never reused: a task that is alive at the end of a run with a pid that had been handed out
      at its start was the task with that pid at the start. */
  lemma {:induction false} PidsNeverReused(s: State, ops: seq<Op>, t: int)
    requires Inv(s) && T.IsTask(t)
    ensures var q' := Exec(s, ops).s.q;
            && q'.lastPid >= s.q.lastPid
            && (q'.pcb[t].pid != -1 && q'.pcb[t].pid <= s.q.lastPid ==> s.q.pcb[t].pid == q'.pcb[t].pid)
    decreases |ops|
  {
    hide TI.Core, MI.Inv, Step;
    if ops != [] {
      StepKeeps(s, ops[0]);
      StepPid(s, ops[0]);
      PidsNeverReused(Step(s, ops[0]).s, ops[1..], t);
    }
  }

  /** No orphan semaphores, in every state of every run. */
  lemma NoOrphans(s: State, ops: seq<Op>, k: int)
    requires Inv(s) && T.IsSlot(k)
    ensures var q := Exec(s, ops).s.q;
            q.slots[k].used > 0 ==> exists t :: T.IsTask(t) && q.at[t] != T.OnFree && q.pcb[t].pid == q.slots[k].owner
  {
    var q := Exec(s, ops).s.q;
    if q.slots[k].used > 0 {
      assert TI.Owned(q, k);
      var t :| T.IsTask(t) && q.pcb[t].pid != -1 && q.pcb[t].pid == q.slots[k].owner;
      assert q.at[t] != T.OnFree;
    }
  }
}
