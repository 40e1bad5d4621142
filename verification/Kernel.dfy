/** The kernel as one state machine: tasks, queues and semaphores (Tasks) together with memory (Space).
    System calls and clock ticks run with interrupts off, so each is one step. */
module Kernel {
  import opened Config
  import opened Access
  import T = Tasks
  import TI = TasksInv
  import M = Space
  import MI = SpaceInv

  datatype State = State(q: T.Queues, m: M.Space)

  datatype Op =
    | Tick
    | Fork
    | Clone(code: int, stack: int)
    | Exit
    | SemInit(id: int, value: int)
    | SemWait(id: int)
    | SemSignal(id: int)
    | SemDestroy(id: int)
    | Store(page: int, off: int, byte: M.Byte)

  datatype Result = Result(s: State, reply: T.Reply, ev: seq<T.Event>)

  ghost predicate Linked(q: T.Queues, m: M.Space)
    requires T.Shape(q) && M.Shape(m)
  {
    forall t :: T.IsTask(t) ==> (q.at[t] == T.OnFree <==> m.dirOf[t] == -1)
  }

  /** The invariant of the kernel. */
  ghost predicate Inv(s: State) {
    TI.Inv(s.q) && MI.Inv(s.m, s.q.idle) && Linked(s.q, s.m)
  }

  /** The idle task executes an endless loop and makes no system calls. */
  ghost predicate Enabled(s: State, op: Op) {
    && (op.Tick? || s.q.cur != s.q.idle)
    && (op.SemInit? ==> 0 <= op.value < UINT_MOD)
    && (op.Clone? ==> IsAddress(op.code) && IsAddress(op.stack))
    && (op.Store? ==> M.IsData(op.page) && 0 <= op.off < PAGE_SIZE)
  }

  lemma CurrentUser(s: State)
    requires Inv(s) && s.q.cur != s.q.idle
    ensures MI.IsUser(s.m, s.q.idle, s.q.cur) && M.DataMapped(s.m.pt, s.m.dirOf[s.q.cur])
    ensures s.q.free != [] ==> MI.CanFork(s.m, s.q.idle, s.q.cur, s.q.free[0])
  {
    hide MI.Tables, MI.DataFrames, MI.Disjoint, MI.NoLeak, MI.Usage;
    assert s.m.dirOf[s.q.cur] != -1;
    MI.UserMapped(s.m, s.q.idle, s.q.cur);
    if s.q.free != [] {
      assert s.q.free[0] in s.q.free;
    }
  }

  ghost function ForkStep(s: State): Result
    requires Inv(s) && s.q.cur != s.q.idle
  {
    if s.q.free == [] then Result(s, T.Value(-ENOMEM), [])
    else
      CurrentUser(s);
      var r := M.GetFrames(s.m.phys);
      if !r.ok then Result(s.(m := s.m.(phys := r.phys)), T.Value(-ENOMEM), [])
      else
        var o := T.Spawn(s.q);
        Result(State(o.q, MI.Forked(s.m, s.q.idle, s.q.cur, s.q.free[0])), o.reply, o.ev)
  }

  ghost function CloneStep(s: State, argsOk: bool): Result
    requires Inv(s) && s.q.cur != s.q.idle
  {
    if !argsOk then Result(s, T.Value(-EFAULT), [])
    else if s.q.free == [] then Result(s, T.Value(-ENOMEM), [])
    else
      CurrentUser(s);
      var o := T.Spawn(s.q);
      Result(State(o.q, M.CloneSpace(s.m, s.q.cur, s.q.free[0])), o.reply, o.ev)
  }

  ghost function ExitStep(s: State): Result
    requires Inv(s) && s.q.cur != s.q.idle
  {
    CurrentUser(s);
    var o := T.Exit(s.q);
    Result(State(o.q, M.ExitSpace(s.m, s.q.cur)), o.reply, o.ev)
  }

  ghost function OnQueues(s: State, o: T.Outcome): Result {
    Result(s.(q := o.q), o.reply, o.ev)
  }

  /** One step.  An operation that cannot happen changes nothing. */
  ghost function Step(s: State, op: Op): Result
    requires Inv(s)
  {
    if !Enabled(s, op) then Result(s, T.Switched, [])
    else
      match op
      case Tick => OnQueues(s, T.Tick(s.q))
      case Fork => ForkStep(s)
      case Clone(code, stack) => CloneStep(s, CloneArgs(code, stack))
      case Exit => ExitStep(s)
      case SemInit(id, value) => OnQueues(s, T.SemInit(s.q, id, value))
      case SemWait(id) => OnQueues(s, T.SemWait(s.q, id))
      case SemSignal(id) => OnQueues(s, T.SemSignal(s.q, id))
      case SemDestroy(id) => OnQueues(s, T.SemDestroy(s.q, id))
      case Store(page, off, byte) =>
        CurrentUser(s);
        Result(s.(m := M.Store(s.m, s.q.cur, page, off, byte)), T.Switched, [])
  }

  // ---- which control blocks are free ----

  /** The steps that start or end no task keep the set of free control blocks. */
  ghost predicate SameFree(q: T.Queues, q': T.Queues) {
    && T.Shape(q) && T.Shape(q') && q'.idle == q.idle
    && forall t :: T.IsTask(t) ==> (q'.at[t] == T.OnFree <==> q.at[t] == T.OnFree)
  }

  lemma SchedNextFree(q: T.Queues)
    requires TI.Core(q) && TI.Vacant(q)
    ensures var q' := T.SchedNext(q).q;
            T.Shape(q') && SameFree(q, q')
  {
    if q.ready != [] {
      assert q.ready[0] in q.ready;
    }
  }

  lemma YieldFree(q: T.Queues)
    requires TI.Core(q) && q.at[q.cur] == T.OnCpu
    ensures T.Shape(T.Yield(q).q) && SameFree(q, T.Yield(q).q)
  {
  }

  lemma TickFree(q: T.Queues)
    requires TI.Inv(q)
    ensures SameFree(q, T.Tick(q).q)
  {
    hide TI.Places, TI.Pids, TI.SlotTable, TI.Owners, TI.Waits, TI.Drains, TI.Quanta, T.SchedNext, T.Yield;
    TI.TickKeeps(q);
    var q1 := q.(left := q.left - 1);
    TI.LeftCore(q, q1.left);
    TI.YieldKeeps(q1);
    YieldFree(q1);
    SchedNextFree(T.Yield(q1).q);
  }

  lemma BlockFree(q: T.Queues, k: int)
    requires TI.Core(q) && q.at[q.cur] == T.OnCpu && T.IsSlot(k)
    ensures T.Shape(T.BlockOn(q, k).q) && SameFree(q, T.BlockOn(q, k).q)
  {
  }

  lemma WaitFree(q: T.Queues, id: int)
    requires TI.Inv(q) && q.cur != q.idle
    ensures SameFree(q, T.SemWait(q, id).q)
  {
    hide TI.Places, TI.Pids, TI.SlotTable, TI.Owners, TI.Waits, TI.Drains, TI.Quanta, T.SchedNext, T.BlockOn;
    TI.WaitKeeps(q, id);
    var k := T.FindId(q.slots, id, 0);
    if k >= 0 && q.slots[k].used > 0 {
      TI.SlotFact(q, k);
      if q.slots[k].count == 0 {
        TI.BlockKeeps(q, k);
        BlockFree(q, k);
        SchedNextFree(T.BlockOn(q, k).q);
      }
    }
  }

  lemma DrainFree(q: T.Queues, k: int)
    requires TI.Core(q) && T.IsSlot(k) && q.slots[k].used > 0
    ensures SameFree(q, T.Drain(q, k).q)
  {
    TI.DrainKeeps(q, k);
    assert forall t :: t in q.blocked[k] ==> q.at[t] == T.OnSem(k);
  }

  lemma SignalFree(q: T.Queues, id: int)
    requires TI.Inv(q) && q.cur != q.idle
    ensures SameFree(q, T.SemSignal(q, id).q)
  {
    TI.SignalKeeps(q, id);
    var k := T.FindId(q.slots, id, 0);
    if k >= 0 && q.slots[k].used > 0 && q.blocked[k] != [] {
      assert q.blocked[k][0] in q.blocked[k];
      assert q.at[q.blocked[k][0]] == T.OnSem(k);
    }
  }

  lemma {:induction false} DestroyOwnedFree(q: T.Queues, pid: int, i: nat)
    requires TI.Core(q) && q.at[q.cur] == T.OnCpu && q.pcb[q.cur].pid == pid && i <= N_SEMAFORS
    ensures SameFree(q, T.DestroyOwned(q, pid, i).q)
    decreases N_SEMAFORS - i
  {
    hide TI.Places, TI.Pids, TI.SlotTable, TI.Owners, TI.Waits, TI.Drains, TI.Quanta, T.Drain;
    if i < N_SEMAFORS {
      if q.slots[i].used > 0 && q.slots[i].owner == pid {
        DrainFree(q, i);
        TI.InternalDestroyKeeps(q, i);
        DestroyOwnedFree(T.InternalDestroy(q, i).q, pid, i + 1);
      } else {
        DestroyOwnedFree(q, pid, i + 1);
      }
    }
  }

  lemma ExitFree(q: T.Queues)
    requires TI.Inv(q) && q.cur != q.idle
    ensures var q' := T.Exit(q).q;
            && T.Shape(q') && q'.idle == q.idle
            && forall t :: T.IsTask(t) ==> (q'.at[t] == T.OnFree <==> q.at[t] == T.OnFree || t == q.cur)
  {
    hide TI.Places, TI.Pids, TI.SlotTable, TI.Owners, TI.Waits, TI.Drains, TI.Quanta, T.SchedNext, T.DestroyOwned;
    var a := T.DestroyOwned(q, q.pcb[q.cur].pid, 0).q;
    TI.DestroyOwnedKeeps(q, q.pcb[q.cur].pid, 0);
    DestroyOwnedFree(q, q.pcb[q.cur].pid, 0);
    TI.BuryKeeps(a);
    TI.SchedNextKeeps(T.Bury(a).q);
    SchedNextFree(T.Bury(a).q);
  }

  // ---- the invariant ----

  lemma QueueStepKeeps(s: State, o: T.Outcome)
    requires Inv(s) && TI.Inv(o.q) && SameFree(s.q, o.q)
    ensures Inv(s.(q := o.q))
  {
    hide MI.Tables, MI.DataFrames, MI.Disjoint, MI.NoLeak, MI.Usage, TI.Core;
  }

  lemma SpawnLinked(s: State, m': M.Space, d: int)
    requires Inv(s) && s.q.cur != s.q.idle && s.q.free != [] && d >= 0 && M.Shape(m') && MI.Inv(m', s.q.idle)
    requires m'.dirOf == s.m.dirOf[s.q.free[0] := d]
    ensures Inv(State(T.Spawn(s.q).q, m'))
  {
    hide MI.Tables, MI.DataFrames, MI.Disjoint, MI.NoLeak, MI.Usage;
    TI.SpawnKeeps(s.q);
    hide TI.Core;
    assert T.Spawn(s.q).q.at == s.q.at[s.q.free[0] := T.OnReady];
  }

  lemma ForkStepKeeps(s: State)
    requires Inv(s) && s.q.cur != s.q.idle
    ensures Inv(ForkStep(s).s)
    ensures ForkStep(s).reply == T.Value(-ENOMEM) <==> s.q.free == []
  {
    hide TI.Core;
    CurrentUser(s);
    if s.q.free != [] {
      var c := s.q.free[0];
      MI.NeverExhausted(s.m, s.q.idle, c);
      MI.ForkKeeps(s.m, s.q.idle, s.q.cur, c);
      MI.ForkReady(s.m, s.q.idle, s.q.cur, c);
      hide MI.Tables, MI.DataFrames, MI.Disjoint, MI.NoLeak, MI.Usage;
      SpawnLinked(s, MI.Forked(s.m, s.q.idle, s.q.cur, c), M.FindDir(s.m.usage, 0));
      LastPidNat(s.q);
    }
  }

  lemma LastPidNat(q: T.Queues)
    requires TI.Inv(q)
    ensures q.lastPid >= -1
  {
    assert q.pcb[q.cur].pid <= q.lastPid;
  }

  lemma CloneStepKeeps(s: State, argsOk: bool)
    requires Inv(s) && s.q.cur != s.q.idle
    ensures Inv(CloneStep(s, argsOk).s)
  {
    hide TI.Core;
    CurrentUser(s);
    if argsOk && s.q.free != [] {
      MI.CloneKeeps(s.m, s.q.idle, s.q.cur, s.q.free[0]);
      hide MI.Tables, MI.DataFrames, MI.Disjoint, MI.NoLeak, MI.Usage;
      SpawnLinked(s, M.CloneSpace(s.m, s.q.cur, s.q.free[0]), s.m.dirOf[s.q.cur]);
    }
  }

  lemma ExitStepKeeps(s: State)
    requires Inv(s) && s.q.cur != s.q.idle
    ensures Inv(ExitStep(s).s)
  {
    hide TI.Core, T.Exit;
    CurrentUser(s);
    MI.ExitKeeps(s.m, s.q.idle, s.q.cur);
    TI.ExitKeeps(s.q);
    ExitFree(s.q);
    hide MI.Tables, MI.DataFrames, MI.Disjoint, MI.NoLeak, MI.Usage;
    assert M.ExitSpace(s.m, s.q.cur).dirOf == s.m.dirOf[s.q.cur := -1];
  }

  lemma SemStepKeeps(s: State, op: Op)
    requires Inv(s) && Enabled(s, op) && (op.SemInit? || op.SemWait? || op.SemSignal? || op.SemDestroy?)
    ensures Inv(Step(s, op).s)
  {
    hide MI.Tables, MI.DataFrames, MI.Disjoint, MI.NoLeak, MI.Usage, MI.IdleAlone, TI.Places, TI.Pids,
         TI.SlotTable, TI.Owners, TI.Waits, TI.Drains, TI.Quanta, T.SemWait, T.SemSignal, T.SemDestroy, T.SemInit,
         SameFree;
    match op {
      case SemInit(id, value) =>
        TI.InitKeeps(s.q, id, value);
        InitFree(s.q, id, value);
        QueueStepKeeps(s, T.SemInit(s.q, id, value));
      case SemWait(id) =>
        TI.WaitKeeps(s.q, id);
        WaitFree(s.q, id);
        QueueStepKeeps(s, T.SemWait(s.q, id));
      case SemSignal(id) =>
        TI.SignalKeeps(s.q, id);
        SignalFree(s.q, id);
        QueueStepKeeps(s, T.SemSignal(s.q, id));
      case SemDestroy(id) =>
        TI.DestroyKeeps(s.q, id);
        DestroyFree(s.q, id);
        QueueStepKeeps(s, T.SemDestroy(s.q, id));
    }
  }

  lemma TickStepKeeps(s: State)
    requires Inv(s)
    ensures Inv(Step(s, Tick).s)
  {
    hide MI.Tables, MI.DataFrames, MI.Disjoint, MI.NoLeak, MI.Usage, MI.IdleAlone, TI.Places, TI.Pids,
         TI.SlotTable, TI.Owners, TI.Waits, TI.Drains, TI.Quanta, T.Tick, SameFree;
    TI.TickKeeps(s.q);
    TickFree(s.q);
    QueueStepKeeps(s, T.Tick(s.q));
  }

  /** Every step keeps the invariant. */
  lemma StepKeeps(s: State, op: Op)
    requires Inv(s)
    ensures Inv(Step(s, op).s)
  {
    if Enabled(s, op) {
      hide MI.Tables, MI.DataFrames, MI.Disjoint, MI.NoLeak, MI.Usage, MI.IdleAlone, TI.Core;
      if op.Tick? {
        TickStepKeeps(s);
      } else if op.Fork? {
        ForkStepKeeps(s);
      } else if op.Clone? {
        CloneStepKeeps(s, CloneArgs(op.code, op.stack));
      } else if op.Exit? {
        ExitStepKeeps(s);
      } else if op.Store? {
        StoreStepKeeps(s, op);
      } else {
        SemStepKeeps(s, op);
      }
    }
  }

  lemma StoreStepKeeps(s: State, op: Op)
    requires Inv(s) && Enabled(s, op) && op.Store?
    ensures Inv(Step(s, op).s)
  {
    hide MI.Tables, MI.DataFrames, MI.Disjoint, MI.NoLeak, MI.Usage, TI.Core;
    CurrentUser(s);
    MI.StoreKeeps(s.m, s.q.idle, s.q.cur, op.page, op.off, op.byte);
  }

  lemma InitFree(q: T.Queues, id: int, value: int)
    requires TI.Inv(q) && 0 <= value < UINT_MOD
    ensures SameFree(q, T.SemInit(q, id, value).q)
  {
    TI.InitKeeps(q, id, value);
  }

  lemma DestroyFree(q: T.Queues, id: int)
    requires TI.Inv(q) && q.cur != q.idle
    ensures SameFree(q, T.SemDestroy(q, id).q)
  {
    TI.DestroyKeeps(q, id);
    var k := T.FindId(q.slots, id, 0);
    if k >= 0 && q.slots[k].used > 0 {
      DrainFree(q, k);
    }
  }

  // ---- runs ----

  datatype Trace = Trace(s: State, ev: seq<T.Event>)

  /** The state after the operations `ops`, and all events on the way. */
  ghost function Exec(s: State, ops: seq<Op>): (r: Trace)
    requires Inv(s)
    ensures Inv(r.s)
    decreases |ops|
  {
    if ops == [] then Trace(s, [])
    else
      var a := Step(s, ops[0]);
      StepKeeps(s, ops[0]);
      var r := Exec(a.s, ops[1..]);
      Trace(r.s, a.ev + r.ev)
  }
}
