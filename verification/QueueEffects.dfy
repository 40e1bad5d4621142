/** The complete effect of every call and of a tick on queues, control blocks and semaphore slots, said of the fields
    before and after.  The places of the control blocks follow from the queues, so they are not mentioned. */
module QueueEffects {
  import opened Config
  import T = Tasks
  import TI = TasksInv

  /** Task t, which may have been switched out inside sem_wait, runs: if its semaphore was destroyed meanwhile, one
      failure less is outstanding there.  `pcb` and `slots` are the records before. */
  ghost predicate Finished(t: int, pcb: seq<T.Pcb>, slots: seq<T.Slot>, r: T.Queues)
    requires T.Shape(r) && T.IsTask(t) && |pcb| == NR_TASKS && |slots| == N_SEMAFORS
  {
    && (forall u :: T.IsTask(u) ==>
          && r.pcb[u].pid == pcb[u].pid && r.pcb[u].quantum == pcb[u].quantum
          && r.pcb[u].wait == if u == t then -1 else pcb[u].wait)
    && (forall k :: T.IsSlot(k) ==>
          && r.slots[k].id == slots[k].id && r.slots[k].count == slots[k].count && r.slots[k].owner == slots[k].owner
          && r.slots[k].used == if k == pcb[t].wait && slots[k].used < 0 then slots[k].used + 1 else slots[k].used)
  }

  /** The processor passes to the first task in `line`, or to the idle task if nobody is in it; with a full quantum. */
  ghost predicate Passed(line: seq<int>, pcb: seq<T.Pcb>, slots: seq<T.Slot>, r: T.Queues)
    requires T.Shape(r) && T.AreTasks(line) && |pcb| == NR_TASKS && |slots| == N_SEMAFORS
  {
    && r.left == DEFAULT_QUANTUM
    && if line == [] then r.cur == r.idle && r.ready == [] && r.pcb == pcb && r.slots == slots
       else [r.cur] + r.ready == line && Finished(line[0], pcb, slots, r)
  }

  /** Neither the idle task nor the last pid nor these two kinds of queues change. */
  ghost predicate Kept(q: T.Queues, r: T.Queues) {
    r.idle == q.idle && r.lastPid == q.lastPid && r.free == q.free && r.blocked == q.blocked
  }

  /** Of the slots only number k changes, and of it only the count. */
  ghost predicate Counted(q: T.Queues, r: T.Queues, k: int, count: int)
    requires T.Shape(q) && T.Shape(r) && T.IsSlot(k)
  {
    && r.slots[k].id == q.slots[k].id && r.slots[k].owner == q.slots[k].owner && r.slots[k].used == q.slots[k].used
    && r.slots[k].count == count
    && (forall j :: T.IsSlot(j) && j != k ==> r.slots[j] == q.slots[j])
  }

  /** The caller goes on as before, with the rest of its quantum. */
  ghost predicate GoesOn(q: T.Queues, r: T.Queues) {
    && r.cur == q.cur && r.left == q.left && r.pcb == q.pcb
    && r.idle == q.idle && r.lastPid == q.lastPid && r.free == q.free
  }

  // ---- dispatching ----

  lemma DispatchEffect(q: T.Queues)
    requires TI.Core(q) && TI.Vacant(q)
    ensures var r := T.SchedNext(q).q; T.Shape(r) && Passed(q.ready, q.pcb, q.slots, r) && Kept(q, r)
  {
    hide TI.Pids, TI.SlotTable, TI.Owners, TI.Drains, TI.Waits;
    TI.SchedNextKeeps(q);
    if q.ready != [] {
      assert q.ready == [q.ready[0]] + q.ready[1..];
      assert q.ready[0] in q.ready;
    }
  }

  /** A tick: the idle task stays, with a full quantum; a program keeps the processor, with one tick less, or at the
      end of its quantum goes behind the ready tasks, and the first of all of them runs. */
  lemma TickEffect(q: T.Queues)
    requires TI.Inv(q)
    ensures var r := T.Tick(q).q;
            && T.Shape(r) && Kept(q, r)
            && (q.cur == q.idle || q.left > 1 ==>
                  r.cur == q.cur && r.pcb == q.pcb && r.slots == q.slots && r.ready == q.ready)
            && (q.cur == q.idle ==> r.left == DEFAULT_QUANTUM)
            && (q.cur != q.idle && q.left > 1 ==> r.left == q.left - 1)
            && (q.cur != q.idle && q.left == 1 ==> Passed(q.ready + [q.cur], q.pcb, q.slots, r))
  {
    hide TI.Places, TI.Pids, TI.SlotTable, TI.Owners, TI.Waits, TI.Drains, TI.Quanta, T.SchedNext, Passed;
    TI.TickKeeps(q);
    TI.IdleQuantum(q);
    var q1 := q.(left := q.left - 1);
    TI.LeftCore(q, q1.left);
    if q.cur != q.idle && q.left == 1 {
      TI.YieldKeeps(q1);
      DispatchEffect(T.Yield(q1).q);
    }
  }

  // ---- semaphores ----

  /** sem_wait on a live slot: it passes and takes one from the count, or the caller becomes the last waiter and the
      first ready task runs. */
  lemma WaitEffect(q: T.Queues, id: int, k: int)
    requires TI.Inv(q) && q.cur != q.idle && k == T.FindId(q.slots, id, 0) >= 0 && q.slots[k].used > 0
    ensures var r := T.SemWait(q, id).q;
            && T.Shape(r)
            && (q.slots[k].count > 0 ==>
                  && GoesOn(q, r) && r.ready == q.ready && r.blocked == q.blocked
                  && Counted(q, r, k, q.slots[k].count - 1))
            && (q.slots[k].count == 0 ==>
                  && Kept(q.(blocked := q.blocked[k := q.blocked[k] + [q.cur]]), r)
                  && Passed(q.ready, q.pcb[q.cur := q.pcb[q.cur].(wait := k)], q.slots, r))
  {
    hide TI.Places, TI.Pids, TI.SlotTable, TI.Owners, TI.Waits, TI.Drains, TI.Quanta, T.SchedNext, Passed;
    TI.WaitKeeps(q, id);
    TI.SlotFact(q, k);
    if q.slots[k].count == 0 {
      TI.BlockKeeps(q, k);
      DispatchEffect(T.BlockOn(q, k).q);
    }
  }

  /** sem_signal on a live slot: the first waiter goes behind the ready tasks, or, without waiters, the 32-bit count
      goes up by one; the caller goes on. */
  lemma SignalEffect(q: T.Queues, id: int, k: int)
    requires TI.Inv(q) && q.cur != q.idle && k == T.FindId(q.slots, id, 0) >= 0 && q.slots[k].used > 0
    ensures var r := T.SemSignal(q, id).q;
            && T.Shape(r) && GoesOn(q, r)
            && (q.blocked[k] != [] ==>
                  && r.slots == q.slots && r.ready == q.ready + [q.blocked[k][0]]
                  && r.blocked == q.blocked[k := q.blocked[k][1..]])
            && (q.blocked[k] == [] ==>
                  && r.ready == q.ready && r.blocked == q.blocked
                  && Counted(q, r, k, if q.slots[k].count == UINT_MOD - 1 then 0 else q.slots[k].count + 1))
  {
    hide TI.Places, TI.Pids, TI.Owners, TI.Waits, TI.Drains, TI.Quanta, TI.SlotTable;
    TI.SignalKeeps(q, id);
    TI.SlotFact(q, k);
  }

  /** Slot k after its destruction: not live, without waiters, and with one failure outstanding for each of them. */
  ghost predicate TornDown(q: T.Queues, r: T.Queues, k: int)
    requires T.Shape(q) && T.Shape(r) && T.IsSlot(k)
  {
    && r.slots[k].id == DEAD && r.slots[k].used == -|q.blocked[k]| && r.blocked[k] == []
    && r.slots[k].count == q.slots[k].count && r.slots[k].owner == q.slots[k].owner
  }

  ghost predicate SlotSame(q: T.Queues, r: T.Queues, k: int)
    requires T.Shape(q) && T.Shape(r) && T.IsSlot(k)
  {
    r.slots[k] == q.slots[k] && r.blocked[k] == q.blocked[k]
  }

  lemma DrainEffect(q: T.Queues, k: int)
    requires TI.Core(q) && T.IsSlot(k) && q.slots[k].used > 0
    ensures var r := T.Drain(q, k).q;
            && T.Shape(r) && GoesOn(q, r) && r.ready == q.ready + q.blocked[k]
            && TornDown(q, r, k) && forall j :: T.IsSlot(j) && j != k ==> SlotSame(q, r, j)
  {
    hide TI.Places, TI.Pids, TI.SlotTable, TI.Owners, TI.Waits, TI.Drains, TI.Quanta;
  }

  /** Slot k is a live semaphore of the process `pid`. */
  ghost predicate OwnedBy(q: T.Queues, pid: int, k: int)
    requires T.Shape(q) && T.IsSlot(k)
  {
    q.slots[k].used > 0 && q.slots[k].owner == pid
  }

  /** The waiters of the semaphores of a process from slot i on: slot by slot in rising order, each queue in its
      order. */
  ghost function Waiters(q: T.Queues, pid: int, i: nat): (w: seq<int>)
    requires T.Shape(q) && i <= N_SEMAFORS
    ensures T.AreTasks(w)
    decreases N_SEMAFORS - i
  {
    if i == N_SEMAFORS then []
    else (if OwnedBy(q, pid, i) then q.blocked[i] else []) + Waiters(q, pid, i + 1)
  }

  lemma {:induction false} WaitersSame(q: T.Queues, r: T.Queues, pid: int, i: nat)
    requires T.Shape(q) && T.Shape(r) && i <= N_SEMAFORS
    requires forall k :: i <= k < N_SEMAFORS ==> SlotSame(q, r, k)
    ensures Waiters(r, pid, i) == Waiters(q, pid, i)
    decreases N_SEMAFORS - i
  {
    if i < N_SEMAFORS {
      assert SlotSame(q, r, i);
      WaitersSame(q, r, pid, i + 1);
    }
  }

  /** The semaphores of a process from slot i on are torn down, all other slots are as before. */
  ghost predicate Cleared(q: T.Queues, r: T.Queues, pid: int, i: int)
    requires T.Shape(q) && T.Shape(r)
  {
    forall k :: T.IsSlot(k) ==> if i <= k && OwnedBy(q, pid, k) then TornDown(q, r, k) else SlotSame(q, r, k)
  }

  /** destroy_owned_sems from slot i on */
  lemma {:induction false} DestroyOwnedEffect(q: T.Queues, i: nat)
    requires TI.Core(q) && T.Shape(q) && q.at[q.cur] == T.OnCpu && i <= N_SEMAFORS
    ensures var pid := q.pcb[q.cur].pid; var r := T.DestroyOwned(q, pid, i).q;
            && T.Shape(r) && GoesOn(q, r) && r.ready == q.ready + Waiters(q, pid, i) && Cleared(q, r, pid, i)
    decreases N_SEMAFORS - i
  {
    hide TI.Core, T.Drain, Cleared, TornDown, SlotSame, OwnedBy, T.DestroyOwned, Waiters, GoesOn;
    var pid := q.pcb[q.cur].pid;
    Unfold(q, i);
    if i == N_SEMAFORS {
      NoneCleared(q, pid, i);
    } else if OwnedBy(q, pid, i) {
      var a := T.Drain(q, i).q;
      OwnedCore(q, i);
      DestroyOwnedEffect(a, i + 1);
      WaitersSame(q, a, pid, i + 1);
      OneCleared(q, a, T.DestroyOwned(a, pid, i + 1).q, pid, i);
      GoOn(q, a, T.DestroyOwned(a, pid, i + 1).q);
      assert (q.ready + q.blocked[i]) + Waiters(q, pid, i + 1) == q.ready + (q.blocked[i] + Waiters(q, pid, i + 1));
    } else {
      DestroyOwnedEffect(q, i + 1);
      NotCleared(q, T.DestroyOwned(q, pid, i + 1).q, pid, i);
    }
  }

  lemma Unfold(q: T.Queues, i: nat)
    requires T.Shape(q) && i <= N_SEMAFORS
    ensures var pid := q.pcb[q.cur].pid;
            if i == N_SEMAFORS then T.DestroyOwned(q, pid, i).q == q && Waiters(q, pid, i) == [] && GoesOn(q, q)
            else if OwnedBy(q, pid, i) then
              && T.Shape(T.Drain(q, i).q)
              && T.DestroyOwned(q, pid, i).q == T.DestroyOwned(T.Drain(q, i).q, pid, i + 1).q
              && Waiters(q, pid, i) == q.blocked[i] + Waiters(q, pid, i + 1)
            else
              && T.DestroyOwned(q, pid, i).q == T.DestroyOwned(q, pid, i + 1).q
              && Waiters(q, pid, i) == Waiters(q, pid, i + 1)
  {
    if i < N_SEMAFORS {
      T.DrainShape(q, i);
      assert [] + Waiters(q, q.pcb[q.cur].pid, i + 1) == Waiters(q, q.pcb[q.cur].pid, i + 1);
    }
  }

  lemma OwnedCore(q: T.Queues, i: nat)
    requires TI.Core(q) && T.Shape(q) && q.at[q.cur] == T.OnCpu && T.IsSlot(i) && OwnedBy(q, q.pcb[q.cur].pid, i)
    ensures var a := T.Drain(q, i).q;
            && TI.Core(a) && T.Shape(a) && GoesOn(q, a) && a.ready == q.ready + q.blocked[i]
            && a.cur == q.cur && a.pcb == q.pcb && a.at[a.cur] == T.OnCpu
            && TornDown(q, a, i) && forall j :: T.IsSlot(j) && j != i ==> SlotSame(q, a, j)
  {
    hide TI.Places, TI.Pids, TI.SlotTable, TI.Owners, TI.Waits, TI.Drains, TI.Quanta, T.Drain, TornDown, SlotSame;
    DrainEffect(q, i);
    TI.InternalDestroyKeeps(q, i);
  }

  lemma GoOn(q: T.Queues, a: T.Queues, r: T.Queues)
    requires GoesOn(q, a) && GoesOn(a, r)
    ensures GoesOn(q, r)
  {
  }

  lemma NoneCleared(q: T.Queues, pid: int, i: int)
    requires T.Shape(q) && i >= N_SEMAFORS
    ensures Cleared(q, q, pid, i)
  {
  }

  lemma NotCleared(q: T.Queues, r: T.Queues, pid: int, i: int)
    requires T.Shape(q) && T.Shape(r) && T.IsSlot(i) && !OwnedBy(q, pid, i) && Cleared(q, r, pid, i + 1)
    ensures Cleared(q, r, pid, i)
  {
    hide TornDown, SlotSame;
  }

  lemma OneCleared(q: T.Queues, a: T.Queues, r: T.Queues, pid: int, i: int)
    requires T.Shape(q) && T.Shape(a) && T.Shape(r) && T.IsSlot(i) && OwnedBy(q, pid, i) && TornDown(q, a, i)
    requires forall k :: T.IsSlot(k) && k != i ==> SlotSame(q, a, k)
    requires Cleared(a, r, pid, i + 1)
    ensures Cleared(q, r, pid, i)
  {
    hide TornDown, SlotSame, T.Shape;
    forall k | T.IsSlot(k) ensures if i <= k && OwnedBy(q, pid, k) then TornDown(q, r, k) else SlotSame(q, r, k) {
      SlotStep(q, a, r, k);
    }
  }

  lemma SlotStep(q: T.Queues, a: T.Queues, r: T.Queues, k: int)
    requires T.Shape(q) && T.Shape(a) && T.Shape(r) && T.IsSlot(k)
    ensures SlotSame(q, q, k)
    ensures SlotSame(q, a, k) && SlotSame(a, r, k) ==> SlotSame(q, r, k)
    ensures SlotSame(q, a, k) && TornDown(a, r, k) ==> TornDown(q, r, k)
    ensures TornDown(q, a, k) && SlotSame(a, r, k) ==> TornDown(q, r, k)
    ensures SlotSame(q, a, k) ==> forall pid :: OwnedBy(q, pid, k) <==> OwnedBy(a, pid, k)
    ensures TornDown(q, a, k) ==> forall pid :: !OwnedBy(a, pid, k)
  {
  }

  /** The control blocks when the processor passes on in sys_exit. */
  ghost function BuriedPcb(q: T.Queues): (pcb: seq<T.Pcb>)
    requires T.Shape(q)
    ensures |pcb| == NR_TASKS
  {
    q.pcb[q.cur := q.pcb[q.cur].(pid := -1)]
  }

  /** The semaphore slots at that moment. */
  ghost function TornSlots(q: T.Queues): (slots: seq<T.Slot>)
    requires T.Shape(q)
    ensures |slots| == N_SEMAFORS
  {
    seq(N_SEMAFORS, k requires 0 <= k < N_SEMAFORS =>
      if OwnedBy(q, q.pcb[q.cur].pid, k) then T.Slot(DEAD, q.slots[k].count, q.slots[k].owner, -|q.blocked[k]|)
      else q.slots[k])
  }

  /** The ready tasks and behind them the waiters of the semaphores of the caller. */
  ghost function LineAfterExit(q: T.Queues): (line: seq<int>)
    requires T.Shape(q)
    ensures T.AreTasks(line)
  {
    q.ready + Waiters(q, q.pcb[q.cur].pid, 0)
  }

  /** sys_exit: the waiters of the semaphores of the caller become ready, its control block the last free one, and the
      first of the ready tasks and these waiters runs. */
  ghost predicate Exited(q: T.Queues, r: T.Queues)
    requires T.Shape(q) && T.Shape(r)
  {
    && Passed(LineAfterExit(q), BuriedPcb(q), TornSlots(q), r)
    && r.idle == q.idle && r.lastPid == q.lastPid && r.free == q.free + [q.cur]
    && forall k :: T.IsSlot(k) ==> r.blocked[k] == if OwnedBy(q, q.pcb[q.cur].pid, k) then [] else q.blocked[k]
  }

  lemma ExitEffect(q: T.Queues)
    requires TI.Inv(q) && q.cur != q.idle
    ensures T.Shape(T.Exit(q).q) && Exited(q, T.Exit(q).q)
  {
    hide TI.Places, TI.Pids, TI.SlotTable, TI.Owners, TI.Waits, TI.Drains, TI.Quanta, T.SchedNext, T.DestroyOwned,
         Passed, Waiters, Finished;
    var a := T.DestroyOwned(q, q.pcb[q.cur].pid, 0).q;
    TI.DestroyOwnedKeeps(q, q.pcb[q.cur].pid, 0);
    DestroyOwnedEffect(q, 0);
    TI.BuryKeeps(a);
    var b := T.Bury(a).q;
    DispatchEffect(b);
    assert b.slots == TornSlots(q);
  }

  // ---- new tasks ----

  /** fork and clone: the first free control block becomes a copy of that of the caller with the next pid and waits
      behind all ready tasks; the caller goes on. */
  ghost predicate Spawned(q: T.Queues, r: T.Queues)
    requires T.Shape(q) && T.Shape(r) && q.free != []
  {
    var c := q.free[0];
    && r.pcb[c].pid == r.lastPid == q.lastPid + 1 && r.pcb[c].quantum == q.pcb[q.cur].quantum && r.pcb[c].wait == -1
    && (forall t :: T.IsTask(t) && t != c ==> r.pcb[t] == q.pcb[t])
    && r.free == q.free[1..] && r.ready == q.ready + [c] && r.cur == q.cur && r.left == q.left && r.idle == q.idle
    && r.blocked == q.blocked && r.slots == q.slots
  }

  lemma SpawnEffect(q: T.Queues)
    requires TI.Inv(q) && q.free != [] && T.Shape(T.Spawn(q).q)
    ensures Spawned(q, T.Spawn(q).q)
  {
    hide TI.Places, TI.Pids, TI.SlotTable, TI.Owners, TI.Waits, TI.Drains, TI.Quanta;
  }
}
