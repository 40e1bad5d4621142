/** Laws of the kernel over whole runs: every statement here is about every sequence of operations. */
module KernelLaws {
  import opened Config
  import T = Tasks
  import TI = TasksInv
  import MI = SpaceInv
  import opened SlotViews
  import opened SlotTraces
  import opened Kernel

  // ---- every step is explained by its events ----

  ghost predicate Explained(s: State, r: Result)
    requires Inv(s) && T.Shape(r.s.q)
  {
    && Fifo(s.q.ready, r.ev, r.s.q.ready)
    && forall k :: T.IsSlot(k) ==> Leads(ViewOf(s.q, k), r.ev, k, ViewOf(r.s.q, k))
  }

  lemma FromFlows(s: State, o: T.Outcome, r: Result)
    requires Inv(s) && T.Shape(o.q) && Flows(s.q, o) && r.ev == o.ev && r.s.q == o.q
    ensures Explained(s, r)
  {
    forall k | T.IsSlot(k) ensures Leads(ViewOf(s.q, k), r.ev, k, ViewOf(r.s.q, k)) {
      assert Explains(s.q, o, k);
    }
  }

  lemma StutterExplained(s: State, r: Result)
    requires Inv(s) && r.s.q == s.q && r.ev == []
    ensures Explained(s, r)
  {
    SilentFlows(s.q, T.Outcome(s.q, T.Switched, []));
    FromFlows(s, T.Outcome(s.q, T.Switched, []), r);
  }

  lemma SpawnExplained(s: State, r: Result)
    requires Inv(s) && s.q.free != [] && r.s.q == T.Spawn(s.q).q && r.ev == T.Spawn(s.q).ev && T.Shape(r.s.q)
    ensures Explained(s, r)
  {
    Members(s.q);
    SpawnFlows(s.q);
    FromFlows(s, T.Spawn(s.q), r);
  }

  lemma StepExplained(s: State, op: Op)
    requires Inv(s)
    ensures T.Shape(Step(s, op).s.q) && Explained(s, Step(s, op))
  {
    hide Explained, T.Tick, T.SemInit, T.SemWait, T.SemSignal, T.SemDestroy, T.Exit, T.Spawn, Flows,
         TI.Places, TI.Pids, TI.SlotTable, TI.Owners, TI.Waits, TI.Drains, TI.Quanta, MI.Inv, Linked;
    StepKeeps(s, op);
    var r := Step(s, op);
    if !Enabled(s, op) || op.Store? {
      StutterExplained(s, r);
    } else if op.Fork? || op.Clone? {
      if r.ev == [] && r.s.q == s.q {
        StutterExplained(s, r);
      } else {
        SpawnExplained(s, r);
      }
    } else if op.Tick? {
      TickFlows(s.q);
      FromFlows(s, T.Tick(s.q), r);
    } else if op.Exit? {
      ExitFlows(s.q);
      FromFlows(s, T.Exit(s.q), r);
    } else if op.SemInit? {
      InitFlows(s.q, op.id, op.value);
      FromFlows(s, T.SemInit(s.q, op.id, op.value), r);
    } else if op.SemWait? {
      WaitFlows(s.q, op.id);
      FromFlows(s, T.SemWait(s.q, op.id), r);
    } else if op.SemSignal? {
      SignalFlows(s.q, op.id);
      FromFlows(s, T.SemSignal(s.q, op.id), r);
    } else {
      DestroyFlows(s.q, op.id);
      FromFlows(s, T.SemDestroy(s.q, op.id), r);
    }
  }

  /** Over a whole run, the events tell how slot k changes and in which order tasks are dispatched. */
  lemma {:induction false} RunExplained(s: State, ops: seq<Op>, k: int)
    requires Inv(s) && T.IsSlot(k)
    ensures var r := Exec(s, ops);
            && Leads(ViewOf(s.q, k), r.ev, k, ViewOf(r.s.q, k))
            && s.q.ready + Arrived(r.ev) == Dispatched(r.ev) + r.s.q.ready
    decreases |ops|
  {
    hide TI.Places, TI.Pids, TI.SlotTable, TI.Owners, TI.Waits, TI.Drains, TI.Quanta, MI.Inv, Step;
    if ops == [] {
      assert s.q.ready + [] == [] + s.q.ready;
    } else {
      var a := Step(s, ops[0]);
      StepKeeps(s, ops[0]);
      StepExplained(s, ops[0]);
      var r := Exec(a.s, ops[1..]);
      RunExplained(a.s, ops[1..], k);
      LeadsConcat(ViewOf(s.q, k), a.ev, ViewOf(a.s.q, k), r.ev, k, ViewOf(r.s.q, k));
      assert Fifo(a.s.q.ready, r.ev, r.s.q.ready);
      FifoConcat(s.q.ready, a.ev, a.s.q.ready, r.ev, r.s.q.ready);
    }
  }

  // ---- whose a slot is ----

  /** Slot k is still the same semaphore: it keeps identifier and owner, and stays live. */
  ghost predicate SameSemaphore(q: T.Queues, r: T.Queues, k: int)
    requires T.Shape(q) && T.Shape(r) && T.IsSlot(k)
  {
    && r.slots[k].id == q.slots[k].id && r.slots[k].owner == q.slots[k].owner
    && (q.slots[k].used > 0 ==> r.slots[k].used == q.slots[k].used)
  }

  lemma NextStays(q: T.Queues, k: int)
    requires TI.Core(q) && TI.Vacant(q) && T.IsSlot(k)
    ensures T.Shape(T.SchedNext(q).q) && SameSemaphore(q, T.SchedNext(q).q, k)
  {
    hide TI.Places, TI.Pids, TI.SlotTable, TI.Owners, TI.Waits, TI.Drains, TI.Quanta;
    TI.SchedNextKeeps(q);
  }

  lemma TickStays(q: T.Queues, k: int)
    requires TI.Inv(q) && T.IsSlot(k)
    ensures T.Shape(T.Tick(q).q) && SameSemaphore(q, T.Tick(q).q, k)
  {
    hide TI.Places, TI.Pids, TI.SlotTable, TI.Owners, TI.Waits, TI.Drains, TI.Quanta, T.SchedNext;
    TI.TickKeeps(q);
    var q1 := q.(left := q.left - 1);
    TI.LeftCore(q, q1.left);
    TI.YieldKeeps(q1);
    NextStays(T.Yield(q1).q, k);
  }

  lemma WaitStays(q: T.Queues, id: int, k: int)
    requires TI.Inv(q) && q.cur != q.idle && T.IsSlot(k)
    ensures T.Shape(T.SemWait(q, id).q) && SameSemaphore(q, T.SemWait(q, id).q, k)
  {
    hide TI.Places, TI.Pids, TI.SlotTable, TI.Owners, TI.Waits, TI.Drains, TI.Quanta, T.SchedNext;
    TI.WaitKeeps(q, id);
    var f := T.FindId(q.slots, id, 0);
    if f >= 0 && q.slots[f].used > 0 {
      TI.SlotFact(q, f);
      if q.slots[f].count == 0 {
        TI.BlockKeeps(q, f);
        NextStays(T.BlockOn(q, f).q, k);
      }
    }
  }

  lemma DestroyStays(q: T.Queues, j: int, k: int)
    requires T.Shape(q) && T.IsSlot(j) && T.IsSlot(k) && Quiet(T.InternalDestroy(q, j).ev, k)
    ensures T.Shape(T.InternalDestroy(q, j).q) && SameSemaphore(q, T.InternalDestroy(q, j).q, k)
  {
    T.DrainShape(q, j);
    var r := T.InternalDestroy(q, j);
    if r.q != q {
      assert r.ev[0] == T.Destroy(j);
    }
  }

  lemma QuietParts(a: seq<T.Event>, b: seq<T.Event>, k: int)
    requires Quiet(a + b, k)
    ensures Quiet(a, k) && Quiet(b, k)
  {
    forall i | 0 <= i < |a| ensures a[i] != T.Destroy(k) && !(a[i].Init? && a[i].k == k) {
      assert (a + b)[i] == a[i];
    }
    forall i | 0 <= i < |b| ensures b[i] != T.Destroy(k) && !(b[i].Init? && b[i].k == k) {
      assert (a + b)[|a| + i] == b[i];
    }
  }

  lemma {:induction false} DestroyOwnedStays(q: T.Queues, pid: int, i: nat, k: int)
    requires T.Shape(q) && i <= N_SEMAFORS && T.IsSlot(k) && Quiet(T.DestroyOwned(q, pid, i).ev, k)
    ensures SameSemaphore(q, T.DestroyOwned(q, pid, i).q, k)
    decreases N_SEMAFORS - i
  {
    hide T.InternalDestroy, Quiet;
    if i < N_SEMAFORS {
      if q.slots[i].used > 0 && q.slots[i].owner == pid {
        T.DrainShape(q, i);
        var a := T.InternalDestroy(q, i);
        QuietParts(a.ev, T.DestroyOwned(a.q, pid, i + 1).ev, k);
        DestroyStays(q, i, k);
        DestroyOwnedStays(a.q, pid, i + 1, k);
      } else {
        DestroyOwnedStays(q, pid, i + 1, k);
      }
    }
  }

  lemma ExitStays(q: T.Queues, k: int)
    requires TI.Inv(q) && q.cur != q.idle && T.IsSlot(k) && Quiet(T.Exit(q).ev, k)
    ensures T.Shape(T.Exit(q).q) && SameSemaphore(q, T.Exit(q).q, k)
  {
    hide TI.Places, TI.Pids, TI.SlotTable, TI.Owners, TI.Waits, TI.Drains, TI.Quanta, T.SchedNext, T.DestroyOwned,
         Quiet;
    var pid := q.pcb[q.cur].pid;
    var a := T.DestroyOwned(q, pid, 0);
    TI.DestroyOwnedKeeps(q, pid, 0);
    TI.BuryKeeps(a.q);
    var b := T.Bury(a.q);
    NextStays(b.q, k);
    QuietParts(a.ev + b.ev, T.SchedNext(b.q).ev, k);
    QuietParts(a.ev, b.ev, k);
    DestroyOwnedStays(q, pid, 0, k);
  }

  /** One step: without an Init or Destroy event for it, a slot stays the same semaphore. */
  lemma StepStays(s: State, op: Op, k: int)
    requires Inv(s) && T.IsSlot(k) && Quiet(Step(s, op).ev, k)
    ensures T.Shape(Step(s, op).s.q) && SameSemaphore(s.q, Step(s, op).s.q, k)
  {
    hide TI.Places, TI.Pids, TI.SlotTable, TI.Owners, TI.Waits, TI.Drains, TI.Quanta, MI.Inv, Linked,
         T.Tick, T.SemWait, T.Exit, T.InternalDestroy;
    StepKeeps(s, op);
    if Enabled(s, op) {
      if op.Tick? {
        TickStays(s.q, k);
      } else if op.SemWait? {
        WaitStays(s.q, op.id, k);
      } else if op.Exit? {
        ExitStays(s.q, k);
      } else if op.SemDestroy? {
        var f := T.FindId(s.q.slots, op.id, 0);
        if f >= 0 {
          DestroyStays(s.q, f, k);
        }
      } else if op.SemInit? && Step(s, op).ev != [] {
        assert Step(s, op).ev[0].Init?;
      }
    }
  }

  /** Over every run in which a slot is neither initialised nor destroyed, it stays the same semaphore: sem_wait and
      sem_signal of whatever process change neither its identifier nor its owner. */
  lemma {:induction false} SemaphoreStays(s: State, ops: seq<Op>, k: int)
    requires Inv(s) && T.IsSlot(k) && Quiet(Exec(s, ops).ev, k)
    ensures SameSemaphore(s.q, Exec(s, ops).s.q, k)
    decreases |ops|
  {
    hide TI.Core, MI.Inv, Step, Quiet;
    if ops != [] {
      var a := Step(s, ops[0]);
      StepKeeps(s, ops[0]);
      QuietParts(a.ev, Exec(a.s, ops[1..]).ev, k);
      StepStays(s, ops[0], k);
      SemaphoreStays(a.s, ops[1..], k);
    }
  }

  // ---- semaphores ----

  /** Conservation and FIFO order of a live semaphore, over every run that does not destroy it. */
  lemma SemaphoreLaw(s: State, ops: seq<Op>, k: int)
    requires Inv(s) && T.IsSlot(k) && s.q.slots[k].used > 0 && Quiet(Exec(s, ops).ev, k)
    ensures var r := Exec(s, ops);
            && Leads(ViewOf(s.q, k), r.ev, k, ViewOf(r.s.q, k))
            && r.s.q.slots[k].count + Grants(r.ev, k) + UINT_MOD * Wraps(ViewOf(s.q, k), r.ev, k, ViewOf(r.s.q, k))
               == s.q.slots[k].count + Signals(r.ev, k)
            && Wakes(r.ev, k) + r.s.q.blocked[k] == s.q.blocked[k] + Blocks(r.ev, k)
  {
    var r := Exec(s, ops);
    RunExplained(s, ops, k);
    TI.SlotFact(s.q, k);
    hide Inv;
    Conservation(ViewOf(s.q, k), r.ev, k, ViewOf(r.s.q, k));
    WakeOrder(ViewOf(s.q, k), r.ev, k, ViewOf(r.s.q, k));
  }

  /** Mutual exclusion: from the creation of a semaphore on, if tasks signal only what they hold, holders
      and counter add up to the initial value, so never more tasks than that hold it. */
  lemma MutualExclusion(s: State, id: int, value: int, ops: seq<Op>, k: int)
    requires Inv(s) && Enabled(s, SemInit(id, value)) && T.IsSlot(k)
    requires Step(s, SemInit(id, value)).ev == [T.Init(k, value)]
    ensures Inv(Step(s, SemInit(id, value)).s)
    ensures var r := Exec(Step(s, SemInit(id, value)).s, ops);
            Quiet(r.ev, k) && Disciplined(multiset{}, r.ev, k) ==>
              |Holders(multiset{}, r.ev, k)| + r.s.q.slots[k].count == value && r.s.q.slots[k].count >= 0
  {
    hide TI.Places, TI.Pids, TI.SlotTable, TI.Owners, TI.Waits, TI.Drains, TI.Quanta, MI.Inv, Step, Exec;
    StepKeeps(s, SemInit(id, value));
    StepExplained(s, SemInit(id, value));
    var a := Step(s, SemInit(id, value)).s;
    var r := Exec(a, ops);
    LeadsUnique(ViewOf(s.q, k), T.Init(k, value), k, ViewOf(a.q, k));
    RunExplained(a, ops, k);
    if Quiet(r.ev, k) && Disciplined(multiset{}, r.ev, k) {
      Exclusion(ViewOf(a.q, k), r.ev, k, ViewOf(r.s.q, k), multiset{});
    }
  }

  lemma LeadsUnique(v: View, e: T.Event, k: int, v': View)
    requires Leads(v, [e], k, v')
    ensures Legal(v, e, k) && v' == Play(v, e, k)
  {
    assert [e][1..] == [];
  }

  /** The teardown protocol.  Let slot k be destroyed at event i of a run, with `v.blocked` waiting on it
      and `v.pending` still on their way out of sem_wait.  Then those tasks return in that order; the
      first |v.blocked| returns are failures; until then the slot is not given out again; and as long as the
      slot is not destroyed a second time all further returns are successes. */
  lemma Teardown(s: State, ops: seq<Op>, k: int, i: nat) returns (v: View)
    requires Inv(s) && T.IsSlot(k) && i < |Exec(s, ops).ev| && Exec(s, ops).ev[i] == T.Destroy(k)
    ensures Leads(ViewOf(s.q, k), Exec(s, ops).ev[..i], k, v) && v.used > 0
    ensures var later := Exec(s, ops).ev[i + 1..];
            var r, queue := Returns(later, k), v.pending + v.blocked;
            && (forall j :: 0 <= j < |r| && j < |queue| ==> r[j].task == queue[j])
            && (forall j :: 0 <= j < |r| && j < |v.blocked| ==> r[j].res == -2)
            && (|r| < |v.blocked| ==> NoInit(later, k))
            && (NoDestroy(later, k) ==> forall j :: 0 <= j < |r| ==> r[j].res == (if j < |v.blocked| then -2 else 0))
  {
    RunExplained(s, ops, k);
    v := TeardownView(ViewOf(s.q, k), Exec(s, ops).ev, k, ViewOf(Exec(s, ops).s.q, k), i);
  }

  /** As long as the slot is not destroyed a second time, exactly the destroyed waiters fail if, and only if, no
      waiter was still on its way out when the slot was destroyed (or none was blocked): an already signalled
      waiter takes the failure of a destroyed one, who then returns success although the semaphore is gone. */
  lemma TeardownExact(s: State, ops: seq<Op>, k: int, i: nat, v: View)
    requires Inv(s) && T.IsSlot(k) && i < |Exec(s, ops).ev| && Exec(s, ops).ev[i] == T.Destroy(k)
    requires Leads(ViewOf(s.q, k), Exec(s, ops).ev[..i], k, v)
    requires NoDestroy(Exec(s, ops).ev[i + 1..], k)
    requires |Returns(Exec(s, ops).ev[i + 1..], k)| >= |v.pending| + |v.blocked|
    ensures var r := Returns(Exec(s, ops).ev[i + 1..], k);
            (forall j :: |v.pending| <= j < |v.pending| + |v.blocked| ==> r[j].res == -2) <==>
            v.pending == [] || v.blocked == []
  {
    hide TI.Places, TI.Pids, TI.SlotTable, TI.Owners, TI.Waits, TI.Drains, TI.Quanta, MI.Inv, Exec, Leads;
    var w := Teardown(s, ops, k, i);
    LeadsFunction(ViewOf(s.q, k), Exec(s, ops).ev[..i], k, v, w);
    TeardownCount(v, Returns(Exec(s, ops).ev[i + 1..], k));
  }

  lemma TeardownCount(v: View, r: seq<Return>)
    requires |r| >= |v.pending| + |v.blocked|
    requires forall j :: 0 <= j < |r| ==> r[j].res == (if j < |v.blocked| then -2 else 0)
    ensures (forall j :: |v.pending| <= j < |v.pending| + |v.blocked| ==> r[j].res == -2) <==>
            v.pending == [] || v.blocked == []
  {
    if v.pending != [] && v.blocked != [] {
      assert r[|v.pending| + |v.blocked| - 1].res == 0;
    }
  }
}
