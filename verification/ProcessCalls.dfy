/** What the clock and the process calls do, in terms of queues, pids and directories. */
module ProcessCalls {
  import opened Access
  import opened Config
  import T = Tasks
  import TI = TasksInv
  import M = Space
  import MI = SpaceInv
  import MemoryLaws
  import opened QueueEffects
  import opened Kernel

  /** Time slices: a running program keeps the processor for all ticks of its quantum but the last; then it goes
      behind the ready tasks and the first one gets a full quantum, which is the program itself when nobody else
      is ready.  The idle task stays. */
  lemma TimeSlice(s: State)
    requires Inv(s)
    ensures T.Shape(Step(s, Tick).s.q)
    ensures var r, q := Step(s, Tick).s.q, s.q;
            && (q.cur != q.idle && q.left > 1 ==>
                  r.cur == q.cur && r.ready == q.ready && r.left == q.left - 1 && r.slots == q.slots)
            && (q.cur != q.idle && q.left == 1 ==>
                  [r.cur] + r.ready == q.ready + [q.cur] && Passed(q.ready + [q.cur], q.pcb, q.slots, r))
            && (q.cur != q.idle && q.left > 1 ==> r.pcb == q.pcb)
            && (q.cur == q.idle ==> r == q.(left := DEFAULT_QUANTUM))
            && Kept(q, r) && Step(s, Tick).s.m == s.m
  {
    hide TI.Core, MI.Inv, Linked, T.SchedNext, T.Yield, Finished;
    TickEffect(s.q);
    FullQuanta(s.q);
  }

  lemma FullQuanta(q: T.Queues)
    requires TI.Inv(q)
    ensures T.Shape(q) && q.pcb[q.cur].quantum == DEFAULT_QUANTUM && q.pcb[q.idle].quantum == DEFAULT_QUANTUM
    ensures forall t :: t in q.ready ==> q.pcb[t].quantum == DEFAULT_QUANTUM
  {
    hide TI.Pids, TI.SlotTable, TI.Owners, TI.Waits, TI.Drains;
  }

  /** A new task, which has the first free control block: its pid is the reply and greater than all others, and it
      waits behind all ready tasks, while the caller goes on. */
  ghost predicate Born(s: State, r: Result)
    requires Inv(s) && s.q.free != [] && T.Shape(r.s.q)
  {
    var c := s.q.free[0];
    && Spawned(s.q, r.s.q) && r.reply == T.Value(r.s.q.pcb[c].pid)
    && (forall t :: T.IsTask(t) ==> s.q.pcb[t].pid < r.s.q.pcb[c].pid)
  }

  lemma SpawnBorn(s: State, r: Result)
    requires Inv(s) && s.q.free != [] && r.s.q == T.Spawn(s.q).q && r.reply == T.Spawn(s.q).reply && T.Shape(r.s.q)
    ensures Born(s, r)
  {
    hide TI.SlotTable, TI.Owners, TI.Drains, TI.Waits, TI.Quanta, MI.Inv;
    SpawnEffect(s.q);
  }

  /** A successful fork: a new task with a directory of its own. */
  lemma ForkLaw(s: State)
    requires Inv(s) && Enabled(s, Fork) && s.q.free != []
    ensures T.Shape(Step(s, Fork).s.q) && M.Shape(Step(s, Fork).s.m)
    ensures var r, c := Step(s, Fork), s.q.free[0];
            && Born(s, r)
            && r.s.m.dirOf[c] >= 0
            && (forall t :: T.IsTask(t) && t != c ==> r.s.m.dirOf[t] == s.m.dirOf[t] != r.s.m.dirOf[c])
  {
    hide TI.Places, TI.Pids, TI.SlotTable, TI.Owners, TI.Waits, TI.Drains, TI.Quanta, M.GetFrames, MI.Forked,
         MI.Tables, MI.DataFrames, MI.Disjoint, MI.NoLeak, MI.Usage, T.Spawn, Born;
    StepKeeps(s, Fork);
    MemoryLaws.ForkGetsFrames(s);
    CurrentUser(s);
    SpawnBorn(s, Step(s, Fork));
    ForkDirs(s.m, s.q.idle, s.q.cur, s.q.free[0]);
  }

  lemma ForkDirs(m: M.Space, idle: int, parent: int, child: int)
    requires MI.CanFork(m, idle, parent, child)
    ensures var m' := MI.Forked(m, idle, parent, child);
            && m'.dirOf[child] >= 0
            && forall t :: T.IsTask(t) && t != child ==> m'.dirOf[t] == m.dirOf[t] != m'.dirOf[child]
  {
    hide M.GetFrames, MI.Forked, MI.Tables, MI.DataFrames, MI.Disjoint, MI.NoLeak, M.FindDir, M.ForkPages;
    var d := M.FindDir(m.usage, 0);
    MI.ForkReady(m, idle, parent, child);
    MI.ForkedImage(m, idle, parent, child);
    MI.UsedHasUser(m, d);
    assert forall t :: T.IsTask(t) ==> m.dirOf[t] != d;
  }

  /** sys_clone fails exactly for bad arguments or without a free control block; otherwise there is a new task in
      the address space of the caller. */
  lemma CloneLaw(s: State, code: int, stack: int)
    requires Inv(s) && Enabled(s, Clone(code, stack))
    ensures T.Shape(Step(s, Clone(code, stack)).s.q) && M.Shape(Step(s, Clone(code, stack)).s.m)
    ensures var r := Step(s, Clone(code, stack));
            && (!CloneArgs(code, stack) ==> r == Result(s, T.Value(-EFAULT), []))
            && (CloneArgs(code, stack) && s.q.free == [] ==> r == Result(s, T.Value(-ENOMEM), []))
            && (CloneArgs(code, stack) && s.q.free != [] ==>
                  && Born(s, r)
                  && r.s.m.dirOf == s.m.dirOf[s.q.free[0] := s.m.dirOf[s.q.cur]]
                  && r.s.m.phys == s.m.phys && r.s.m.pt == s.m.pt && r.s.m.ram == s.m.ram)
  {
    hide TI.Places, TI.Pids, TI.SlotTable, TI.Owners, TI.Waits, TI.Drains, TI.Quanta,
         MI.Tables, MI.DataFrames, MI.Disjoint, MI.NoLeak, MI.Usage;
    StepKeeps(s, Clone(code, stack));
    CurrentUser(s);
    if CloneArgs(code, stack) && s.q.free != [] {
      SpawnBorn(s, Step(s, Clone(code, stack)));
    }
  }

  /** After an exit the control block is the last free one, without pid and directory, and none of the semaphores
      of the dead task is live; nobody else's pid, directory or live semaphore changes.  The waiters of its semaphores
      are ready, behind those that were, in the order of the slots; the first of them all runs. */
  lemma ExitLaw(s: State)
    requires Inv(s) && Enabled(s, Exit)
    ensures T.Shape(Step(s, Exit).s.q) && M.Shape(Step(s, Exit).s.m)
    ensures var q, r, c := s.q, Step(s, Exit).s, s.q.cur;
            && Exited(q, r.q)
            && r.q.free == q.free + [c] && r.q.pcb[c].pid == -1 && r.m.dirOf == s.m.dirOf[c := -1]
            && (forall t :: T.IsTask(t) && t != c ==> r.q.pcb[t].pid == q.pcb[t].pid)
            && (forall k :: T.IsSlot(k) && q.slots[k].used > 0 ==>
                  if q.slots[k].owner == q.pcb[c].pid then r.q.slots[k].used <= 0 && r.q.blocked[k] == []
                  else r.q.slots[k] == q.slots[k] && r.q.blocked[k] == q.blocked[k])
  {
    hide TI.Places, TI.Pids, TI.SlotTable, TI.Owners, TI.Waits, TI.Drains, TI.Quanta,
         MI.Tables, MI.DataFrames, MI.Disjoint, MI.NoLeak, MI.Usage, T.SchedNext, T.DestroyOwned, Exited;
    StepKeeps(s, Exit);
    CurrentUser(s);
    ExitEffect(s.q);
    var a := T.DestroyOwned(s.q, s.q.pcb[s.q.cur].pid, 0).q;
    TI.DestroyOwnedKeeps(s.q, s.q.pcb[s.q.cur].pid, 0);
    OthersKept(s.q, s.q.pcb[s.q.cur].pid, 0);
    TI.BuryKeeps(a);
    var b := T.Bury(a).q;
    NextKeeps(b);
    forall k | T.IsSlot(k) && s.q.slots[k].used > 0 && s.q.slots[k].owner == s.q.pcb[s.q.cur].pid
      ensures Step(s, Exit).s.q.slots[k].used <= 0 && Step(s, Exit).s.q.blocked[k] == []
    {
      TI.SlotFact(Step(s, Exit).s.q, k);
    }
  }

  /** destroy_owned_sems leaves the live semaphores of other owners alone; those it destroys do not come back. */
  lemma {:induction false} OthersKept(q: T.Queues, pid: int, i: nat)
    requires T.Shape(q) && i <= N_SEMAFORS
    ensures var r := T.DestroyOwned(q, pid, i).q;
            forall k :: T.IsSlot(k) ==>
              && r.slots[k].owner == q.slots[k].owner
              && (q.slots[k].owner != pid ==> r.slots[k] == q.slots[k] && r.blocked[k] == q.blocked[k])
    decreases N_SEMAFORS - i
  {
    if i < N_SEMAFORS {
      if q.slots[i].used > 0 && q.slots[i].owner == pid {
        T.DrainShape(q, i);
        OthersKept(T.InternalDestroy(q, i).q, pid, i + 1);
      } else {
        OthersKept(q, pid, i + 1);
      }
    }
  }

  /** Dispatching changes a slot only by counting up a draining one. */
  lemma NextKeeps(q: T.Queues)
    requires TI.Core(q) && TI.Vacant(q)
    ensures T.Shape(T.SchedNext(q).q)
    ensures var r := T.SchedNext(q).q;
            && r.free == q.free && r.blocked == q.blocked
            && (forall t :: T.IsTask(t) ==> r.pcb[t].pid == q.pcb[t].pid)
            && (forall k :: T.IsSlot(k) ==> r.slots[k] == q.slots[k] || (q.slots[k].used < 0 && r.slots[k].used <= 0))
  {
    hide TI.Pids, TI.SlotTable, TI.Owners, TI.Waits, TI.Drains, TI.Quanta, TI.Places;
    TI.SchedNextKeeps(q);
  }
}
