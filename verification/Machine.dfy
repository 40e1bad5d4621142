/** The kernel of sys.c on its real data: system calls and clock ticks as methods, each proved equal to one
    step of the state machine in Kernel. */
module Machine {
  import opened Config
  import opened Access
  import K = Kernel
  import L = Lists
  import T = Tasks
  import TI = TasksInv
  import M = Space
  import MI = SpaceInv
  import P = Processes
  import MM = MemoryManager
  import Boot

  class Machine {
    const p: P.Processes
    const mm: MM.Memory

    ghost function State(): K.State
      reads p, mm
    {
      K.State(p.q, mm.m)
    }

    ghost predicate Rep()
      reads p, p.links, p.links.next, p.links.prev, p.tasks, p.sems
      reads mm, mm.phys, mm.usage, mm.pt, mm.ram, mm.base
    {
      && p.Rep() && mm.Rep()
      && p.links.next != mm.usage && p.links.next != mm.base
      && p.links.prev != mm.usage && p.links.prev != mm.base
    }

    ghost predicate Valid()
      reads p, p.links, p.links.next, p.links.prev, p.tasks, p.sems
      reads mm, mm.phys, mm.usage, mm.pt, mm.ram, mm.base
    {
      Rep() && K.Inv(State())
    }

    /** main, up to the start of the first process */
    constructor ()
      ensures Valid() && State() == Boot.State(mm.ram[..])
      ensures fresh(p) && fresh(p.links) && fresh(p.links.next) && fresh(p.links.prev) && fresh(p.tasks)
              && fresh(p.sems)
      ensures fresh(mm) && fresh(mm.phys) && fresh(mm.usage) && fresh(mm.pt) && fresh(mm.ram) && fresh(mm.base)
    {
      hide K.Inv, P.Heads, L.Linked, Boot.Queues, Boot.Memory, M.Shape, T.Shape;
      mm := new MM.Memory();
      p := new P.Processes();
      new;
      Boot.BootInv(mm.ram[..]);
    }

    method Tick() returns (answer: int)
      requires Valid()
      modifies p, p.links, p.links.next, p.links.prev, p.tasks, p.sems
      ensures Valid() && State() == K.Step(old(State()), K.Tick).s
      ensures P.Answers(K.Step(old(State()), K.Tick).ev, answer)
    {
      hide K.Inv, K.Step, TI.Inv, P.Heads, L.Linked, TI.SlotTable, TI.Places;
      ghost var s := State();
      Parts(s);
      K.StepKeeps(s, K.Tick);
      StepIs(s, K.Tick);
      answer := p.Tick();
    }

    method SemInit(id: int, value: int) returns (reply: int)
      requires Valid() && K.Enabled(State(), K.SemInit(id, value))
      modifies p, p.links, p.links.next, p.links.prev, p.tasks, p.sems
      ensures Valid() && State() == K.Step(old(State()), K.SemInit(id, value)).s
      ensures T.Value(reply) == K.Step(old(State()), K.SemInit(id, value)).reply
    {
      hide K.Inv, K.Step, TI.Inv, P.Heads, L.Linked, TI.SlotTable, TI.Places;
      ghost var s := State();
      Parts(s);
      K.StepKeeps(s, K.SemInit(id, value));
      StepIs(s, K.SemInit(id, value));
      reply := p.SemInit(id, value);
    }

    method SemWait(id: int) returns (reply: T.Reply, answer: int)
      requires Valid() && K.Enabled(State(), K.SemWait(id))
      modifies p, p.links, p.links.next, p.links.prev, p.tasks, p.sems
      ensures Valid() && State() == K.Step(old(State()), K.SemWait(id)).s
      ensures reply == K.Step(old(State()), K.SemWait(id)).reply
      ensures P.Answers(K.Step(old(State()), K.SemWait(id)).ev, answer)
    {
      hide K.Inv, K.Step, TI.Inv, P.Heads, L.Linked, TI.SlotTable, TI.Places;
      ghost var s := State();
      Parts(s);
      K.StepKeeps(s, K.SemWait(id));
      StepIs(s, K.SemWait(id));
      reply, answer := p.SemWait(id);
    }

    method SemSignal(id: int) returns (reply: int)
      requires Valid() && K.Enabled(State(), K.SemSignal(id))
      modifies p, p.links, p.links.next, p.links.prev, p.tasks, p.sems
      ensures Valid() && State() == K.Step(old(State()), K.SemSignal(id)).s
      ensures T.Value(reply) == K.Step(old(State()), K.SemSignal(id)).reply
    {
      hide K.Inv, K.Step, TI.Inv, P.Heads, L.Linked, TI.SlotTable, TI.Places;
      ghost var s := State();
      Parts(s);
      K.StepKeeps(s, K.SemSignal(id));
      StepIs(s, K.SemSignal(id));
      reply := p.SemSignal(id);
    }

    method SemDestroy(id: int) returns (reply: int)
      requires Valid() && K.Enabled(State(), K.SemDestroy(id))
      modifies p, p.links, p.links.next, p.links.prev, p.tasks, p.sems
      ensures Valid() && State() == K.Step(old(State()), K.SemDestroy(id)).s
      ensures T.Value(reply) == K.Step(old(State()), K.SemDestroy(id)).reply
    {
      hide K.Inv, K.Step, TI.Inv, P.Heads, L.Linked, TI.SlotTable, TI.Places;
      ghost var s := State();
      Parts(s);
      K.StepKeeps(s, K.SemDestroy(id));
      StepIs(s, K.SemDestroy(id));
      reply := p.SemDestroy(id);
    }

    /** A program writes a byte of one of its data pages. */
    method Store(page: int, off: int, byte: M.Byte)
      requires Valid() && K.Enabled(State(), K.Store(page, off, byte))
      modifies mm, mm.ram
      ensures Valid() && State() == K.Step(old(State()), K.Store(page, off, byte)).s
    {
      hide K.Inv, K.Step, TI.Inv, P.Heads, L.Linked, TI.SlotTable, TI.Places;
      ghost var s := State();
      Parts(s);
      K.StepKeeps(s, K.Store(page, off, byte));
      StoreIs(s, page, off, byte);
      mm.Store(p.cur, page, off, byte);
    }

    method Fork() returns (reply: int)
      requires Valid() && p.q.cur != p.q.idle
      modifies p, p.links, p.links.next, p.links.prev, p.tasks
      modifies mm, mm.phys, mm.usage, mm.pt, mm.ram, mm.base
      ensures Valid() && State() == K.Step(old(State()), K.Fork).s
      ensures T.Value(reply) == K.Step(old(State()), K.Fork).reply
    {
      hide K.Inv, K.Step, K.ForkStep, TI.Inv, P.Heads, L.Linked, TI.SlotTable, TI.Places, T.Spawn, MI.Forked,
           MI.CanFork, M.GetFrames, M.ForkSpace;
      ghost var s := State();
      Parts(s);
      K.StepKeeps(s, K.Fork);
      StepIs(s, K.Fork);
      ForkIs(s);
      P.QueueHeads(p.links.lists, p.q);
      var none := p.links.ListEmpty(P.FREE);
      if none {
        return -ENOMEM;
      }
      var c := p.links.First(P.FREE);
      var ok, v := mm.GetFrames();
      if !ok {
        return -ENOMEM;
      }
      reply := MakeChild(c, v, s);
    }

    /** sys.c:392-442: the child, once its frames v are there.  `s` is the state when fork was called. */
    method MakeChild(c: int, v: array<int>, ghost s: K.State) returns (reply: int)
      requires Rep() && K.Inv(s) && s.q.cur != s.q.idle && s.q.free != [] && c == s.q.free[0]
      requires p.q == s.q && mm.m == s.m.(phys := M.GetFrames(s.m.phys).phys)
      requires v[..] == M.GetFrames(s.m.phys).v
      requires v != p.links.next && v != p.links.prev && v != mm.usage && v != mm.base
      modifies p, p.links, p.links.next, p.links.prev, p.tasks
      modifies mm, mm.usage, mm.pt, mm.ram, mm.base
      ensures Rep() && State() == K.ForkStep(s).s && T.Value(reply) == K.ForkStep(s).reply
    {
      hide K.Inv, K.ForkStep, P.Heads, L.Linked, TI.Inv, TI.Places, TI.SlotTable, T.Spawn, MI.Forked, MI.CanFork,
           M.GetFrames, M.ForkSpace;
      Parts(s);
      ForkIs(s);
      ForkArguments(s);
      P.OffLists(p.links.lists, p.q, p.q.cur);
      p.Spawn(c);
      mm.InheritSpace(p.cur, c, v);
      reply := p.lastPid;
    }

    /** sys_clone */
    method Clone(code: int, stack: int) returns (reply: int)
      requires Valid() && K.Enabled(State(), K.Clone(code, stack))
      modifies p, p.links, p.links.next, p.links.prev, p.tasks
      modifies mm, mm.usage, mm.base
      ensures Valid() && State() == K.Step(old(State()), K.Clone(code, stack)).s
      ensures T.Value(reply) == K.Step(old(State()), K.Clone(code, stack)).reply
    {
      hide K.Inv, K.Step, K.CloneStep, TI.Inv, P.Heads, L.Linked, TI.SlotTable, TI.Places, T.Spawn, M.CloneSpace,
           AccessOk, L.On, T.Shape, M.Shape;
      ghost var s := State();
      Parts(s);
      K.StepKeeps(s, K.Clone(code, stack));
      StepIs(s, K.Clone(code, stack));
      CloneIs(s, CloneArgs(code, stack));
      P.QueueHeads(p.links.lists, p.q);
      if code == 0 || stack == 0 || !AccessOk(false, code, WORD) || !AccessOk(true, stack, WORD) {
        return -EFAULT;
      }
      var none := p.links.ListEmpty(P.FREE);
      if none {
        return -ENOMEM;
      }
      var c := p.links.First(P.FREE);
      P.OffLists(p.links.lists, p.q, p.q.cur);
      p.Spawn(c);
      mm.ShareSpace(p.cur, c);
      reply := p.lastPid;
    }

    method Exit() returns (answer: int)
      requires Valid() && p.q.cur != p.q.idle
      modifies p, p.links, p.links.next, p.links.prev, p.tasks, p.sems
      modifies mm, mm.usage, mm.phys, mm.pt
      ensures Valid() && State() == K.Step(old(State()), K.Exit).s
      ensures P.Answers(K.Step(old(State()), K.Exit).ev, answer)
    {
      hide K.Inv, K.Step, K.ExitStep, TI.Inv, P.Heads, L.Linked, TI.SlotTable, TI.Places, T.Exit, M.ExitSpace;
      ghost var s := State();
      Parts(s);
      K.StepKeeps(s, K.Exit);
      StepIs(s, K.Exit);
      ExitIs(s);
      mm.LeaveSpace(p.cur);
      answer := p.Exit();
    }
  }

  lemma Parts(s: K.State)
    requires K.Inv(s)
    ensures TI.Inv(s.q) && T.Shape(s.q) && TI.SlotTable(s.q) && TI.Places(s.q) && s.q.at[s.q.cur] == T.OnCpu
            && M.Shape(s.m)
  {
  }

  lemma StepIs(s: K.State, op: K.Op)
    requires K.Inv(s) && K.Enabled(s, op)
    ensures op.Tick? ==> K.Step(s, op) == K.OnQueues(s, T.Tick(s.q))
    ensures op.Fork? ==> K.Step(s, op) == K.ForkStep(s)
    ensures op.Clone? ==> K.Step(s, op) == K.CloneStep(s, CloneArgs(op.code, op.stack))
    ensures op.Exit? ==> K.Step(s, op) == K.ExitStep(s)
    ensures op.SemInit? ==> K.Step(s, op) == K.OnQueues(s, T.SemInit(s.q, op.id, op.value))
    ensures op.SemWait? ==> K.Step(s, op) == K.OnQueues(s, T.SemWait(s.q, op.id))
    ensures op.SemSignal? ==> K.Step(s, op) == K.OnQueues(s, T.SemSignal(s.q, op.id))
    ensures op.SemDestroy? ==> K.Step(s, op) == K.OnQueues(s, T.SemDestroy(s.q, op.id))
  {
  }

  lemma ForkIs(s: K.State)
    requires K.Inv(s) && s.q.cur != s.q.idle
    ensures T.Shape(s.q) && M.Shape(s.m)
    ensures s.q.free == [] ==> K.ForkStep(s) == K.Result(s, T.Value(-ENOMEM), [])
    ensures var r := M.GetFrames(s.m.phys);
            && (s.q.free != [] && !r.ok ==>
                  K.ForkStep(s) == K.Result(s.(m := s.m.(phys := r.phys)), T.Value(-ENOMEM), []))
            && (s.q.free != [] && r.ok ==>
                  && MI.CanFork(s.m, s.q.idle, s.q.cur, s.q.free[0])
                  && K.ForkStep(s).s == K.State(T.Spawn(s.q).q, MI.Forked(s.m, s.q.idle, s.q.cur, s.q.free[0]))
                  && T.Spawn(s.q).q.cur == s.q.cur
                  && K.ForkStep(s).reply == T.Value(T.Spawn(s.q).q.lastPid))
  {
    hide MI.Tables, MI.DataFrames, MI.Disjoint, MI.NoLeak, MI.Usage, TI.Places, TI.Pids, TI.SlotTable, TI.Owners,
         TI.Waits, TI.Drains, TI.Quanta, MI.Forked, M.GetFrames;
    K.CurrentUser(s);
  }

  /** What fork needs when it goes on with its frames: a free directory, and frames for all pages. */
  lemma ForkArguments(s: K.State)
    requires K.Inv(s) && s.q.cur != s.q.idle && s.q.free != []
    ensures T.Shape(s.q) && M.Shape(s.m)
    ensures var c, r, m := s.q.free[0], M.GetFrames(s.m.phys), s.m.(phys := M.GetFrames(s.m.phys).phys);
            && s.q.cur != c && T.IsTask(c) && r.ok && M.Shape(m)
            && m.dirOf[s.q.cur] >= 0 && m.dirOf[c] == -1
            && M.FindDir(m.usage, 0) >= 0 && M.FindDir(m.usage, 0) != m.dirOf[s.q.cur]
            && M.DataMapped(m.pt, m.dirOf[s.q.cur])
            && (forall i :: 0 <= i < NUM_PAG_DATA ==> M.IsFrame(r.v[i]))
            && MI.CanFork(s.m, s.q.idle, s.q.cur, c)
            && M.ForkSpace(m, M.Frames(m.phys, r.v, true), s.q.cur, c) == MI.Forked(s.m, s.q.idle, s.q.cur, c)
  {
    hide MI.Tables, MI.DataFrames, MI.Disjoint, MI.NoLeak, MI.Usage, TI.Places, TI.Pids, TI.SlotTable, TI.Owners,
         TI.Waits, TI.Drains, TI.Quanta, M.GetFrames, M.FindDir, M.ForkPages;
    K.CurrentUser(s);
    MI.ForkReady(s.m, s.q.idle, s.q.cur, s.q.free[0]);
  }

  lemma StoreIs(s: K.State, page: int, off: int, byte: M.Byte)
    requires K.Inv(s) && K.Enabled(s, K.Store(page, off, byte))
    ensures M.Shape(s.m) && T.IsTask(s.q.cur) && s.m.dirOf[s.q.cur] >= 0 && M.DataMapped(s.m.pt, s.m.dirOf[s.q.cur])
    ensures M.IsData(page) && 0 <= off < PAGE_SIZE
    ensures K.Step(s, K.Store(page, off, byte)).s == s.(m := M.Store(s.m, s.q.cur, page, off, byte))
  {
    hide MI.Tables, MI.DataFrames, MI.Disjoint, MI.NoLeak, MI.Usage;
    K.CurrentUser(s);
  }

  lemma CloneIs(s: K.State, argsOk: bool)
    requires K.Inv(s) && s.q.cur != s.q.idle
    ensures T.Shape(s.q) && M.Shape(s.m) && s.m.dirOf[s.q.cur] >= 0
    ensures !argsOk ==> K.CloneStep(s, argsOk) == K.Result(s, T.Value(-EFAULT), [])
    ensures argsOk && s.q.free == [] ==> K.CloneStep(s, argsOk) == K.Result(s, T.Value(-ENOMEM), [])
    ensures argsOk && s.q.free != [] ==>
      var r := K.CloneStep(s, argsOk);
      && T.IsTask(s.q.free[0])
      && r.s == K.State(T.Spawn(s.q).q, M.CloneSpace(s.m, s.q.cur, s.q.free[0]))
      && T.Spawn(s.q).q.cur == s.q.cur && r.reply == T.Value(T.Spawn(s.q).q.lastPid)
  {
    hide MI.Tables, MI.DataFrames, MI.Disjoint, MI.NoLeak, MI.Usage, TI.Places, TI.Pids, TI.SlotTable, TI.Owners,
         TI.Waits, TI.Drains, TI.Quanta;
    K.CurrentUser(s);
  }

  lemma ExitIs(s: K.State)
    requires K.Inv(s) && s.q.cur != s.q.idle
    ensures T.Shape(s.q) && M.Shape(s.m) && s.m.dirOf[s.q.cur] >= 0
    ensures K.ExitStep(s).s == K.State(T.Exit(s.q).q, M.ExitSpace(s.m, s.q.cur)) && K.ExitStep(s).ev == T.Exit(s.q).ev
  {
    hide MI.Tables, MI.DataFrames, MI.Disjoint, MI.NoLeak, MI.Usage, TI.Places, TI.Pids, TI.SlotTable, TI.Owners,
         TI.Waits, TI.Drains, TI.Quanta, T.Exit;
    K.CurrentUser(s);
  }
}
