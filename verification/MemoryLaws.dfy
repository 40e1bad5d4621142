/** Memory over whole runs: frame ownership, fork's replies, and isolation of address spaces. */
module MemoryLaws {
  import opened Config
  import T = Tasks
  import TI = TasksInv
  import M = Space
  import MI = SpaceInv
  import opened Kernel

  /** In every reachable state the used frames from 256 up are exactly the shared code frames and the data
      frames that directories in use map; no frame is mapped twice; odd frames stay free; and there are
      never more than 188 used frames, of the 384 the allocator can reach. */
  lemma FrameOwnership(s: State, ops: seq<Op>)
    requires Inv(s)
    ensures var m, idle := Exec(s, ops).s.m, Exec(s, ops).s.q.idle;
            && (forall f :: NUM_PAG_KERNEL <= f < TOTAL_PAGES ==>
                  (m.phys[f] <==> (f < MI.FIRST_DATA && f % 2 == 0) || MI.Owned(m, idle, f)))
            && (forall d, j, e, i ::
                  (MI.InUse(m, idle, d) && M.IsData(j) && MI.InUse(m, idle, e) && M.IsData(i)
                   && M.Maps(m.pt, d, j) == M.Maps(m.pt, e, i)) ==> d == e && j == i)
            && (forall f :: NUM_PAG_KERNEL <= f < TOTAL_PAGES && f % 2 == 1 ==> !m.phys[f])
            && |MI.UsedFrames(m.phys)| <= NUM_PAG_CODE + (NR_TASKS - 1) * NUM_PAG_DATA == 188
  {
    var m, idle := Exec(s, ops).s.m, Exec(s, ops).s.q.idle;
    hide TI.Inv;
    MI.UsedFramesBound(m, idle);
    MI.UserDirsBound(m, idle);
    MI.SubsetSize(MI.Live(m.dirOf), MI.Range(NR_TASKS));
    assert NUM_PAG_DATA * |MI.UserDirs(m, idle)| <= NUM_PAG_DATA * (NR_TASKS - 1);
    forall f | NUM_PAG_KERNEL <= f < TOTAL_PAGES
      ensures m.phys[f] <==> (f < MI.FIRST_DATA && f % 2 == 0) || MI.Owned(m, idle, f)
      ensures f % 2 == 1 ==> !m.phys[f]
    {
      OwnedUsed(m, idle, f);
    }
  }

  /** The entry of page p in the page table of a user task: pages 1 to 255 are there for the kernel only, each in the
      frame of its own number; programs can read the code pages 256 to 263 but not write them, and read and write the
      data pages 264 to 283; page 0 and everything behind are not there. */
  ghost predicate PageOf(e: M.Entry, p: int) {
    && (e.present <==> 1 <= p < 284)
    && (1 <= p < 284 ==> (e.user <==> 256 <= p) && (e.rw <==> p < 256 || 264 <= p))
    && (1 <= p < 256 ==> e.frame == p)
    && (256 <= p < 264 ==> e.frame == 256 + 2 * (p - 256))
    && (264 <= p < 284 ==> 272 <= e.frame < 1024 && e.frame % 2 == 0)
  }

  ghost predicate TableOf(s: State, t: int)
    requires Inv(s) && User(s, t)
  {
    forall p :: 0 <= p < TOTAL_PAGES ==> PageOf(s.m.pt[s.m.dirOf[t]][p], p)
  }

  /** So it is in every reachable state. */
  lemma PageBits(s: State, ops: seq<Op>, t: int)
    requires Inv(s) && User(Exec(s, ops).s, t)
    ensures TableOf(Exec(s, ops).s, t)
  {
    hide TI.Core, PageOf;
    var r := Exec(s, ops).s;
    forall p | 0 <= p < TOTAL_PAGES ensures PageOf(r.m.pt[r.m.dirOf[t]][p], p) {
      RowBits(r.m, r.q.idle, t, p);
    }
  }

  lemma RowBits(m: M.Space, idle: int, t: int, p: int)
    requires MI.Inv(m, idle) && MI.IsUser(m, idle, t) && 0 <= p < TOTAL_PAGES
    ensures PageOf(m.pt[m.dirOf[t]][p], p)
  {
    hide MI.Disjoint, MI.NoLeak, MI.Usage;
    MI.UserMapped(m, idle, t);
    assert MI.RowOk(m.pt[m.dirOf[t]], true);
    if 264 <= p < 284 {
      assert m.pt[m.dirOf[t]][p].frame == M.Maps(m.pt, m.dirOf[t], p - PAG_DATA);
    }
  }

  lemma OwnedUsed(m: M.Space, idle: int, f: int)
    requires MI.Inv(m, idle) && NUM_PAG_KERNEL <= f < TOTAL_PAGES
    ensures m.phys[f] <==> (f < MI.FIRST_DATA && f % 2 == 0) || MI.Owned(m, idle, f)
    ensures f % 2 == 1 ==> !m.phys[f]
  {
    hide MI.Tables, MI.Usage, MI.Disjoint;
    if MI.Owned(m, idle, f) {
      var d, j :| MI.InUse(m, idle, d) && M.IsData(j) && M.Maps(m.pt, d, j) == f;
      assert MI.FIRST_DATA <= M.Maps(m.pt, d, j);
    }
  }

  /** The frames for which operation `op` calls free_frame: those of the address space whose last task exits, and
      those taken by a fork that runs out of frames. */
  ghost function Freed(s: State, op: Op): seq<int>
    requires Inv(s)
  {
    if !Enabled(s, op) then []
    else if op.Exit? then
      CurrentUser(s);
      if s.m.usage[s.m.dirOf[s.q.cur]] == 1 then MappedFrames(s.m, s.m.dirOf[s.q.cur]) else []
    else if op.Fork? && s.q.free != [] && !M.GetFrames(s.m.phys).ok then M.AllocSome(s.m.phys, NUM_PAG_DATA).v
    else []
  }

  ghost function MappedFrames(m: M.Space, d: int): (v: seq<int>)
    requires M.Shape(m) && M.IsDir(d)
    ensures |v| == NUM_PAG_DATA && forall j :: M.IsData(j) ==> v[j] == M.Maps(m.pt, d, j)
  {
    seq(NUM_PAG_DATA, j requires 0 <= j < NUM_PAG_DATA => M.Maps(m.pt, d, j))
  }

  /** In no run free_frame is called on a kernel or code frame, frame 256 among them: its strict comparison never
      matters.  The frames it is called on were in use. */
  lemma FreedFrames(s: State, ops: seq<Op>, op: Op, i: nat)
    requires Inv(s) && i < |Freed(Exec(s, ops).s, op)|
    ensures var f := Freed(Exec(s, ops).s, op)[i];
            MI.FIRST_DATA <= f < TOTAL_PAGES && f % 2 == 0 && Exec(s, ops).s.m.phys[f]
  {
    FreedFrame(Exec(s, ops).s, op, i);
  }

  lemma FreedFrame(s: State, op: Op, i: nat)
    requires Inv(s) && i < |Freed(s, op)|
    ensures var f := Freed(s, op)[i]; MI.FIRST_DATA <= f < TOTAL_PAGES && f % 2 == 0 && s.m.phys[f]
  {
    hide TI.Places, TI.Pids, TI.SlotTable, TI.Owners, TI.Waits, TI.Drains, TI.Quanta,
         MI.Tables, MI.Disjoint, MI.NoLeak, MI.Usage, M.GetFrames;
    CurrentUser(s);
    MI.UserMapped(s.m, s.q.idle, s.q.cur);
    if op.Fork? {
      ForkGetsFrames(s);
    }
  }

  /** The counter of a directory is the number of live tasks in it. */
  lemma DirectoryCounters(s: State, ops: seq<Op>, d: int)
    requires Inv(s) && M.IsDir(d)
    ensures var r := Exec(s, ops).s;
            r.m.usage[d] == |set t | 0 <= t < NR_TASKS && r.q.at[t] != T.OnFree && r.m.dirOf[t] == d|
  {
    UsersOf(Exec(s, ops).s, d);
  }

  lemma UsersOf(s: State, d: int)
    requires Inv(s) && M.IsDir(d)
    ensures s.m.usage[d] == |set t | 0 <= t < NR_TASKS && s.q.at[t] != T.OnFree && s.m.dirOf[t] == d|
  {
    hide TI.Places, TI.Pids, TI.SlotTable, TI.Owners, TI.Waits, TI.Drains, TI.Quanta, MI.Tables, MI.DataFrames,
         MI.Disjoint, MI.NoLeak;
    assert MI.Users(s.m.dirOf, d) == set t | 0 <= t < NR_TASKS && s.q.at[t] != T.OnFree && s.m.dirOf[t] == d;
  }

  /** sys_fork fails exactly when no control block is free, never for lack of frames or directories; a
      failing fork changes nothing. */
  lemma ForkFailsIff(s: State)
    requires Inv(s) && Enabled(s, Fork)
    ensures Step(s, Fork).reply == T.Value(-ENOMEM) <==> s.q.free == []
    ensures s.q.free == [] ==> Step(s, Fork).s == s
    ensures s.q.free != [] ==> Step(s, Fork).reply == T.Value(s.q.lastPid + 1)
  {
    hide TI.Places, TI.Pids, TI.SlotTable, TI.Owners, TI.Waits, TI.Drains, TI.Quanta, MI.Inv, MI.Forked, T.Spawn,
         M.GetFrames;
    ForkStepKeeps(s);
    if s.q.free != [] {
      ForkGetsFrames(s);
      SpawnReply(s.q);
    }
  }

  lemma ForkGetsFrames(s: State)
    requires Inv(s) && s.q.cur != s.q.idle && s.q.free != []
    ensures M.GetFrames(s.m.phys).ok
  {
    CurrentUser(s);
    hide TI.Places, TI.Pids, TI.SlotTable, TI.Owners, TI.Waits, TI.Drains, TI.Quanta, M.GetFrames;
    MI.NeverExhausted(s.m, s.q.idle, s.q.free[0]);
  }

  lemma SpawnReply(q: T.Queues)
    requires T.Shape(q) && q.free != []
    ensures T.Spawn(q).reply == T.Value(q.lastPid + 1)
  {
  }

  // ---- what user programs read ----

  ghost predicate User(s: State, t: int)
    requires Inv(s)
  {
    MI.IsUser(s.m, s.q.idle, t)
  }

  /** Data page j as task t reads it. */
  ghost function Read(s: State, t: int, j: int): seq<M.Byte>
    requires Inv(s) && User(s, t) && M.IsData(j)
  {
    MI.UserMapped(s.m, s.q.idle, t);
    MI.ReadPage(s.m, t, j)
  }

  /** Operation `op` is a store by a task that shares the address space of t. */
  ghost predicate SharedStore(s: State, op: Op, t: int)
    requires Inv(s) && User(s, t)
  {
    op.Store? && Enabled(s, op) && s.m.dirOf[s.q.cur] == s.m.dirOf[t]
  }

  lemma SameMemory(s: State, op: Op)
    requires Inv(s) && !op.Fork? && !op.Clone? && !op.Exit? && !op.Store?
    ensures Step(s, op).s.m == s.m
  {
  }

  /** Whatever a step does, a task that lives on reads the same bytes afterwards, unless the step is a
      store inside its own address space. */
  lemma StepReads(s: State, op: Op, t: int, j: int)
    requires Inv(s) && Inv(Step(s, op).s) && User(s, t) && User(Step(s, op).s, t) && M.IsData(j)
    requires !SharedStore(s, op, t)
    ensures Step(s, op).s.m.dirOf[t] == s.m.dirOf[t]
    ensures Read(Step(s, op).s, t, j) == Read(s, t, j)
  {
    hide TI.Core, MI.Tables, MI.DataFrames, MI.Disjoint, MI.NoLeak, MI.Usage, MI.IdleAlone, T.SemInit, T.SemWait,
         T.SemSignal, T.SemDestroy, T.Tick, T.Exit, T.Spawn, MI.Forked, M.ExitSpace, M.CloneSpace, M.Store;
    MI.UserMapped(s.m, s.q.idle, t);
    if Enabled(s, op) {
      CurrentUserIf(s, op);
      if op.Fork? {
        ForkReads(s, t, j);
      } else if op.Clone? {
        CloneReads(s, op, t, j);
      } else if op.Exit? {
        ExitReads(s, t, j);
      } else if op.Store? {
        StoreReads(s, op, t, j);
      } else {
        SameMemory(s, op);
      }
    }
  }

  lemma CurrentUserIf(s: State, op: Op)
    requires Inv(s) && Enabled(s, op)
    ensures !op.Tick? ==> User(s, s.q.cur) && M.DataMapped(s.m.pt, s.m.dirOf[s.q.cur])
    ensures !op.Tick? && s.q.free != [] ==> MI.CanFork(s.m, s.q.idle, s.q.cur, s.q.free[0])
  {
    hide TI.Core;
    if !op.Tick? {
      CurrentUser(s);
    }
  }

  lemma StoreReads(s: State, op: Op, t: int, j: int)
    requires Inv(s) && op.Store? && Enabled(s, op) && User(s, t) && M.IsData(j) && !SharedStore(s, op, t)
    requires Inv(Step(s, op).s) && User(Step(s, op).s, t)
    ensures Step(s, op).s.m.dirOf[t] == s.m.dirOf[t] && Read(Step(s, op).s, t, j) == Read(s, t, j)
  {
    hide TI.Places, TI.Pids, TI.SlotTable, TI.Owners, TI.Waits, TI.Drains, TI.Quanta, MI.Tables, MI.DataFrames,
         MI.Disjoint, MI.NoLeak, MI.Usage;
    CurrentUser(s);
    MI.UserMapped(s.m, s.q.idle, t);
    MI.StoreIsolated(s.m, s.q.idle, s.q.cur, op.page, op.off, op.byte, t, j);
  }

  lemma ForkReads(s: State, t: int, j: int)
    requires Inv(s) && Enabled(s, Fork) && User(s, t) && M.IsData(j) && Inv(Step(s, Fork).s) && User(Step(s, Fork).s, t)
    ensures Step(s, Fork).s.m.dirOf[t] == s.m.dirOf[t] && Read(Step(s, Fork).s, t, j) == Read(s, t, j)
  {
    hide TI.Core;
    if s.q.free != [] {
      CurrentUser(s);
      var c := s.q.free[0];
      MI.NeverExhausted(s.m, s.q.idle, c);
      MI.ReadSame(s.m, s.q.idle, s.q.cur, c, t, j);
    }
  }

  lemma CloneReads(s: State, op: Op, t: int, j: int)
    requires Inv(s) && op.Clone? && Enabled(s, op) && User(s, t) && M.IsData(j)
    requires Inv(Step(s, op).s) && User(Step(s, op).s, t)
    ensures Step(s, op).s.m.dirOf[t] == s.m.dirOf[t] && Read(Step(s, op).s, t, j) == Read(s, t, j)
  {
    hide TI.Core;
    CurrentUser(s);
  }

  lemma ExitReads(s: State, t: int, j: int)
    requires Inv(s) && Enabled(s, Exit) && User(s, t) && M.IsData(j) && Inv(Step(s, Exit).s) && User(Step(s, Exit).s, t)
    ensures Step(s, Exit).s.m.dirOf[t] == s.m.dirOf[t] && Read(Step(s, Exit).s, t, j) == Read(s, t, j)
  {
    hide TI.Core, T.Exit;
    CurrentUser(s);
    ExitMaps(s.m, s.q.idle, s.q.cur, t, j);
  }

  lemma ExitMaps(m: M.Space, idle: int, c: int, t: int, j: int)
    requires MI.Inv(m, idle) && MI.IsUser(m, idle, c) && MI.IsUser(m, idle, t) && t != c && M.IsData(j)
    ensures var m' := M.ExitSpace(m, c);
            m'.dirOf[t] == m.dirOf[t] && m'.ram == m.ram && M.Maps(m'.pt, m.dirOf[t], j) == M.Maps(m.pt, m.dirOf[t], j)
  {
    MI.UsageLeave(m, M.ExitSpace(m, c), c);
  }

  /** No operation of the run is a store into the address space of t, and t lives all the time. */
  ghost predicate LeftAlone(s: State, ops: seq<Op>, t: int)
    requires Inv(s)
    decreases |ops|
  {
    && User(s, t)
    && if ops == [] then true
       else
         StepKeeps(s, ops[0]);
         !SharedStore(s, ops[0], t) && LeftAlone(Step(s, ops[0]).s, ops[1..], t)
  }

  /** Isolation: as long as nobody in its address space stores, a task reads the same bytes, whatever
      forks, exits and stores of other address spaces happen. */
  lemma {:induction false} Isolation(s: State, ops: seq<Op>, t: int, j: int)
    requires Inv(s) && LeftAlone(s, ops, t) && M.IsData(j)
    ensures User(Exec(s, ops).s, t) && Read(Exec(s, ops).s, t, j) == Read(s, t, j)
    decreases |ops|
  {
    hide TI.Core, MI.Inv, Read, Step, User, SharedStore;
    if ops != [] {
      StepKeeps(s, ops[0]);
      LeftAloneNow(Step(s, ops[0]).s, ops[1..], t);
      StepReads(s, ops[0], t, j);
      Isolation(Step(s, ops[0]).s, ops[1..], t, j);
    }
  }

  lemma LeftAloneNow(s: State, ops: seq<Op>, t: int)
    requires Inv(s) && LeftAlone(s, ops, t)
    ensures User(s, t)
  {
  }

  /** After a fork the child reads what its parent read when it called, until somebody stores in the
      child's address space. */
  lemma ForkThenRun(s: State, ops: seq<Op>, j: int)
    requires Inv(s) && Enabled(s, Fork) && s.q.free != [] && M.IsData(j)
    requires Inv(Step(s, Fork).s) && LeftAlone(Step(s, Fork).s, ops, s.q.free[0])
    ensures User(s, s.q.cur) && User(Exec(Step(s, Fork).s, ops).s, s.q.free[0])
    ensures Read(Exec(Step(s, Fork).s, ops).s, s.q.free[0], j) == Read(s, s.q.cur, j)
  {
    var c := s.q.free[0];
    CurrentUserIf(s, Fork);
    MI.NeverExhausted(s.m, s.q.idle, c);
    MI.ForkSnapshot(s.m, s.q.idle, s.q.cur, c, j);
    hide TI.Core, MI.Inv;
    LeftAloneNow(Step(s, Fork).s, ops, c);
    Isolation(Step(s, Fork).s, ops, c, j);
  }
}
