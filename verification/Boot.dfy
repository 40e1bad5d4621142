/** The state that init_mm, init_sched, init_idle and init_task1 leave behind. */
module Boot {
  import opened Config
  import T = Tasks
  import TI = TasksInv
  import M = Space
  import MI = SpaceInv
  import K = Kernel

  /** The tasks were pushed on the free queue in index order, so the last one is the idle task and the
      last but one the initial process. */
  const IDLE: int := NR_TASKS - 1
  const INIT: int := NR_TASKS - 2

  function Pcb(t: int): T.Pcb {
    if t == IDLE then T.Pcb(0, DEFAULT_QUANTUM, -1)
    else if t == INIT then T.Pcb(1, DEFAULT_QUANTUM, -1)
    else T.Pcb(-1, 0, -1)
  }

  const NO_SLOT := T.Slot(DEAD, DEAD, DEAD, 0)

  /** n - 1, n - 2, ..., 0 */
  ghost function Down(n: nat): (s: seq<int>)
    ensures |s| == n && forall i :: 0 <= i < n ==> s[i] == n - 1 - i
  {
    seq(n, i => n - 1 - i)
  }

  ghost function Queues(): (q: T.Queues)
    ensures T.Shape(q)
  {
    T.Queues(
      seq(NR_TASKS, t => Pcb(t)),
      seq(NR_TASKS, t => if t == IDLE then T.Aside else if t == INIT then T.OnCpu else T.OnFree),
      Down(INIT), [],
      seq(N_SEMAFORS, _ => NO_SLOT), seq(N_SEMAFORS, _ => []),
      INIT, IDLE, DEFAULT_QUANTUM, 2)
  }

  ghost function Phys(f: int): bool {
    f < NUM_PAG_KERNEL || (f < MI.CodeFrame(PAG_END) && f % 2 == 0)
  }

  /** Directory 0 belongs to the idle task, directory 1 to the initial process. */
  ghost function Entry(d: int, p: int): M.Entry {
    if p < PAG_CODE then M.KernelEntry(p)
    else if d == 1 && p < PAG_DATA then M.CodeEntry(MI.CodeFrame(p))
    else if d == 1 && p < PAG_END then M.DataEntry(MI.CodeFrame(p))
    else M.Absent
  }

  ghost function Row(d: int): (row: seq<M.Entry>)
    ensures |row| == TOTAL_PAGES && forall p :: 0 <= p < TOTAL_PAGES ==> row[p] == Entry(d, p)
  {
    seq(TOTAL_PAGES, p => Entry(d, p))
  }

  ghost function Memory(ram: seq<M.Byte>): (m: M.Space)
    requires |ram| == TOTAL_PAGES * PAGE_SIZE
    ensures M.Shape(m)
  {
    M.Space(
      seq(NR_TASKS, t => if t == IDLE then 0 else if t == INIT then 1 else -1),
      seq(NR_TASKS, d => if d <= 1 then 1 else 0),
      seq(TOTAL_PAGES, f => Phys(f)),
      seq(NR_TASKS, d => Row(d)),
      ram)
  }

  ghost function State(ram: seq<M.Byte>): K.State
    requires |ram| == TOTAL_PAGES * PAGE_SIZE
  {
    K.State(Queues(), Memory(ram))
  }

  lemma QueuesInv()
    ensures TI.Inv(Queues())
  {
    hide TI.Places, TI.Pids, TI.SlotTable, TI.Owners, TI.Waits, TI.Drains, TI.Quanta;
    QueuesPlaces();
    QueuesRecords();
  }

  lemma QueuesPlaces()
    ensures TI.Places(Queues())
  {
    hide TI.Queue;
    var q := Queues();
    FreeQueue();
    forall k | T.IsSlot(k) ensures TI.Queue(q.blocked[k], q.at, T.OnSem(k)) {
      EmptyQueue(q.at, T.OnSem(k));
    }
    EmptyQueue(q.at, T.OnReady);
  }

  lemma FreeQueue()
    ensures TI.Queue(Queues().free, Queues().at, T.OnFree)
  {
    var q := Queues();
    forall t | T.IsTask(t) ensures t in q.free <==> q.at[t] == T.OnFree {
      if t < INIT {
        assert q.free[INIT - 1 - t] == t;
      }
    }
  }

  lemma EmptyQueue(at: seq<T.Place>, place: T.Place)
    requires |at| == NR_TASKS && forall t :: T.IsTask(t) ==> at[t] != place
    ensures TI.Queue([], at, place)
  {
  }

  lemma QueuesRecords()
    ensures var q := Queues();
            TI.Pids(q) && TI.SlotTable(q) && TI.Owners(q) && TI.Waits(q) && TI.Drains(q) && TI.Quanta(q)
  {
    hide TI.Pending;
  }

  lemma MemoryInv(ram: seq<M.Byte>)
    requires |ram| == TOTAL_PAGES * PAGE_SIZE
    ensures MI.Inv(Memory(ram), IDLE)
  {
    var m := Memory(ram);
    MemoryUsage(m);
    forall d | M.IsDir(d) ensures MI.InUse(m, IDLE, d) <==> d == 1 {}
    forall f | MI.FIRST_DATA <= f < TOTAL_PAGES && m.phys[f] ensures MI.Owned(m, IDLE, f) {
      var j := (f - MI.FIRST_DATA) / 2;
      assert MI.InUse(m, IDLE, 1) && M.IsData(j) && M.Maps(m.pt, 1, j) == f;
    }
  }

  lemma MemoryUsage(m: M.Space)
    requires M.Shape(m)
    requires forall t :: 0 <= t < NR_TASKS ==> m.dirOf[t] == if t == IDLE then 0 else if t == INIT then 1 else -1
    requires forall d :: 0 <= d < NR_TASKS ==> m.usage[d] == if d <= 1 then 1 else 0
    ensures MI.Usage(m)
  {
    forall d | M.IsDir(d) ensures m.usage[d] == |MI.Users(m.dirOf, d)| {
      assert MI.Users(m.dirOf, d) == if d == 0 then {IDLE} else if d == 1 then {INIT} else {};
    }
  }

  /** The invariant holds when the first process starts. */
  lemma BootInv(ram: seq<M.Byte>)
    requires |ram| == TOTAL_PAGES * PAGE_SIZE
    ensures K.Inv(State(ram))
  {
    QueuesInv();
    MemoryInv(ram);
  }

  /** The kernel when the first process starts: task 9 is the idle task with pid 0, task 8 runs with pid 1 and a full
      quantum, the others are free from 7 down to 0, and no semaphore is in use.  The counter of pids stands at 2, so
      the first child gets 3.  Each of the two has a directory of its own. */
  lemma BootLaw(ram: seq<M.Byte>)
    requires |ram| == TOTAL_PAGES * PAGE_SIZE
    ensures var q, m := State(ram).q, State(ram).m;
            && T.Shape(q) && M.Shape(m)
            && q.idle == 9 && q.pcb[9].pid == 0 && q.cur == 8 && q.pcb[8].pid == 1 && q.left == 30 && q.lastPid == 2
            && q.free == [7, 6, 5, 4, 3, 2, 1, 0] && q.ready == []
            && (forall k :: T.IsSlot(k) ==> q.slots[k].used == 0 && q.slots[k].id == 0xDEAD && q.blocked[k] == [])
            && (forall t :: T.IsTask(t) ==> m.dirOf[t] == if t == 9 then 0 else if t == 8 then 1 else -1)
            && (forall d :: M.IsDir(d) ==> m.usage[d] == if d < 2 then 1 else 0)
            && (forall f :: M.IsFrame(f) ==> (m.phys[f] <==> f < 256 || (f < 312 && f % 2 == 0)))
            && (forall j :: M.IsData(j) ==> M.Maps(m.pt, 1, j) == 272 + 2 * j)
            && m.ram == ram
  {
  }
}
