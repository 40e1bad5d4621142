/** Tasks, queues and semaphores (sched.c, sem.c and the queue part of sys.c) as pure step functions.
    Every function follows one C function, branch by branch, on sequences instead of intrusive
    lists; the class in Processes.dfy carries the steps out on the real arrays and is proved equal to them. */
module Tasks {
  import opened Config

  /** The control block of a task.  `wait` is the part of the saved kernel stack that matters when the
      task runs again: the semaphore slot whose sem_wait it has to finish, or -1. */
  datatype Pcb = Pcb(pid: int, quantum: int, wait: int)

  datatype Slot = Slot(id: int, count: int, owner: int, used: int)

  /** Where a control block is.  `Aside` is the idle task while another task runs. */
  datatype Place = OnFree | OnCpu | Aside | OnReady | OnSem(slot: int)

  datatype Queues = Queues(
    pcb: seq<Pcb>, at: seq<Place>,
    free: seq<int>, ready: seq<int>,
    slots: seq<Slot>, blocked: seq<seq<int>>,
    cur: int, idle: int, left: int, lastPid: int)

  /** What a step does that somebody can observe.  `Arrive` and `Dispatch` concern the ready queue,
      `Sleep` is a switch to the idle task, the others concern semaphore slot `k`. */
  datatype Event =
    | Arrive(task: int)
    | Dispatch(task: int)
    | Sleep
    | Init(k: int, value: int)
    | Take(k: int, task: int)
    | Block(k: int, task: int)
    | Wake(k: int, task: int, caller: int)
    | Post(k: int, caller: int)
    | Destroy(k: int)
    | Resume(k: int, task: int, res: int)

  /** What the caller of a system call gets: a value, or nothing because another task runs. */
  datatype Reply = Value(v: int) | Switched

  datatype Outcome = Outcome(q: Queues, reply: Reply, ev: seq<Event>)

  ghost predicate IsTask(t: int) { 0 <= t < NR_TASKS }

  ghost predicate IsSlot(k: int) { 0 <= k < N_SEMAFORS }

  ghost predicate AreTasks(s: seq<int>) {
    forall i :: 0 <= i < |s| ==> IsTask(s[i])
  }

  /** All indices are in range: what the step functions need to be defined. */
  ghost predicate Shape(q: Queues) {
    && |q.pcb| == |q.at| == NR_TASKS
    && |q.slots| == |q.blocked| == N_SEMAFORS
    && AreTasks(q.free) && AreTasks(q.ready)
    && (forall k :: IsSlot(k) ==> AreTasks(q.blocked[k]))
    && IsTask(q.cur) && IsTask(q.idle)
    && (forall t :: IsTask(t) ==> -1 <= q.pcb[t].wait < N_SEMAFORS)
  }

  // ---- sched.c ----

  /** update_process_state_rr(current(), &readyqueue) for a task that is on no list */
  ghost function Yield(q: Queues): Outcome
    requires Shape(q)
  {
    if q.cur == q.idle then Outcome(q.(at := q.at[q.cur := Aside]), Switched, [])
    else Outcome(q.(at := q.at[q.cur := OnReady], ready := q.ready + [q.cur]), Switched, [Arrive(q.cur)])
  }

  /** The rest of sem_wait after the switch back to a task that was blocked in it: sem.c:75-79. */
  ghost function Finish(q: Queues, t: int): Outcome
    requires Shape(q) && IsTask(t)
  {
    var k := q.pcb[t].wait;
    if k < 0 then Outcome(q, Switched, [])
    else
      var q1 := q.(pcb := q.pcb[t := q.pcb[t].(wait := -1)]);
      if q.slots[k].used < 0 then
        Outcome(q1.(slots := q.slots[k := q.slots[k].(used := q.slots[k].used + 1)]), Switched, [Resume(k, t, -2)])
      else Outcome(q1, Switched, [Resume(k, t, 0)])
  }

  /** sched_next_rr: the head of the ready queue gets the processor, or the idle task does. */
  ghost function SchedNext(q: Queues): Outcome
    requires Shape(q)
  {
    if q.ready == [] then
      Outcome(q.(at := q.at[q.idle := OnCpu], cur := q.idle, left := q.pcb[q.idle].quantum), Switched, [Sleep])
    else
      var t := q.ready[0];
      var q1 := q.(ready := q.ready[1..], at := q.at[t := OnCpu], cur := t, left := q.pcb[t].quantum);
      var r := Finish(q1, t);
      Outcome(r.q, Switched, [Dispatch(t)] + r.ev)
  }

  /** Two steps in a row. */
  ghost function Then(a: Outcome, b: Outcome): Outcome {
    Outcome(b.q, b.reply, a.ev + b.ev)
  }

  /** scheduling(), called by the clock handler */
  ghost function Tick(q: Queues): Outcome
    requires Shape(q)
  {
    var q1 := q.(left := q.left - 1);
    if q1.left == 0 || q.cur == q.idle then
      if q.cur == q.idle && q.ready == [] then Outcome(q.(left := q.pcb[q.cur].quantum), Switched, [])
      else Then(Yield(q1), SchedNext(Yield(q1).q))
    else Outcome(q1, Switched, [])
  }

  // ---- sem.c ----

  /** get_semafor: the first slot from `i` on whose id is `id`, or -1 */
  ghost function FindId(slots: seq<Slot>, id: int, i: nat): (k: int)
    requires i <= |slots|
    ensures k == -1 || (i <= k < |slots| && slots[k].id == id)
    ensures k == -1 ==> forall j :: i <= j < |slots| ==> slots[j].id != id
    decreases |slots| - i
  {
    if i == |slots| then -1 else if slots[i].id == id then i else FindId(slots, id, i + 1)
  }

  /** get_free_semafor: the first slot from `i` on with used == 0, or -1 */
  ghost function FindFree(slots: seq<Slot>, i: nat): (k: int)
    requires i <= |slots|
    ensures k == -1 || (i <= k < |slots| && slots[k].used == 0)
    ensures forall j :: i <= j < (if k == -1 then |slots| else k) ==> slots[j].used != 0
    decreases |slots| - i
  {
    if i == |slots| then -1 else if slots[i].used == 0 then i else FindFree(slots, i + 1)
  }

  ghost function SemInit(q: Queues, id: int, value: int): Outcome
    requires Shape(q)
  {
    if FindId(q.slots, id, 0) >= 0 then Outcome(q, Value(-EINVAL), [])
    else
      var f := FindFree(q.slots, 0);
      if f < 0 then Outcome(q, Value(-2), [])
      else
        Outcome(q.(slots := q.slots[f := Slot(id, value, q.pcb[q.cur].pid, 1)], blocked := q.blocked[f := []]),
                Value(0), [Init(f, value)])
  }

  /** sem_wait's else branch up to the switch: the caller queues itself on slot `k`. */
  ghost function BlockOn(q: Queues, k: int): Outcome
    requires Shape(q) && IsSlot(k)
  {
    Outcome(q.(at := q.at[q.cur := OnSem(k)],
               pcb := q.pcb[q.cur := q.pcb[q.cur].(wait := k)],
               blocked := q.blocked[k := q.blocked[k] + [q.cur]]),
            Switched, [Block(k, q.cur)])
  }

  ghost function SemWait(q: Queues, id: int): Outcome
    requires Shape(q)
  {
    var k := FindId(q.slots, id, 0);
    if k < 0 then Outcome(q, Value(-EINVAL), [])
    else if q.slots[k].used <= 0 then Outcome(q, Value(-EINVAL), [])
    else if q.slots[k].count > 0 then
      Outcome(q.(slots := q.slots[k := q.slots[k].(count := q.slots[k].count - 1)]), Value(-1), [Take(k, q.cur)])
    else
      BlockShape(q, k);
      Then(BlockOn(q, k), SchedNext(BlockOn(q, k).q))
  }

  ghost function SemSignal(q: Queues, id: int): Outcome
    requires Shape(q)
  {
    var k := FindId(q.slots, id, 0);
    if k < 0 then Outcome(q, Value(-EINVAL), [])
    else if q.slots[k].used <= 0 then Outcome(q, Value(-EINVAL), [])
    else if q.blocked[k] == [] then
      // count is an unsigned int
      Outcome(q.(slots := q.slots[k := q.slots[k].(count := (q.slots[k].count + 1) % UINT_MOD)]),
              Value(0), [Post(k, q.cur)])
    else
      var p := q.blocked[k][0];
      Outcome(q.(blocked := q.blocked[k := q.blocked[k][1..]], ready := q.ready + [p], at := q.at[p := OnReady]),
              Value(0), [Wake(k, p, q.cur), Arrive(p)])
  }

  ghost function Arrivals(s: seq<int>): (ev: seq<Event>)
    ensures |ev| == |s|
  {
    seq(|s|, i requires 0 <= i < |s| => Arrive(s[i]))
  }

  ghost function SetReady(at: seq<Place>, s: seq<int>): (at': seq<Place>)
    ensures |at'| == |at|
    ensures forall t :: 0 <= t < |at| ==> at'[t] == if t in s then OnReady else at[t]
  {
    seq(|at|, t requires 0 <= t < |at| => if t in s then OnReady else at[t])
  }

  /** internal_sem_destroy after its two tests: the slot is drained, all waiters become ready. */
  ghost function Drain(q: Queues, k: int): Outcome
    requires Shape(q) && IsSlot(k)
  {
    var b := q.blocked[k];
    Outcome(q.(slots := q.slots[k := q.slots[k].(id := DEAD, used := -|b|)],
               blocked := q.blocked[k := []], ready := q.ready + b, at := SetReady(q.at, b)),
            Value(0), [Destroy(k)] + Arrivals(b))
  }

  ghost function InternalDestroy(q: Queues, k: int): Outcome
    requires Shape(q) && IsSlot(k)
  {
    if q.slots[k].used <= 0 then Outcome(q, Value(-EINVAL), [])
    else if q.slots[k].owner != q.pcb[q.cur].pid then Outcome(q, Value(-EINVAL), [])
    else Drain(q, k)
  }

  ghost function SemDestroy(q: Queues, id: int): Outcome
    requires Shape(q)
  {
    var k := FindId(q.slots, id, 0);
    if k < 0 then Outcome(q, Value(-EINVAL), []) else InternalDestroy(q, k)
  }

  /** destroy_owned_sems(pid), from slot `i` on */
  ghost function DestroyOwned(q: Queues, pid: int, i: nat): (r: Outcome)
    requires Shape(q) && i <= N_SEMAFORS
    ensures Shape(r.q)
    decreases N_SEMAFORS - i
  {
    if i == N_SEMAFORS then Outcome(q, Switched, [])
    else if q.slots[i].used > 0 && q.slots[i].owner == pid then
      DrainShape(q, i);
      var r := InternalDestroy(q, i);
      Then(r, DestroyOwned(r.q, pid, i + 1))
    else DestroyOwned(q, pid, i + 1)
  }

  // ---- sys.c ----

  /** What sys_fork and sys_clone do to the queues: the first free control block becomes a copy of
      the current one, with the next pid, and joins the ready queue. */
  ghost function Spawn(q: Queues): Outcome
    requires Shape(q) && q.free != []
  {
    var c := q.free[0];
    var pid := q.lastPid + 1;
    Outcome(q.(free := q.free[1..], lastPid := pid, pcb := q.pcb[c := Pcb(pid, q.pcb[q.cur].quantum, -1)],
               at := q.at[c := OnReady], ready := q.ready + [c]),
            Value(pid), [Arrive(c)])
  }

  /** The end of sys_exit: the control block goes to the tail of the free queue. */
  ghost function Bury(q: Queues): Outcome
    requires Shape(q)
  {
    Outcome(q.(pcb := q.pcb[q.cur := q.pcb[q.cur].(pid := -1)], at := q.at[q.cur := OnFree], free := q.free + [q.cur]),
            Switched, [])
  }

  /** sys_exit without its memory part */
  ghost function Exit(q: Queues): Outcome
    requires Shape(q)
  {
    var a := DestroyOwned(q, q.pcb[q.cur].pid, 0);
    var b := Bury(a.q);
    Then(Then(a, b), SchedNext(b.q))
  }

  lemma BlockShape(q: Queues, k: int)
    requires Shape(q) && IsSlot(k)
    ensures Shape(BlockOn(q, k).q)
  {
  }

  lemma DrainShape(q: Queues, k: int)
    requires Shape(q) && IsSlot(k)
    ensures Shape(InternalDestroy(q, k).q)
  {
  }
}
