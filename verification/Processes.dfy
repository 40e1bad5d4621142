/** sched.c and sem.c on their real data: the table of control blocks, the semaphore table and the
    intrusive lists.  `q` is the abstract value; every method is proved equal to its step function in Tasks. */
module Processes {
  import opened Config
  import opened Lists
  import T = Tasks
  import TI = TasksInv
  import Boot

  // The nodes: one anchor for each control block, then freequeue, readyqueue and the head of each semaphore.
  const FREE: int := NR_TASKS
  const READY: int := NR_TASKS + 1
  const NODES: int := NR_TASKS + 2 + N_SEMAFORS

  function Sem(k: int): int { NR_TASKS + 2 + k }

  /** Which list is the value of which head.  The head of a semaphore that never was initialised is no list. */
  ghost predicate Heads(lists: map<int, seq<int>>, q: T.Queues)
    requires T.Shape(q)
  {
    && FREE in lists && lists[FREE] == q.free
    && READY in lists && lists[READY] == q.ready
    && (forall k :: T.IsSlot(k) && q.slots[k].used > 0 ==> Sem(k) in lists)
    && (forall k :: T.IsSlot(k) && Sem(k) in lists ==> lists[Sem(k)] == q.blocked[k])
    && (forall h :: h in lists ==> h == FREE || h == READY || T.IsSlot(h - Sem(0)))
  }

  /** A task that is on the processor, or set aside, is on no list. */
  lemma OffLists(lists: map<int, seq<int>>, q: T.Queues, t: int)
    requires T.Shape(q) && TI.Places(q) && Heads(lists, q) && T.IsTask(t)
    requires q.at[t] == T.OnCpu || q.at[t] == T.Aside
    ensures !On(lists, t)
  {
    forall h | h in lists ensures t !in lists[h] {
      var k := h - Sem(0);
      if T.IsSlot(k) {
        assert h == Sem(k) && TI.Queue(q.blocked[k], q.at, T.OnSem(k));
      }
    }
  }

  lemma NullLinks(next: seq<int>, prev: seq<int>, anchors: int, lists: map<int, seq<int>>, x: int)
    requires Linked(next, prev, anchors, lists) && 0 <= x < anchors
    ensures x < |next| == |prev|
    ensures !On(lists, x) <==> next[x] == NULL
    ensures !On(lists, x) ==> prev[x] == NULL
  {
    if On(lists, x) {
      var h :| h in lists && x in lists[h];
      var i :| 0 <= i < |lists[h]| && lists[h][i] == x;
      RingAt(next, prev, h, lists[h], i);
    }
  }

  /** The head of a list, its first node and the node after that. */
  lemma FirstTwo(next: seq<int>, prev: seq<int>, anchors: int, lists: map<int, seq<int>>, h: int)
    requires Linked(next, prev, anchors, lists) && h in lists
    ensures 0 <= h < |next| && 0 <= next[h] < |next| && next[h] == At(h, lists[h], 0)
    ensures lists[h] != [] ==> next[h] != h && next[next[h]] == At(h, lists[h], 1) && next[h] < anchors
    ensures lists[h] == [] ==> next[h] == h
  {
    RingAt(next, prev, h, lists[h], -1);
    if lists[h] != [] {
      RingAt(next, prev, h, lists[h], 0);
    }
  }

  lemma DownFirst()
    ensures Boot.Down(NR_TASKS)[0] == Boot.IDLE && Boot.Down(NR_TASKS)[1..][0] == Boot.INIT
  {
  }

  lemma BootHeads(lists: map<int, seq<int>>)
    requires lists == map[FREE := Boot.Down(NR_TASKS)[1..][1..], READY := []]
    ensures Heads(lists, Boot.Queues())
  {
    assert Boot.Down(NR_TASKS)[1..][1..] == Boot.Down(Boot.INIT);
  }

  lemma BootTables(table: seq<T.Pcb>, tasks: seq<T.Pcb>, sems: seq<T.Slot>)
    requires |table| == NR_TASKS && forall t :: 0 <= t < NR_TASKS ==> table[t] == T.Pcb(-1, 0, -1)
    requires tasks == table[Boot.IDLE := T.Pcb(0, DEFAULT_QUANTUM, -1)][Boot.INIT := T.Pcb(1, DEFAULT_QUANTUM, -1)]
    requires |sems| == N_SEMAFORS && forall k :: 0 <= k < N_SEMAFORS ==> sems[k] == Boot.NO_SLOT
    ensures tasks == Boot.Queues().pcb && sems == Boot.Queues().slots
    ensures Boot.Queues().cur == Boot.INIT && Boot.Queues().idle == Boot.IDLE
    ensures Boot.Queues().left == DEFAULT_QUANTUM && Boot.Queues().lastPid == 2
  {
  }

  /** init_sched can push block n: it is on no list yet. */
  lemma PushNext(n: nat)
    ensures !On(map[FREE := Boot.Down(n), READY := []], n)
    ensures [n] + Boot.Down(n) == Boot.Down(n + 1)
  {
  }

  lemma RemoveFirst(s: seq<int>)
    requires s != []
    ensures Remove(s, 0) == s[1..]
  {
  }

  class Processes {
    const links: Links
    const tasks: array<T.Pcb>
    const sems: array<T.Slot>
    var cur: int
    var idle: int
    var left: int
    var lastPid: int
    ghost var q: T.Queues

    ghost predicate Rep()
      reads this, links, links.next, links.prev, tasks, sems
    {
      && links.Valid() && links.anchors == NR_TASKS && links.next.Length == NODES
      && T.Shape(q) && tasks[..] == q.pcb && sems[..] == q.slots
      && cur == q.cur && idle == q.idle && left == q.left && lastPid == q.lastPid
      && Heads(links.lists, q)
    }

    constructor ()
      ensures Rep() && q == Boot.Queues()
      ensures fresh(links) && fresh(links.next) && fresh(links.prev) && fresh(tasks) && fresh(sems)
    {
      links := new Links(NR_TASKS, NODES);
      tasks := new T.Pcb[NR_TASKS](_ => T.Pcb(0, 0, -1));
      sems := new T.Slot[N_SEMAFORS](_ => T.Slot(0, 0, 0, 0));
      cur := 0;
      idle := 0;
      left := 0;
      lastPid := 0;
      q := Boot.Queues();
      new;
      Start();
    }

    method Start()
      requires links.Valid() && links.anchors == NR_TASKS && links.next.Length == NODES && links.lists == map[]
      requires tasks.Length == NR_TASKS && sems.Length == N_SEMAFORS && lastPid == 0
      requires forall t :: 0 <= t < NR_TASKS ==> tasks[t] == T.Pcb(0, 0, -1)
      modifies this, links, links.next, links.prev, tasks, sems
      ensures Rep() && q == Boot.Queues()
    {
      hide Linked, Heads, Boot.Queues, Boot.Down, T.Shape;
      InitSched();
      ghost var table := tasks[..];
      DownFirst();
      InitIdle();
      InitTask1();
      BootHeads(links.lists);
      BootTables(table, tasks[..], sems[..]);
      q := Boot.Queues();
    }

    /** init_sched: all control blocks go to the free queue, each at its front. */
    method InitSched()
      requires links.Valid() && links.anchors == NR_TASKS && links.next.Length == NODES && links.lists == map[]
      requires tasks.Length == NR_TASKS && sems.Length == N_SEMAFORS
      requires forall t :: 0 <= t < NR_TASKS ==> tasks[t] == T.Pcb(0, 0, -1)
      modifies links, links.next, links.prev, tasks, sems
      ensures links.Valid() && links.lists == map[FREE := Boot.Down(NR_TASKS), READY := []]
      ensures forall t :: 0 <= t < NR_TASKS ==> tasks[t] == T.Pcb(-1, 0, -1)
      ensures forall k :: 0 <= k < N_SEMAFORS ==> sems[k] == Boot.NO_SLOT
    {
      hide Linked, On;
      links.InitListHead(FREE);
      links.InitListHead(READY);
      assert Boot.Down(0) == [];
      var i := 0;
      while i < NR_TASKS
        invariant 0 <= i <= NR_TASKS && links.Valid()
        invariant links.lists == map[FREE := Boot.Down(i), READY := []]
        invariant forall t :: 0 <= t < NR_TASKS ==> tasks[t] == T.Pcb(if t < i then -1 else 0, 0, -1)
      {
        tasks[i] := tasks[i].(pid := -1);
        PushNext(i);
        links.ListAdd(i, FREE);
        i := i + 1;
      }
      InitializeSem();
    }

    /** initialize_sem */
    method InitializeSem()
      requires sems.Length == N_SEMAFORS
      modifies sems
      ensures forall k :: 0 <= k < N_SEMAFORS ==> sems[k] == Boot.NO_SLOT
    {
      var i := 0;
      while i < N_SEMAFORS
        invariant 0 <= i <= N_SEMAFORS
        invariant forall k :: 0 <= k < i ==> sems[k] == Boot.NO_SLOT
      {
        sems[i] := T.Slot(DEAD, DEAD, DEAD, 0);
        i := i + 1;
      }
    }

    /** init_idle: the first free block becomes the idle task. */
    method InitIdle()
      requires links.Valid() && links.anchors == NR_TASKS && FREE in links.lists && links.lists[FREE] != []
      requires tasks.Length == NR_TASKS
      modifies this, links, links.next, links.prev, tasks
      ensures links.Valid() && links.lists == old(links.lists)[FREE := old(links.lists)[FREE][1..]]
      ensures idle == old(links.lists)[FREE][0] && lastPid == old(lastPid) + 1
      ensures 0 <= idle < NR_TASKS
      ensures tasks[..] == old(tasks[..])[idle := T.Pcb(old(lastPid), DEFAULT_QUANTUM, old(tasks[..])[idle].wait)]
      ensures cur == old(cur) && left == old(left) && q == old(q)
    {
      var l := links.First(FREE);
      RemoveFirst(links.lists[FREE]);
      links.ListDel(l, FREE, 0);
      tasks[l] := tasks[l].(pid := lastPid);
      lastPid := lastPid + 1;
      idle := l;
      tasks[l] := tasks[l].(quantum := DEFAULT_QUANTUM);
    }

    /** init_task1: the next free block becomes the initial process, which starts to run. */
    method InitTask1()
      requires links.Valid() && links.anchors == NR_TASKS && FREE in links.lists && links.lists[FREE] != []
      requires tasks.Length == NR_TASKS
      modifies this, links, links.next, links.prev, tasks
      ensures links.Valid() && links.lists == old(links.lists)[FREE := old(links.lists)[FREE][1..]]
      ensures cur == old(links.lists)[FREE][0] && lastPid == old(lastPid) + 1 && left == DEFAULT_QUANTUM
      ensures 0 <= cur < NR_TASKS
      ensures tasks[..] == old(tasks[..])[cur := T.Pcb(old(lastPid), DEFAULT_QUANTUM, old(tasks[..])[cur].wait)]
      ensures idle == old(idle) && q == old(q)
    {
      var l := links.First(FREE);
      RemoveFirst(links.lists[FREE]);
      links.ListDel(l, FREE, 0);
      tasks[l] := tasks[l].(pid := lastPid);
      lastPid := lastPid + 1;
      tasks[l] := tasks[l].(quantum := DEFAULT_QUANTUM);
      left := tasks[l].quantum;
      cur := l;
    }

    /** update_process_state_rr.  `h` and `i` say where t is queued, if it is. */
    method UpdateProcessState(t: int, dst: int, ghost h: int, ghost i: int)
      requires links.Valid() && dst in links.lists && 0 <= t < links.anchors
      requires On(links.lists, t) ==> h in links.lists && 0 <= i < |links.lists[h]| && links.lists[h][i] == t
      modifies links, links.next, links.prev
      ensures links.Valid()
      ensures var cut := if On(old(links.lists), t) then old(links.lists)[h := Remove(old(links.lists)[h], i)]
              else old(links.lists);
              links.lists == if t == idle then cut else cut[dst := cut[dst] + [t]]
    {
      hide Linked, AllRings, Split, Separate, NullAnchors, Remove;
      NullLinks(links.next[..], links.prev[..], links.anchors, links.lists, t);
      if links.next[t] != NULL {
        links.ListDel(t, h, i);
      }
      if t != idle {
        links.ListAddTail(t, dst);
      }
    }

    /** sem.c:75-79: task t runs again and finishes the sem_wait it was blocked in, if any; `res` is what
        that sem_wait returns. */
    method Resume(t: int) returns (res: int)
      requires Rep() && T.IsTask(t)
      modifies this, tasks, sems
      ensures Rep() && q == T.Finish(old(q), t).q
      ensures var k := old(tasks[t].wait); k >= 0 ==> T.Finish(old(q), t).ev == [T.Resume(k, t, res)]
      ensures Answers(T.Finish(old(q), t).ev, res)
    {
      var k := tasks[t].wait;
      res := 0;
      ghost var q1 := T.Finish(q, t).q;
      if k >= 0 {
        tasks[t] := tasks[t].(wait := -1);
        if sems[k].used < 0 {
          sems[k] := sems[k].(used := sems[k].used + 1);
          res := -2;
        }
      }
      q := q1;
    }

    /** sched_next_rr, task_switch, and what the task that gets the processor does first.  If that is to finish a
        sem_wait, `answer` is what it returns. */
    method SchedNext() returns (answer: int)
      requires Rep() && q.pcb[q.idle].wait == -1
      modifies this, links, links.next, links.prev, tasks, sems
      ensures Rep() && q == T.SchedNext(old(q)).q && Answers(T.SchedNext(old(q)).ev, answer)
    {
      hide Linked, Remove, Answers, T.Finish;
      var empty := links.ListEmpty(READY);
      var t := idle;
      if !empty {
        t := links.First(READY);
        RemoveFirst(links.lists[READY]);
        links.ListDel(t, READY, 0);
      }
      left := tasks[t].quantum;
      cur := t;
      SwitchIs(q);
      ghost var before := q;
      q := Switch(q);
      answer := Resume(t);
      SwitchAnswers(before, answer);
    }

    /** scheduling, called at every tick of the clock */
    method Tick() returns (answer: int)
      requires Rep() && TI.Inv(q)
      modifies this, links, links.next, links.prev, tasks, sems
      ensures Rep() && q == T.Tick(old(q)).q && Answers(T.Tick(old(q)).ev, answer)
    {
      hide Linked, TI.Inv, T.SchedNext, T.Yield, On, Heads, Answers;
      answer := 0;
      ghost var before := q;
      TickReady(links.lists, q);
      UpdateSchedData();
      var needs := NeedsSched();
      if needs {
        ToReady();
        answer := SchedNext();
      }
      TickAnswers(before, answer);
    }

    /** update_process_state_rr(current(), &readyqueue) */
    method ToReady()
      requires Rep() && !On(links.lists, cur) && Yielded(links.lists, q)
      modifies this, links, links.next, links.prev
      ensures Rep() && q == T.Yield(old(q)).q && q.pcb[q.idle].wait == -1
    {
      hide Linked, T.Yield, On;
      UpdateProcessState(cur, READY, READY, 0);
      q := T.Yield(q).q;
    }

    /** update_sched_data_rr */
    method UpdateSchedData()
      requires Rep() && T.Shape(q.(left := q.left - 1))
      modifies `left, `q
      ensures Rep() && q == old(q).(left := old(q).left - 1)
    {
      left := left - 1;
      q := q.(left := left);
    }

    /** needs_sched_rr */
    method NeedsSched() returns (needs: bool)
      requires Rep()
      modifies `left, `q
      ensures Rep()
      ensures needs <==> old((q.left == 0 || q.cur == q.idle) && !(q.cur == q.idle && q.ready == []))
      ensures old(q.cur == q.idle && q.ready == []) ==> q == old(q).(left := old(q).pcb[old(q).cur].quantum)
      ensures !old(q.cur == q.idle && q.ready == []) ==> q == old(q)
    {
      if left == 0 || cur == idle {
        var empty := links.ListEmpty(READY);
        if cur == idle && empty {
          left := tasks[cur].quantum;
          q := q.(left := left);
          return false;
        }
        return true;
      }
      return false;
    }

    // ---- sem.c ----

    method GetSemafor(id: int) returns (k: int)
      requires Rep()
      ensures k == T.FindId(q.slots, id, 0)
    {
      k := 0;
      while k < N_SEMAFORS
        invariant 0 <= k <= N_SEMAFORS && T.FindId(q.slots, id, 0) == T.FindId(q.slots, id, k)
      {
        if sems[k].id == id {
          return;
        }
        k := k + 1;
      }
      k := -1;
    }

    method GetFreeSemafor() returns (k: int)
      requires Rep()
      ensures k == T.FindFree(q.slots, 0)
    {
      k := 0;
      while k < N_SEMAFORS
        invariant 0 <= k <= N_SEMAFORS && T.FindFree(q.slots, 0) == T.FindFree(q.slots, k)
      {
        if sems[k].used == 0 {
          return;
        }
        k := k + 1;
      }
      k := -1;
    }

    /** sem_init.  The third test of the source, that a free slot is free, cannot fail. */
    method SemInit(id: int, value: int) returns (reply: int)
      requires Rep() && TI.SlotTable(q)
      modifies this, links, links.next, links.prev, sems
      ensures Rep() && q == T.SemInit(old(q), id, value).q
      ensures T.Value(reply) == T.SemInit(old(q), id, value).reply
    {
      hide Linked, Heads, Claimed;
      var k := GetSemafor(id);
      if k >= 0 {
        return -EINVAL;
      }
      k := GetFreeSemafor();
      if k < 0 {
        return -2;
      }
      TI.SlotFact(q, k);
      ClaimIs(q, id, value, k);
      Claim(k, id, value);
      reply := 0;
    }

    /** The assignments of sem_init. */
    method Claim(k: int, id: int, value: int)
      requires Rep() && T.IsSlot(k) && q.blocked[k] == []
      modifies this, links, links.next, links.prev, sems
      ensures Rep() && q == Claimed(old(q), k, id, value)
    {
      hide Linked;
      sems[k] := T.Slot(id, value, tasks[cur].pid, 1);
      links.InitListHead(Sem(k));
      q := Claimed(q, k, id, value);
    }

    /** sem_wait up to the switch; what follows the switch is Resume. */
    method SemWait(id: int) returns (reply: T.Reply, answer: int)
      requires Rep() && TI.Inv(q) && q.cur != q.idle
      modifies this, links, links.next, links.prev, tasks, sems
      ensures Rep() && q == T.SemWait(old(q), id).q && reply == T.SemWait(old(q), id).reply
      ensures Answers(T.SemWait(old(q), id).ev, answer)
    {
      hide Linked, TI.Inv, T.SchedNext, T.BlockOn, Heads, On, Answers;
      WaitAnswers(q, id);
      var k := GetSemafor(id);
      if k < 0 || sems[k].used <= 0 {
        return T.Value(-EINVAL), 0;
      }
      BlockReady(links.lists, q);
      if sems[k].count > 0 {
        SetCount(k, sems[k].count - 1);
        return T.Value(-1), 0;
      }
      SemBlock(k);
      NextReply(q);
      answer := SchedNext();
      reply := T.Switched;
    }

    /** The assignment to s->count in sem_wait and sem_signal. */
    method SetCount(k: int, count: int)
      requires Rep() && T.IsSlot(k)
      modifies sems, `q
      ensures Rep() && q == old(q).(slots := old(q).slots[k := old(q).slots[k].(count := count)])
    {
      sems[k] := sems[k].(count := count);
      q := q.(slots := q.slots[k := q.slots[k].(count := count)]);
    }

    /** update_process_state_rr(current(), &s->blocked), called by sem_wait: the saved stack of the caller
        says where it goes on. */
    method SemBlock(k: int)
      requires Rep() && T.IsSlot(k) && q.slots[k].used > 0 && q.cur != q.idle && !On(links.lists, cur)
      modifies this, links, links.next, links.prev, tasks
      ensures Rep() && q == T.BlockOn(old(q), k).q && q.pcb[q.idle] == old(q.pcb[q.idle])
    {
      hide Linked, On;
      UpdateProcessState(cur, Sem(k), FREE, 0);
      tasks[cur] := tasks[cur].(wait := k);
      q := T.BlockOn(q, k).q;
    }

    method SemSignal(id: int) returns (reply: int)
      requires Rep()
      modifies this, links, links.next, links.prev, sems
      ensures Rep() && q == T.SemSignal(old(q), id).q
      ensures T.Value(reply) == T.SemSignal(old(q), id).reply
    {
      hide Linked, On, Heads, T.SemSignal, Signalled;
      SignalIs(q, id);
      var k := GetSemafor(id);
      if k < 0 || sems[k].used <= 0 {
        return -EINVAL;
      }
      Signal(k);
      reply := 0;
    }

    /** sem_signal on a live slot */
    method Signal(k: int)
      requires Rep() && T.IsSlot(k) && q.slots[k].used > 0
      modifies this, links, links.next, links.prev, sems
      ensures Rep() && q == Signalled(old(q), k)
    {
      hide Linked, On, Heads, Woken;
      HeadsAt(links.lists, q, k);
      var none := links.ListEmpty(Sem(k));
      if none {
        SetCount(k, (sems[k].count + 1) % UINT_MOD);
      } else {
        var p := links.First(Sem(k));
        Unblock(p, k);
      }
    }

    /** The other branch of sem_signal: the first waiter becomes ready. */
    method Unblock(p: int, k: int)
      requires Rep() && T.IsSlot(k) && q.slots[k].used > 0 && Sem(k) in links.lists
      requires links.lists[Sem(k)] != [] && p == links.lists[Sem(k)][0]
      modifies this, links, links.next, links.prev
      ensures Rep() && q == Woken(old(q), k)
    {
      hide Linked, On, Heads, Woken, Moved;
      WakeHeads(links.lists, q, k);
      MoveToReady(p, k);
      q := Woken(q, k);
    }

    /** list_del(p); list_add_tail(p, &readyqueue) for the first waiter of slot k */
    method MoveToReady(p: int, k: int)
      requires links.Valid() && Sem(k) in links.lists && READY in links.lists && Sem(k) != READY
      requires links.lists[Sem(k)] != [] && p == links.lists[Sem(k)][0]
      modifies links, links.next, links.prev
      ensures links.Valid()
      ensures links.lists == Moved(old(links.lists), Sem(k))
    {
      hide Linked, On, Remove;
      RemoveFirst(links.lists[Sem(k)]);
      Anchor(links.next[..], links.prev[..], links.anchors, links.lists, Sem(k));
      links.ListDel(p, Sem(k), 0);
      links.ListAddTail(p, READY);
    }

    /** internal_sem_destroy */
    method InternalDestroy(k: int) returns (reply: int)
      requires Rep() && T.IsSlot(k)
      modifies this, links, links.next, links.prev, sems
      ensures Rep() && q == T.InternalDestroy(old(q), k).q
      ensures T.Value(reply) == T.InternalDestroy(old(q), k).reply
    {
      hide Linked, Heads, T.Drain;
      if sems[k].used <= 0 || sems[k].owner != tasks[cur].pid {
        return -EINVAL;
      }
      DrainReply(q, k);
      DrainSlot(k);
      reply := 0;
    }

    /** The loop list_for_each_safe of internal_sem_destroy: every waiter is cut from the list the loop runs
        over and linked into the ready queue before the loop goes on. */
    method DrainSlot(k: int)
      requires Rep() && T.IsSlot(k) && q.slots[k].used > 0
      modifies this, links, links.next, links.prev, sems
      ensures Rep() && q == T.Drain(old(q), k).q
    {
      hide Linked, On, Heads, T.Drain, Drained, Sem, T.AreTasks;
      HeadsAt(links.lists, q, k);
      DrainHeads(links.lists, q, k);
      sems[k] := sems[k].(used := 0, id := DEAD);
      WakeAll(k);
      assert sems[..] == T.Drain(q, k).q.slots;
      q := T.Drain(q, k).q;
    }

    method WakeAll(k: int)
      requires links.Valid() && Sem(k) in links.lists && READY in links.lists && Sem(k) != READY
      requires 0 <= k < sems.Length
      modifies links, links.next, links.prev, sems
      ensures links.Valid()
      ensures var b := old(links.lists)[Sem(k)];
              && links.lists == Drained(old(links.lists), Sem(k), b, |b|)
              && sems[..] == old(sems[..])[k := old(sems[k]).(used := old(sems[k]).used - |b|)]
    {
      hide Linked, On, Drained, At, Moved;
      var h := Sem(k);
      ghost var lists0, b, s0 := links.lists, links.lists[h], sems[..];
      WakeNext(links.next[..], links.prev[..], links.anchors, lists0, links.lists, h, 0);
      var p := links.next[h];
      var tmp := links.next[p];
      ghost var i := 0;
      while p != h
        invariant 0 <= i <= |b| && links.Valid()
        invariant links.lists == Drained(lists0, h, b, i)
        invariant Standing(links.next[..], b, h, i, p, tmp)
        invariant sems[..] == s0[k := s0[k].(used := s0[k].used - i)]
        decreases |b| - i
      {
        DrainedNext(lists0, h, b, i);
        assert links.lists[h] != [] && p == links.lists[h][0];
        MoveToReady(p, k);
        sems[k] := sems[k].(used := sems[k].used - 1);
        i := i + 1;
        WakeNext(links.next[..], links.prev[..], links.anchors, lists0, links.lists, h, i);
        p := tmp;
        tmp := links.next[p];
      }
    }

    method SemDestroy(id: int) returns (reply: int)
      requires Rep()
      modifies this, links, links.next, links.prev, sems
      ensures Rep() && q == T.SemDestroy(old(q), id).q
      ensures T.Value(reply) == T.SemDestroy(old(q), id).reply
    {
      hide Linked, Heads, T.InternalDestroy;
      var k := GetSemafor(id);
      if k < 0 {
        return -EINVAL;
      }
      reply := InternalDestroy(k);
    }

    /** destroy_owned_sems */
    method DestroyOwned(pid: int)
      requires Rep()
      modifies this, links, links.next, links.prev, sems
      ensures Rep() && q == T.DestroyOwned(old(q), pid, 0).q
    {
      hide Linked, Heads, T.InternalDestroy;
      var i := 0;
      while i < N_SEMAFORS
        invariant 0 <= i <= N_SEMAFORS && Rep()
        invariant T.DestroyOwned(old(q), pid, 0).q == T.DestroyOwned(q, pid, i).q
      {
        if sems[i].used > 0 && sems[i].owner == pid {
          var _ := InternalDestroy(i);
        }
        i := i + 1;
      }
    }

    // ---- the queue part of sys.c ----

    /** sys.c:462-464: the current task dies. */
    method Bury()
      requires Rep() && q.cur != q.idle && !On(links.lists, q.cur)
      modifies this, links, links.next, links.prev, tasks
      ensures Rep() && q == T.Bury(old(q)).q
    {
      hide Linked, On;
      tasks[cur] := tasks[cur].(pid := -1);
      UpdateProcessState(cur, FREE, FREE, 0);
      q := T.Bury(q).q;
    }

    /** sys.c:462-465 */
    method Exit() returns (answer: int)
      requires Rep() && TI.Inv(q) && q.cur != q.idle
      modifies this, links, links.next, links.prev, tasks, sems
      ensures Rep() && q == T.Exit(old(q)).q && Answers(T.Exit(old(q)).ev, answer)
    {
      hide Linked, Heads, T.DestroyOwned, T.Bury, T.SchedNext, TI.Core, On, Answers;
      ghost var before := q;
      TI.DestroyOwnedKeeps(q, q.pcb[q.cur].pid, 0);
      DestroyOwned(tasks[cur].pid);
      BuryReady(links.lists, q);
      Bury();
      answer := SchedNext();
      ExitAnswers(before, before.pcb[before.cur].pid, answer);
    }

    /** The control block of the child: sys.c:395 and 422-440, and the same in sys_clone.  The copy of the
        parent's block includes its list anchor, which is null because a running task is on no list. */
    method Spawn(c: int)
      requires Rep() && !On(links.lists, q.cur) && q.free != [] && q.free[0] == c
      modifies this, links, links.next, links.prev, tasks
      ensures Rep() && q == T.Spawn(old(q)).q
    {
      hide Linked, On, Heads, T.Spawn;
      SpawnHeads(links.lists, q);
      TakeFree(c);
      q := T.Spawn(q).q;
    }

    method TakeFree(c: int)
      requires links.Valid() && links.anchors == NR_TASKS == tasks.Length && T.IsTask(cur) && T.IsTask(c)
      requires FREE in links.lists && READY in links.lists && links.lists[FREE] != [] && links.lists[FREE][0] == c
      requires !On(links.lists[FREE := links.lists[FREE][1..]], cur)
      modifies links, links.next, links.prev, tasks, `lastPid
      ensures links.Valid() && lastPid == old(lastPid) + 1
      ensures var l := old(links.lists);
              links.lists == l[FREE := l[FREE][1..]][READY := l[READY] + [c]]
      ensures tasks[..] == old(tasks[..])[c := T.Pcb(lastPid, old(tasks[cur]).quantum, -1)]
    {
      hide Linked, On, Remove;
      RemoveFirst(links.lists[FREE]);
      links.ListDel(c, FREE, 0);
      MakeChild(c);
      links.ListAddTail(c, READY);
    }

    method MakeChild(c: int)
      requires links.Valid() && links.anchors == NR_TASKS == tasks.Length && T.IsTask(cur) && T.IsTask(c)
      requires !On(links.lists, cur) && !On(links.lists, c)
      modifies links.next, links.prev, tasks, `lastPid
      ensures links.Valid() && lastPid == old(lastPid) + 1
      ensures tasks[..] == old(tasks[..])[c := T.Pcb(lastPid, old(tasks[cur]).quantum, -1)]
    {
      hide Linked, On;
      CopyPcb(c);
      lastPid := lastPid + 1;
      tasks[c] := tasks[c].(pid := lastPid);
      tasks[c] := tasks[c].(wait := -1);
    }

    /** copy_data(current(), child, sizeof(union task_union)) */
    method CopyPcb(c: int)
      requires links.Valid() && links.anchors == NR_TASKS == tasks.Length && T.IsTask(cur) && T.IsTask(c)
      requires !On(links.lists, cur) && !On(links.lists, c)
      modifies links.next, links.prev, tasks
      ensures links.Valid() && tasks[..] == old(tasks[..])[c := old(tasks[cur])]
    {
      hide Linked, On;
      NullLinks(links.next[..], links.prev[..], links.anchors, links.lists, cur);
      NullLinks(links.next[..], links.prev[..], links.anchors, links.lists, c);
      tasks[c] := tasks[cur];
      links.next[c] := links.next[cur];
      links.prev[c] := links.prev[cur];
      assert links.next[..] == old(links.next[..]);
      assert links.prev[..] == old(links.prev[..]);
    }
  }

  /** The lists after i rounds of the loop that drains the list of head h with waiters b. */
  ghost function Drained(lists: map<int, seq<int>>, h: int, b: seq<int>, i: int): map<int, seq<int>>
    requires 0 <= i <= |b| && READY in lists
  {
    lists[h := b[i..]][READY := lists[READY] + b[..i]]
  }

  /** The loop stands at place i of the waiters b, and has saved what follows. */
  ghost predicate Standing(next: seq<int>, b: seq<int>, h: int, i: int, p: int, tmp: int) {
    && 0 <= i <= |b| && 0 <= p < |next|
    && p == At(h, b, i) && tmp == next[p]
    && (p == h <==> i == |b|)
    && (i < |b| ==> tmp == At(h, b, i + 1))
  }

  lemma DrainedNext(lists: map<int, seq<int>>, h: int, b: seq<int>, i: int)
    requires 0 <= i < |b| && h in lists && READY in lists && h != READY && lists[h] == b
    ensures var d := Drained(lists, h, b, i);
            && h in d && READY in d && h in Moved(d, h) && d[h] != [] && d[h][0] == b[i] == At(h, b, i)
            && Drained(lists, h, b, i + 1) == Moved(d, h)
  {
    assert b[i..][1..] == b[i + 1..];
    assert b[..i] + [b[i]] == b[..i + 1];
    assert lists[READY] + b[..i] + [b[i]] == lists[READY] + b[..i + 1];
  }

  lemma DrainReply(q: T.Queues, k: int)
    requires T.Shape(q) && T.IsSlot(k)
    ensures T.Drain(q, k).reply == T.Value(0)
  {
  }

  /** Where the loop stands when the first i waiters are gone. */
  lemma WakeNext(next: seq<int>, prev: seq<int>, anchors: int, lists0: map<int, seq<int>>,
          lists: map<int, seq<int>>, h: int, i: int)
    requires Linked(next, prev, anchors, lists) && h in lists0 && READY in lists0 && h != READY && h in lists
    requires 0 <= i <= |lists0[h]| && (i == 0 ==> lists == lists0)
    requires i > 0 ==> lists == Drained(lists0, h, lists0[h], i)
    ensures lists == Drained(lists0, h, lists0[h], i)
    ensures 0 <= h < |next| && 0 <= next[h] < |next|
    ensures Standing(next, lists0[h], h, i, next[h], next[next[h]])
  {
    hide Linked, At, Standing;
    DrainedNone(lists0, h);
    var b := lists0[h];
    assert lists[h] == b[i..];
    StandsAt(next, prev, anchors, lists, h, b, i);
  }

  lemma DrainedNone(lists: map<int, seq<int>>, h: int)
    requires h in lists && READY in lists && h != READY
    ensures Drained(lists, h, lists[h], 0) == lists
  {
    assert lists[h][0..] == lists[h];
    assert lists[READY] + lists[h][..0] == lists[READY];
  }

  lemma StandsAt(next: seq<int>, prev: seq<int>, anchors: int, lists: map<int, seq<int>>, h: int, b: seq<int>, i: int)
    requires Linked(next, prev, anchors, lists) && h in lists && 0 <= i <= |b| && lists[h] == b[i..]
    ensures 0 <= h < |next| && 0 <= next[h] < |next|
    ensures Standing(next, b, h, i, next[h], next[next[h]])
  {
    hide Linked;
    FirstTwo(next, prev, anchors, lists, h);
    assert |b[i..]| == |b| - i;
  }

  lemma DrainHeads(lists: map<int, seq<int>>, q: T.Queues, k: int)
    requires T.Shape(q) && Heads(lists, q) && T.IsSlot(k) && q.slots[k].used > 0
    ensures T.Shape(T.Drain(q, k).q) && Sem(k) in lists && READY in lists
    ensures Heads(Drained(lists, Sem(k), q.blocked[k], |q.blocked[k]|), T.Drain(q, k).q)
    ensures OnlyMoved(q.(slots := q.slots[k := q.slots[k].(id := DEAD, used := -|q.blocked[k]|)]), T.Drain(q, k).q)
  {
  }

  /** The state right after the switch of sched_next_rr. */
  ghost function Switch(q: T.Queues): T.Queues
    requires T.Shape(q)
  {
    if q.ready == [] then q.(at := q.at[q.idle := T.OnCpu], cur := q.idle, left := q.pcb[q.idle].quantum)
    else
      var t := q.ready[0];
      q.(ready := q.ready[1..], at := q.at[t := T.OnCpu], cur := t, left := q.pcb[t].quantum)
  }

  /** If a step lets somebody finish a sem_wait, that returns `res`. */
  ghost predicate Answers(ev: seq<T.Event>, res: int) {
    forall i :: 0 <= i < |ev| && ev[i].Resume? ==> ev[i].res == res
  }

  /** Events that finish no sem_wait. */
  ghost predicate Silent(ev: seq<T.Event>) {
    forall i :: 0 <= i < |ev| ==> !ev[i].Resume?
  }

  lemma AnswersConcat(a: seq<T.Event>, b: seq<T.Event>, res: int)
    requires Silent(a) && Answers(b, res)
    ensures Answers(a + b, res)
  {
  }

  lemma SwitchAnswers(q: T.Queues, res: int)
    requires T.Shape(q) && q.pcb[q.idle].wait == -1 && T.Shape(Switch(q))
    requires Answers(T.Finish(Switch(q), Switch(q).cur).ev, res)
    ensures Answers(T.SchedNext(q).ev, res)
  {
    if q.ready != [] {
      AnswersConcat([T.Dispatch(q.ready[0])], T.Finish(Switch(q), q.ready[0]).ev, res);
    }
  }

  lemma TickAnswers(q: T.Queues, res: int)
    requires T.Shape(q) && T.Shape(q.(left := q.left - 1)) && T.Shape(T.Yield(q.(left := q.left - 1)).q)
    requires (q.left == 1 || q.cur == q.idle) && !(q.cur == q.idle && q.ready == []) ==>
               Answers(T.SchedNext(T.Yield(q.(left := q.left - 1)).q).ev, res)
    ensures Answers(T.Tick(q).ev, res)
  {
    hide T.SchedNext;
    var y := T.Yield(q.(left := q.left - 1));
    if (q.left == 1 || q.cur == q.idle) && !(q.cur == q.idle && q.ready == []) {
      AnswersConcat(y.ev, T.SchedNext(y.q).ev, res);
    }
  }

  lemma WaitAnswers(q: T.Queues, id: int)
    requires T.Shape(q)
    ensures var k := T.FindId(q.slots, id, 0);
            if k >= 0 && q.slots[k].used > 0 && q.slots[k].count <= 0
            then T.Shape(T.BlockOn(q, k).q)
                 && forall res :: Answers(T.SchedNext(T.BlockOn(q, k).q).ev, res) ==> Answers(T.SemWait(q, id).ev, res)
            else forall res :: Answers(T.SemWait(q, id).ev, res)
  {
    hide T.SchedNext;
    var k := T.FindId(q.slots, id, 0);
    if k >= 0 && q.slots[k].used > 0 && q.slots[k].count <= 0 {
      T.BlockShape(q, k);
      forall res | Answers(T.SchedNext(T.BlockOn(q, k).q).ev, res) ensures Answers(T.SemWait(q, id).ev, res) {
        AnswersConcat([T.Block(k, q.cur)], T.SchedNext(T.BlockOn(q, k).q).ev, res);
      }
    }
  }

  lemma {:induction false} DestroySilent(q: T.Queues, pid: int, i: nat)
    requires T.Shape(q) && i <= N_SEMAFORS
    ensures Silent(T.DestroyOwned(q, pid, i).ev)
    decreases N_SEMAFORS - i
  {
    if i < N_SEMAFORS {
      if q.slots[i].used > 0 && q.slots[i].owner == pid {
        T.DrainShape(q, i);
        DestroySilent(T.InternalDestroy(q, i).q, pid, i + 1);
      } else {
        DestroySilent(q, pid, i + 1);
      }
    }
  }

  lemma ExitAnswers(q: T.Queues, pid: int, res: int)
    requires T.Shape(q) && pid == q.pcb[q.cur].pid
    requires var b := T.Bury(T.DestroyOwned(q, pid, 0).q).q; T.Shape(b) && Answers(T.SchedNext(b).ev, res)
    ensures Answers(T.Exit(q).ev, res)
  {
    hide T.SchedNext, T.DestroyOwned, T.Bury, Answers, Silent, T.Shape;
    var a := T.DestroyOwned(q, pid, 0);
    var b := T.Bury(a.q);
    DestroySilent(q, pid, 0);
    BuryQuiet(a.q);
    ThreeAnswers(a.ev, b.ev, T.SchedNext(b.q).ev, res);
  }

  lemma ThreeAnswers(a: seq<T.Event>, b: seq<T.Event>, c: seq<T.Event>, res: int)
    requires Silent(a) && b == [] && Answers(c, res)
    ensures Answers(a + b + c, res)
  {
    assert a + b == a;
    AnswersConcat(a, c, res);
  }

  lemma BuryQuiet(q: T.Queues)
    requires T.Shape(q)
    ensures T.Bury(q).ev == []
  {
  }

  lemma SwitchIs(q: T.Queues)
    requires T.Shape(q) && q.pcb[q.idle].wait == -1
    ensures T.Shape(Switch(q)) && T.SchedNext(q).q == T.Finish(Switch(q), Switch(q).cur).q
  {
  }

  lemma Anchor(next: seq<int>, prev: seq<int>, anchors: int, lists: map<int, seq<int>>, h: int)
    requires Linked(next, prev, anchors, lists) && h in lists && lists[h] != []
    ensures 0 <= lists[h][0] < anchors
  {
  }

  lemma QueueHeads(lists: map<int, seq<int>>, q: T.Queues)
    requires T.Shape(q) && Heads(lists, q)
    ensures FREE in lists && lists[FREE] == q.free && READY in lists && lists[READY] == q.ready
  {
  }

  lemma HeadsAt(lists: map<int, seq<int>>, q: T.Queues, k: int)
    requires T.Shape(q) && Heads(lists, q) && T.IsSlot(k) && q.slots[k].used > 0
    ensures Sem(k) in lists && lists[Sem(k)] == q.blocked[k] && READY in lists && Sem(k) != READY
  {
  }

  ghost function Claimed(q: T.Queues, k: int, id: int, value: int): T.Queues
    requires T.Shape(q) && T.IsSlot(k)
  {
    q.(slots := q.slots[k := T.Slot(id, value, q.pcb[q.cur].pid, 1)], blocked := q.blocked[k := []])
  }

  lemma ClaimIs(q: T.Queues, id: int, value: int, k: int)
    requires T.Shape(q) && T.FindId(q.slots, id, 0) < 0 && k == T.FindFree(q.slots, 0) >= 0
    ensures T.SemInit(q, id, value).q == Claimed(q, k, id, value) && T.SemInit(q, id, value).reply == T.Value(0)
  {
  }

  /** The step from q to r is one of the lists only. */
  ghost predicate OnlyMoved(q: T.Queues, r: T.Queues) {
    r.pcb == q.pcb && r.slots == q.slots && r.cur == q.cur && r.idle == q.idle && r.left == q.left
      && r.lastPid == q.lastPid
  }

  /** The first node of list h goes to the end of the ready list. */
  ghost function Moved(lists: map<int, seq<int>>, h: int): map<int, seq<int>>
    requires h in lists && READY in lists && lists[h] != []
  {
    lists[h := lists[h][1..]][READY := lists[READY] + [lists[h][0]]]
  }

  /** The first waiter of slot k becomes ready. */
  ghost function Woken(q: T.Queues, k: int): T.Queues
    requires T.Shape(q) && T.IsSlot(k)
  {
    if q.blocked[k] == [] then q else
    var p := q.blocked[k][0];
    q.(blocked := q.blocked[k := q.blocked[k][1..]], ready := q.ready + [p], at := q.at[p := T.OnReady])
  }

  lemma WakeHeads(lists: map<int, seq<int>>, q: T.Queues, k: int)
    requires T.Shape(q) && Heads(lists, q) && T.IsSlot(k) && Sem(k) in lists && lists[Sem(k)] != []
    ensures T.Shape(Woken(q, k)) && Sem(k) != READY && READY in lists
    ensures Heads(Moved(lists, Sem(k)), Woken(q, k))
    ensures OnlyMoved(q, Woken(q, k))
  {
  }

  ghost function Signalled(q: T.Queues, k: int): T.Queues
    requires T.Shape(q) && T.IsSlot(k)
  {
    if q.blocked[k] == [] then q.(slots := q.slots[k := q.slots[k].(count := (q.slots[k].count + 1) % UINT_MOD)])
    else Woken(q, k)
  }

  lemma SignalIs(q: T.Queues, id: int)
    requires T.Shape(q)
    ensures var k := T.FindId(q.slots, id, 0);
            && T.SemSignal(q, id).q == (if k < 0 || q.slots[k].used <= 0 then q else Signalled(q, k))
            && T.SemSignal(q, id).reply == T.Value(if k < 0 || q.slots[k].used <= 0 then -EINVAL else 0)
  {
  }

  lemma NextReply(q: T.Queues)
    requires T.Shape(q)
    ensures T.SchedNext(q).reply == T.Switched
  {
  }

  lemma BlockReady(lists: map<int, seq<int>>, q: T.Queues)
    requires T.Shape(q) && TI.Inv(q) && Heads(lists, q) && q.cur != q.idle
    ensures !On(lists, q.cur) && q.pcb[q.idle].wait == -1
  {
    OffLists(lists, q, q.cur);
  }

  /** The queue state after the yield of scheduling. */
  lemma TickReady(lists: map<int, seq<int>>, q: T.Queues)
    requires T.Shape(q) && TI.Inv(q) && Heads(lists, q)
    ensures !On(lists, q.cur) && T.IsTask(q.cur) && T.Shape(q.(left := q.left - 1))
    ensures Yielded(lists, q.(left := q.left - 1))
  {
    OffLists(lists, q, q.cur);
  }

  ghost predicate Yielded(lists: map<int, seq<int>>, q: T.Queues)
    requires T.Shape(q)
  {
    var r := T.Yield(q).q;
    && T.Shape(r) && r.pcb[r.idle].wait == -1
    && READY in lists && Heads(if q.cur == q.idle then lists else lists[READY := lists[READY] + [q.cur]], r)
    && OnlyMoved(q, r)
  }

  lemma BuryReady(lists: map<int, seq<int>>, q: T.Queues)
    requires T.Shape(q) && TI.Core(q) && Heads(lists, q) && q.cur != q.idle && q.at[q.cur] == T.OnCpu
    ensures !On(lists, q.cur) && T.Shape(T.Bury(q).q) && T.Bury(q).q.pcb[T.Bury(q).q.idle].wait == -1
  {
    OffLists(lists, q, q.cur);
  }

  lemma SpawnHeads(lists: map<int, seq<int>>, q: T.Queues)
    requires T.Shape(q) && Heads(lists, q) && q.free != [] && !On(lists, q.cur)
    ensures var r := T.Spawn(q).q;
            && T.Shape(r) && FREE in lists && READY in lists && lists[FREE] == q.free
            && T.IsTask(q.cur) && T.IsTask(q.free[0]) && !On(lists[FREE := lists[FREE][1..]], q.cur)
            && Heads(lists[FREE := lists[FREE][1..]][READY := lists[READY] + [q.free[0]]], r)
            && r.pcb == q.pcb[q.free[0] := T.Pcb(q.lastPid + 1, q.pcb[q.cur].quantum, -1)] && r.slots == q.slots
            && r.cur == q.cur && r.idle == q.idle && r.left == q.left && r.lastPid == q.lastPid + 1
  {
  }
}
