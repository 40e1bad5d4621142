/** Every step of Tasks is explained, slot by slot and for the ready queue, by the events it emits. */
module SlotTraces {
  import opened Config
  import opened Tasks
  import opened TasksInv
  import opened SlotViews

  ghost function ViewOf(q: Queues, k: int): View
    requires Shape(q) && IsSlot(k)
  {
    View(q.slots[k].used, q.slots[k].count, q.blocked[k], Pending(q.ready, q.pcb, k))
  }

  /** The events of a step tell how slot `k` changes. */
  ghost predicate Explains(q: Queues, r: Outcome, k: int)
    requires Shape(q) && Shape(r.q) && IsSlot(k)
  {
    Leads(ViewOf(q, k), r.ev, k, ViewOf(r.q, k))
  }

  ghost function Arrived(ev: seq<Event>): seq<int> {
    if ev == [] then []
    else (if ev[0].Arrive? then [ev[0].task] else []) + Arrived(ev[1..])
  }

  ghost function Dispatched(ev: seq<Event>): seq<int> {
    if ev == [] then []
    else (if ev[0].Dispatch? then [ev[0].task] else []) + Dispatched(ev[1..])
  }

  /** The ready queue is first in, first out. */
  ghost predicate Fifo(ready: seq<int>, ev: seq<Event>, ready': seq<int>) {
    ready + Arrived(ev) == Dispatched(ev) + ready'
  }

  /** One event, and two events. */
  lemma Single(v: View, e: Event, k: int)
    ensures Legal(v, e, k) ==> Leads(v, [e], k, Play(v, e, k))
    ensures Arrived([e]) == (if e.Arrive? then [e.task] else [])
    ensures Dispatched([e]) == (if e.Dispatch? then [e.task] else [])
  {
    assert [e][1..] == [];
  }

  lemma Pair(v: View, e: Event, f: Event, k: int)
    ensures Legal(v, e, k) && Legal(Play(v, e, k), f, k) ==> Leads(v, [e, f], k, Play(Play(v, e, k), f, k))
    ensures Arrived([e, f]) == (if e.Arrive? then [e.task] else []) + (if f.Arrive? then [f.task] else [])
    ensures Dispatched([e, f]) == (if e.Dispatch? then [e.task] else []) + (if f.Dispatch? then [f.task] else [])
  {
    assert [e, f][1..] == [f];
    Single(v, f, k);
    if Legal(v, e, k) {
      Single(Play(v, e, k), f, k);
    }
  }

  lemma {:induction false} ArrivedConcat(a: seq<Event>, b: seq<Event>)
    ensures Arrived(a + b) == Arrived(a) + Arrived(b)
  {
    if a == [] {
      assert a + b == b;
    } else {
      ArrivedConcat(a[1..], b);
      assert (a + b)[1..] == a[1..] + b;
      Assoc(if a[0].Arrive? then [a[0].task] else [], Arrived(a[1..]), Arrived(b));
    }
  }

  lemma {:induction false} DispatchedConcat(a: seq<Event>, b: seq<Event>)
    ensures Dispatched(a + b) == Dispatched(a) + Dispatched(b)
  {
    if a == [] {
      assert a + b == b;
    } else {
      DispatchedConcat(a[1..], b);
      assert (a + b)[1..] == a[1..] + b;
      Assoc(if a[0].Dispatch? then [a[0].task] else [], Dispatched(a[1..]), Dispatched(b));
    }
  }

  lemma Assoc(a: seq<int>, b: seq<int>, c: seq<int>)
    ensures (a + b) + c == a + (b + c)
  {
  }

  lemma FifoConcat(r: seq<int>, a: seq<Event>, r1: seq<int>, b: seq<Event>, r2: seq<int>)
    requires Fifo(r, a, r1) && Fifo(r1, b, r2)
    ensures Fifo(r, a + b, r2)
  {
    ArrivedConcat(a, b);
    DispatchedConcat(a, b);
    Assoc(r, Arrived(a), Arrived(b));
    Assoc(Dispatched(a), r1, Arrived(b));
    Assoc(Dispatched(a), Dispatched(b), r2);
  }

  ghost predicate Flows(q: Queues, r: Outcome)
    requires Shape(q) && Shape(r.q)
  {
    && Fifo(q.ready, r.ev, r.q.ready)
    && forall k :: IsSlot(k) ==> Explains(q, r, k)
  }

  lemma ThenFlows(q: Queues, a: Outcome, b: Outcome)
    requires Shape(q) && Shape(a.q) && Shape(b.q) && Flows(q, a) && Flows(a.q, b)
    ensures Flows(q, Then(a, b))
  {
    FifoConcat(q.ready, a.ev, a.q.ready, b.ev, b.q.ready);
    forall k | IsSlot(k) ensures Explains(q, Then(a, b), k) {
      assert Explains(q, a, k) && Explains(a.q, b, k);
      LeadsConcat(ViewOf(q, k), a.ev, ViewOf(a.q, k), b.ev, k, ViewOf(b.q, k));
    }
  }

  /** A step without events that leaves lists, slots and waiting places alone. */
  lemma SilentFlows(q: Queues, r: Outcome)
    requires Shape(q) && Shape(r.q) && r.ev == []
    requires r.q.ready == q.ready && r.q.slots == q.slots && r.q.blocked == q.blocked
    requires forall t :: t in q.ready ==> r.q.pcb[t].wait == q.pcb[t].wait
    ensures Flows(q, r)
  {
    assert q.ready + [] == [] + q.ready;
    forall k | IsSlot(k) ensures Explains(q, r, k) {
      PendingFrame(q.ready, q.pcb, r.q.pcb, k);
    }
  }

  lemma YieldFlows(q: Queues)
    requires Shape(q) && Shape(Yield(q).q) && q.pcb[q.cur].wait == -1
    ensures Flows(q, Yield(q))
  {
    if q.cur == q.idle {
      SilentFlows(q, Yield(q));
    } else {
      PushFlows(q, q.cur, q.pcb);
      PushSame(q, Yield(q), q.cur);
    }
  }

  /** A task that waits nowhere joins the ready queue: no slot notices. */
  lemma PushFlows(q: Queues, t: int, pcb': seq<Pcb>)
    requires Shape(q) && |pcb'| == NR_TASKS && IsTask(t) && pcb'[t].wait == -1
    requires forall u :: u in q.ready ==> pcb'[u].wait == q.pcb[u].wait
    ensures AreTasks(q.ready + [t])
    ensures Fifo(q.ready, [Arrive(t)], q.ready + [t])
    ensures forall k :: IsSlot(k) ==> Pending(q.ready + [t], pcb', k) == Pending(q.ready, q.pcb, k)
  {
    assert [] + (q.ready + [t]) == q.ready + ([t] + []);
    forall k | IsSlot(k) ensures Pending(q.ready + [t], pcb', k) == Pending(q.ready, q.pcb, k) {
      PendingFrame(q.ready, q.pcb, pcb', k);
      PendingConcat(q.ready, [t], pcb', k);
      PendingAll([t], pcb', k);
    }
  }

  lemma PushSame(q: Queues, r: Outcome, t: int)
    requires Shape(q) && Shape(r.q) && r.ev == [Arrive(t)] && r.q.ready == q.ready + [t]
    requires r.q.slots == q.slots && r.q.blocked == q.blocked
    requires Fifo(q.ready, [Arrive(t)], q.ready + [t])
    requires forall k :: IsSlot(k) ==> Pending(q.ready + [t], r.q.pcb, k) == Pending(q.ready, q.pcb, k)
    ensures Flows(q, r)
  {
    forall k | IsSlot(k) ensures Explains(q, r, k) {
      Single(ViewOf(q, k), Arrive(t), k);
    }
  }

  lemma SchedNextFlows(q: Queues)
    requires Shape(q) && Shape(SchedNext(q).q) && (q.ready != [] ==> q.ready[0] !in q.ready[1..])
    ensures Flows(q, SchedNext(q))
  {
    var r := SchedNext(q);
    if q.ready == [] {
      forall k | IsSlot(k) ensures Explains(q, r, k) {
        Single(ViewOf(q, k), Sleep, k);
      }
    } else {
      HeadFifo(q);
      forall k | IsSlot(k) ensures Explains(q, r, k) {
        HeadExplains(q, k);
      }
    }
  }

  lemma HeadFifo(q: Queues)
    requires Shape(q) && q.ready != []
    ensures Fifo(q.ready, SchedNext(q).ev, SchedNext(q).q.ready)
  {
    var t := q.ready[0];
    var r := SchedNext(q);
    assert q.ready == [t] + q.ready[1..];
    var v := View(0, 0, [], []);
    if q.pcb[t].wait >= 0 {
      assert r.ev == [Dispatch(t), r.ev[1]];
      Pair(v, Dispatch(t), r.ev[1], 0);
    } else {
      assert r.ev == [Dispatch(t)];
      Single(v, Dispatch(t), 0);
    }
  }

  lemma HeadExplains(q: Queues, k: int)
    requires Shape(q) && q.ready != [] && q.ready[0] !in q.ready[1..] && Shape(SchedNext(q).q) && IsSlot(k)
    ensures Explains(q, SchedNext(q), k)
  {
    var r := SchedNext(q);
    var t := q.ready[0];
    var v := ViewOf(q, k);
    PendingFrame(q.ready[1..], q.pcb, r.q.pcb, k);
    var p := Pending(q.ready[1..], q.pcb, k);
    if q.pcb[t].wait == k {
      assert v.pending == [t] + p;
      assert v.pending[1..] == p;
    } else {
      assert v.pending == [] + p == p;
    }
    if q.pcb[t].wait >= 0 {
      assert r.ev == [Dispatch(t), r.ev[1]];
      Pair(v, Dispatch(t), r.ev[1], k);
    } else {
      assert r.ev == [Dispatch(t)];
      Single(v, Dispatch(t), k);
    }
  }

  lemma BlockFlows(q: Queues, k: int)
    requires Shape(q) && IsSlot(k) && Shape(BlockOn(q, k).q) && q.cur !in q.ready
    requires q.slots[k].used > 0 && q.slots[k].count == 0
    ensures Flows(q, BlockOn(q, k))
  {
    var r := BlockOn(q, k);
    Single(ViewOf(q, k), Block(k, q.cur), k);
    assert q.ready + [] == [] + q.ready;
    forall j | IsSlot(j) ensures Explains(q, r, j) {
      Single(ViewOf(q, j), Block(k, q.cur), j);
      PendingFrame(q.ready, q.pcb, r.q.pcb, j);
    }
  }

  lemma CountFlows(q: Queues, k: int, count: int, e: Event, reply: Reply)
    requires Shape(q) && IsSlot(k) && q.slots[k].used > 0 && q.blocked[k] == []
    requires (e == Post(k, q.cur) && count == (q.slots[k].count + 1) % UINT_MOD)
          || (e == Take(k, q.cur) && q.slots[k].count > 0 && count == q.slots[k].count - 1)
    ensures var q' := q.(slots := q.slots[k := q.slots[k].(count := count)]);
            Flows(q, Outcome(q', reply, [e]))
  {
    var q' := q.(slots := q.slots[k := q.slots[k].(count := count)]);
    Single(ViewOf(q, k), e, k);
    assert q.ready + [] == [] + q.ready;
    forall j | IsSlot(j) ensures Explains(q, Outcome(q', reply, [e]), j) {
      Single(ViewOf(q, j), e, j);
    }
  }

  lemma InitFlows(q: Queues, id: int, value: int)
    requires Shape(q) && 0 <= value < UINT_MOD
    ensures Shape(SemInit(q, id, value).q) && Flows(q, SemInit(q, id, value))
  {
    var r := SemInit(q, id, value);
    if r.ev == [] {
      SilentFlows(q, r);
    } else {
      var e := r.ev[0];
      Single(ViewOf(q, 0), e, 0);
      assert q.ready + [] == [] + q.ready;
      forall j | IsSlot(j) ensures Explains(q, r, j) {
        Single(ViewOf(q, j), e, j);
      }
    }
  }

  lemma WakeFlows(q: Queues, k: int)
    requires Shape(q) && IsSlot(k) && q.slots[k].used > 0 && q.blocked[k] != [] && q.pcb[q.blocked[k][0]].wait == k
    ensures var p := q.blocked[k][0];
            var q' := q.(blocked := q.blocked[k := q.blocked[k][1..]], ready := q.ready + [p],
                         at := q.at[p := OnReady]);
            Shape(q') && Flows(q, Outcome(q', Value(0), [Wake(k, p, q.cur), Arrive(p)]))
  {
    var p := q.blocked[k][0];
    var q' := q.(blocked := q.blocked[k := q.blocked[k][1..]], ready := q.ready + [p], at := q.at[p := OnReady]);
    var ev := [Wake(k, p, q.cur), Arrive(p)];
    assert Fifo(q.ready, ev, q'.ready) by {
      Pair(View(0, 0, [], []), Wake(k, p, q.cur), Arrive(p), k);
      assert [] + (q.ready + [p]) == q.ready + ([] + [p]);
    }
    forall j | IsSlot(j) ensures Explains(q, Outcome(q', Value(0), ev), j) {
      Pair(ViewOf(q, j), Wake(k, p, q.cur), Arrive(p), j);
      PendingConcat(q.ready, [p], q.pcb, j);
      PendingAll([p], q.pcb, j);
      assert Pending(q.ready, q.pcb, j) + [] == Pending(q.ready, q.pcb, j);
    }
  }

  lemma {:induction false} ArrivalsFlow(s: seq<int>, v: View, k: int)
    ensures Arrived(Arrivals(s)) == s && Dispatched(Arrivals(s)) == [] && Leads(v, Arrivals(s), k, v)
  {
    if s != [] {
      assert Arrivals(s)[1..] == Arrivals(s[1..]);
      ArrivalsFlow(s[1..], v, k);
      assert s == [s[0]] + s[1..];
    }
  }

  lemma DrainFlows(q: Queues, k: int)
    requires Shape(q) && IsSlot(k) && q.slots[k].used > 0 && Shape(Drain(q, k).q)
    requires forall t :: t in q.blocked[k] ==> q.pcb[t].wait == k
    ensures Flows(q, Drain(q, k))
  {
    DrainFifo(q, k);
    forall j | IsSlot(j) ensures Explains(q, Drain(q, k), j) {
      DrainExplains(q, k, j);
    }
  }

  lemma DrainFifo(q: Queues, k: int)
    requires Shape(q) && IsSlot(k)
    ensures Fifo(q.ready, Drain(q, k).ev, Drain(q, k).q.ready)
  {
    hide Arrivals, Arrived, Dispatched;
    DestroyFlow(q.blocked[k], k);
  }

  lemma DestroyFlow(b: seq<int>, k: int)
    ensures Arrived([Destroy(k)] + Arrivals(b)) == b && Dispatched([Destroy(k)] + Arrivals(b)) == []
  {
    hide Arrivals, Arrived, Dispatched, Leads;
    var v := View(0, 0, [], []);
    ArrivalsFlow(b, v, k);
    Single(v, Destroy(k), k);
    ArrivedConcat([Destroy(k)], Arrivals(b));
    DispatchedConcat([Destroy(k)], Arrivals(b));
    assert [] + b == b;
  }

  lemma DrainView(q: Queues, k: int, j: int)
    requires Shape(q) && IsSlot(k) && Shape(Drain(q, k).q) && IsSlot(j)
    requires forall t :: t in q.blocked[k] ==> q.pcb[t].wait == k
    ensures ViewOf(Drain(q, k).q, j) ==
            if j == k then View(-|q.blocked[k]|, q.slots[k].count, [], ViewOf(q, k).pending + q.blocked[k])
            else ViewOf(q, j)
  {
    var b := q.blocked[k];
    PendingConcat(q.ready, b, q.pcb, j);
    PendingAll(b, q.pcb, j);
    assert Pending(q.ready, q.pcb, j) + [] == Pending(q.ready, q.pcb, j);
  }

  lemma DrainExplains(q: Queues, k: int, j: int)
    requires Shape(q) && IsSlot(k) && q.slots[k].used > 0 && Shape(Drain(q, k).q) && IsSlot(j)
    requires forall t :: t in q.blocked[k] ==> q.pcb[t].wait == k
    ensures Explains(q, Drain(q, k), j)
  {
    hide Pending, Leads;
    DrainView(q, k, j);
    DrainLeads(ViewOf(q, j), ViewOf(Drain(q, k).q, j), k, j, q.blocked[k]);
  }

  lemma DrainLeads(v: View, w: View, k: int, j: int, b: seq<int>)
    requires Legal(v, Destroy(k), j) && w == Play(v, Destroy(k), j)
    ensures Leads(v, [Destroy(k)] + Arrivals(b), j, w)
  {
    Single(v, Destroy(k), j);
    ArrivalsFlow(b, w, j);
    LeadsConcat(v, [Destroy(k)], w, Arrivals(b), j, w);
  }

  lemma SpawnFlows(q: Queues)
    requires Shape(q) && q.free != [] && Shape(Spawn(q).q) && q.free[0] !in q.ready
    ensures Flows(q, Spawn(q))
  {
    PushFlows(q, q.free[0], Spawn(q).q.pcb);
    PushSame(q, Spawn(q), q.free[0]);
  }

  // ---- the system calls ----

  /** What the invariant says about list members, in the form the lemmas above need. */
  lemma Members(q: Queues)
    requires Shape(q) && Places(q) && Waits(q)
    ensures q.at[q.cur] == OnCpu ==> q.pcb[q.cur].wait == -1 && q.cur !in q.ready
    ensures q.ready != [] ==> q.ready[0] !in q.ready[1..]
    ensures forall k, t :: IsSlot(k) && t in q.blocked[k] ==> q.pcb[t].wait == k
    ensures q.free != [] ==> q.free[0] !in q.ready
  {
    if q.free != [] {
      assert q.free[0] in q.free;
    }
    if q.ready != [] {
      assert q.ready == [q.ready[0]] + q.ready[1..];
    }
  }

  lemma TickFlows(q: Queues)
    requires Inv(q)
    ensures Shape(Tick(q).q) && Flows(q, Tick(q))
  {
    hide Places, Pids, SlotTable, Owners, Waits, Drains, Quanta;
    TickKeeps(q);
    Members(q);
    var q1 := q.(left := q.left - 1);
    if (q1.left == 0 || q.cur == q.idle) && !(q.cur == q.idle && q.ready == []) {
      LeftCore(q, q1.left);
      YieldKeeps(q1);
      var y := Yield(q1);
      Members(y.q);
      SchedNextKeeps(y.q);
      YieldFlows(q1);
      SchedNextFlows(y.q);
      ThenFlows(q1, y, SchedNext(y.q));
      FlowsFrom(q, q1, Then(y, SchedNext(y.q)));
    } else {
      SilentFlows(q, Tick(q));
    }
  }

  lemma FlowsFrom(q: Queues, q1: Queues, r: Outcome)
    requires Shape(q) && Shape(q1) && Shape(r.q) && Flows(q1, r)
    requires q1.ready == q.ready && q1.slots == q.slots && q1.blocked == q.blocked && q1.pcb == q.pcb
    ensures Flows(q, r)
  {
    forall k | IsSlot(k) ensures Explains(q, r, k) {
      assert Explains(q1, r, k);
    }
  }

  lemma WaitFlows(q: Queues, id: int)
    requires Inv(q) && q.cur != q.idle
    ensures Shape(SemWait(q, id).q) && Flows(q, SemWait(q, id))
  {
    hide Places, Pids, SlotTable, Owners, Waits, Drains, Quanta, Flows, BlockOn, SchedNext;
    WaitKeeps(q, id);
    var k := FindId(q.slots, id, 0);
    if k >= 0 && q.slots[k].used > 0 {
      SlotFact(q, k);
      if q.slots[k].count > 0 {
        CountFlows(q, k, q.slots[k].count - 1, Take(k, q.cur), Value(-1));
      } else {
        BlockedFlows(q, k);
      }
    } else {
      SilentFlows(q, SemWait(q, id));
    }
  }

  lemma BlockedFlows(q: Queues, k: int)
    requires Inv(q) && q.cur != q.idle && IsSlot(k) && q.slots[k].used > 0 && q.slots[k].count == 0
    ensures Shape(BlockOn(q, k).q) && Shape(SchedNext(BlockOn(q, k).q).q)
    ensures Flows(q, Then(BlockOn(q, k), SchedNext(BlockOn(q, k).q)))
  {
    hide Places, Pids, SlotTable, Owners, Waits, Drains, Quanta, Flows, BlockOn, SchedNext;
    Members(q);
    BlockKeeps(q, k);
    var b := BlockOn(q, k);
    Members(b.q);
    SchedNextKeeps(b.q);
    BlockFlows(q, k);
    SchedNextFlows(b.q);
    ThenFlows(q, b, SchedNext(b.q));
  }

  lemma SignalFlows(q: Queues, id: int)
    requires Inv(q) && q.cur != q.idle
    ensures Shape(SemSignal(q, id).q) && Flows(q, SemSignal(q, id))
  {
    hide Places, Pids, SlotTable, Owners, Waits, Drains, Quanta;
    Members(q);
    var k := FindId(q.slots, id, 0);
    if k >= 0 && q.slots[k].used > 0 {
      if q.blocked[k] == [] {
        CountFlows(q, k, (q.slots[k].count + 1) % UINT_MOD, Post(k, q.cur), Value(0));
      } else {
        WakeFlows(q, k);
      }
    } else {
      SilentFlows(q, SemSignal(q, id));
    }
  }

  lemma InternalDestroyFlows(q: Queues, k: int)
    requires Core(q) && q.at[q.cur] == OnCpu && IsSlot(k)
    ensures Shape(InternalDestroy(q, k).q) && Flows(q, InternalDestroy(q, k))
  {
    hide Places, Pids, SlotTable, Owners, Waits, Drains, Quanta;
    Members(q);
    DrainShape(q, k);
    if q.slots[k].used > 0 && q.slots[k].owner == q.pcb[q.cur].pid {
      DrainFlows(q, k);
    } else {
      SilentFlows(q, InternalDestroy(q, k));
    }
  }

  lemma DestroyFlows(q: Queues, id: int)
    requires Inv(q) && q.cur != q.idle
    ensures Shape(SemDestroy(q, id).q) && Flows(q, SemDestroy(q, id))
  {
    hide Places, Pids, SlotTable, Owners, Waits, Drains, Quanta;
    var k := FindId(q.slots, id, 0);
    if k >= 0 {
      InternalDestroyFlows(q, k);
    } else {
      SilentFlows(q, SemDestroy(q, id));
    }
  }

  lemma {:induction false} DestroyOwnedFlows(q: Queues, pid: int, i: nat)
    requires Core(q) && q.at[q.cur] == OnCpu && q.pcb[q.cur].pid == pid && i <= N_SEMAFORS
    ensures Flows(q, DestroyOwned(q, pid, i))
    decreases N_SEMAFORS - i
  {
    hide Places, Pids, SlotTable, Owners, Waits, Drains, Quanta, Flows;
    if i == N_SEMAFORS {
      SilentFlows(q, DestroyOwned(q, pid, i));
    } else if q.slots[i].used > 0 && q.slots[i].owner == pid {
      InternalDestroyKeeps(q, i);
      InternalDestroyFlows(q, i);
      var r := InternalDestroy(q, i);
      DestroyOwnedFlows(r.q, pid, i + 1);
      ThenFlows(q, r, DestroyOwned(r.q, pid, i + 1));
    } else {
      DestroyOwnedFlows(q, pid, i + 1);
    }
  }

  lemma ExitFlows(q: Queues)
    requires Inv(q) && q.cur != q.idle
    ensures Shape(Exit(q).q) && Flows(q, Exit(q))
  {
    hide Places, Pids, SlotTable, Owners, Waits, Drains, Quanta, Flows, SchedNext, DestroyOwned;
    Members(q);
    var pid := q.pcb[q.cur].pid;
    var a := DestroyOwned(q, pid, 0);
    DestroyOwnedKeeps(q, pid, 0);
    DestroyOwnedFlows(q, pid, 0);
    var b := Bury(a.q);
    BuryKeeps(a.q);
    Members(a.q);
    SilentFlows(a.q, b);
    ThenFlows(q, a, b);
    Members(b.q);
    SchedNextKeeps(b.q);
    SchedNextFlows(b.q);
    ThenFlows(q, Then(a, b), SchedNext(b.q));
  }
}
