/** The invariant of the queue world and its preservation by every primitive of Tasks. */
module TasksInv {
  import opened Config
  import L = Lists
  import opened Tasks

  /** `s` holds, once each, exactly the tasks that are at `place`. */
  ghost predicate Queue(s: seq<int>, at: seq<Place>, place: Place) {
    && |at| == NR_TASKS
    && L.Injective(s) && AreTasks(s)
    && (forall t :: IsTask(t) ==> (t in s <==> at[t] == place))
  }

  /** The lists partition the control blocks, and `at` says where each one is. */
  ghost predicate Places(q: Queues)
    requires Shape(q)
  {
    && Queue(q.free, q.at, OnFree)
    && Queue(q.ready, q.at, OnReady)
    && (forall k :: IsSlot(k) ==> Queue(q.blocked[k], q.at, OnSem(k)))
    && PlacesOk(q.at, q.cur, q.idle)
  }

  ghost predicate PlacesOk(at: seq<Place>, cur: int, idle: int)
    requires |at| == NR_TASKS && IsTask(cur) && IsTask(idle)
  {
    && (forall t :: IsTask(t) && at[t].OnSem? ==> IsSlot(at[t].slot))
    && (forall t :: IsTask(t) && at[t] == OnCpu ==> t == cur)
    && (forall t :: IsTask(t) && at[t] == Aside ==> t == idle)
    && (at[idle] == Aside || at[idle] == OnCpu)
  }

  /** A block is free exactly when its pid is -1; the pids of live tasks are distinct and were all
      handed out already. */
  ghost predicate Pids(q: Queues)
    requires Shape(q)
  {
    && (forall t :: IsTask(t) ==> (q.at[t] == OnFree <==> q.pcb[t].pid == -1))
    && (forall t :: IsTask(t) ==> -1 <= q.pcb[t].pid <= q.lastPid)
    && (forall t, u :: IsTask(t) && IsTask(u) && q.pcb[t].pid == q.pcb[u].pid && q.pcb[t].pid != -1 ==> t == u)
  }

  /** The slot table: live slots are those with a proper id, ids are unique, and neither an unused slot
      nor one with tokens left has waiters. */
  ghost predicate SlotTable(q: Queues)
    requires Shape(q)
  {
    && (forall k :: IsSlot(k) ==> SlotOk(q.slots[k], q.blocked[k]))
    && (forall j, k :: IsSlot(j) && IsSlot(k) && q.slots[j].used > 0 && q.slots[j].id == q.slots[k].id ==> j == k)
  }

  ghost predicate SlotOk(s: Slot, blocked: seq<int>) {
    && s.used <= 1
    && (s.used > 0 <==> s.id != DEAD)
    && 0 <= s.count < UINT_MOD
    && (s.used <= 0 ==> blocked == [])
    && (s.used > 0 && s.count > 0 ==> blocked == [])
  }

  ghost predicate Owned(q: Queues, k: int)
    requires Shape(q) && IsSlot(k)
  {
    exists t :: IsTask(t) && q.pcb[t].pid != -1 && q.pcb[t].pid == q.slots[k].owner
  }

  /** No orphan semaphores: the owner of a live slot is a live task. */
  ghost predicate Owners(q: Queues)
    requires Shape(q)
  {
    forall k :: IsSlot(k) && q.slots[k].used > 0 ==> Owned(q, k)
  }

  /** A blocked task will resume in the sem_wait it is blocked in, a running one in no sem_wait. */
  ghost predicate Waits(q: Queues)
    requires Shape(q)
  {
    && (forall t :: IsTask(t) && q.at[t].OnSem? ==> q.pcb[t].wait == q.at[t].slot)
    && (forall t :: IsTask(t) && (q.at[t] == OnCpu || q.at[t] == Aside) ==> q.pcb[t].wait == -1)
  }

  /** The ready tasks that still have to resume inside sem_wait on slot `k`, in queue order. */
  ghost function Pending(ready: seq<int>, pcb: seq<Pcb>, k: int): seq<int>
    requires |pcb| == NR_TASKS && AreTasks(ready)
  {
    if ready == [] then []
    else (if pcb[ready[0]].wait == k then [ready[0]] else []) + Pending(ready[1..], pcb, k)
  }

  /** A draining slot with used == -n has at least n tasks still to resume on it. */
  ghost predicate Drains(q: Queues)
    requires Shape(q)
  {
    forall k :: IsSlot(k) && q.slots[k].used < 0 ==> |Pending(q.ready, q.pcb, k)| >= -q.slots[k].used
  }

  ghost predicate Quanta(q: Queues)
    requires Shape(q)
  {
    forall t :: IsTask(t) && q.at[t] != OnFree ==> q.pcb[t].quantum == DEFAULT_QUANTUM
  }

  ghost predicate Core(q: Queues) {
    Shape(q) && Places(q) && Pids(q) && SlotTable(q) && Owners(q) && Waits(q) && Drains(q) && Quanta(q)
  }

  /** Nobody has the processor: the state in which sched_next_rr is called. */
  ghost predicate Vacant(q: Queues)
    requires Shape(q)
  {
    forall t :: IsTask(t) ==> q.at[t] != OnCpu
  }

  /** The invariant between two steps. */
  ghost predicate Inv(q: Queues) {
    && Core(q)
    && q.at[q.cur] == OnCpu
    && 1 <= q.left <= DEFAULT_QUANTUM
    && (q.cur == q.idle ==> q.ready == [])
  }

  // ---- pending resumptions ----

  lemma {:induction false} PendingConcat(a: seq<int>, b: seq<int>, pcb: seq<Pcb>, k: int)
    requires |pcb| == NR_TASKS && AreTasks(a) && AreTasks(b)
    ensures AreTasks(a + b)
    ensures Pending(a + b, pcb, k) == Pending(a, pcb, k) + Pending(b, pcb, k)
  {
    assert AreTasks(a + b);
    if a == [] {
      assert a + b == b;
    } else {
      PendingConcat(a[1..], b, pcb, k);
      assert (a + b)[1..] == a[1..] + b;
      var h := if pcb[a[0]].wait == k then [a[0]] else [];
      assert Pending(a + b, pcb, k) == h + Pending(a[1..] + b, pcb, k);
      assert (h + Pending(a[1..], pcb, k)) + Pending(b, pcb, k) == h + (Pending(a[1..], pcb, k) + Pending(b, pcb, k));
    }
  }

  lemma {:induction false} PendingFrame(r: seq<int>, pcb: seq<Pcb>, pcb': seq<Pcb>, k: int)
    requires |pcb| == |pcb'| == NR_TASKS && AreTasks(r)
    requires forall t :: t in r ==> (pcb[t].wait == k <==> pcb'[t].wait == k)
    ensures Pending(r, pcb, k) == Pending(r, pcb', k)
  {
    if r != [] {
      PendingFrame(r[1..], pcb, pcb', k);
    }
  }

  lemma {:induction false} PendingAll(r: seq<int>, pcb: seq<Pcb>, k: int)
    requires |pcb| == NR_TASKS && AreTasks(r)
    ensures (forall t :: t in r ==> pcb[t].wait == k) ==> Pending(r, pcb, k) == r
    ensures (forall t :: t in r ==> pcb[t].wait != k) ==> Pending(r, pcb, k) == []
  {
    if r != [] {
      PendingAll(r[1..], pcb, k);
      assert r == [r[0]] + r[1..];
    }
  }

  // ---- queues and places ----

  lemma Frame(s: seq<int>, at: seq<Place>, place: Place, x: int, p: Place)
    requires Queue(s, at, place) && IsTask(x) && at[x] != place && p != place
    ensures Queue(s, at[x := p], place)
  {
  }

  lemma Push(s: seq<int>, at: seq<Place>, place: Place, x: int)
    requires Queue(s, at, place) && IsTask(x) && at[x] != place
    ensures Queue(s + [x], at[x := place], place)
  {
    var s' := s + [x];
    assert s'[|s|] == x;
    assert forall t :: t in s' <==> t in s || t == x;
  }

  lemma Pop(s: seq<int>, at: seq<Place>, place: Place, p: Place)
    requires Queue(s, at, place) && s != [] && p != place
    ensures Queue(s[1..], at[s[0] := p], place)
  {
    assert s == [s[0]] + s[1..];
    assert s[0] !in s[1..];
    assert forall t :: t in s <==> t == s[0] || t in s[1..];
  }

  lemma PushAll(s: seq<int>, b: seq<int>, at: seq<Place>, place: Place)
    requires Queue(s, at, OnReady) && Queue(b, at, place) && place != OnReady
    ensures Queue(s + b, SetReady(at, b), OnReady)
  {
    var s' := s + b;
    assert forall t :: t in s' <==> t in s || t in b;
    assert forall i :: 0 <= i < |s'| ==> s'[i] == if i < |s| then s[i] else b[i - |s|];
    assert forall i, j :: 0 <= i < |s| && 0 <= j < |b| ==> s[i] in s && b[j] in b && s[i] != b[j];
  }

  lemma FrameAll(s: seq<int>, b: seq<int>, at: seq<Place>, place: Place, other: Place)
    requires Queue(s, at, place) && Queue(b, at, other) && place != OnReady && place != other
    ensures Queue(s, SetReady(at, b), place)
  {
  }

  /** One task moves from a place that is no list to list `p`, or the other way round. */
  lemma FrameBlocked(q: Queues, x: int, p: Place, skip: int)
    requires Shape(q) && Places(q) && IsTask(x)
    requires forall k :: IsSlot(k) && k != skip ==> q.at[x] != OnSem(k) && p != OnSem(k)
    ensures forall k :: IsSlot(k) && k != skip ==> Queue(q.blocked[k], q.at[x := p], OnSem(k))
  {
    forall k | IsSlot(k) && k != skip ensures Queue(q.blocked[k], q.at[x := p], OnSem(k)) {
      Frame(q.blocked[k], q.at, OnSem(k), x, p);
    }
  }

  // ---- Places, primitive by primitive ----

  lemma YieldPlaces(q: Queues)
    requires Shape(q) && Places(q) && q.at[q.cur] == OnCpu
    ensures Shape(Yield(q).q) && Places(Yield(q).q) && Vacant(Yield(q).q)
  {
    var p := if q.cur == q.idle then Aside else OnReady;
    Frame(q.free, q.at, OnFree, q.cur, p);
    FrameBlocked(q, q.cur, p, -1);
    if q.cur == q.idle {
      Frame(q.ready, q.at, OnReady, q.cur, p);
    } else {
      Push(q.ready, q.at, OnReady, q.cur);
    }
  }

  lemma HeadPlaces(q: Queues)
    requires Shape(q) && Places(q) && Vacant(q) && q.ready != []
    ensures var t := q.ready[0];
            var q' := q.(ready := q.ready[1..], at := q.at[t := OnCpu], cur := t);
            Shape(q') && Places(q') && q.at[t] == OnReady && t != q.idle && t !in q'.ready
  {
    var t := q.ready[0];
    assert t in q.ready;
    Pop(q.ready, q.at, OnReady, OnCpu);
    Frame(q.free, q.at, OnFree, t, OnCpu);
    FrameBlocked(q, t, OnCpu, -1);
  }

  lemma SleepPlaces(q: Queues)
    requires Shape(q) && Places(q) && Vacant(q)
    ensures var q' := q.(at := q.at[q.idle := OnCpu], cur := q.idle);
            Shape(q') && Places(q') && q.at[q.idle] == Aside
  {
    Frame(q.ready, q.at, OnReady, q.idle, OnCpu);
    Frame(q.free, q.at, OnFree, q.idle, OnCpu);
    FrameBlocked(q, q.idle, OnCpu, -1);
  }

  lemma BlockPlaces(q: Queues, k: int)
    requires Shape(q) && Places(q) && q.at[q.cur] == OnCpu && q.cur != q.idle && IsSlot(k)
    ensures var q' := BlockOn(q, k).q; Shape(q') && Places(q') && Vacant(q')
  {
    Frame(q.free, q.at, OnFree, q.cur, OnSem(k));
    Frame(q.ready, q.at, OnReady, q.cur, OnSem(k));
    FrameBlocked(q, q.cur, OnSem(k), k);
    Push(q.blocked[k], q.at, OnSem(k), q.cur);
  }

  lemma WakePlaces(q: Queues, k: int)
    requires Shape(q) && Places(q) && IsSlot(k) && q.blocked[k] != [] && q.at[q.cur] == OnCpu
    ensures var p := q.blocked[k][0];
            var q' := q.(blocked := q.blocked[k := q.blocked[k][1..]], ready := q.ready + [p],
                         at := q.at[p := OnReady]);
            Shape(q') && Places(q') && q'.at[q.cur] == OnCpu && q.at[p] == OnSem(k)
  {
    var p := q.blocked[k][0];
    assert p in q.blocked[k];
    assert q.at[p] == OnSem(k);
    Pop(q.blocked[k], q.at, OnSem(k), OnReady);
    Frame(q.free, q.at, OnFree, p, OnReady);
    FrameBlocked(q, p, OnReady, k);
    Push(q.ready, q.at, OnReady, p);
  }

  lemma DrainPlaces(q: Queues, k: int)
    requires Shape(q) && Places(q) && IsSlot(k)
    ensures var q' := Drain(q, k).q; Shape(q') && Places(q')
  {
    var b := q.blocked[k];
    PushAll(q.ready, b, q.at, OnSem(k));
    FrameAll(q.free, b, q.at, OnFree, OnSem(k));
    forall j | IsSlot(j) && j != k ensures Queue(q.blocked[j], SetReady(q.at, b), OnSem(j)) {
      FrameAll(q.blocked[j], b, q.at, OnSem(j), OnSem(k));
    }
  }

  lemma SpawnPlaces(q: Queues)
    requires Shape(q) && Places(q) && q.free != []
    ensures var q' := Spawn(q).q; Shape(q') && Places(q')
  {
    var c := q.free[0];
    assert c in q.free;
    Pop(q.free, q.at, OnFree, OnReady);
    FrameBlocked(q, c, OnReady, -1);
    Push(q.ready, q.at, OnReady, c);
  }

  lemma BuryPlaces(q: Queues)
    requires Shape(q) && Places(q) && q.at[q.cur] == OnCpu && q.cur != q.idle
    ensures var q' := Bury(q).q; Shape(q') && Places(q') && Vacant(q')
  {
    Frame(q.ready, q.at, OnReady, q.cur, OnFree);
    FrameBlocked(q, q.cur, OnFree, -1);
    Push(q.free, q.at, OnFree, q.cur);
  }

  // ---- the other parts of the invariant, primitive by primitive ----

  ghost predicate Records(q: Queues)
    requires Shape(q)
  {
    Pids(q) && SlotTable(q) && Owners(q) && Waits(q) && Quanta(q)
  }

  lemma YieldRest(q: Queues)
    requires Shape(q) && Records(q) && Drains(q) && q.at[q.cur] == OnCpu && Shape(Yield(q).q)
    ensures Records(Yield(q).q) && Drains(Yield(q).q)
  {
    hide Pending, Owners, Drains;
    var q' := Yield(q).q;
    forall k | IsSlot(k) ensures Pending(q'.ready, q'.pcb, k) == Pending(q.ready, q.pcb, k) {
      if q.cur != q.idle {
        PendingConcat(q.ready, [q.cur], q.pcb, k);
        PendingAll([q.cur], q.pcb, k);
      }
    }
    DrainsKept(q, q');
    OwnersKept(q, q');
  }

  /** The pcb update of Finish: only `wait` changes, of a task that is neither blocked nor idle. */
  lemma WaitRecords(q: Queues, at': seq<Place>, t: int, cur': int, left': int, ready': seq<int>)
    requires Shape(q) && Records(q) && IsTask(t) && (q.at[t] == OnReady || q.at[t] == Aside)
    requires at' == q.at[t := OnCpu] && IsTask(cur') && AreTasks(ready')
    ensures var q' := q.(at := at', cur := cur', left := left', ready := ready',
                         pcb := q.pcb[t := q.pcb[t].(wait := -1)]);
            Shape(q') && Records(q')
  {
    hide Owners;
    var q' := q.(at := at', cur := cur', left := left', ready := ready', pcb := q.pcb[t := q.pcb[t].(wait := -1)]);
    OwnersKept(q, q');
  }

  lemma TokenRecords(q: Queues, k: int)
    requires Shape(q) && Records(q) && IsSlot(k) && q.slots[k].used < 0
    ensures Records(q.(slots := q.slots[k := q.slots[k].(used := q.slots[k].used + 1)]))
  {
    var q' := q.(slots := q.slots[k := q.slots[k].(used := q.slots[k].used + 1)]);
    forall j | IsSlot(j) && q'.slots[j].used > 0 ensures Owned(q', j) {
      assert Owned(q, j);
    }
  }

  /** Dispatching the head of the ready queue uses up one pending resumption on the slot it waits in,
      and one token of that slot if the slot is draining. */
  lemma HeadDrains(q: Queues)
    requires Shape(q) && Drains(q) && q.ready != [] && q.ready[0] !in q.ready[1..]
    requires Shape(SchedNext(q).q)
    ensures Drains(SchedNext(q).q)
  {
    var q' := SchedNext(q).q;
    forall k | IsSlot(k) && q'.slots[k].used < 0 ensures |Pending(q'.ready, q'.pcb, k)| >= -q'.slots[k].used {
      PendingFrame(q.ready[1..], q.pcb, q'.pcb, k);
    }
  }

  lemma SchedNextKeeps(q: Queues)
    requires Core(q) && Vacant(q)
    ensures Inv(SchedNext(q).q)
  {
    if q.ready == [] {
      SleepPlaces(q);
      WaitRecords(q, q.at[q.idle := OnCpu], q.idle, q.idle, q.pcb[q.idle].quantum, q.ready);
      assert q.pcb[q.idle].(wait := -1) == q.pcb[q.idle];
      assert q.pcb[q.idle := q.pcb[q.idle]] == q.pcb;
    } else {
      HeadKeeps(q);
    }
  }

  lemma HeadKeeps(q: Queues)
    requires Core(q) && Vacant(q) && q.ready != []
    ensures Inv(SchedNext(q).q)
  {
    var t := q.ready[0];
    var k := q.pcb[t].wait;
    HeadPlaces(q);
    WaitRecords(q, q.at[t := OnCpu], t, t, q.pcb[t].quantum, q.ready[1..]);
    var q1 := q.(at := q.at[t := OnCpu], cur := t, left := q.pcb[t].quantum, ready := q.ready[1..],
                 pcb := q.pcb[t := q.pcb[t].(wait := -1)]);
    if k < 0 {
      assert q.pcb[t].(wait := -1) == q.pcb[t];
      assert q.pcb[t := q.pcb[t]] == q.pcb;
      assert SchedNext(q).q == q1;
    } else if q.slots[k].used < 0 {
      TokenRecords(q1, k);
      assert SchedNext(q).q == q1.(slots := q.slots[k := q.slots[k].(used := q.slots[k].used + 1)]);
    } else {
      assert SchedNext(q).q == q1;
    }
    HeadDrains(q);
  }

  lemma YieldKeeps(q: Queues)
    requires Core(q) && q.at[q.cur] == OnCpu
    ensures var q' := Yield(q).q; Core(q') && Vacant(q') && (q.cur != q.idle ==> q'.ready != [])
  {
    YieldPlaces(q);
    YieldRest(q);
  }

  lemma BlockRest(q: Queues, k: int)
    requires Shape(q) && Records(q) && Drains(q) && q.at[q.cur] == OnCpu
    requires IsSlot(k) && q.slots[k].used > 0 && q.slots[k].count == 0 && Shape(BlockOn(q, k).q)
    requires forall t :: t in q.ready ==> t != q.cur
    ensures Records(BlockOn(q, k).q) && Drains(BlockOn(q, k).q)
  {
    hide Pending, Owners, Drains;
    var q' := BlockOn(q, k).q;
    forall j | IsSlot(j) ensures Pending(q'.ready, q'.pcb, j) == Pending(q.ready, q.pcb, j) {
      PendingFrame(q.ready, q.pcb, q'.pcb, j);
    }
    DrainsKept(q, q');
    OwnersKept(q, q');
  }

  /** Live slots keep their owners, and the owners their pids. */
  lemma OwnersKept(q: Queues, q': Queues)
    requires Shape(q) && Shape(q') && Owners(q)
    requires forall k :: IsSlot(k) && q'.slots[k].used > 0 ==>
               q.slots[k].used > 0 && q'.slots[k].owner == q.slots[k].owner
    requires forall t :: IsTask(t) ==> q'.pcb[t].pid == q.pcb[t].pid
    ensures Owners(q')
  {
    forall k | IsSlot(k) && q'.slots[k].used > 0 ensures Owned(q', k) {
      OwnedFrame(q, q', k);
    }
  }

  /** At least as many tasks still have to resume on each slot, and no more tokens ask for them. */
  lemma DrainsKept(q: Queues, q': Queues)
    requires Shape(q) && Shape(q') && Drains(q)
    requires forall k :: IsSlot(k) ==> q'.slots[k].used >= q.slots[k].used || q'.slots[k].used >= 0
    requires forall k :: IsSlot(k) ==> |Pending(q'.ready, q'.pcb, k)| >= |Pending(q.ready, q.pcb, k)|
    ensures Drains(q')
  {
    hide Pending;
  }

  lemma OwnedFrame(q: Queues, q': Queues, k: int)
    requires Shape(q) && Shape(q') && IsSlot(k) && Owned(q, k)
    requires q'.slots[k].owner == q.slots[k].owner
    requires forall t :: IsTask(t) && q.pcb[t].pid == q.slots[k].owner ==> q'.pcb[t].pid == q.pcb[t].pid
    ensures Owned(q', k)
  {
  }

  lemma BlockKeeps(q: Queues, k: int)
    requires Core(q) && q.at[q.cur] == OnCpu && q.cur != q.idle
    requires IsSlot(k) && q.slots[k].used > 0 && q.slots[k].count == 0
    ensures Core(BlockOn(q, k).q) && Vacant(BlockOn(q, k).q)
  {
    BlockPlaces(q, k);
    BlockRest(q, k);
  }

  lemma InitKeeps(q: Queues, id: int, value: int)
    requires Inv(q) && 0 <= value < UINT_MOD
    ensures Inv(SemInit(q, id, value).q)
  {
    var f := FindFree(q.slots, 0);
    if FindId(q.slots, id, 0) < 0 && f >= 0 {
      InitTable(q, id, value, f);
      InitOthers(q, id, value, f);
      hide Places, Pids, SlotTable, Owners, Waits, Drains, Quanta;
    }
  }

  /** A new id cannot be 0xDEAD as long as a slot is unused, because that slot has id 0xDEAD. */
  lemma InitTable(q: Queues, id: int, value: int, f: int)
    requires Shape(q) && SlotTable(q) && 0 <= value < UINT_MOD && IsSlot(f) && q.slots[f].used == 0
    requires forall k :: IsSlot(k) ==> q.slots[k].id != id
    ensures var q' := q.(slots := q.slots[f := Slot(id, value, q.pcb[q.cur].pid, 1)], blocked := q.blocked[f := []]);
            Shape(q') && SlotTable(q') && q' == q.(slots := q'.slots)
  {
    assert SlotOk(q.slots[f], q.blocked[f]);
    assert q.blocked[f := []] == q.blocked;
  }

  lemma InitOthers(q: Queues, id: int, value: int, f: int)
    requires Shape(q) && Owners(q) && Pids(q) && Drains(q) && IsSlot(f) && q.at[q.cur] == OnCpu
    ensures var q' := q.(slots := q.slots[f := Slot(id, value, q.pcb[q.cur].pid, 1)]);
            Owners(q') && Drains(q')
  {
    var q' := q.(slots := q.slots[f := Slot(id, value, q.pcb[q.cur].pid, 1)]);
    forall j | IsSlot(j) && q'.slots[j].used > 0 ensures Owned(q', j) {
      if j == f {
        assert q'.pcb[q.cur].pid == q'.slots[j].owner;
      } else {
        OwnedFrame(q, q', j);
      }
    }
  }

  lemma CountRecords(q: Queues, k: int, count: int)
    requires Shape(q) && Records(q) && IsSlot(k) && 0 <= count < UINT_MOD
             && (q.slots[k].used > 0 ==> q.blocked[k] == [])
    ensures Records(q.(slots := q.slots[k := q.slots[k].(count := count)]))
  {
    hide Owners;
    var q' := q.(slots := q.slots[k := q.slots[k].(count := count)]);
    OwnersKept(q, q');
  }

  lemma CountKeeps(q: Queues, k: int, count: int)
    requires Inv(q) && IsSlot(k) && 0 <= count < UINT_MOD && q.blocked[k] == []
    ensures Inv(q.(slots := q.slots[k := q.slots[k].(count := count)]))
  {
    CountRecords(q, k, count);
  }

  lemma WakeKeeps(q: Queues, k: int)
    requires Inv(q) && q.cur != q.idle && IsSlot(k) && q.slots[k].used > 0 && q.blocked[k] != []
    ensures var p := q.blocked[k][0];
            Inv(q.(blocked := q.blocked[k := q.blocked[k][1..]], ready := q.ready + [p], at := q.at[p := OnReady]))
  {
    WakePlaces(q, k);
    WakeRest(q, k);
  }

  lemma WakeRest(q: Queues, k: int)
    requires Shape(q) && Records(q) && Drains(q) && IsSlot(k) && q.slots[k].used > 0 && q.blocked[k] != []
    requires q.at[q.blocked[k][0]] == OnSem(k)
    ensures var p := q.blocked[k][0];
            var q' := q.(blocked := q.blocked[k := q.blocked[k][1..]], ready := q.ready + [p],
                         at := q.at[p := OnReady]);
            Shape(q') && Records(q') && Drains(q')
  {
    hide Pending, Owners, Drains;
    var p := q.blocked[k][0];
    var q' := q.(blocked := q.blocked[k := q.blocked[k][1..]], ready := q.ready + [p], at := q.at[p := OnReady]);
    forall j | IsSlot(j) ensures |Pending(q'.ready, q'.pcb, j)| >= |Pending(q.ready, q.pcb, j)| {
      PendingConcat(q.ready, [p], q.pcb, j);
    }
    DrainsKept(q, q');
    OwnersKept(q, q');
  }

  lemma DrainKeeps(q: Queues, k: int)
    requires Core(q) && IsSlot(k) && q.slots[k].used > 0
    ensures Core(Drain(q, k).q)
    ensures forall t :: IsTask(t) && !q.at[t].OnSem? ==> Drain(q, k).q.at[t] == q.at[t]
  {
    DrainPlaces(q, k);
    var b := q.blocked[k];
    assert forall t :: t in b ==> q.at[t] == OnSem(k);
    DrainRest(q, k);
  }

  lemma DrainRest(q: Queues, k: int)
    requires Shape(q) && Records(q) && Drains(q) && IsSlot(k) && q.slots[k].used > 0 && Shape(Drain(q, k).q)
    requires forall t :: t in q.blocked[k] ==> q.at[t] == OnSem(k)
    ensures Records(Drain(q, k).q) && Drains(Drain(q, k).q)
  {
    hide Pending, Owners;
    var q' := Drain(q, k).q;
    var b := q.blocked[k];
    forall j | IsSlot(j)
      ensures |Pending(q'.ready, q'.pcb, j)| >= |Pending(q.ready, q.pcb, j)| + if j == k then |b| else 0
    {
      PendingConcat(q.ready, b, q.pcb, j);
      PendingAll(b, q.pcb, j);
    }
    OwnersKept(q, q');
  }

  lemma SpawnKeeps(q: Queues)
    requires Inv(q) && q.cur != q.idle && q.free != []
    ensures Inv(Spawn(q).q)
  {
    SpawnPlaces(q);
    assert q.free[0] in q.free;
    SpawnRest(q);
  }

  lemma SpawnRest(q: Queues)
    requires Shape(q) && Records(q) && Drains(q) && q.free != [] && q.at[q.cur] == OnCpu
    requires q.at[q.free[0]] == OnFree && Shape(Spawn(q).q) && q.free[0] !in q.ready
    ensures Records(Spawn(q).q) && Drains(Spawn(q).q)
  {
    hide Pending, Drains;
    var q' := Spawn(q).q;
    var c := q.free[0];
    forall j | IsSlot(j) ensures Pending(q'.ready, q'.pcb, j) == Pending(q.ready, q.pcb, j) {
      PendingFrame(q.ready, q.pcb, q'.pcb, j);
      PendingConcat(q.ready, [c], q'.pcb, j);
      PendingAll([c], q'.pcb, j);
    }
    DrainsKept(q, q');
    forall j | IsSlot(j) && q'.slots[j].used > 0 ensures Owned(q', j) {
      SpawnOwned(q, j);
    }
  }

  lemma SpawnOwned(q: Queues, k: int)
    requires Shape(q) && Pids(q) && q.free != [] && IsSlot(k) && Owned(q, k) && q.at[q.free[0]] == OnFree
             && Shape(Spawn(q).q)
    ensures Owned(Spawn(q).q, k)
  {
    var u :| IsTask(u) && q.pcb[u].pid != -1 && q.pcb[u].pid == q.slots[k].owner;
    assert Spawn(q).q.pcb[u].pid == q.pcb[u].pid;
  }

  lemma BuryKeeps(q: Queues)
    requires Core(q) && q.at[q.cur] == OnCpu && q.cur != q.idle
    requires forall k :: IsSlot(k) && q.slots[k].used > 0 ==> q.slots[k].owner != q.pcb[q.cur].pid
    ensures Core(Bury(q).q) && Vacant(Bury(q).q)
  {
    BuryPlaces(q);
    BuryRest(q);
  }

  lemma BuryRest(q: Queues)
    requires Shape(q) && Records(q) && Drains(q) && q.at[q.cur] == OnCpu && Shape(Bury(q).q)
    requires forall k :: IsSlot(k) && q.slots[k].used > 0 ==> q.slots[k].owner != q.pcb[q.cur].pid
    ensures Records(Bury(q).q) && Drains(Bury(q).q)
  {
    var q' := Bury(q).q;
    forall j | IsSlot(j) ensures Pending(q'.ready, q'.pcb, j) == Pending(q.ready, q.pcb, j) {
      PendingFrame(q.ready, q.pcb, q'.pcb, j);
    }
    forall j | IsSlot(j) && q'.slots[j].used > 0 ensures Owned(q', j) {
      OwnedFrame(q, q', j);
    }
  }

  // ---- the system calls ----

  lemma TickKeeps(q: Queues)
    requires Inv(q)
    ensures Inv(Tick(q).q)
  {
    hide Places, Pids, SlotTable, Owners, Waits, Drains, Quanta, SchedNext, Yield;
    var q1 := q.(left := q.left - 1);
    IdleQuantum(q);
    LeftCore(q, q1.left);
    LeftCore(q, q.pcb[q.cur].quantum);
    if (q1.left == 0 || q.cur == q.idle) && !(q.cur == q.idle && q.ready == []) {
      YieldKeeps(q1);
      SchedNextKeeps(Yield(q1).q);
    }
  }

  lemma IdleQuantum(q: Queues)
    requires Core(q) && q.at[q.cur] == OnCpu
    ensures q.pcb[q.cur].quantum == DEFAULT_QUANTUM
  {
  }

  lemma LeftCore(q: Queues, left: int)
    requires Core(q)
    ensures Core(q.(left := left))
  {
    var q' := q.(left := left);
    forall k | IsSlot(k) && q'.slots[k].used > 0 ensures Owned(q', k) {
      OwnedFrame(q, q', k);
    }
  }

  lemma SlotFact(q: Queues, k: int)
    requires Shape(q) && SlotTable(q) && IsSlot(k)
    ensures SlotOk(q.slots[k], q.blocked[k])
  {
  }

  lemma WaitKeeps(q: Queues, id: int)
    requires Inv(q) && q.cur != q.idle
    ensures Inv(SemWait(q, id).q)
  {
    hide Places, Pids, SlotTable, Owners, Waits, Drains, Quanta, BlockOn, SchedNext;
    var k := FindId(q.slots, id, 0);
    if k >= 0 && q.slots[k].used > 0 {
      SlotFact(q, k);
      if q.slots[k].count > 0 {
        CountKeeps(q, k, q.slots[k].count - 1);
      } else {
        BlockKeeps(q, k);
        SchedNextKeeps(BlockOn(q, k).q);
      }
    }
  }

  lemma SignalKeeps(q: Queues, id: int)
    requires Inv(q) && q.cur != q.idle
    ensures Inv(SemSignal(q, id).q)
  {
    hide Places, Pids, SlotTable, Owners, Waits, Drains, Quanta;
    var k := FindId(q.slots, id, 0);
    if k >= 0 && q.slots[k].used > 0 {
      if q.blocked[k] == [] {
        CountKeeps(q, k, (q.slots[k].count + 1) % UINT_MOD);
      } else {
        WakeKeeps(q, k);
      }
    }
  }

  lemma DrainFields(q: Queues, k: int)
    requires Shape(q) && IsSlot(k)
    ensures var q' := Drain(q, k).q;
            && q'.pcb == q.pcb && q'.free == q.free && q'.cur == q.cur && q'.idle == q.idle
            && q'.left == q.left && q'.lastPid == q.lastPid && |q'.slots| == |q.slots|
            && q'.slots[k].used <= 0
            && (forall j :: IsSlot(j) && j != k ==> q'.slots[j] == q.slots[j])
  {
  }

  /** destroy_owned_sems leaves no live slot that `pid` owns, and keeps the caller on the processor. */
  lemma {:induction false} DestroyOwnedKeeps(q: Queues, pid: int, i: nat)
    requires Core(q) && q.at[q.cur] == OnCpu && q.pcb[q.cur].pid == pid && i <= N_SEMAFORS
    requires forall k :: 0 <= k < i && q.slots[k].used > 0 ==> q.slots[k].owner != pid
    ensures var q' := DestroyOwned(q, pid, i).q;
            && Core(q') && q'.at[q.cur] == OnCpu && q'.cur == q.cur && q'.idle == q.idle && q'.left == q.left
            && q'.pcb == q.pcb && q'.free == q.free && q'.lastPid == q.lastPid
            && (forall k :: IsSlot(k) && q'.slots[k].used > 0 ==> q'.slots[k].owner != pid)
    decreases N_SEMAFORS - i
  {
    hide Places, Pids, SlotTable, Owners, Waits, Drains, Quanta;
    if i < N_SEMAFORS {
      if q.slots[i].used > 0 && q.slots[i].owner == pid {
        var q1 := InternalDestroy(q, i).q;
        InternalDestroyKeeps(q, i);
        DestroyOwnedKeeps(q1, pid, i + 1);
      } else {
        DestroyOwnedKeeps(q, pid, i + 1);
      }
    }
  }

  lemma InternalDestroyKeeps(q: Queues, k: int)
    requires Core(q) && q.at[q.cur] == OnCpu && IsSlot(k)
    ensures var q' := InternalDestroy(q, k).q;
            && Core(q') && q'.at[q.cur] == OnCpu
            && q'.pcb == q.pcb && q'.free == q.free && q'.cur == q.cur && q'.idle == q.idle
            && q'.left == q.left && q'.lastPid == q.lastPid
            && (q.slots[k].owner == q.pcb[q.cur].pid ==> q'.slots[k].used <= 0)
            && (forall j :: IsSlot(j) && j != k ==> q'.slots[j] == q.slots[j])
  {
    if q.slots[k].used > 0 {
      DrainFields(q, k);
      DrainKeeps(q, k);
    }
  }

  lemma ExitKeeps(q: Queues)
    requires Inv(q) && q.cur != q.idle
    ensures Inv(Exit(q).q)
  {
    hide Places, Pids, SlotTable, Owners, Waits, Drains, Quanta;
    var a := DestroyOwned(q, q.pcb[q.cur].pid, 0).q;
    DestroyOwnedKeeps(q, q.pcb[q.cur].pid, 0);
    BuryKeeps(a);
    SchedNextKeeps(Bury(a).q);
  }

  lemma DestroyKeeps(q: Queues, id: int)
    requires Inv(q) && q.cur != q.idle
    ensures Inv(SemDestroy(q, id).q)
  {
    var k := FindId(q.slots, id, 0);
    if k >= 0 && q.slots[k].used > 0 {
      DrainKeeps(q, k);
    }
  }
}
