/** What the four semaphore calls answer, in terms of the identifiers that are in use. */
module SemaphoreCalls {
  import opened Config
  import T = Tasks
  import TI = TasksInv
  import opened QueueEffects
  import opened Kernel

  /** Slot k is the live semaphore with identifier id. */
  ghost predicate Live(q: T.Queues, id: int, k: int)
    requires T.Shape(q)
  {
    T.IsSlot(k) && q.slots[k].used > 0 && q.slots[k].id == id
  }

  ghost predicate IsLive(q: T.Queues, id: int)
    requires T.Shape(q)
  {
    exists k :: Live(q, id, k)
  }

  ghost predicate SlotFree(q: T.Queues)
    requires T.Shape(q)
  {
    exists k :: T.IsSlot(k) && q.slots[k].used == 0
  }

  /** The first slot with an identifier is the live slot with it, if there is one; 0xDEAD never is live. */
  lemma LookupIff(q: T.Queues, id: int, k: int)
    requires T.Shape(q) && TI.SlotTable(q) && T.IsSlot(k)
    ensures Live(q, id, k) <==> id != DEAD && T.FindId(q.slots, id, 0) == k
    ensures !IsLive(q, DEAD)
    ensures !IsLive(q, id) <==> id == DEAD || T.FindId(q.slots, id, 0) == -1
  {
    var f := T.FindId(q.slots, id, 0);
    TI.SlotFact(q, k);
    if f >= 0 {
      TI.SlotFact(q, f);
      assert id != DEAD ==> Live(q, id, f);
    }
    forall j | T.IsSlot(j) ensures !Live(q, DEAD, j) {
      TI.SlotFact(q, j);
    }
  }

  /** sem_init succeeds exactly for an identifier that is neither live nor 0xDEAD while a slot is free; then
      the semaphore is live with that value and belongs to the caller. */
  lemma InitIff(s: State, id: int, value: int)
    requires Inv(s) && Enabled(s, SemInit(id, value))
    ensures T.Shape(Step(s, SemInit(id, value)).s.q)
    ensures var r := Step(s, SemInit(id, value));
            && (r.reply == T.Value(0) <==> id != DEAD && !IsLive(s.q, id) && SlotFree(s.q))
            && (r.reply == T.Value(-2) <==> !IsLive(s.q, id) && !SlotFree(s.q) && (id == DEAD ==> AllLive(s.q)))
            && (r.reply != T.Value(0) ==> r.s == s && r.reply in {T.Value(-EINVAL), T.Value(-2)})
            && (r.reply == T.Value(0) ==> exists k :: Live(r.s.q, id, k) && Fresh(s.q, r.s.q, k, value))
            && r.s.m == s.m
  {
    hide TI.Places, TI.Pids, TI.Owners, TI.Waits, TI.Drains, TI.Quanta, T.FindId, T.FindFree;
    StepKeeps(s, SemInit(id, value));
    LookupIff(s.q, id, 0);
    var f, k := T.FindId(s.q.slots, id, 0), T.FindFree(s.q.slots, 0);
    if f >= 0 {
      TI.SlotFact(s.q, f);
      assert id == DEAD ==> !AllLive(s.q);
    } else if k >= 0 {
      assert Live(Step(s, SemInit(id, value)).s.q, id, k);
      TI.SlotFact(s.q, k);
    } else if id == DEAD {
      NoneDead(s.q, id);
    }
  }

  ghost predicate AllLive(q: T.Queues)
    requires T.Shape(q)
  {
    forall k :: T.IsSlot(k) ==> q.slots[k].used > 0
  }

  lemma NoneDead(q: T.Queues, id: int)
    requires T.Shape(q) && TI.SlotTable(q) && T.FindId(q.slots, id, 0) < 0 && id == DEAD
    ensures AllLive(q)
  {
    forall k | T.IsSlot(k) ensures q.slots[k].used > 0 {
      TI.SlotFact(q, k);
    }
  }

  /** Slot k was the first free one and now is a semaphore of the caller with the given value and without waiters; no
      other slot changed, and the caller goes on. */
  ghost predicate Fresh(q: T.Queues, q': T.Queues, k: int, value: int)
    requires T.Shape(q) && T.Shape(q') && T.IsSlot(k)
  {
    && q.slots[k].used == 0 && (forall j :: 0 <= j < k ==> q.slots[j].used != 0)
    && GoesOn(q, q') && q'.ready == q.ready && q'.slots[k].used == 1
    && q'.slots[k].count == value && q'.slots[k].owner == q.pcb[q.cur].pid && q'.blocked[k] == []
    && forall j :: T.IsSlot(j) && j != k ==> q'.slots[j] == q.slots[j] && q'.blocked[j] == q.blocked[j]
  }

  /** sem_wait fails exactly for an identifier that is not live, passes at once exactly when the count is
      positive, and otherwise the caller becomes the last waiter and gives up the processor.  Passing changes nothing
      but the count. */
  lemma WaitIff(s: State, id: int, k: int)
    requires Inv(s) && Enabled(s, SemWait(id)) && T.IsSlot(k)
    ensures T.Shape(Step(s, SemWait(id)).s.q)
    ensures var r := Step(s, SemWait(id));
            && (r.reply == T.Value(-EINVAL) <==> !IsLive(s.q, id))
            && (r.reply == T.Value(-EINVAL) ==> r.s == s)
            && (Live(s.q, id, k) ==>
                  if s.q.slots[k].count > 0
                  then
                    && r.reply == T.Value(-1) && GoesOn(s.q, r.s.q)
                    && r.s.q.ready == s.q.ready && r.s.q.blocked == s.q.blocked
                    && Counted(s.q, r.s.q, k, s.q.slots[k].count - 1)
                  else
                    && r.reply == T.Switched && r.s.q.cur != s.q.cur
                    && Kept(s.q.(blocked := s.q.blocked[k := s.q.blocked[k] + [s.q.cur]]), r.s.q)
                    && Passed(s.q.ready, s.q.pcb[s.q.cur := s.q.pcb[s.q.cur].(wait := k)], s.q.slots, r.s.q))
            && r.s.m == s.m
  {
    hide TI.Pids, TI.Owners, TI.Drains, TI.Quanta, T.FindId, TI.Places, TI.Waits, TI.SlotTable, T.SchedNext,
         T.BlockOn, Passed, Kept, Counted, GoesOn;
    StepKeeps(s, SemWait(id));
    LookupIff(s.q, id, k);
    var f := T.FindId(s.q.slots, id, 0);
    if f >= 0 {
      TI.SlotFact(s.q, f);
      LookupIff(s.q, id, f);
      if s.q.slots[f].used > 0 {
        WaitEffect(s.q, id, f);
        if s.q.slots[f].count == 0 {
          BlockedLast(s.q, f);
        }
      }
    }
  }

  lemma BlockedLast(q: T.Queues, k: int)
    requires TI.Inv(q) && q.cur != q.idle && T.IsSlot(k) && q.slots[k].used > 0
    ensures T.Shape(T.BlockOn(q, k).q)
    ensures var r := T.SchedNext(T.BlockOn(q, k).q);
            r.reply == T.Switched && r.q.blocked[k] == q.blocked[k] + [q.cur] && r.q.cur != q.cur
  {
    if q.ready != [] {
      assert q.ready[0] in q.ready;
    }
  }

  /** sem_signal fails exactly for an identifier that is not live; otherwise the first waiter becomes ready
      without the count changing, or, without waiters, the count goes up; nothing else changes, the rest of the quantum
      of the caller included. */
  lemma SignalIff(s: State, id: int, k: int)
    requires Inv(s) && Enabled(s, SemSignal(id)) && T.IsSlot(k)
    ensures T.Shape(Step(s, SemSignal(id)).s.q)
    ensures var r := Step(s, SemSignal(id));
            && r.reply == T.Value(if IsLive(s.q, id) then 0 else -EINVAL)
            && (!IsLive(s.q, id) ==> r.s == s)
            && (Live(s.q, id, k) ==>
                  && GoesOn(s.q, r.s.q)
                  && if s.q.blocked[k] != []
                     then
                       && r.s.q.ready == s.q.ready + [s.q.blocked[k][0]] && r.s.q.slots == s.q.slots
                       && r.s.q.blocked == s.q.blocked[k := s.q.blocked[k][1..]]
                     else
                       && r.s.q.ready == s.q.ready && r.s.q.blocked == s.q.blocked
                       && Counted(s.q, r.s.q, k,
                                  if s.q.slots[k].count == UINT_MOD - 1 then 0 else s.q.slots[k].count + 1))
            && r.s.m == s.m
  {
    hide TI.Pids, TI.Owners, TI.Drains, TI.Quanta, T.FindId, TI.Places, TI.Waits, TI.SlotTable, Counted, GoesOn,
         T.SemSignal;
    StepKeeps(s, SemSignal(id));
    LookupIff(s.q, id, k);
    SignalReply(s.q, id);
    var f := T.FindId(s.q.slots, id, 0);
    if f >= 0 {
      TI.SlotFact(s.q, f);
      LookupIff(s.q, id, f);
      if s.q.slots[f].used > 0 {
        SignalEffect(s.q, id, f);
      }
    }
  }

  lemma SignalReply(q: T.Queues, id: int)
    requires T.Shape(q)
    ensures var f, r := T.FindId(q.slots, id, 0), T.SemSignal(q, id);
            if f < 0 || q.slots[f].used <= 0 then r.q == q && r.reply == T.Value(-EINVAL) else r.reply == T.Value(0)
  {
  }

  /** sem_destroy succeeds exactly for a live semaphore of the caller; then its waiters become ready in their
      order, the identifier is not live any more, and nothing else changes. */
  lemma DestroyIff(s: State, id: int, k: int)
    requires Inv(s) && Enabled(s, SemDestroy(id)) && T.IsSlot(k)
    ensures T.Shape(Step(s, SemDestroy(id)).s.q)
    ensures var r := Step(s, SemDestroy(id));
            && (r.reply == T.Value(0) <==> exists j :: Live(s.q, id, j) && s.q.slots[j].owner == s.q.pcb[s.q.cur].pid)
            && (r.reply != T.Value(0) ==> r.reply == T.Value(-EINVAL) && r.s == s)
            && (r.reply == T.Value(0) ==> !IsLive(r.s.q, id))
            && (r.reply == T.Value(0) && Live(s.q, id, k) ==>
                  && GoesOn(s.q, r.s.q) && r.s.q.ready == s.q.ready + s.q.blocked[k] && TornDown(s.q, r.s.q, k)
                  && forall j :: T.IsSlot(j) && j != k ==> SlotSame(s.q, r.s.q, j))
            && r.s.m == s.m
  {
    hide TI.Pids, TI.Owners, TI.Drains, TI.Quanta, T.FindId, TI.Places, TI.Waits, TI.SlotTable;
    StepKeeps(s, SemDestroy(id));
    LookupIff(s.q, id, k);
    var f := T.FindId(s.q.slots, id, 0);
    forall j | Live(s.q, id, j) ensures j == f {
      LookupIff(s.q, id, j);
    }
    if f >= 0 {
      TI.SlotFact(s.q, f);
      LookupIff(s.q, id, f);
      var q' := Step(s, SemDestroy(id)).s.q;
      forall j | Live(q', id, j) && q' != s.q ensures false {
        LookupIff(s.q, id, j);
      }
    }
  }
}
