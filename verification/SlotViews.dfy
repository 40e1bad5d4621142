/** One semaphore slot seen through the events of the kernel: how each event changes the slot, and when
    it may happen.  The laws of semaphores are proved here once, over event sequences; SlotTraces
    shows that the kernel's steps produce exactly such sequences. */
module SlotViews {
  import opened Config
  import opened Tasks

  /** `blocked` are the waiters on the slot, `pending` the ready tasks that still have to leave sem_wait. */
  datatype View = View(used: int, count: int, blocked: seq<int>, pending: seq<int>)

  /** A resumption of a waiter: who, and what its sem_wait returns. */
  datatype Return = Return(task: int, res: int)

  ghost predicate Legal(v: View, e: Event, k: int) {
    match e
    case Init(j, value) => j == k ==> v.used == 0 && 0 <= value < UINT_MOD
    case Take(j, t) => j == k ==> v.used > 0 && v.count > 0
    case Block(j, t) => j == k ==> v.used > 0 && v.count == 0
    case Wake(j, t, c) => j == k ==> v.used > 0 && v.blocked != [] && v.blocked[0] == t
    case Post(j, c) => j == k ==> v.used > 0 && v.blocked == []
    case Destroy(j) => j == k ==> v.used > 0
    case Resume(j, t, res) =>
      j == k ==> v.pending != [] && v.pending[0] == t && res == if v.used < 0 then -2 else 0
    case _ => true
  }

  ghost function Play(v: View, e: Event, k: int): View
    requires Legal(v, e, k)
  {
    match e
    case Init(j, value) => if j == k then v.(used := 1, count := value, blocked := []) else v
    case Take(j, t) => if j == k then v.(count := v.count - 1) else v
    case Block(j, t) => if j == k then v.(blocked := v.blocked + [t]) else v
    case Wake(j, t, c) => if j == k then v.(blocked := v.blocked[1..], pending := v.pending + [t]) else v
    case Post(j, c) => if j == k then v.(count := (v.count + 1) % UINT_MOD) else v
    case Destroy(j) =>
      if j == k then View(-|v.blocked|, v.count, [], v.pending + v.blocked) else v
    case Resume(j, t, res) =>
      if j == k then v.(used := if v.used < 0 then v.used + 1 else v.used, pending := v.pending[1..]) else v
    case _ => v
  }

  /** The events of `ev` are legal one after the other and lead from `v` to `v'`. */
  ghost predicate Leads(v: View, ev: seq<Event>, k: int, v': View)
    decreases |ev|
  {
    if ev == [] then v == v'
    else Legal(v, ev[0], k) && Leads(Play(v, ev[0], k), ev[1..], k, v')
  }

  lemma {:induction false} LeadsConcat(v: View, a: seq<Event>, v1: View, b: seq<Event>, k: int, v2: View)
    requires Leads(v, a, k, v1) && Leads(v1, b, k, v2)
    ensures Leads(v, a + b, k, v2)
    decreases |a|
  {
    if a == [] {
      assert a + b == b;
    } else {
      LeadsConcat(Play(v, a[0], k), a[1..], v1, b, k, v2);
      assert (a + b)[1..] == a[1..] + b;
    }
  }

  lemma {:induction false} LeadsSplit(v: View, a: seq<Event>, b: seq<Event>, k: int, v2: View) returns (v1: View)
    requires Leads(v, a + b, k, v2)
    ensures Leads(v, a, k, v1) && Leads(v1, b, k, v2)
    decreases |a|
  {
    if a == [] {
      assert a + b == b;
      v1 := v;
    } else {
      assert (a + b)[1..] == a[1..] + b;
      v1 := LeadsSplit(Play(v, a[0], k), a[1..], b, k, v2);
    }
  }

  lemma {:induction false} LeadsFunction(v: View, ev: seq<Event>, k: int, a: View, b: View)
    requires Leads(v, ev, k, a) && Leads(v, ev, k, b)
    ensures a == b
    decreases |ev|
  {
    if ev != [] {
      LeadsFunction(Play(v, ev[0], k), ev[1..], k, a, b);
    }
  }

  // ---- what the events say about slot k ----

  ghost predicate Quiet(ev: seq<Event>, k: int) {
    forall i :: 0 <= i < |ev| ==> ev[i] != Destroy(k) && !(ev[i].Init? && ev[i].k == k)
  }

  ghost predicate NoInit(ev: seq<Event>, k: int) {
    forall i :: 0 <= i < |ev| ==> !(ev[i].Init? && ev[i].k == k)
  }

  ghost predicate NoDestroy(ev: seq<Event>, k: int) {
    forall i :: 0 <= i < |ev| ==> ev[i] != Destroy(k)
  }

  /** Successful calls of sem_signal */
  ghost function Signals(ev: seq<Event>, k: int): nat {
    if ev == [] then 0
    else (if (ev[0].Post? || ev[0].Wake?) && ev[0].k == k then 1 else 0) + Signals(ev[1..], k)
  }

  /** Grants: sem_wait passing at once, or a waiter being woken up */
  ghost function Grants(ev: seq<Event>, k: int): nat {
    if ev == [] then 0
    else (if (ev[0].Take? || ev[0].Wake?) && ev[0].k == k then 1 else 0) + Grants(ev[1..], k)
  }

  /** How often the unsigned counter wraps around */
  ghost function Wraps(v: View, ev: seq<Event>, k: int, v': View): nat
    requires Leads(v, ev, k, v')
    decreases |ev|
  {
    if ev == [] then 0
    else
      (if ev[0].Post? && ev[0].k == k && v.count == UINT_MOD - 1 then 1 else 0)
      + Wraps(Play(v, ev[0], k), ev[1..], k, v')
  }

  ghost function Blocks(ev: seq<Event>, k: int): seq<int> {
    if ev == [] then []
    else (if ev[0].Block? && ev[0].k == k then [ev[0].task] else []) + Blocks(ev[1..], k)
  }

  ghost function Wakes(ev: seq<Event>, k: int): seq<int> {
    if ev == [] then []
    else (if ev[0].Wake? && ev[0].k == k then [ev[0].task] else []) + Wakes(ev[1..], k)
  }

  ghost function Returns(ev: seq<Event>, k: int): seq<Return> {
    if ev == [] then []
    else (if ev[0].Resume? && ev[0].k == k then [Return(ev[0].task, ev[0].res)] else []) + Returns(ev[1..], k)
  }

  // ---- the laws ----

  /** Conservation: while the slot lives, counter plus grants equals the counter at the start plus
      signals, up to wrap-arounds of the 32-bit counter. */
  lemma {:induction false} Conservation(v: View, ev: seq<Event>, k: int, v': View)
    requires Leads(v, ev, k, v') && Quiet(ev, k) && 0 <= v.count < UINT_MOD
    ensures v'.count + Grants(ev, k) + UINT_MOD * Wraps(v, ev, k, v') == v.count + Signals(ev, k)
    ensures 0 <= v'.count < UINT_MOD
    decreases |ev|
  {
    if ev != [] {
      var v1 := Play(v, ev[0], k);
      Conservation(v1, ev[1..], k, v');
      if ev[0].Post? && ev[0].k == k {
        var w := Wraps(v1, ev[1..], k, v');
        assert UINT_MOD * (1 + w) == UINT_MOD + UINT_MOD * w;
      }
    }
  }

  lemma QuietRest(ev: seq<Event>, k: int)
    requires Quiet(ev, k) && ev != []
    ensures Quiet(ev[1..], k) && ev[0] != Destroy(k) && !(ev[0].Init? && ev[0].k == k)
  {
    assert ev[0] in ev;
  }

  /** Waiters are woken in the order in which they blocked. */
  lemma {:induction false} WakeOrder(v: View, ev: seq<Event>, k: int, v': View)
    requires Leads(v, ev, k, v') && Quiet(ev, k)
    ensures Wakes(ev, k) + v'.blocked == v.blocked + Blocks(ev, k)
    decreases |ev|
  {
    hide Quiet;
    if ev != [] {
      QuietRest(ev, k);
      var v1 := Play(v, ev[0], k);
      WakeOrder(v1, ev[1..], k, v');
      var w, b := Wakes(ev[1..], k), Blocks(ev[1..], k);
      if ev[0].Wake? && ev[0].k == k {
        var t := [ev[0].task];
        assert v.blocked == t + v1.blocked;
        assert (t + w) + v'.blocked == t + (w + v'.blocked);
        assert t + (v1.blocked + b) == (t + v1.blocked) + b;
        assert Blocks(ev, k) == b;
      } else if ev[0].Block? && ev[0].k == k {
        var t := [ev[0].task];
        assert (v.blocked + t) + b == v.blocked + (t + b);
        assert Wakes(ev, k) == w;
      } else {
        assert Wakes(ev, k) == w && Blocks(ev, k) == b;
      }
    }
  }

  /** Whatever happens to the slot, pending tasks resume in their order. */
  lemma {:induction false} PendingOrder(v: View, ev: seq<Event>, k: int, v': View)
    requires Leads(v, ev, k, v')
    ensures forall i :: 0 <= i < |Returns(ev, k)| && i < |v.pending| ==> Returns(ev, k)[i].task == v.pending[i]
    decreases |ev|
  {
    if ev != [] {
      var v1 := Play(v, ev[0], k);
      PendingOrder(v1, ev[1..], k, v');
      var r, r1 := Returns(ev, k), Returns(ev[1..], k);
      if ev[0].Resume? && ev[0].k == k {
        assert r == [Return(ev[0].task, ev[0].res)] + r1;
        assert v1.pending == v.pending[1..];
      } else {
        assert r == r1;
        assert forall i :: 0 <= i < |v.pending| ==> v1.pending[i] == v.pending[i];
      }
    }
  }

  /** Resumptions on a draining slot: the first `-used` of them return -2, and until then the slot is
      not reused and nothing else happens to it. */
  lemma {:induction false} Draining(v: View, ev: seq<Event>, k: int, v': View)
    requires Leads(v, ev, k, v') && v.used <= 0 && |v.pending| >= -v.used
    ensures var r := Returns(ev, k);
            && (forall i :: 0 <= i < |r| && i < -v.used ==> r[i].res == -2)
            && (|r| < -v.used ==> v'.used == v.used + |r| && NoInit(ev, k))
    decreases |ev|
  {
    if ev != [] && v.used < 0 {
      var v1 := Play(v, ev[0], k);
      var r, r1 := Returns(ev, k), Returns(ev[1..], k);
      Draining(v1, ev[1..], k, v');
      if ev[0].Resume? && ev[0].k == k {
        assert r == [Return(ev[0].task, ev[0].res)] + r1;
        assert forall i :: 1 <= i < |r| ==> r[i] == r1[i - 1];
      } else {
        assert r == r1;
      }
    }
  }

  /** As long as a slot is not destroyed, waiters fail while its tokens last, and all later ones return 0, also when
      the slot is a new semaphore by then. */
  lemma {:induction false} Drained(v: View, ev: seq<Event>, k: int, v': View)
    requires Leads(v, ev, k, v') && NoDestroy(ev, k)
    ensures forall i :: 0 <= i < |Returns(ev, k)| ==> Returns(ev, k)[i].res == (if i < -v.used then -2 else 0)
    decreases |ev|
  {
    if ev != [] {
      var v1 := Play(v, ev[0], k);
      var r, r1 := Returns(ev, k), Returns(ev[1..], k);
      assert NoDestroy(ev[1..], k);
      Drained(v1, ev[1..], k, v');
      if ev[0].Resume? && ev[0].k == k {
        assert r == [Return(ev[0].task, ev[0].res)] + r1;
        forall i | 0 <= i < |r| ensures r[i].res == (if i < -v.used then -2 else 0) {
          assert i > 0 ==> r[i] == r1[i - 1];
        }
      } else {
        assert r == r1;
      }
    }
  }

  /** The teardown law for one slot, destroyed at event i. */
  lemma TeardownView(v0: View, ev: seq<Event>, k: int, v': View, i: nat) returns (v: View)
    requires Leads(v0, ev, k, v') && i < |ev| && ev[i] == Destroy(k)
    ensures Leads(v0, ev[..i], k, v) && v.used > 0
    ensures var r, queue := Returns(ev[i + 1..], k), v.pending + v.blocked;
            && (forall j :: 0 <= j < |r| && j < |queue| ==> r[j].task == queue[j])
            && (forall j :: 0 <= j < |r| && j < |v.blocked| ==> r[j].res == -2)
            && (|r| < |v.blocked| ==> NoInit(ev[i + 1..], k))
            && (NoDestroy(ev[i + 1..], k) ==>
                  forall j :: 0 <= j < |r| ==> r[j].res == (if j < |v.blocked| then -2 else 0))
  {
    assert ev == ev[..i] + ev[i..];
    v := LeadsSplit(v0, ev[..i], ev[i..], k, v');
    assert ev[i..][0] == Destroy(k) && ev[i..][1..] == ev[i + 1..];
    var w := Play(v, Destroy(k), k);
    PendingOrder(w, ev[i + 1..], k, v');
    Draining(w, ev[i + 1..], k, v');
    if NoDestroy(ev[i + 1..], k) {
      Drained(w, ev[i + 1..], k, v');
    }
  }

  // ---- mutual exclusion ----

  /** Who holds the semaphore: a grant makes the task a holder, a signal ends one hold of its caller. */
  ghost function Holders(h: multiset<int>, ev: seq<Event>, k: int): multiset<int>
    decreases |ev|
  {
    if ev == [] then h else Holders(HoldersAfter(h, ev[0], k), ev[1..], k)
  }

  ghost function HoldersAfter(h: multiset<int>, e: Event, k: int): multiset<int> {
    match e
    case Take(j, t) => if j == k then h + multiset{t} else h
    case Wake(j, t, c) => if j == k then h - multiset{c} + multiset{t} else h
    case Post(j, c) => if j == k then h - multiset{c} else h
    case _ => h
  }

  /** Tasks signal only what they hold. */
  ghost predicate Disciplined(h: multiset<int>, ev: seq<Event>, k: int)
    decreases |ev|
  {
    ev != [] ==>
      && ((ev[0].Post? || ev[0].Wake?) && ev[0].k == k ==> ev[0].caller in h)
      && Disciplined(HoldersAfter(h, ev[0], k), ev[1..], k)
  }

  lemma HoldStep(h: multiset<int>, v: View, e: Event, k: int)
    requires Legal(v, e, k) && ((e.Post? || e.Wake?) && e.k == k ==> e.caller in h)
    requires !(e.Init? && e.k == k) && e != Destroy(k) && 0 <= v.count && |h| + v.count < UINT_MOD
    ensures |HoldersAfter(h, e, k)| + Play(v, e, k).count == |h| + v.count && Play(v, e, k).count >= 0
  {
    if e.Post? && e.k == k {
      assert |h - multiset{e.caller}| == |h| - 1;
    } else if e.Wake? && e.k == k {
      assert |h - multiset{e.caller}| == |h| - 1;
    }
  }

  /** Among disciplined tasks, holders and counter add up to a constant: at most the initial value of
      tasks hold the semaphore at once, and the counter never wraps. */
  lemma {:induction false} Exclusion(v: View, ev: seq<Event>, k: int, v': View, h: multiset<int>)
    requires Leads(v, ev, k, v') && Quiet(ev, k) && 0 <= v.count && |h| + v.count < UINT_MOD
    requires Disciplined(h, ev, k)
    ensures |Holders(h, ev, k)| + v'.count == |h| + v.count && v'.count >= 0
    decreases |ev|
  {
    hide HoldersAfter, Play, Legal;
    if ev != [] {
      HoldStep(h, v, ev[0], k);
      Exclusion(Play(v, ev[0], k), ev[1..], k, v', HoldersAfter(h, ev[0], k));
    }
  }
}
