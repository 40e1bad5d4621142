/** The invariant of the memory world: who owns which frame. */
module SpaceInv {
  import opened Config
  import opened Space

  ghost function Users(dirOf: seq<int>, d: int): set<int> {
    set t | 0 <= t < |dirOf| && dirOf[t] == d
  }

  /** The counter of a directory is the number of live tasks that use it. */
  ghost predicate Usage(m: Space)
    requires Shape(m)
  {
    forall d :: IsDir(d) ==> m.usage[d] == |Users(m.dirOf, d)|
  }

  /** The idle task has a directory of its own, without user pages. */
  ghost predicate IdleAlone(m: Space, idle: int)
    requires Shape(m)
  {
    && 0 <= idle < NR_TASKS && m.dirOf[idle] >= 0
    && forall t :: 0 <= t < NR_TASKS && m.dirOf[t] == m.dirOf[idle] ==> t == idle
  }

  /** Directory d is the address space of user tasks. */
  ghost predicate InUse(m: Space, idle: int, d: int)
    requires Shape(m) && 0 <= idle < NR_TASKS
  {
    IsDir(d) && m.usage[d] > 0 && d != m.dirOf[idle]
  }

  /** The frame of code page p; all address spaces share it. */
  ghost function CodeFrame(p: int): int {
    NUM_PAG_KERNEL + 2 * (p - PAG_CODE)
  }

  /** The bits of an entry: present, writable, for programs. */
  ghost predicate Bits(e: Entry, present: bool, rw: bool, user: bool) {
    e.present == present && e.rw == rw && e.user == user
  }

  /** Kernel pages are for the kernel only, and page 0 is not there; programs may read code pages, and read and write
      data pages; nothing else is there, in particular no temporary entry of fork. */
  ghost predicate RowOk(row: seq<Entry>, inUse: bool)
    requires |row| == TOTAL_PAGES
  {
    && row[0] == Absent && !row[0].present
    && (forall p :: 1 <= p < PAG_CODE ==> Bits(row[p], true, true, false) && row[p].frame == p)
    && (inUse ==> forall p :: PAG_CODE <= p < PAG_DATA ==>
          Bits(row[p], true, false, true) && row[p].frame == CodeFrame(p))
    && (forall p :: PAG_DATA <= p < PAG_END ==>
          if inUse then Bits(row[p], true, true, true) else row[p] == Absent && !row[p].present)
    && (forall p :: PAG_END <= p < TOTAL_PAGES ==> row[p] == Absent && !row[p].present)
  }

  ghost predicate Tables(m: Space, idle: int)
    requires Shape(m) && 0 <= idle < NR_TASKS
  {
    forall d :: IsDir(d) ==> RowOk(m.pt[d], InUse(m, idle, d))
  }

  const FIRST_DATA: int := 272

  /** A data frame is a used even frame above the code frames. */
  ghost predicate DataFrames(m: Space, idle: int)
    requires Shape(m) && 0 <= idle < NR_TASKS
  {
    forall d, j :: InUse(m, idle, d) && IsData(j) ==>
      var f := Maps(m.pt, d, j); FIRST_DATA <= f < TOTAL_PAGES && f % 2 == 0 && m.phys[f]
  }

  /** No frame is mapped twice. */
  ghost predicate Disjoint(m: Space, idle: int)
    requires Shape(m) && 0 <= idle < NR_TASKS
  {
    forall d, j, e, i ::
      (InUse(m, idle, d) && IsData(j) && InUse(m, idle, e) && IsData(i) && Maps(m.pt, d, j) == Maps(m.pt, e, i))
      ==> d == e && j == i
  }

  ghost predicate Owned(m: Space, idle: int, f: int)
    requires Shape(m) && 0 <= idle < NR_TASKS
  {
    exists d, j :: InUse(m, idle, d) && IsData(j) && Maps(m.pt, d, j) == f
  }

  /** Used frames: the kernel's, the code frames, and nothing else but frames somebody owns. */
  ghost predicate NoLeak(m: Space, idle: int)
    requires Shape(m) && 0 <= idle < NR_TASKS
  {
    && (forall f :: 0 <= f < NUM_PAG_KERNEL ==> m.phys[f])
    && (forall f :: NUM_PAG_KERNEL <= f < FIRST_DATA ==> (m.phys[f] <==> f % 2 == 0))
    && (forall f :: FIRST_DATA <= f < TOTAL_PAGES && m.phys[f] ==> Owned(m, idle, f))
  }

  ghost predicate Inv(m: Space, idle: int) {
    && Shape(m) && IdleAlone(m, idle) && Usage(m)
    && Tables(m, idle) && DataFrames(m, idle) && Disjoint(m, idle) && NoLeak(m, idle)
  }

  // ---- counting users ----

  lemma UsersPut(dirOf: seq<int>, t: int, d: int, e: int)
    requires 0 <= t < |dirOf|
    ensures Users(dirOf[t := d], e) == if e == d then Users(dirOf, e) + {t} else Users(dirOf, e) - {t}
  {
  }

  /** A dead task gets directory d. */
  lemma UsageJoin(m: Space, m': Space, t: int, d: int)
    requires Shape(m) && Shape(m') && Usage(m) && 0 <= t < NR_TASKS && IsDir(d) && m.dirOf[t] == -1
    requires m'.dirOf == m.dirOf[t := d] && m'.usage == m.usage[d := m.usage[d] + 1]
    ensures Usage(m')
  {
    forall e | IsDir(e) ensures m'.usage[e] == |Users(m'.dirOf, e)| {
      UsersPut(m.dirOf, t, d, e);
      assert t !in Users(m.dirOf, e);
      assert e != d ==> Users(m.dirOf, e) - {t} == Users(m.dirOf, e);
    }
  }

  lemma UsageLeave(m: Space, m': Space, t: int)
    requires Shape(m) && Shape(m') && Usage(m) && 0 <= t < NR_TASKS && m.dirOf[t] >= 0
    requires m'.dirOf == m.dirOf[t := -1] && m'.usage == m.usage[m.dirOf[t] := m.usage[m.dirOf[t]] - 1]
    ensures Usage(m')
    ensures m'.usage[m.dirOf[t]] == 0 <==> forall u :: 0 <= u < NR_TASKS && u != t ==> m.dirOf[u] != m.dirOf[t]
  {
    var d := m.dirOf[t];
    forall e | IsDir(e) ensures m'.usage[e] == |Users(m'.dirOf, e)| {
      UsersPut(m.dirOf, t, -1, e);
      assert t in Users(m.dirOf, e) <==> e == d;
      assert e != d ==> Users(m.dirOf, e) - {t} == Users(m.dirOf, e);
    }
    assert forall u :: 0 <= u < NR_TASKS && u != t ==> (u in Users(m'.dirOf, d) <==> m.dirOf[u] == d);
    if forall u :: 0 <= u < NR_TASKS && u != t ==> m.dirOf[u] != d {
      assert Users(m'.dirOf, d) == {};
    } else {
      var u :| 0 <= u < NR_TASKS && u != t && m.dirOf[u] == d;
      assert u in Users(m'.dirOf, d);
    }
  }

  lemma UsedHasUser(m: Space, d: int)
    requires Shape(m) && Usage(m) && IsDir(d)
    ensures m.usage[d] > 0 <==> exists t :: 0 <= t < NR_TASKS && m.dirOf[t] == d
  {
    if t :| 0 <= t < NR_TASKS && m.dirOf[t] == d {
      assert t in Users(m.dirOf, d);
    } else {
      assert Users(m.dirOf, d) == {};
    }
  }

  // ---- frames ----

  /** What a partly or fully successful allocation loop has taken. */
  lemma {:induction false} Taken(phys: seq<bool>, n: nat)
    ensures var r := AllocSome(phys, n);
            && (forall i :: 0 <= i < |r.v| ==> !phys[r.v[i]] && r.v[i] % 2 == 0)
            && (forall i, j :: 0 <= i < j < |r.v| ==> r.v[i] != r.v[j])
            && (forall f :: 0 <= f < |phys| ==> (r.phys[f] <==> phys[f] || f in r.v))
  {
    hide AllocFrame;
    if n > 0 {
      Taken(phys, n - 1);
      var r := AllocSome(phys, n - 1);
      TakenOne(phys, r.phys, r.v, AllocFrame(r.phys));
    }
  }

  lemma TakenOne(phys: seq<bool>, before: seq<bool>, v: seq<int>, g: int)
    requires |before| == |phys| && forall f :: 0 <= f < |phys| ==> (before[f] <==> phys[f] || f in v)
    requires 0 <= g < |phys| ==> !before[g]
    ensures 0 <= g < |phys| ==> !phys[g] && g !in v
    ensures 0 <= g < |phys| ==> forall f :: 0 <= f < |phys| ==> (before[g := true][f] <==> phys[f] || f in v + [g])
  {
  }

  lemma {:induction false} Given(phys: seq<bool>, v: seq<int>, n: nat)
    requires n <= |v| && forall i :: 0 <= i < |v| ==> NUM_PAG_KERNEL <= v[i] < |phys|
    ensures forall f :: 0 <= f < |phys| ==>
              FreeSome(phys, v, n)[f] == (phys[f] && !(f in v[..n] && f != NUM_PAG_KERNEL))
  {
    if n > 0 {
      Given(phys, v, n - 1);
      assert v[..n] == v[..n - 1] + [v[n - 1]];
    }
  }

  /** A fork that fails half way gives all frames back exactly when frame 256 was used before: free_frame
      refuses to free frame 256, and the scan would have taken it first. */
  lemma RollbackIff(phys: seq<bool>)
    requires |phys| == TOTAL_PAGES && !GetFrames(phys).ok
    ensures GetFrames(phys).phys == phys <==> phys[NUM_PAG_KERNEL]
  {
    var r := AllocSome(phys, NUM_PAG_DATA);
    var b := FreeSome(r.phys, r.v, |r.v|);
    Taken(phys, NUM_PAG_DATA);
    Given(r.phys, r.v, |r.v|);
    assert r.v[..|r.v|] == r.v;
    if phys[NUM_PAG_KERNEL] {
      assert forall f :: 0 <= f < |phys| ==> b[f] == phys[f];
    } else {
      FailsFull(phys, NUM_PAG_DATA);
      assert r.phys[NUM_PAG_KERNEL];
      assert b[NUM_PAG_KERNEL];
    }
  }

  /** The loop fails only when every frame it can reach is used. */
  lemma {:induction false} FailsFull(phys: seq<bool>, n: nat)
    requires !AllocSome(phys, n).ok
    ensures forall f :: NUM_PAG_KERNEL <= f < |phys| && f % 2 == 0 ==> AllocSome(phys, n).phys[f]
  {
    if !AllocSome(phys, n - 1).ok {
      FailsFull(phys, n - 1);
    }
  }

  // ---- copying pages ----

  lemma CopiedPage(ram: seq<Byte>, src: int, dst: int, f: int)
    requires |ram| == TOTAL_PAGES * PAGE_SIZE && IsFrame(src) && IsFrame(dst) && IsFrame(f)
    ensures Page(CopyPage(ram, src, dst), f) == if f == dst then Page(ram, src) else Page(ram, f)
  {
    var ram' := CopyPage(ram, src, dst);
    forall i | 0 <= i < PAGE_SIZE
      ensures Page(ram', f)[i] == (if f == dst then Page(ram, src) else Page(ram, f))[i]
    {
      var a := f * PAGE_SIZE + i;
      assert Page(ram', f)[i] == ram'[a];
      if f < dst {
        assert a < dst * PAGE_SIZE;
      } else if f > dst {
        assert a >= dst * PAGE_SIZE + PAGE_SIZE;
      }
    }
  }

  /** What the copy loop of fork does to the page tables. */
  lemma {:induction false} ForkedTables(x: Image, cd: int, pd: int, v: seq<int>, n: nat)
    requires ImageShape(x) && IsDir(cd) && IsDir(pd) && cd != pd && DataMapped(x.pt, pd)
    requires n <= |v| == NUM_PAG_DATA && forall i :: 0 <= i < |v| ==> IsFrame(v[i])
    requires forall p :: PAG_END <= p < PAG_END + NUM_PAG_DATA ==> x.pt[pd][p] == Absent
    ensures var y := ForkPages(x, cd, pd, v, n);
            && (forall d :: IsDir(d) && d != cd ==> y.pt[d] == x.pt[d])
            && (forall p :: 0 <= p < TOTAL_PAGES ==>
                  y.pt[cd][p] == if PAG_DATA <= p < PAG_DATA + n then DataEntry(v[p - PAG_DATA]) else x.pt[cd][p])
    decreases n
  {
    if n > 0 {
      ForkedTables(x, cd, pd, v, n - 1);
      var y := ForkPages(x, cd, pd, v, n - 1);
      var z := ForkPage(y, cd, pd, n - 1, v[n - 1]);
      assert z.pt[pd] == y.pt[pd];
    }
  }

  /** The frame whose old contents are in frame f after n rounds of the copy loop. */
  ghost function Source(pt: seq<seq<Entry>>, pd: int, v: seq<int>, n: nat, f: int): int
    requires TablesShape(pt) && IsDir(pd) && n <= |v| == NUM_PAG_DATA
  {
    if n == 0 then f else if f == v[n - 1] then Maps(pt, pd, n - 1) else Source(pt, pd, v, n - 1, f)
  }

  lemma {:induction false} SourceOf(pt: seq<seq<Entry>>, pd: int, v: seq<int>, n: nat, f: int)
    requires TablesShape(pt) && IsDir(pd) && n <= |v| == NUM_PAG_DATA
    requires forall i, j :: 0 <= i < j < |v| ==> v[i] != v[j]
    ensures (forall i :: 0 <= i < n ==> v[i] != f) ==> Source(pt, pd, v, n, f) == f
    ensures forall i :: 0 <= i < n && v[i] == f ==> Source(pt, pd, v, n, f) == Maps(pt, pd, i)
  {
    if n > 0 {
      SourceOf(pt, pd, v, n - 1, f);
    }
  }

  ghost predicate Fresh(pt: seq<seq<Entry>>, pd: int, v: seq<int>)
    requires TablesShape(pt) && IsDir(pd)
  {
    && |v| == NUM_PAG_DATA && (forall i :: 0 <= i < |v| ==> IsFrame(v[i]))
    && (forall i, j :: 0 <= i < j < |v| ==> v[i] != v[j])
    && (forall i, j :: 0 <= i < |v| && IsData(j) ==> v[i] != Maps(pt, pd, j))
  }

  /** After n rounds the first n new frames hold copies of data pages of the parent, and every other
      frame is as before. */
  lemma {:induction false} ForkedPages(x: Image, cd: int, pd: int, v: seq<int>, n: nat, f: int)
    requires ImageShape(x) && IsDir(cd) && IsDir(pd) && cd != pd && DataMapped(x.pt, pd) && Fresh(x.pt, pd, v)
    requires n <= NUM_PAG_DATA && IsFrame(f)
    ensures IsFrame(Source(x.pt, pd, v, n, f))
    ensures Page(ForkPages(x, cd, pd, v, n).ram, f) == Page(x.ram, Source(x.pt, pd, v, n, f))
    decreases n
  {
    if n > 0 {
      var y := ForkPages(x, cd, pd, v, n - 1);
      var src := Maps(x.pt, pd, n - 1);
      assert Maps(y.pt, pd, n - 1) == src;
      ForkedPage(y, cd, pd, n - 1, v[n - 1], f);
      if f == v[n - 1] {
        ForkedPages(x, cd, pd, v, n - 1, src);
        SourceOf(x.pt, pd, v, n - 1, src);
      } else {
        ForkedPages(x, cd, pd, v, n - 1, f);
      }
    }
  }

  lemma ForkedPage(y: Image, cd: int, pd: int, j: int, f: int, g: int)
    requires ImageShape(y) && IsDir(cd) && IsDir(pd) && cd != pd && DataMapped(y.pt, pd) && IsData(j)
    requires IsFrame(f) && IsFrame(g)
    ensures Page(ForkPage(y, cd, pd, j, f).ram, g) == Page(y.ram, if g == f then Maps(y.pt, pd, j) else g)
  {
    CopiedPage(y.ram, Maps(y.pt, pd, j), f, g);
  }

  // ---- pigeonhole ----

  ghost function MapSet<A, B>(s: set<A>, f: A -> B): set<B> {
    set x | x in s :: f(x)
  }

  lemma {:induction false} ImageSize<A, B>(s: set<A>, f: A -> B)
    ensures |MapSet(s, f)| <= |s|
  {
    if s == {} {
      assert MapSet(s, f) == {};
    } else {
      var y :| y in s;
      ImageSize(s - {y}, f);
      assert MapSet(s, f) == MapSet(s - {y}, f) + {f(y)};
    }
  }

  lemma ImageHas<A, B>(s: set<A>, f: A -> B, x: A)
    requires x in s
    ensures f(x) in MapSet(s, f)
  {
  }

  ghost function Range(n: nat): (s: set<int>)
    ensures |s| == n && forall x :: x in s <==> 0 <= x < n
  {
    if n == 0 then {} else Range(n - 1) + {n - 1}
  }

  lemma SubsetSize(a: set<int>, b: set<int>)
    requires a <= b
    ensures |a| <= |b| && (|a| == |b| ==> a == b)
  {
    assert |b - a| == |b| - |a|;
    if |a| == |b| {
      assert b - a == {};
    }
  }

  ghost function Live(dirOf: seq<int>): set<int> {
    set t | 0 <= t < |dirOf| && dirOf[t] >= 0
  }

  ghost function Dirs(m: Space): set<int>
    requires Shape(m)
  {
    set d | 0 <= d < NR_TASKS && m.usage[d] > 0
  }

  /** There are at most as many used directories as live tasks. */
  lemma DirsFewerThanTasks(m: Space)
    requires Shape(m) && Usage(m)
    ensures |Dirs(m)| <= |Live(m.dirOf)|
  {
    var f := (t: int) => if 0 <= t < |m.dirOf| then m.dirOf[t] else -1;
    forall d | d in Dirs(m) ensures d in MapSet(Live(m.dirOf), f) {
      UsedHasUser(m, d);
      var t :| 0 <= t < NR_TASKS && m.dirOf[t] == d;
      ImageHas(Live(m.dirOf), f, t);
    }
    ImageSize(Live(m.dirOf), f);
    SubsetSize(Dirs(m), MapSet(Live(m.dirOf), f));
  }

  lemma DeadBounds(m: Space, c: int)
    requires Shape(m) && Usage(m) && 0 <= c < NR_TASKS && m.dirOf[c] == -1
    ensures |Live(m.dirOf)| <= NR_TASKS - 1
  {
    hide Range;
    SubsetSize(Live(m.dirOf), Range(NR_TASKS) - {c});
  }

  /** While a control block is free, allocate_DIR finds a free directory. */
  lemma DirAvailable(m: Space, c: int)
    requires Shape(m) && Usage(m) && 0 <= c < NR_TASKS && m.dirOf[c] == -1
    ensures FindDir(m.usage, 0) >= 0
  {
    if FindDir(m.usage, 0) < 0 {
      assert forall d :: IsDir(d) ==> m.usage[d] == |Users(m.dirOf, d)|;
      SubsetSize(Range(NR_TASKS), Dirs(m));
      DirsFewerThanTasks(m);
      DeadBounds(m, c);
    }
  }

  /** The used frames the allocator can see. */
  ghost function UsedFrames(phys: seq<bool>): set<int> {
    set f | NUM_PAG_KERNEL <= f < |phys| && f % 2 == 0 && phys[f]
  }

  ghost function UserDirs(m: Space, idle: int): set<int>
    requires Shape(m) && 0 <= idle < NR_TASKS
  {
    set d | 0 <= d < NR_TASKS && InUse(m, idle, d)
  }

  /** The data pages of some address spaces. */
  ghost function DataPages(dirs: set<int>): set<(int, int)> {
    set d, j | d in dirs && j in Range(NUM_PAG_DATA) :: (d, j)
  }

  lemma {:induction false} DataPagesSize(dirs: set<int>)
    ensures |DataPages(dirs)| <= NUM_PAG_DATA * |dirs|
  {
    hide DataPages;
    if |dirs| == 0 {
      assert dirs == {};
      NoDataPages();
    } else {
      var d := Pick(dirs);
      DataPagesSize(dirs - {d});
      MoreDataPages(dirs, d);
      assert NUM_PAG_DATA * (|dirs - {d}| + 1) == NUM_PAG_DATA * |dirs - {d}| + NUM_PAG_DATA;
    }
  }

  lemma Pick<T>(s: set<T>) returns (x: T)
    requires s != {}
    ensures x in s
  {
    x :| x in s;
  }

  lemma NoDataPages()
    ensures DataPages({}) == {}
  {
  }

  lemma MoreDataPages(dirs: set<int>, d: int)
    requires d in dirs
    ensures |DataPages(dirs)| <= |DataPages(dirs - {d})| + NUM_PAG_DATA
  {
    var r := dirs - {d};
    var f := (j: int) => (d, j);
    ImageSize(Range(NUM_PAG_DATA), f);
    forall x | x in DataPages(dirs) ensures x in DataPages(r) + MapSet(Range(NUM_PAG_DATA), f) {
      if x.0 == d {
        assert x == f(x.1);
      }
    }
    SubsetSizes(DataPages(dirs), DataPages(r), MapSet(Range(NUM_PAG_DATA), f));
  }

  lemma SubsetSizes<T>(a: set<T>, b: set<T>, c: set<T>)
    requires forall x :: x in a ==> x in b + c
    ensures |a| <= |b| + |c|
  {
    assert |b + c - a| == |b + c| - |a|;
    assert |b + c| == |b| + |c| - |b * c|;
  }

  ghost function FrameOf(m: Space): ((int, int)) -> int
    requires Shape(m)
  {
    (x: (int, int)) => if IsDir(x.0) && IsData(x.1) then Maps(m.pt, x.0, x.1) else -1
  }

  ghost function CodeFrames(): int -> int {
    p => CodeFrame(PAG_CODE + p)
  }

  /** Each address space accounts for at most its data pages, and all of them together for the code. */
  lemma UsedFramesBound(m: Space, idle: int)
    requires Inv(m, idle)
    ensures |UsedFrames(m.phys)| <= NUM_PAG_CODE + NUM_PAG_DATA * |UserDirs(m, idle)|
  {
    var pages := DataPages(UserDirs(m, idle));
    var data, code := MapSet(pages, FrameOf(m)), MapSet(Range(NUM_PAG_CODE), CodeFrames());
    forall x | x in UsedFrames(m.phys) ensures x in data + code {
      UsedFrame(m, idle, x);
    }
    SubsetSizes(UsedFrames(m.phys), data, code);
    ImageSize(pages, FrameOf(m));
    ImageSize(Range(NUM_PAG_CODE), CodeFrames());
    DataPagesSize(UserDirs(m, idle));
  }

  lemma UsedFrame(m: Space, idle: int, x: int)
    requires Inv(m, idle) && x in UsedFrames(m.phys)
    ensures x in MapSet(DataPages(UserDirs(m, idle)), FrameOf(m)) + MapSet(Range(NUM_PAG_CODE), CodeFrames())
  {
    hide Tables, DataFrames, Disjoint, Usage, MapSet, Owned;
    assert NUM_PAG_KERNEL <= x < TOTAL_PAGES && m.phys[x];
    if x < FIRST_DATA {
      CodeFrameIn(x);
    } else {
      OwnedFrame(m, idle, x);
    }
  }

  lemma CodeFrameIn(x: int)
    requires NUM_PAG_KERNEL <= x < FIRST_DATA && x % 2 == 0
    ensures x in MapSet(Range(NUM_PAG_CODE), CodeFrames())
  {
    hide Range, MapSet;
    var p := (x - NUM_PAG_KERNEL) / 2;
    assert CodeFrame(PAG_CODE + p) == x;
    assert p in Range(NUM_PAG_CODE);
    ImageHas(Range(NUM_PAG_CODE), CodeFrames(), p);
  }

  lemma OwnedFrame(m: Space, idle: int, x: int)
    requires Shape(m) && 0 <= idle < NR_TASKS && Owned(m, idle, x)
    ensures x in MapSet(DataPages(UserDirs(m, idle)), FrameOf(m))
  {
    var d, j :| InUse(m, idle, d) && IsData(j) && Maps(m.pt, d, j) == x;
    assert j in Range(NUM_PAG_DATA) && d in UserDirs(m, idle);
    assert (d, j) in DataPages(UserDirs(m, idle)) && FrameOf(m)((d, j)) == x;
    ImageHas(DataPages(UserDirs(m, idle)), FrameOf(m), (d, j));
  }

  /** User directories are fewer than live tasks, because the idle task has its own. */
  lemma UserDirsBound(m: Space, idle: int)
    requires Shape(m) && Usage(m) && IdleAlone(m, idle)
    ensures |UserDirs(m, idle)| <= |Live(m.dirOf)| - 1
  {
    DirsFewerThanTasks(m);
    UsedHasUser(m, m.dirOf[idle]);
    assert m.dirOf[idle] in Dirs(m);
    assert UserDirs(m, idle) == Dirs(m) - {m.dirOf[idle]};
  }

  ghost function EvenFrames(n: nat): (s: set<int>)
    ensures |s| == n && forall f :: f in s <==> NUM_PAG_KERNEL <= f < NUM_PAG_KERNEL + 2 * n && f % 2 == 0
  {
    if n == 0 then {} else EvenFrames(n - 1) + {NUM_PAG_KERNEL + 2 * (n - 1)}
  }

  /** The number of frames the allocator can reach. */
  const REACHABLE: int := 384

  lemma AllocOne(phys: seq<bool>)
    requires |phys| == TOTAL_PAGES && |UsedFrames(phys)| < REACHABLE
    ensures var f := AllocFrame(phys); 0 <= f < |phys| && |UsedFrames(phys[f := true])| == |UsedFrames(phys)| + 1
  {
    var f := AllocFrame(phys);
    if f < 0 {
      AllUsed(phys);
      assert false;
    } else {
      assert UsedFrames(phys[f := true]) == UsedFrames(phys) + {f};
    }
  }

  lemma AllUsed(phys: seq<bool>)
    requires |phys| == TOTAL_PAGES && AllocFrame(phys) < 0
    ensures |UsedFrames(phys)| >= REACHABLE
  {
    hide AllocFrame;
    assert forall f :: f in EvenFrames(REACHABLE) ==> phys[f];
    SubsetSize(EvenFrames(REACHABLE), UsedFrames(phys));
  }

  /** The loop succeeds as long as enough frames are free. */
  lemma {:induction false} AllocSucceeds(phys: seq<bool>, n: nat)
    requires |phys| == TOTAL_PAGES && |UsedFrames(phys)| + n <= REACHABLE
    ensures AllocSome(phys, n).ok
    ensures |UsedFrames(AllocSome(phys, n).phys)| == |UsedFrames(phys)| + n
  {
    hide UsedFrames, AllocFrame;
    if n > 0 {
      AllocSucceeds(phys, n - 1);
      AllocOne(AllocSome(phys, n - 1).phys);
    }
  }

  /** Frame exhaustion is unreachable: while a control block is free, fork gets all its frames. */
  lemma NeverExhausted(m: Space, idle: int, c: int)
    requires Inv(m, idle) && 0 <= c < NR_TASKS && m.dirOf[c] == -1
    ensures GetFrames(m.phys).ok
  {
    UsedFramesBound(m, idle);
    UserDirsBound(m, idle);
    DeadBounds(m, c);
    assert |UserDirs(m, idle)| <= 8;
    assert NUM_PAG_DATA * |UserDirs(m, idle)| <= NUM_PAG_DATA * 8;
    AllocSucceeds(m.phys, NUM_PAG_DATA);
  }

  // ---- fork keeps the invariant ----

  ghost predicate CanFork(m: Space, idle: int, parent: int, child: int) {
    && Inv(m, idle) && 0 <= parent < NR_TASKS && 0 <= child < NR_TASKS && parent != idle
    && m.dirOf[parent] >= 0 && m.dirOf[child] == -1
  }

  lemma InUseMapped(m: Space, idle: int, d: int)
    requires Inv(m, idle) && InUse(m, idle, d)
    ensures DataMapped(m.pt, d)
  {
    forall j | IsData(j) ensures IsFrame(Maps(m.pt, d, j)) {
    }
  }

  lemma ParentInUse(m: Space, idle: int, parent: int)
    requires Inv(m, idle) && 0 <= parent < NR_TASKS && parent != idle && m.dirOf[parent] >= 0
    ensures InUse(m, idle, m.dirOf[parent])
  {
    UsedHasUser(m, m.dirOf[parent]);
  }

  /** The preconditions of ForkSpace hold whenever a control block is free. */
  lemma ForkReady(m: Space, idle: int, parent: int, child: int)
    requires CanFork(m, idle, parent, child)
    ensures var r, d := GetFrames(m.phys), FindDir(m.usage, 0);
            && r.ok && IsDir(d) && m.usage[d] == 0 && d != m.dirOf[parent] && d != m.dirOf[idle]
            && InUse(m, idle, m.dirOf[parent]) && DataMapped(m.pt, m.dirOf[parent])
            && (forall i :: 0 <= i < |r.v| ==> IsFrame(r.v[i]))
  {
    hide Tables, DataFrames, Disjoint, NoLeak;
    ParentInUse(m, idle, parent);
    InUseMapped(m, idle, m.dirOf[parent]);
    DirAvailable(m, child);
    NeverExhausted(m, idle, child);
    UsedHasUser(m, m.dirOf[idle]);
  }

  ghost function Forked(m: Space, idle: int, parent: int, child: int): (m': Space)
    requires CanFork(m, idle, parent, child)
    ensures Shape(m')
  {
    ForkReady(m, idle, parent, child);
    ForkSpace(m, GetFrames(m.phys), parent, child)
  }

  /** The new frames are free even frames above the code frames, all different, mapped by nobody. */
  lemma NewFrames(m: Space, idle: int)
    requires Inv(m, idle) && GetFrames(m.phys).ok
    ensures var r := GetFrames(m.phys);
            && |r.v| == NUM_PAG_DATA
            && (forall i :: 0 <= i < |r.v| ==> FIRST_DATA <= r.v[i] < TOTAL_PAGES && r.v[i] % 2 == 0 && !m.phys[r.v[i]])
            && (forall i, j :: 0 <= i < j < |r.v| ==> r.v[i] != r.v[j])
            && (forall f :: IsFrame(f) ==> (r.phys[f] <==> m.phys[f] || f in r.v))
  {
    hide Tables, DataFrames, Disjoint, Usage, Owned;
    Taken(m.phys, NUM_PAG_DATA);
    var r := GetFrames(m.phys);
    assert r == AllocSome(m.phys, NUM_PAG_DATA);
    forall i | 0 <= i < |r.v| ensures FIRST_DATA <= r.v[i] {
      assert !m.phys[r.v[i]] && r.v[i] % 2 == 0;
    }
  }

  lemma ClearTail(m: Space, idle: int, d: int)
    requires Inv(m, idle) && IsDir(d)
    ensures forall p :: PAG_END <= p < TOTAL_PAGES ==> m.pt[d][p] == Absent
  {
    assert RowOk(m.pt[d], InUse(m, idle, d));
  }

  lemma ForkedRows(m: Space, idle: int, parent: int, child: int)
    requires CanFork(m, idle, parent, child)
    ensures var m', d, v := Forked(m, idle, parent, child), FindDir(m.usage, 0), GetFrames(m.phys).v;
            && IsDir(d) && |v| == NUM_PAG_DATA
            && (forall e :: IsDir(e) && e != d ==> m'.pt[e] == m.pt[e])
            && (forall p :: 0 <= p < TOTAL_PAGES ==>
                  m'.pt[d][p] == if p < PAG_DATA then m.pt[m.dirOf[parent]][p]
                                 else if p < PAG_END then DataEntry(v[p - PAG_DATA]) else m.pt[d][p])
  {
    hide Tables, DataFrames, Disjoint, NoLeak, Usage, RowOk, IdleAlone, Forked, GetFrames, ForkPages, FindDir;
    ForkReady(m, idle, parent, child);
    ForkedImage(m, idle, parent, child);
    var d, pd := FindDir(m.usage, 0), m.dirOf[parent];
    ClearTail(m, idle, pd);
    ForkedTables(ForkImage(m, d, pd), d, pd, GetFrames(m.phys).v, NUM_PAG_DATA);
  }

  /** The tables and the memory when fork starts to copy pages. */
  ghost function ForkImage(m: Space, d: int, pd: int): (x: Image)
    requires Shape(m) && IsDir(d) && IsDir(pd) && d != pd
    ensures ImageShape(x)
    ensures forall j :: IsData(j) ==> Maps(x.pt, pd, j) == Maps(m.pt, pd, j)
  {
    Image(ShareCode(m.pt, d, pd), m.ram)
  }

  lemma ForkedImage(m: Space, idle: int, parent: int, child: int)
    requires CanFork(m, idle, parent, child)
    ensures var d, pd, r := FindDir(m.usage, 0), m.dirOf[parent], GetFrames(m.phys);
            && IsDir(d) && d != pd && DataMapped(m.pt, pd) && |r.v| == NUM_PAG_DATA
            && (forall i :: 0 <= i < |r.v| ==> IsFrame(r.v[i]))
            && var y, m' := ForkPages(ForkImage(m, d, pd), d, pd, r.v, NUM_PAG_DATA), Forked(m, idle, parent, child);
            m' == Space(m.dirOf[child := d], m.usage[d := m.usage[d] + 1], r.phys, y.pt, y.ram)
  {
    hide Tables, DataFrames, Disjoint, NoLeak, Usage, IdleAlone, GetFrames, ForkPages, FindDir, InUse;
    ForkReady(m, idle, parent, child);
  }

  lemma ForkedUse(m: Space, idle: int, parent: int, child: int)
    requires CanFork(m, idle, parent, child)
    ensures var m', d := Forked(m, idle, parent, child), FindDir(m.usage, 0);
            && IdleAlone(m', idle) && Usage(m') && IsDir(d) && !InUse(m, idle, d)
            && (forall e :: InUse(m', idle, e) <==> InUse(m, idle, e) || e == d)
  {
    hide Tables, DataFrames, Disjoint, NoLeak, Forked, GetFrames, ForkPages, FindDir;
    ForkReady(m, idle, parent, child);
    ForkedImage(m, idle, parent, child);
    UsageJoin(m, Forked(m, idle, parent, child), child, FindDir(m.usage, 0));
  }

  lemma ForkedRowOk(parent: seq<Entry>, before: seq<Entry>, row: seq<Entry>, v: seq<int>)
    requires |parent| == |before| == |row| == TOTAL_PAGES && |v| == NUM_PAG_DATA
    requires RowOk(parent, true) && RowOk(before, false)
    requires forall p :: 0 <= p < TOTAL_PAGES ==>
      row[p] == if p < PAG_DATA then parent[p] else if p < PAG_END then DataEntry(v[p - PAG_DATA]) else before[p]
    ensures RowOk(row, true)
  {
  }

  lemma ForkedTablesOk(m: Space, idle: int, parent: int, child: int)
    requires CanFork(m, idle, parent, child)
    ensures Tables(Forked(m, idle, parent, child), idle)
  {
    var m', d := Forked(m, idle, parent, child), FindDir(m.usage, 0);
    ForkedUse(m, idle, parent, child);
    ForkedRows(m, idle, parent, child);
    ParentInUse(m, idle, parent);
    hide DataFrames, Disjoint, NoLeak, Usage, IdleAlone, Forked, RowOk;
    forall e | IsDir(e) ensures RowOk(m'.pt[e], InUse(m', idle, e)) {
      assert RowOk(m.pt[e], InUse(m, idle, e));
      if e == d {
        assert RowOk(m.pt[m.dirOf[parent]], true);
        ForkedRowOk(m.pt[m.dirOf[parent]], m.pt[d], m'.pt[d], GetFrames(m.phys).v);
      }
    }
  }

  /** Where the data pages are after a fork. */
  lemma ForkedMaps(m: Space, idle: int, parent: int, child: int)
    requires CanFork(m, idle, parent, child)
    ensures var m', d, v := Forked(m, idle, parent, child), FindDir(m.usage, 0), GetFrames(m.phys).v;
            && IsDir(d) && |v| == NUM_PAG_DATA
            && forall e, j :: IsDir(e) && IsData(j) ==> Maps(m'.pt, e, j) == if e == d then v[j] else Maps(m.pt, e, j)
  {
    hide Tables, DataFrames, Disjoint, NoLeak, Usage, IdleAlone, Forked;
    ForkedRows(m, idle, parent, child);
  }

  lemma ForkedPhys(m: Space, idle: int, parent: int, child: int)
    requires CanFork(m, idle, parent, child)
    ensures Forked(m, idle, parent, child).phys == GetFrames(m.phys).phys && GetFrames(m.phys).ok
  {
    ForkReady(m, idle, parent, child);
  }

  /** m' is m with one more address space d, whose data pages are the frames v. */
  ghost predicate Grown(m: Space, m': Space, idle: int, d: int, v: seq<int>) {
    && Shape(m) && Shape(m') && 0 <= idle < NR_TASKS && IsDir(d) && |v| == NUM_PAG_DATA && !InUse(m, idle, d)
    && (forall e :: InUse(m', idle, e) <==> InUse(m, idle, e) || e == d)
    && (forall e, j :: IsDir(e) && IsData(j) ==> Maps(m'.pt, e, j) == if e == d then v[j] else Maps(m.pt, e, j))
    && (forall i :: 0 <= i < |v| ==> FIRST_DATA <= v[i] < TOTAL_PAGES && v[i] % 2 == 0 && !m.phys[v[i]])
    && (forall i, j :: 0 <= i < j < |v| ==> v[i] != v[j])
    && (forall f :: IsFrame(f) ==> (m'.phys[f] <==> m.phys[f] || f in v))
  }

  lemma ForkGrows(m: Space, idle: int, parent: int, child: int)
    requires CanFork(m, idle, parent, child)
    ensures Grown(m, Forked(m, idle, parent, child), idle, FindDir(m.usage, 0), GetFrames(m.phys).v)
  {
    hide Tables, DataFrames, Disjoint, NoLeak, Usage, Forked, GetFrames, Maps, InUse, FindDir;
    ForkedUse(m, idle, parent, child);
    ForkedMaps(m, idle, parent, child);
    ForkedPhys(m, idle, parent, child);
    NewFrames(m, idle);
  }

  lemma GrownFrames(m: Space, m': Space, idle: int, d: int, v: seq<int>)
    requires Grown(m, m', idle, d, v) && DataFrames(m, idle)
    ensures DataFrames(m', idle)
  {
    hide Maps;
  }

  lemma GrownDisjoint(m: Space, m': Space, idle: int, d: int, v: seq<int>)
    requires Grown(m, m', idle, d, v) && DataFrames(m, idle) && Disjoint(m, idle)
    ensures Disjoint(m', idle)
  {
    hide Maps;
  }

  lemma GrownNoLeak(m: Space, m': Space, idle: int, d: int, v: seq<int>)
    requires Grown(m, m', idle, d, v) && NoLeak(m, idle)
    ensures NoLeak(m', idle)
  {
    hide InUse, Maps;
    forall f | FIRST_DATA <= f < TOTAL_PAGES && m'.phys[f] ensures Owned(m', idle, f) {
      GrownOwned(m, m', idle, d, v, f);
    }
  }

  lemma GrownOwned(m: Space, m': Space, idle: int, d: int, v: seq<int>, f: int)
    requires Grown(m, m', idle, d, v) && (f in v || Owned(m, idle, f))
    ensures Owned(m', idle, f)
  {
    if f in v {
      var j :| 0 <= j < |v| && v[j] == f;
      assert InUse(m', idle, d) && IsData(j) && Maps(m'.pt, d, j) == f;
    } else {
      var e, j :| InUse(m, idle, e) && IsData(j) && Maps(m.pt, e, j) == f;
      assert InUse(m', idle, e) && Maps(m'.pt, e, j) == f;
    }
  }

  /** The memory part of fork keeps the invariant. */
  lemma ForkKeeps(m: Space, idle: int, parent: int, child: int)
    requires CanFork(m, idle, parent, child)
    ensures Inv(Forked(m, idle, parent, child), idle)
  {
    hide Tables, DataFrames, Disjoint, NoLeak, Usage, IdleAlone, Forked, RowOk, Grown, GetFrames;
    ForkedUse(m, idle, parent, child);
    ForkedTablesOk(m, idle, parent, child);
    ForkGrows(m, idle, parent, child);
    var m', d, v := Forked(m, idle, parent, child), FindDir(m.usage, 0), GetFrames(m.phys).v;
    GrownFrames(m, m', idle, d, v);
    GrownDisjoint(m, m', idle, d, v);
    GrownNoLeak(m, m', idle, d, v);
  }

  // ---- what user programs see ----

  /** Data page j as task t reads it. */
  ghost function ReadPage(m: Space, t: int, j: int): seq<Byte>
    requires Shape(m) && 0 <= t < NR_TASKS && m.dirOf[t] >= 0 && IsData(j) && DataMapped(m.pt, m.dirOf[t])
  {
    Page(m.ram, Maps(m.pt, m.dirOf[t], j))
  }

  ghost predicate IsUser(m: Space, idle: int, t: int)
    requires Shape(m)
  {
    0 <= t < NR_TASKS && t != idle && m.dirOf[t] >= 0
  }

  lemma UserMapped(m: Space, idle: int, t: int)
    requires Inv(m, idle) && IsUser(m, idle, t)
    ensures InUse(m, idle, m.dirOf[t]) && DataMapped(m.pt, m.dirOf[t])
  {
    ParentInUse(m, idle, t);
    InUseMapped(m, idle, m.dirOf[t]);
  }

  /** Every frame that was mapped before a fork keeps its contents; the new ones hold the parent's. */
  lemma ForkedContents(m: Space, idle: int, parent: int, child: int, f: int)
    requires CanFork(m, idle, parent, child) && IsFrame(f)
    ensures var m', v := Forked(m, idle, parent, child), GetFrames(m.phys).v;
            && |v| == NUM_PAG_DATA && DataMapped(m.pt, m.dirOf[parent])
            && (f !in v ==> Page(m'.ram, f) == Page(m.ram, f))
            && (forall j :: IsData(j) && v[j] == f ==> Page(m'.ram, f) == Page(m.ram, Maps(m.pt, m.dirOf[parent], j)))
  {
    hide Tables, Disjoint, Usage, IdleAlone, Forked, GetFrames, ForkPages, FindDir, NoLeak;
    ForkReady(m, idle, parent, child);
    ForkedImage(m, idle, parent, child);
    var d, pd, v := FindDir(m.usage, 0), m.dirOf[parent], GetFrames(m.phys).v;
    var x := ForkImage(m, d, pd);
    NewFrames(m, idle);
    assert Fresh(x.pt, pd, v);
    ForkedPages(x, d, pd, v, NUM_PAG_DATA, f);
    SourceOf(x.pt, pd, v, NUM_PAG_DATA, f);
    hide Page, DataFrames;
  }

  /** Fork is a snapshot: the child reads in each data page what the parent had there, shares its kernel and
      code pages, and the parent's page table is unchanged. */
  lemma ForkSnapshot(m: Space, idle: int, parent: int, child: int, j: int)
    requires CanFork(m, idle, parent, child) && IsData(j)
    ensures var m' := Forked(m, idle, parent, child);
            && IsUser(m, idle, parent) && DataMapped(m.pt, m.dirOf[parent])
            && IsUser(m', idle, child) && DataMapped(m'.pt, m'.dirOf[child])
            && ReadPage(m', child, j) == ReadPage(m, parent, j)
            && m'.pt[m.dirOf[parent]] == m.pt[m.dirOf[parent]]
            && (forall p :: 0 <= p < PAG_DATA ==> m'.pt[m'.dirOf[child]][p] == m.pt[m.dirOf[parent]][p])
  {
    hide Tables, Disjoint, Usage, Forked, GetFrames, ForkPages, FindDir, NoLeak, Page, DataMapped;
    var m', d, v := Forked(m, idle, parent, child), FindDir(m.usage, 0), GetFrames(m.phys).v;
    ForkKeeps(m, idle, parent, child);
    ForkReady(m, idle, parent, child);
    ForkedImage(m, idle, parent, child);
    ForkedRows(m, idle, parent, child);
    ForkedMaps(m, idle, parent, child);
    assert m'.dirOf == m.dirOf[child := d];
    ForkedContents(m, idle, parent, child, v[j]);
    UserMapped(m', idle, child);
  }

  /** Everybody else, the parent among them, reads what he read before. */
  lemma ReadSame(m: Space, idle: int, parent: int, child: int, t: int, j: int)
    requires CanFork(m, idle, parent, child) && IsData(j) && IsUser(m, idle, t)
    ensures var m' := Forked(m, idle, parent, child);
            && DataMapped(m.pt, m.dirOf[t]) && m'.dirOf[t] == m.dirOf[t] && DataMapped(m'.pt, m'.dirOf[t])
            && ReadPage(m', t, j) == ReadPage(m, t, j)
  {
    hide Tables, Disjoint, Usage, Forked, GetFrames, ForkPages, FindDir, NoLeak, Page;
    var m', d := Forked(m, idle, parent, child), FindDir(m.usage, 0);
    UserMapped(m, idle, t);
    ForkReady(m, idle, parent, child);
    ForkedImage(m, idle, parent, child);
    ForkedMaps(m, idle, parent, child);
    NewFrames(m, idle);
    assert m'.dirOf == m.dirOf[child := d];
    var f := Maps(m.pt, m.dirOf[t], j);
    ForkedContents(m, idle, parent, child, f);
    ForkKeeps(m, idle, parent, child);
    UserMapped(m', idle, t);
  }

  /** Isolation: a store of task t changes byte `off` of page j for the tasks that share its directory,
      and nothing for anybody else. */
  lemma StoreIsolated(m: Space, idle: int, t: int, j: int, off: int, value: Byte, u: int, i: int)
    requires Inv(m, idle) && IsUser(m, idle, t) && IsUser(m, idle, u) && IsData(j) && IsData(i) && 0 <= off < PAGE_SIZE
    requires DataMapped(m.pt, m.dirOf[t]) && DataMapped(m.pt, m.dirOf[u])
    ensures var m' := Store(m, t, j, off, value);
            ReadPage(m', u, i) == if m.dirOf[u] == m.dirOf[t] && i == j then ReadPage(m, u, i)[off := value]
                                  else ReadPage(m, u, i)
  {
    UserMapped(m, idle, t);
    UserMapped(m, idle, u);
    var f, g := Maps(m.pt, m.dirOf[t], j), Maps(m.pt, m.dirOf[u], i);
    assert f == g <==> m.dirOf[u] == m.dirOf[t] && i == j;
    StoredPage(m.ram, f, g, off, value);
  }

  lemma StoredPage(ram: seq<Byte>, f: int, g: int, off: int, value: Byte)
    requires |ram| == TOTAL_PAGES * PAGE_SIZE && IsFrame(f) && IsFrame(g) && 0 <= off < PAGE_SIZE
    ensures Page(ram[f * PAGE_SIZE + off := value], g) == if f == g then Page(ram, g)[off := value] else Page(ram, g)
  {
    var ram' := ram[f * PAGE_SIZE + off := value];
    forall k | 0 <= k < PAGE_SIZE
      ensures Page(ram', g)[k] == (if f == g then Page(ram, g)[off := value] else Page(ram, g))[k]
    {
      assert Page(ram', g)[k] == ram'[g * PAGE_SIZE + k];
      if f < g {
        assert f * PAGE_SIZE + off < g * PAGE_SIZE;
      } else if g < f {
        assert g * PAGE_SIZE + k < f * PAGE_SIZE;
      }
    }
  }

  lemma StoreKeeps(m: Space, idle: int, t: int, j: int, off: int, value: Byte)
    requires Inv(m, idle) && IsUser(m, idle, t) && IsData(j) && 0 <= off < PAGE_SIZE && DataMapped(m.pt, m.dirOf[t])
    ensures Inv(Store(m, t, j, off, value), idle)
  {
    SameTables(m, Store(m, t, j, off, value), idle);
  }

  /** The invariant says nothing about memory contents, and about counters only whether they are 0. */
  lemma SameTables(m: Space, m': Space, idle: int)
    requires Inv(m, idle) && Shape(m') && IdleAlone(m', idle) && Usage(m') && m'.pt == m.pt && m'.phys == m.phys
    requires forall d :: InUse(m', idle, d) <==> InUse(m, idle, d)
    ensures Inv(m', idle)
  {
    hide RowOk;
    forall f | Owned(m, idle, f) ensures Owned(m', idle, f) {
      var d, j :| InUse(m, idle, d) && IsData(j) && Maps(m.pt, d, j) == f;
      assert InUse(m', idle, d) && Maps(m'.pt, d, j) == f;
    }
  }

  // ---- clone and exit keep the invariant ----

  lemma CloneKeeps(m: Space, idle: int, parent: int, child: int)
    requires CanFork(m, idle, parent, child)
    ensures Inv(CloneSpace(m, parent, child), idle)
  {
    hide Tables, DataFrames, Disjoint, NoLeak;
    var m' := CloneSpace(m, parent, child);
    UsedHasUser(m, m.dirOf[parent]);
    UsageJoin(m, m', child, m.dirOf[parent]);
    SameTables(m, m', idle);
  }

  /** What free_user_pages frees and clears. */
  lemma {:induction false} FreedPages(phys: seq<bool>, row: seq<Entry>, n: nat)
    requires |row| == TOTAL_PAGES && |phys| == TOTAL_PAGES && n <= NUM_PAG_DATA
    requires forall p :: PAG_DATA <= p < PAG_END ==> FIRST_DATA <= row[p].frame < TOTAL_PAGES
    ensures forall p :: 0 <= p < TOTAL_PAGES ==>
              FreePages(phys, row, n).row[p] == (if PAG_DATA <= p < PAG_DATA + n then Absent else row[p])
    ensures forall f :: IsFrame(f) ==>
              (FreePages(phys, row, n).phys[f] <==>
               phys[f] && forall p :: PAG_DATA <= p < PAG_DATA + n ==> row[p].frame != f)
  {
    if n > 0 {
      FreedPages(phys, row, n - 1);
      var p := PAG_DATA + n - 1;
      assert FreePages(phys, row, n - 1).row[p] == row[p];
    }
  }

  /** m' is m without address space d. */
  ghost predicate Shrunk(m: Space, m': Space, idle: int, d: int) {
    && Shape(m) && Shape(m') && 0 <= idle < NR_TASKS && InUse(m, idle, d)
    && (forall e :: InUse(m', idle, e) <==> InUse(m, idle, e) && e != d)
    && (forall e :: IsDir(e) && e != d ==> m'.pt[e] == m.pt[e])
    && (forall f :: IsFrame(f) ==> (m'.phys[f] <==> m.phys[f] && forall j :: IsData(j) ==> Maps(m.pt, d, j) != f))
  }

  lemma ShrunkFrames(m: Space, m': Space, idle: int, d: int)
    requires Shrunk(m, m', idle, d) && DataFrames(m, idle) && Disjoint(m, idle)
    ensures DataFrames(m', idle) && Disjoint(m', idle)
  {
    assert forall e, j :: IsDir(e) && IsData(j) && e != d ==> Maps(m'.pt, e, j) == Maps(m.pt, e, j);
    hide Maps;
  }

  lemma ShrunkNoLeak(m: Space, m': Space, idle: int, d: int)
    requires Shrunk(m, m', idle, d) && DataFrames(m, idle) && NoLeak(m, idle)
    ensures NoLeak(m', idle)
  {
    forall f | FIRST_DATA <= f < TOTAL_PAGES && m'.phys[f] ensures Owned(m', idle, f) {
      assert Owned(m, idle, f);
      var e, j :| InUse(m, idle, e) && IsData(j) && Maps(m.pt, e, j) == f;
      assert InUse(m', idle, e) && Maps(m'.pt, e, j) == f;
    }
  }

  lemma ExitShrinks(m: Space, idle: int, t: int)
    requires Inv(m, idle) && IsUser(m, idle, t)
    requires forall u :: 0 <= u < NR_TASKS && u != t ==> m.dirOf[u] != m.dirOf[t]
    ensures var m', d := ExitSpace(m, t), m.dirOf[t];
            && Shrunk(m, m', idle, d) && Usage(m') && IdleAlone(m', idle)
            && (forall p :: 0 <= p < TOTAL_PAGES ==>
                  m'.pt[d][p] == if PAG_DATA <= p < PAG_END then Absent else m.pt[d][p])
  {
    var m', d := ExitSpace(m, t), m.dirOf[t];
    UserMapped(m, idle, t);
    UsageLeave(m, m', t);
    assert m'.usage[d] == 0;
    forall p | PAG_DATA <= p < PAG_END ensures FIRST_DATA <= m.pt[d][p].frame < TOTAL_PAGES {
      assert FIRST_DATA <= Maps(m.pt, d, p - PAG_DATA) < TOTAL_PAGES;
    }
    hide Tables, DataFrames, Disjoint, NoLeak;
    FreedPages(m.phys, m.pt[d], NUM_PAG_DATA);
    var r := FreePages(m.phys, m.pt[d], NUM_PAG_DATA);
    assert m'.pt[d] == r.row && m'.phys == r.phys;
    assert forall p :: 0 <= p < TOTAL_PAGES ==> r.row[p] == (if PAG_DATA <= p < PAG_END then Absent else m.pt[d][p]);
    forall f | IsFrame(f)
      ensures (forall p :: PAG_DATA <= p < PAG_END ==> m.pt[d][p].frame != f) <==>
              (forall j :: IsData(j) ==> Maps(m.pt, d, j) != f)
    {
      assert forall p :: PAG_DATA <= p < PAG_END ==> Maps(m.pt, d, p - PAG_DATA) == m.pt[d][p].frame;
    }
  }

  lemma ExitKeeps(m: Space, idle: int, t: int)
    requires Inv(m, idle) && IsUser(m, idle, t)
    ensures Inv(ExitSpace(m, t), idle)
  {
    hide Tables, DataFrames, Disjoint, NoLeak, RowOk, Shrunk;
    var m', d := ExitSpace(m, t), m.dirOf[t];
    UserMapped(m, idle, t);
    UsageLeave(m, m', t);
    if m'.usage[d] == 0 {
      ExitShrinks(m, idle, t);
      ShrunkFrames(m, m', idle, d);
      ShrunkNoLeak(m, m', idle, d);
      ShrunkTables(m, m', idle, d);
    } else {
      SameTables(m, m', idle);
    }
  }

  lemma ShrunkTables(m: Space, m': Space, idle: int, d: int)
    requires Shrunk(m, m', idle, d) && Tables(m, idle)
    requires forall p :: 0 <= p < TOTAL_PAGES ==> m'.pt[d][p] == if PAG_DATA <= p < PAG_END then Absent else m.pt[d][p]
    ensures Tables(m', idle)
  {
    forall e | IsDir(e) ensures RowOk(m'.pt[e], InUse(m', idle, e)) {
      assert RowOk(m.pt[e], InUse(m, idle, e));
    }
  }

  /** The data frames of a directory are released exactly when its last thread exits. */
  lemma ReleasedByLast(m: Space, idle: int, t: int, j: int)
    requires Inv(m, idle) && IsUser(m, idle, t) && IsData(j) && DataMapped(m.pt, m.dirOf[t])
    ensures ExitSpace(m, t).phys[Maps(m.pt, m.dirOf[t], j)] <==>
            exists u :: 0 <= u < NR_TASKS && u != t && m.dirOf[u] == m.dirOf[t]
  {
    UserMapped(m, idle, t);
    UsageLeave(m, ExitSpace(m, t), t);
    if forall u :: 0 <= u < NR_TASKS && u != t ==> m.dirOf[u] != m.dirOf[t] {
      ExitShrinks(m, idle, t);
    }
  }
}
