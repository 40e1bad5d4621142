/** The complete effect of fork, exit and of a store on directories, frames, page tables and memory. */
module MemoryEffects {
  import opened Config
  import T = Tasks
  import TI = TasksInv
  import M = Space
  import MI = SpaceInv
  import MemoryLaws
  import opened Kernel

  // ---- the frames of a child ----

  /** `v` are the lowest free frames with even numbers from 256 on. */
  ghost predicate Lowest(phys: seq<bool>, v: seq<int>) {
    && (forall i :: 0 <= i < |v| ==> NUM_PAG_KERNEL <= v[i] < |phys| && v[i] % 2 == 0 && !phys[v[i]])
    && (forall i, j :: 0 <= i < j < |v| ==> v[i] < v[j])
    && (forall i, g :: 0 <= i < |v| && NUM_PAG_KERNEL <= g < v[i] && g % 2 == 0 && !phys[g] ==> g in v)
  }

  lemma {:induction false} LowestTaken(phys: seq<bool>, n: nat)
    ensures Lowest(phys, M.AllocSome(phys, n).v)
  {
    hide M.AllocFrame, Lowest;
    if n == 0 {
      LowestNone(phys);
    } else {
      LowestTaken(phys, n - 1);
      var r := M.AllocSome(phys, n - 1);
      MI.Taken(phys, n - 1);
      var f := M.AllocFrame(r.phys);
      if r.ok && f >= 0 {
        LowestNext(phys, r.phys, r.v, f);
      }
    }
  }

  lemma LowestNone(phys: seq<bool>)
    ensures Lowest(phys, [])
  {
  }

  lemma LowestNext(phys: seq<bool>, before: seq<bool>, v: seq<int>, f: int)
    requires Lowest(phys, v) && |before| == |phys|
    requires forall g :: 0 <= g < |phys| ==> (before[g] <==> phys[g] || g in v)
    requires NUM_PAG_KERNEL <= f < |phys| && !before[f] && f % 2 == 0
    requires forall g :: NUM_PAG_KERNEL <= g < f && g % 2 == 0 ==> before[g]
    ensures Lowest(phys, v + [f])
  {
    forall i | 0 <= i < |v| ensures v[i] < f {
      assert v[i] in v;
    }
  }

  // ---- fork ----

  /** Fork gives the child the first unused directory d.  Its kernel and code entries are those of the parent, its data
      pages the lowest free frames, which hold copies of the pages of the parent; every other table, frame, and page of
      memory is as before. */
  ghost predicate Inherited(m: M.Space, r: M.Space, parent: int, child: int)
    requires M.Shape(m) && M.Shape(r) && T.IsTask(parent) && T.IsTask(child) && M.IsDir(m.dirOf[parent])
    requires M.IsDir(r.dirOf[child]) && M.DataMapped(m.pt, m.dirOf[parent]) && M.DataMapped(r.pt, r.dirOf[child])
  {
    var d, pd, v := r.dirOf[child], m.dirOf[parent], MemoryLaws.MappedFrames(r, r.dirOf[child]);
    && m.usage[d] == 0 && (forall e :: 0 <= e < d ==> m.usage[e] != 0)
    && r.dirOf == m.dirOf[child := d] && r.usage == m.usage[d := 1]
    && (forall e :: M.IsDir(e) && e != d ==> r.pt[e] == m.pt[e])
    && (forall p :: 0 <= p < PAG_DATA ==> r.pt[d][p] == m.pt[pd][p])
    && Lowest(m.phys, v) && (forall f :: M.IsFrame(f) ==> (r.phys[f] <==> m.phys[f] || f in v))
    && (forall j :: M.IsData(j) ==> M.Page(r.ram, v[j]) == M.Page(m.ram, M.Maps(m.pt, pd, j)))
    && (forall f :: M.IsFrame(f) && f !in v ==> M.Page(r.ram, f) == M.Page(m.ram, f))
  }

  lemma ForkMemory(m: M.Space, idle: int, parent: int, child: int)
    requires MI.CanFork(m, idle, parent, child)
    ensures var r := MI.Forked(m, idle, parent, child);
            && M.IsDir(m.dirOf[parent]) && M.IsDir(r.dirOf[child])
            && M.DataMapped(m.pt, m.dirOf[parent]) && M.DataMapped(r.pt, r.dirOf[child])
            && Inherited(m, r, parent, child)
  {
    hide MI.Tables, MI.Disjoint, MI.Usage, MI.Forked, M.GetFrames, M.ForkPages, M.FindDir, MI.NoLeak, M.Page, Lowest,
         MI.DataFrames, M.DataMapped;
    var r, d, v := MI.Forked(m, idle, parent, child), M.FindDir(m.usage, 0), M.GetFrames(m.phys).v;
    MI.ForkReady(m, idle, parent, child);
    MI.ForkedImage(m, idle, parent, child);
    MI.ForkedRows(m, idle, parent, child);
    MI.ForkedMaps(m, idle, parent, child);
    MI.NewFrames(m, idle);
    MI.ForkKeeps(m, idle, parent, child);
    MI.UserMapped(r, idle, child);
    FramesLowest(m.phys);
    assert MemoryLaws.MappedFrames(r, d) == v;
    CopiedPages(m, idle, parent, child);
  }

  lemma CopiedPages(m: M.Space, idle: int, parent: int, child: int)
    requires MI.CanFork(m, idle, parent, child)
    ensures var r, v := MI.Forked(m, idle, parent, child), M.GetFrames(m.phys).v;
            && |v| == NUM_PAG_DATA && M.DataMapped(m.pt, m.dirOf[parent])
            && (forall j :: M.IsData(j) ==> M.IsFrame(v[j]))
            && (forall j :: M.IsData(j) ==> M.Page(r.ram, v[j]) == M.Page(m.ram, M.Maps(m.pt, m.dirOf[parent], j)))
            && (forall f :: M.IsFrame(f) && f !in v ==> M.Page(r.ram, f) == M.Page(m.ram, f))
  {
    hide MI.Tables, MI.Disjoint, MI.Usage, MI.Forked, M.GetFrames, M.ForkPages, M.FindDir, MI.NoLeak, M.Page,
         MI.DataFrames;
    var r, v := MI.Forked(m, idle, parent, child), M.GetFrames(m.phys).v;
    MI.ForkReady(m, idle, parent, child);
    forall j | M.IsData(j) ensures M.Page(r.ram, v[j]) == M.Page(m.ram, M.Maps(m.pt, m.dirOf[parent], j)) {
      MI.ForkedContents(m, idle, parent, child, v[j]);
    }
    forall f | M.IsFrame(f) && f !in v ensures M.Page(r.ram, f) == M.Page(m.ram, f) {
      MI.ForkedContents(m, idle, parent, child, f);
    }
  }

  lemma FramesLowest(phys: seq<bool>)
    ensures M.GetFrames(phys).ok ==> Lowest(phys, M.GetFrames(phys).v)
  {
    LowestTaken(phys, NUM_PAG_DATA);
  }

  /** sys_fork: what the child finds, and that nobody else notices. */
  lemma ForkEffect(s: State)
    requires Inv(s) && Enabled(s, Fork) && s.q.free != []
    ensures Inv(Step(s, Fork).s)
    ensures var m, r, c := s.m, Step(s, Fork).s.m, s.q.free[0];
            && M.IsDir(m.dirOf[s.q.cur]) && M.IsDir(r.dirOf[c])
            && M.DataMapped(m.pt, m.dirOf[s.q.cur]) && M.DataMapped(r.pt, r.dirOf[c])
            && Inherited(m, r, s.q.cur, c)
  {
    hide TI.Core, MI.Tables, MI.DataFrames, MI.Disjoint, MI.NoLeak, MI.Usage, MI.Forked, M.GetFrames, T.Spawn,
         Inherited;
    StepKeeps(s, Fork);
    CurrentUser(s);
    MemoryLaws.ForkGetsFrames(s);
    ForkMemory(s.m, s.q.idle, s.q.cur, s.q.free[0]);
  }

  // ---- exit ----

  /** Exit takes the task out of its directory.  If it was the last one there, the data pages are not there any more and
      their frames are free; every other entry and frame, and all memory, are as before. */
  ghost predicate Vacated(m: M.Space, r: M.Space, t: int)
    requires M.Shape(m) && M.Shape(r) && T.IsTask(t) && M.IsDir(m.dirOf[t])
  {
    var d := m.dirOf[t];
    && r.dirOf == m.dirOf[t := -1] && r.usage == m.usage[d := m.usage[d] - 1] && r.ram == m.ram
    && (forall e :: M.IsDir(e) && e != d ==> r.pt[e] == m.pt[e])
    && if exists u :: T.IsTask(u) && u != t && m.dirOf[u] == d then r.pt == m.pt && r.phys == m.phys
       else
         && (forall p :: 0 <= p < TOTAL_PAGES ==>
               r.pt[d][p] == if PAG_DATA <= p < PAG_END then M.Entry(false, false, false, 0) else m.pt[d][p])
         && (forall f :: M.IsFrame(f) ==>
               (r.phys[f] <==> m.phys[f] && forall j :: M.IsData(j) ==> M.Maps(m.pt, d, j) != f))
  }

  lemma ExitMemory(m: M.Space, idle: int, t: int)
    requires MI.Inv(m, idle) && MI.IsUser(m, idle, t)
    ensures Vacated(m, M.ExitSpace(m, t), t)
  {
    hide MI.Tables, MI.DataFrames, MI.Disjoint, MI.NoLeak, M.FreePages;
    MI.UserMapped(m, idle, t);
    MI.UsageLeave(m, M.ExitSpace(m, t), t);
    if forall u :: 0 <= u < NR_TASKS && u != t ==> m.dirOf[u] != m.dirOf[t] {
      MI.ExitShrinks(m, idle, t);
    }
  }

  lemma ExitEffect(s: State)
    requires Inv(s) && Enabled(s, Exit)
    ensures Inv(Step(s, Exit).s) && M.IsDir(s.m.dirOf[s.q.cur]) && Vacated(s.m, Step(s, Exit).s.m, s.q.cur)
  {
    hide TI.Core, MI.Tables, MI.DataFrames, MI.Disjoint, MI.NoLeak, MI.Usage, T.Exit, M.ExitSpace, Vacated;
    StepKeeps(s, Exit);
    CurrentUser(s);
    ExitMemory(s.m, s.q.idle, s.q.cur);
  }

  // ---- stores ----

  /** A store of the running program changes one byte of one page for all tasks in its directory, and nothing else. */
  lemma StoreEffect(s: State, page: int, off: int, byte: M.Byte, t: int, j: int)
    requires Inv(s) && Enabled(s, Store(page, off, byte)) && MemoryLaws.User(s, t) && M.IsData(j)
    ensures var r := Step(s, Store(page, off, byte)).s;
            && Inv(r) && MemoryLaws.User(r, t) && r == s.(m := s.m.(ram := r.m.ram))
            && MemoryLaws.Read(r, t, j) == if s.m.dirOf[t] == s.m.dirOf[s.q.cur] && j == page
                                           then MemoryLaws.Read(s, t, j)[off := byte] else MemoryLaws.Read(s, t, j)
  {
    hide TI.Core, MI.Tables, MI.DataFrames, MI.Disjoint, MI.NoLeak, MI.Usage;
    StepKeeps(s, Store(page, off, byte));
    CurrentUser(s);
    MI.UserMapped(s.m, s.q.idle, t);
    MI.StoreIsolated(s.m, s.q.idle, s.q.cur, page, off, byte, t, j);
  }
}
