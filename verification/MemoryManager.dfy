/** mm.c, allocate_DIR and find_dir_usage, and the memory part of fork, clone and exit, on the real tables.
    `m` is the abstract value; every method is proved equal to its function in Space. */
module MemoryManager {
  import opened Config
  import opened Space
  import S = Space
  import SI = SpaceInv
  import CopyData
  import Boot

  class Memory {
    /** phys_mem, dir_usage, the page table of each directory, and the physical memory. */
    const phys: array<bool>
    const usage: array<int>
    const pt: array<seq<Entry>>
    const ram: array<Byte>
    /** dir_pages_baseAddr of each control block: the number of its directory. */
    const base: array<int>
    ghost var m: Space

    ghost predicate Tables()
      reads pt
    {
      phys.Length == TOTAL_PAGES && usage.Length == base.Length == NR_TASKS && usage != base
      && ram.Length == TOTAL_PAGES * PAGE_SIZE && TablesShape(pt[..])
    }

    ghost predicate Rep()
      reads this, phys, usage, pt, ram, base
    {
      && Tables() && Shape(m)
      && phys[..] == m.phys && usage[..] == m.usage && pt[..] == m.pt && ram[..] == m.ram
      && (forall t :: 0 <= t < NR_TASKS && m.dirOf[t] >= 0 ==> base[t] == m.dirOf[t])
    }

    /** init_mm, and the memory part of init_sched, init_idle and init_task1. */
    constructor ()
      ensures Rep() && m == Boot.Memory(ram[..])
      ensures fresh(phys) && fresh(usage) && fresh(base) && fresh(pt) && fresh(ram)
    {
      phys := new bool[TOTAL_PAGES];
      usage := new int[NR_TASKS](_ => 0);
      base := new int[NR_TASKS](_ => 0);
      pt := new seq<Entry>[NR_TASKS](_ => seq(TOTAL_PAGES, _ => Absent));
      ram := new Byte[TOTAL_PAGES * PAGE_SIZE];
      new;
      Start();
    }

    method Start()
      requires Tables() && forall d :: IsDir(d) ==> usage[d] == 0
      modifies this, phys, usage, pt, base
      ensures Rep() && m == Boot.Memory(ram[..])
    {
      hide Boot.Memory, Boot.Row, FindDir, SetPage, UserPages;
      InitTablePages();
      ghost var pt0 := pt[..];
      InitFrames();
      FindDirZero(usage[..]);
      var _ := AllocateDir(0);
      ClearUsage();
      FindDirZero(usage[..]);
      var idleDir := AllocateDir(Boot.IDLE);
      FindDirOne(usage[..]);
      var initDir := AllocateDir(Boot.INIT);
      FreshPages(phys[..], pt[1], NUM_PAG_CODE + NUM_PAG_DATA);
      SetUserPages(Boot.INIT);
      BootMemory(phys[..], usage[..], pt0, pt[..], ram[..]);
      m := Boot.Memory(ram[..]);
    }

    /** init_table_pages */
    method InitTablePages()
      requires TablesShape(pt[..])
      modifies pt
      ensures TablesShape(pt[..])
      ensures forall d :: IsDir(d) ==> KernelRow(pt[d])
    {
      var j := 0;
      while j < NR_TASKS
        invariant 0 <= j <= NR_TASKS && TablesShape(pt[..])
        invariant forall d :: 0 <= d < j ==> KernelRow(pt[d])
      {
        InitTable(j);
        j := j + 1;
      }
    }

    method InitTable(j: int)
      requires TablesShape(pt[..]) && IsDir(j)
      modifies pt
      ensures TablesShape(pt[..]) && forall d :: IsDir(d) && d != j ==> pt[d] == old(pt[d])
      ensures KernelRow(pt[j])
    {
      var i := 0;
      while i < TOTAL_PAGES
        invariant 0 <= i <= TOTAL_PAGES && TablesShape(pt[..]) && forall d :: IsDir(d) && d != j ==> pt[d] == old(pt[d])
        invariant forall p :: 0 <= p < i ==> pt[j][p] == Absent
      {
        pt[j] := pt[j][i := Absent];
        i := i + 1;
      }
      // page 0 stays inaccessible
      i := 1;
      while i < NUM_PAG_KERNEL
        invariant 1 <= i <= NUM_PAG_KERNEL && TablesShape(pt[..])
        invariant forall d :: IsDir(d) && d != j ==> pt[d] == old(pt[d])
        invariant forall p :: 0 <= p < TOTAL_PAGES ==> pt[j][p] == if p < i then KernelEntry(p) else Absent
      {
        pt[j] := pt[j][i := Entry(true, true, false, i)];
        i := i + 1;
      }
    }

    /** The assignments to dir_usage in init_sched. */
    method ClearUsage()
      requires usage.Length == NR_TASKS
      modifies usage
      ensures forall d :: IsDir(d) ==> usage[d] == 0
    {
      var i := 0;
      while i < NR_TASKS
        invariant 0 <= i <= NR_TASKS && forall d :: 0 <= d < i ==> usage[d] == 0
      {
        usage[i] := 0;
        i := i + 1;
      }
    }

    /** set_user_pages */
    method SetUserPages(t: int)
      requires Tables() && 0 <= t < NR_TASKS && IsDir(base[t])
      modifies phys, pt
      ensures TablesShape(pt[..])
      ensures var d := base[t];
              var r := UserPages(old(phys[..]), old(pt[d]), NUM_PAG_CODE + NUM_PAG_DATA);
              phys[..] == r.phys && pt[..] == old(pt[..])[d := r.row]
    {
      hide S.AllocFrame;
      var d := base[t];
      ghost var phys0, pt0 := phys[..], pt[..];
      var pag := 0;
      while pag < NUM_PAG_CODE
        invariant 0 <= pag <= NUM_PAG_CODE && TablesShape(pt[..])
        invariant var r := UserPages(phys0, pt0[d], pag); phys[..] == r.phys && pt[..] == pt0[d := r.row]
      {
        var frame := AllocFrame();
        var e := Absent;
        e := e.(frame := Base(frame));
        e := e.(user := true);
        e := e.(present := true);
        pt[d] := pt[d][PAG_CODE + pag := e];
        pag := pag + 1;
      }
      pag := 0;
      while pag < NUM_PAG_DATA
        invariant 0 <= pag <= NUM_PAG_DATA && TablesShape(pt[..])
        invariant var r := UserPages(phys0, pt0[d], NUM_PAG_CODE + pag); phys[..] == r.phys && pt[..] == pt0[d := r.row]
      {
        var frame := AllocFrame();
        var e := Absent;
        e := e.(frame := Base(frame));
        e := e.(user := true);
        e := e.(rw := true);
        e := e.(present := true);
        pt[d] := pt[d][PAG_DATA + pag := e];
        pag := pag + 1;
      }
    }

    // ---- frames ----

    method InitFrames()
      requires phys.Length == TOTAL_PAGES
      modifies phys
      ensures forall f :: 0 <= f < TOTAL_PAGES ==> phys[f] == (f < NUM_PAG_KERNEL)
    {
      var i := 0;
      while i < TOTAL_PAGES
        invariant 0 <= i <= TOTAL_PAGES && forall f :: 0 <= f < i ==> !phys[f]
      {
        phys[i] := false;
        i := i + 1;
      }
      i := 0;
      while i < NUM_PAG_KERNEL
        invariant 0 <= i <= NUM_PAG_KERNEL && forall f :: 0 <= f < TOTAL_PAGES ==> phys[f] == (f < i)
      {
        phys[i] := true;
        i := i + 1;
      }
    }

    method AllocFrame() returns (f: int)
      requires phys.Length == TOTAL_PAGES
      modifies phys
      ensures f == S.AllocFrame(old(phys[..]))
      ensures phys[..] == if f < 0 then old(phys[..]) else old(phys[..])[f := true]
    {
      f := NUM_PAG_KERNEL;
      while f < TOTAL_PAGES
        invariant NUM_PAG_KERNEL <= f && FindFrame(phys[..], f) == FindFrame(phys[..], NUM_PAG_KERNEL)
        invariant phys[..] == old(phys[..])
      {
        if !phys[f] {
          phys[f] := true;
          return;
        }
        f := f + 2;
      }
      f := -1;
    }

    method FreeFrame(frame: int)
      requires phys.Length == TOTAL_PAGES
      modifies phys
      ensures phys[..] == S.FreeFrame(old(phys[..]), frame)
    {
      if frame > NUM_PAG_KERNEL && frame < TOTAL_PAGES {
        phys[frame] := false;
      }
    }

    /** sys.c:381-391: the frames of a child.  When they run out, those already taken are given back. */
    method GetFrames() returns (ok: bool, v: array<int>)
      requires Rep()
      modifies phys, `m
      ensures fresh(v) && v.Length == NUM_PAG_DATA
      ensures Rep() && m == old(m).(phys := S.GetFrames(old(m.phys)).phys) && ok == S.GetFrames(old(m.phys)).ok
      ensures ok ==> v[..] == S.GetFrames(old(m.phys)).v
    {
      hide AllocSome, S.GetFrames, S.AllocFrame, FreeSome;
      ghost var phys0 := phys[..];
      v := new int[NUM_PAG_DATA];
      NoFrames(phys0);
      var i := 0;
      while i < NUM_PAG_DATA
        invariant 0 <= i <= NUM_PAG_DATA
        invariant m == old(m) && AllocSome(phys0, i) == Frames(phys[..], v[..i], true)
      {
        NextFrame(phys0, i, phys[..], v[..i]);
        v[i] := AllocFrame();
        if v[i] < 0 {
          GiveBack(v, i);
          m := m.(phys := phys[..]);
          return false, v;
        }
        assert v[..i + 1] == v[..i] + [v[i]];
        i := i + 1;
      }
      AllFrames(phys0);
      assert v[..i] == v[..];
      m := m.(phys := phys[..]);
      ok := true;
    }

    method GiveBack(v: array<int>, n: nat)
      requires phys.Length == TOTAL_PAGES && n <= v.Length
      modifies phys
      ensures phys[..] == FreeSome(old(phys[..]), v[..n], n)
    {
      var j := 0;
      while j < n
        invariant 0 <= j <= n && phys[..] == FreeSome(old(phys[..]), v[..n], j)
      {
        FreeFrame(v[j]);
        j := j + 1;
      }
    }

    // ---- page tables ----

    /** set_ss_pag */
    method SetSsPag(d: int, page: int, frame: int)
      requires TablesShape(pt[..]) && IsDir(d) && 0 <= page < TOTAL_PAGES
      modifies pt
      ensures pt[..] == SetPage(old(pt[..]), d, page, DataEntry(frame))
      ensures UserWritable(pt[d][page]) && pt[d][page].frame == frame
    {
      var e := Absent;
      e := e.(frame := frame);
      e := e.(user := true);
      e := e.(rw := true);
      e := e.(present := true);
      pt[d] := pt[d][page := e];
    }

    /** del_ss_pag */
    method DelSsPag(d: int, page: int)
      requires TablesShape(pt[..]) && IsDir(d) && 0 <= page < TOTAL_PAGES
      modifies pt
      ensures pt[..] == SetPage(old(pt[..]), d, page, Absent)
    {
      pt[d] := pt[d][page := Absent];
    }

    /** allocate_DIR */
    method AllocateDir(t: int) returns (d: int)
      requires usage.Length == base.Length == NR_TASKS && usage != base && 0 <= t < NR_TASKS
      modifies usage, base
      ensures d == FindDir(old(usage[..]), 0)
      ensures d < 0 ==> usage[..] == old(usage[..]) && base[..] == old(base[..])
      ensures d >= 0 ==> usage[..] == old(usage[..])[d := old(usage[..])[d] + 1] && base[..] == old(base[..])[t := d]
    {
      var i := 0;
      while i < NR_TASKS && usage[i] != 0
        invariant 0 <= i <= NR_TASKS && FindDir(usage[..], i) == FindDir(usage[..], 0)
      {
        i := i + 1;
      }
      if i == NR_TASKS {
        return -1;
      }
      usage[i] := usage[i] + 1;
      base[t] := i;
      d := i;
    }

    /** find_dir_usage */
    method FindDirUsage(t: int) returns (d: int)
      requires base.Length == NR_TASKS && 0 <= t < NR_TASKS
      ensures d == if IsDir(base[t]) then base[t] else -1
    {
      d := 0;
      while d < NR_TASKS
        invariant 0 <= d <= NR_TASKS && !(0 <= base[t] < d)
      {
        if base[t] == d {
          return;
        }
        d := d + 1;
      }
      d := -1;
    }

    /** free_user_pages */
    method FreeUserPages(t: int)
      requires Tables() && 0 <= t < NR_TASKS && IsDir(base[t])
      modifies phys, pt
      ensures var d := base[t];
              var r := FreePages(old(phys[..]), old(pt[d]), NUM_PAG_DATA);
              phys[..] == r.phys && pt[..] == old(pt[..])[d := r.row]
    {
      var d := base[t];
      ghost var phys0, pt0 := phys[..], pt[..];
      var pag := 0;
      while pag < NUM_PAG_DATA
        invariant 0 <= pag <= NUM_PAG_DATA && TablesShape(pt[..])
        invariant var r := FreePages(phys0, pt0[d], pag); phys[..] == r.phys && pt[..] == pt0[d := r.row]
      {
        FreeFrame(pt[d][PAG_DATA + pag].frame);
        pt[d] := pt[d][PAG_DATA + pag := Absent];
        pag := pag + 1;
      }
    }

    // ---- fork, clone, exit, and the programs ----

    /** sys.c:398-419 with the frames v: the address space of the child. */
    method InheritSpace(parent: int, child: int, v: array<int>)
      requires Rep() && 0 <= parent < NR_TASKS && 0 <= child < NR_TASKS && parent != child
      requires m.dirOf[parent] >= 0 && m.dirOf[child] == -1
      requires FindDir(m.usage, 0) >= 0 && FindDir(m.usage, 0) != m.dirOf[parent]
      requires DataMapped(m.pt, m.dirOf[parent])
      requires v.Length == NUM_PAG_DATA && v != usage && v != base
      requires forall i :: 0 <= i < NUM_PAG_DATA ==> IsFrame(v[i])
      modifies this, usage, pt, ram, base
      ensures Rep() && m == ForkSpace(old(m), Frames(old(m.phys), v[..], true), parent, child)
    {
      hide SetPage, ForkPage, ForkPages, ShareCode;
      var d := AllocateDir(child);
      var pd := base[parent];
      SharedMaps(pt[..], d, pd);
      ShareEntries(d, pd);
      InheritData(d, pd, v);
      m := ForkSpace(m, Frames(m.phys, v[..], true), parent, child);
    }

    /** The loops that share the kernel's and the code's entries. */
    method ShareEntries(cd: int, pd: int)
      requires TablesShape(pt[..]) && IsDir(cd) && IsDir(pd) && cd != pd
      modifies pt
      ensures pt[..] == ShareCode(old(pt[..]), cd, pd)
    {
      ghost var pt0 := pt[..];
      var i := 0;
      while i < NUM_PAG_KERNEL
        invariant 0 <= i <= NUM_PAG_KERNEL && TablesShape(pt[..])
        invariant Shared(pt0, pt[..], cd, pd, i)
      {
        pt[cd] := pt[cd][i := pt[pd][i]];
        i := i + 1;
      }
      i := NUM_PAG_KERNEL;
      while i < NUM_PAG_KERNEL + NUM_PAG_CODE
        invariant NUM_PAG_KERNEL <= i <= PAG_DATA && TablesShape(pt[..])
        invariant Shared(pt0, pt[..], cd, pd, i)
      {
        pt[cd] := pt[cd][i := pt[pd][i]];
        i := i + 1;
      }
      assert pt[cd] == pt0[pd][..PAG_DATA] + pt0[cd][PAG_DATA..];
    }

    /** The loop that copies the data pages through temporary entries of the parent. */
    method InheritData(cd: int, pd: int, v: array<int>)
      requires Tables() && IsDir(cd) && IsDir(pd) && cd != pd && DataMapped(pt[..], pd)
      requires v.Length == NUM_PAG_DATA && forall i :: 0 <= i < v.Length ==> IsFrame(v[i])
      modifies pt, ram
      ensures Tables()
      ensures Image(pt[..], ram[..]) == ForkPages(old(Image(pt[..], ram[..])), cd, pd, v[..], NUM_PAG_DATA)
    {
      hide SetPage, ForkPage;
      ghost var x := Image(pt[..], ram[..]);
      var i := PAG_DATA;
      while i < PAG_END
        invariant PAG_DATA <= i <= PAG_END && Tables()
        invariant Image(pt[..], ram[..]) == ForkPages(x, cd, pd, v[..], i - PAG_DATA)
      {
        assert DataMapped(pt[..], pd);
        InheritPage(cd, pd, i, v[i - PAG_DATA]);
        i := i + 1;
      }
    }

    method InheritPage(cd: int, pd: int, i: int, f: int)
      requires Tables() && IsDir(cd) && IsDir(pd) && cd != pd && PAG_DATA <= i < PAG_END && IsFrame(f)
      requires DataMapped(pt[..], pd)
      modifies pt, ram
      ensures Tables()
      ensures Image(pt[..], ram[..]) == ForkPage(old(Image(pt[..], ram[..])), cd, pd, i - PAG_DATA, f)
    {
      assert IsFrame(Maps(pt[..], pd, i - PAG_DATA));
      SetSsPag(cd, i, f);
      SetSsPag(pd, i + NUM_PAG_DATA, f);
      CopyThrough(pd, i, i + NUM_PAG_DATA);
      DelSsPag(pd, i + NUM_PAG_DATA);
    }

    /** copy_data between two logical pages, as the page table of directory d maps them */
    method CopyThrough(d: int, from: int, to: int)
      requires Tables() && IsDir(d) && 0 <= from < TOTAL_PAGES && 0 <= to < TOTAL_PAGES
      requires pt[d][from].present && pt[d][to].present && pt[d][to].rw
      requires IsFrame(pt[d][from].frame) && IsFrame(pt[d][to].frame)
      modifies ram
      ensures ram[..] == CopyPage(old(ram[..]), pt[d][from].frame, pt[d][to].frame)
    {
      PageMove(ram[..], pt[d][from].frame, pt[d][to].frame);
      CopyData.CopyBytes(ram, pt[d][from].frame * PAGE_SIZE, pt[d][to].frame * PAGE_SIZE, PAGE_SIZE);
    }

    /** sys_clone: the child's block is a copy of the parent's, so it has the same directory. */
    method ShareSpace(parent: int, child: int)
      requires Rep() && 0 <= parent < NR_TASKS && 0 <= child < NR_TASKS && m.dirOf[parent] >= 0
      modifies this, usage, base
      ensures Rep() && m == CloneSpace(old(m), parent, child)
    {
      base[child] := base[parent];
      var d := FindDirUsage(child);
      usage[d] := usage[d] + 1;
      m := CloneSpace(m, parent, child);
    }

    /** sys.c:457-461 */
    method LeaveSpace(t: int)
      requires Rep() && 0 <= t < NR_TASKS && m.dirOf[t] >= 0
      modifies this, usage, phys, pt
      ensures Rep() && m == ExitSpace(old(m), t)
    {
      hide FreePages;
      var d := FindDirUsage(t);
      usage[d] := usage[d] - 1;
      if usage[d] == 0 {
        FreeUserPages(t);
      }
      m := ExitSpace(m, t);
    }

    /** A store of a program, through its page table. */
    method Store(t: int, j: int, off: int, value: Byte)
      requires Rep() && 0 <= t < NR_TASKS && m.dirOf[t] >= 0 && DataMapped(m.pt, m.dirOf[t])
      requires IsData(j) && 0 <= off < PAGE_SIZE
      modifies this, ram
      ensures Rep() && m == S.Store(old(m), t, j, off, value)
    {
      var f := pt[base[t]][PAG_DATA + j].frame;
      assert f == Maps(m.pt, m.dirOf[t], j);
      ram[f * PAGE_SIZE + off] := value;
      m := S.Store(m, t, j, off, value);
    }
  }

  lemma NoFrames(phys: seq<bool>)
    ensures AllocSome(phys, 0) == Frames(phys, [], true)
  {
  }

  lemma AllFrames(phys: seq<bool>)
    requires AllocSome(phys, NUM_PAG_DATA).ok
    ensures S.GetFrames(phys) == AllocSome(phys, NUM_PAG_DATA)
  {
  }

  /** One more round of fork's allocation loop, which succeeds or ends the whole. */
  lemma NextFrame(phys0: seq<bool>, i: nat, phys: seq<bool>, v: seq<int>)
    requires i < NUM_PAG_DATA && AllocSome(phys0, i) == Frames(phys, v, true)
    ensures var f := S.AllocFrame(phys);
            if f < 0 then S.GetFrames(phys0) == Frames(FreeSome(phys, v, |v|), [], false)
            else f < |phys| && AllocSome(phys0, i + 1) == Frames(phys[f := true], v + [f], true)
  {
    hide S.AllocFrame;
    if S.AllocFrame(phys) < 0 {
      assert AllocSome(phys0, i + 1) == Frames(phys, v, false);
      FailsEarly(phys0, i + 1, NUM_PAG_DATA);
    }
  }

  lemma {:induction false} FailsEarly(phys: seq<bool>, n: nat, k: nat)
    requires n <= k && !AllocSome(phys, n).ok
    ensures AllocSome(phys, k) == AllocSome(phys, n)
  {
    if n < k {
      FailsEarly(phys, n, k - 1);
    }
  }

  /** The first i entries are shared. */
  ghost predicate Shared(pt0: seq<seq<Entry>>, pt: seq<seq<Entry>>, cd: int, pd: int, i: int)
    requires TablesShape(pt0) && TablesShape(pt) && IsDir(cd) && IsDir(pd) && 0 <= i <= TOTAL_PAGES
  {
    && (forall d :: IsDir(d) && d != cd ==> pt[d] == pt0[d])
    && (forall p :: 0 <= p < TOTAL_PAGES ==> pt[cd][p] == if p < i then pt0[pd][p] else pt0[cd][p])
  }

  lemma SharedMaps(pt: seq<seq<Entry>>, cd: int, pd: int)
    requires TablesShape(pt) && IsDir(cd) && IsDir(pd) && cd != pd && DataMapped(pt, pd)
    ensures DataMapped(ShareCode(pt, cd, pd), pd)
  {
    assert ShareCode(pt, cd, pd)[pd] == pt[pd];
  }

  /** copy_data moves a page as a block, also onto itself. */
  lemma PageMove(ram: seq<Byte>, src: int, dst: int)
    requires |ram| == TOTAL_PAGES * PAGE_SIZE && IsFrame(src) && IsFrame(dst)
    ensures CopyData.Copied(ram, src * PAGE_SIZE, dst * PAGE_SIZE, PAGE_SIZE) == CopyPage(ram, src, dst)
  {
    hide CopyData.Copied, CopyData.ByteCopy;
    if src == dst {
      CopyData.CopiedIsByteCopy(ram, src * PAGE_SIZE, dst * PAGE_SIZE, PAGE_SIZE);
      SelfCopy(ram, src * PAGE_SIZE, PAGE_SIZE);
      assert ram == CopyPage(ram, src, dst);
    } else {
      CopyData.BlockMove(ram, src * PAGE_SIZE, dst * PAGE_SIZE, PAGE_SIZE);
    }
  }

  lemma {:induction false} SelfCopy(mem: seq<Byte>, a: nat, n: nat)
    requires a + n <= |mem|
    ensures CopyData.ByteCopy(mem, a, a, n) == mem
  {
    if n > 0 {
      SelfCopy(mem, a, n - 1);
    }
  }

  /** The frame map of a fresh kernel that has handed out n frames. */
  ghost predicate Taken(phys: seq<bool>, n: int) {
    |phys| == TOTAL_PAGES
    && forall f :: 0 <= f < TOTAL_PAGES ==>
         (phys[f] <==> f < NUM_PAG_KERNEL || (f < NUM_PAG_KERNEL + 2 * n && f % 2 == 0))
  }

  /** A page table without user pages. */
  ghost predicate KernelRow(row: seq<Entry>) {
    |row| == TOTAL_PAGES
    && forall p :: 0 <= p < TOTAL_PAGES ==> row[p] == if p < NUM_PAG_KERNEL then KernelEntry(p) else Absent
  }

  /** Pages below `limit` of the user space are mapped, as at boot. */
  ghost predicate UserPart(row0: seq<Entry>, row: seq<Entry>, limit: int) {
    |row0| == |row| == TOTAL_PAGES
    && forall p :: 0 <= p < TOTAL_PAGES ==>
         row[p] == (if p < PAG_CODE || p >= limit then row0[p]
                    else if p < PAG_DATA then CodeEntry(SI.CodeFrame(p)) else DataEntry(SI.CodeFrame(p)))
  }

  ghost predicate UserRow(pt0: seq<seq<Entry>>, pt: seq<seq<Entry>>, d: int)
    requires TablesShape(pt0) && TablesShape(pt) && IsDir(d)
  {
    (forall e :: IsDir(e) && e != d ==> pt[e] == pt0[e]) && UserPart(pt0[d], pt[d], PAG_END)
  }

  /** What set_user_pages does in general: when 28 frames can be taken, code and data page i get the i-th of them. */
  lemma {:induction false} TakenPages(phys: seq<bool>, row: seq<Entry>, n: nat)
    requires |row| == TOTAL_PAGES && n <= NUM_PAG_CODE + NUM_PAG_DATA && AllocSome(phys, n).ok
    ensures var r, taken := UserPages(phys, row, n), AllocSome(phys, n);
            && r.phys == taken.phys
            && forall p :: 0 <= p < TOTAL_PAGES ==>
                 r.row[p] == if PAG_CODE <= p < PAG_CODE + n
                             then Entry(true, p >= PAG_DATA, true, taken.v[p - PAG_CODE]) else row[p]
  {
    hide S.AllocFrame;
    if n > 0 {
      TakenPages(phys, row, n - 1);
    }
  }

  /** On the frame map of a fresh kernel these are the even frames from 256 on. */
  lemma {:induction false} FreshPages(phys: seq<bool>, row: seq<Entry>, n: nat)
    requires |row| == TOTAL_PAGES && n <= NUM_PAG_CODE + NUM_PAG_DATA && Taken(phys, 0)
    ensures var r := UserPages(phys, row, n); Taken(r.phys, n) && UserPart(row, r.row, PAG_CODE + n)
  {
    hide S.AllocFrame, Taken;
    if n > 0 {
      FreshPages(phys, row, n - 1);
      NextTaken(UserPages(phys, row, n - 1).phys, n - 1);
    }
  }

  lemma NextTaken(phys: seq<bool>, n: nat)
    requires Taken(phys, n) && n < NUM_PAG_CODE + NUM_PAG_DATA
    ensures S.AllocFrame(phys) == NUM_PAG_KERNEL + 2 * n && Taken(phys[NUM_PAG_KERNEL + 2 * n := true], n + 1)
  {
    FirstFree(phys, n, 0);
  }

  lemma {:induction false} FirstFree(phys: seq<bool>, n: nat, i: nat)
    requires Taken(phys, n) && i <= n < NUM_PAG_CODE + NUM_PAG_DATA
    ensures FindFrame(phys, NUM_PAG_KERNEL + 2 * i) == NUM_PAG_KERNEL + 2 * n
    decreases n - i
  {
    if i < n {
      FirstFree(phys, n, i + 1);
    }
  }

  lemma FindDirZero(usage: seq<int>)
    requires |usage| == NR_TASKS && usage[0] == 0
    ensures FindDir(usage, 0) == 0
  {
  }

  lemma FindDirOne(usage: seq<int>)
    requires |usage| == NR_TASKS && usage[0] != 0 && usage[1] == 0
    ensures FindDir(usage, 0) == 1
  {
    assert FindDir(usage, 0) == FindDir(usage, 1);
  }

  lemma BootMemory(phys: seq<bool>, usage: seq<int>, pt0: seq<seq<Entry>>, pt: seq<seq<Entry>>, ram: seq<Byte>)
    requires Taken(phys, NUM_PAG_CODE + NUM_PAG_DATA) && |usage| == NR_TASKS && TablesShape(pt) && TablesShape(pt0)
    requires |ram| == TOTAL_PAGES * PAGE_SIZE
    requires forall d :: IsDir(d) ==> usage[d] == if d <= 1 then 1 else 0
    requires forall d :: IsDir(d) ==> KernelRow(pt0[d])
    requires UserRow(pt0, pt, 1)
    ensures var m := Boot.Memory(ram); phys == m.phys && usage == m.usage && pt == m.pt && ram == m.ram
    ensures Boot.Memory(ram).dirOf == seq(NR_TASKS, t => if t == Boot.IDLE then 0 else if t == Boot.INIT then 1 else -1)
  {
    forall d | IsDir(d) ensures pt[d] == Boot.Row(d) {
      forall p | 0 <= p < TOTAL_PAGES ensures pt[d][p] == Boot.Entry(d, p) {
        BootEntry(pt0, pt, d, p);
      }
    }
  }

  lemma BootEntry(pt0: seq<seq<Entry>>, pt: seq<seq<Entry>>, d: int, p: int)
    requires TablesShape(pt) && TablesShape(pt0) && IsDir(d) && 0 <= p < TOTAL_PAGES
    requires forall d :: IsDir(d) ==> KernelRow(pt0[d])
    requires UserRow(pt0, pt, 1)
    ensures pt[d][p] == Boot.Entry(d, p)
  {
    assert KernelRow(pt0[d]);
    assert d != 1 ==> pt[d] == pt0[d];
  }
}
