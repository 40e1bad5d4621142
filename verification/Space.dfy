/** Frames, page tables and directories (mm.c, allocate_DIR in sched.c, and the memory part of fork,
    clone and exit in sys.c) as pure step functions, loop by loop; the class in MemoryManager.dfy carries
    them out on the real tables and is proved equal to them. */
module Space {
  import opened Config

  newtype Byte = b: int | 0 <= b < 256

  /** A page table entry; `Absent` is the entry 0. */
  datatype Entry = Entry(present: bool, rw: bool, user: bool, frame: int)

  const Absent := Entry(false, false, false, 0)

  /** `dirOf[t]` is the directory of the live task t, -1 for a dead one.  `phys[f]` says that frame f is
      used.  `pt[d]` is the page table of directory d.  `ram` is the physical memory. */
  datatype Space = Space(dirOf: seq<int>, usage: seq<int>, phys: seq<bool>, pt: seq<seq<Entry>>, ram: seq<Byte>)

  ghost predicate IsDir(d: int) { 0 <= d < NR_TASKS }

  ghost predicate IsFrame(f: int) { 0 <= f < TOTAL_PAGES }

  ghost predicate TablesShape(pt: seq<seq<Entry>>) {
    |pt| == NR_TASKS && forall d :: IsDir(d) ==> |pt[d]| == TOTAL_PAGES
  }

  ghost predicate Shape(m: Space) {
    && |m.dirOf| == |m.usage| == NR_TASKS
    && (forall t :: 0 <= t < NR_TASKS ==> -1 <= m.dirOf[t] < NR_TASKS)
    && |m.phys| == TOTAL_PAGES
    && TablesShape(m.pt)
    && |m.ram| == TOTAL_PAGES * PAGE_SIZE
  }

  // ---- frames ----

  /** The scan of alloc_frame, which looks at every second frame only. */
  ghost function FindFrame(phys: seq<bool>, i: nat): (f: int)
    ensures f == -1 || (i <= f < |phys| && !phys[f] && (f - i) % 2 == 0)
    ensures f == -1 ==> forall g :: i <= g < |phys| && (g - i) % 2 == 0 ==> phys[g]
    ensures f != -1 ==> forall g :: i <= g < f && (g - i) % 2 == 0 ==> phys[g]
    decreases |phys| - i
  {
    if i >= |phys| then -1
    else if !phys[i] then i
    else FindFrame(phys, i + 2)
  }

  /** The lowest free even frame from 256 on, or -1 */
  ghost function AllocFrame(phys: seq<bool>): (f: int)
    ensures f == -1 || (NUM_PAG_KERNEL <= f < |phys| && !phys[f] && f % 2 == 0)
    ensures f == -1 ==> forall g :: NUM_PAG_KERNEL <= g < |phys| && g % 2 == 0 ==> phys[g]
    ensures f != -1 ==> forall g :: NUM_PAG_KERNEL <= g < f && g % 2 == 0 ==> phys[g]
  {
    FindFrame(phys, NUM_PAG_KERNEL)
  }

  ghost function FreeFrame(phys: seq<bool>, f: int): (phys': seq<bool>)
    ensures |phys'| == |phys|
  {
    if NUM_PAG_KERNEL < f < |phys| then phys[f := false] else phys
  }

  datatype Frames = Frames(phys: seq<bool>, v: seq<int>, ok: bool)

  /** The first n rounds of fork's allocation loop. */
  ghost function AllocSome(phys: seq<bool>, n: nat): (r: Frames)
    ensures |r.phys| == |phys| && |r.v| <= n && (r.ok ==> |r.v| == n)
    ensures forall i :: 0 <= i < |r.v| ==> NUM_PAG_KERNEL <= r.v[i] < |phys|
  {
    if n == 0 then Frames(phys, [], true)
    else
      var r := AllocSome(phys, n - 1);
      if !r.ok then r
      else
        var f := AllocFrame(r.phys);
        if f < 0 then Frames(r.phys, r.v, false) else Frames(r.phys[f := true], r.v + [f], true)
  }

  /** free_frame on the first n elements of v */
  ghost function FreeSome(phys: seq<bool>, v: seq<int>, n: nat): (phys': seq<bool>)
    requires n <= |v|
    ensures |phys'| == |phys|
  {
    if n == 0 then phys else FreeFrame(FreeSome(phys, v, n - 1), v[n - 1])
  }

  /** sys.c:381-391: all frames of a child, or none */
  ghost function GetFrames(phys: seq<bool>): (r: Frames)
    ensures |r.phys| == |phys|
    ensures forall i :: 0 <= i < |r.v| ==> NUM_PAG_KERNEL <= r.v[i] < |phys|
    ensures r.ok ==> |r.v| == NUM_PAG_DATA
  {
    var r := AllocSome(phys, NUM_PAG_DATA);
    if r.ok then r else Frames(FreeSome(r.phys, r.v, |r.v|), [], false)
  }

  // ---- page tables and pages ----

  /** The field pbase_addr has 20 bits, so -1 becomes 0xFFFFF in it. */
  function Base(f: int): int {
    if f < 0 then 0xFFFFF else f
  }

  function UserEntry(page: int, f: int): Entry {
    if page < PAG_DATA then CodeEntry(Base(f)) else DataEntry(Base(f))
  }

  /** The first n rounds of the two loops of set_user_pages, which do not look for failure of alloc_frame. */
  ghost function UserPages(phys: seq<bool>, row: seq<Entry>, n: nat): (r: Table)
    requires |row| == TOTAL_PAGES && n <= NUM_PAG_CODE + NUM_PAG_DATA
    ensures |r.phys| == |phys| && |r.row| == |row|
  {
    if n == 0 then Table(phys, row)
    else
      var r := UserPages(phys, row, n - 1);
      var f := AllocFrame(r.phys);
      Table(if f < 0 then r.phys else r.phys[f := true], r.row[PAG_CODE + n - 1 := UserEntry(PAG_CODE + n - 1, f)])
  }

  function DataEntry(f: int): Entry { Entry(true, true, true, f) }

  function CodeEntry(f: int): Entry { Entry(true, false, true, f) }

  function KernelEntry(i: int): Entry {
    if i == 0 then Absent else Entry(true, true, false, i)
  }

  ghost function SetPage(pt: seq<seq<Entry>>, d: int, page: int, e: Entry): (pt': seq<seq<Entry>>)
    requires TablesShape(pt) && IsDir(d) && 0 <= page < TOTAL_PAGES
    ensures TablesShape(pt')
  {
    pt[d := pt[d][page := e]]
  }

  ghost function Page(ram: seq<Byte>, f: int): (p: seq<Byte>)
    requires |ram| == TOTAL_PAGES * PAGE_SIZE && IsFrame(f)
    ensures |p| == PAGE_SIZE
  {
    ram[f * PAGE_SIZE .. f * PAGE_SIZE + PAGE_SIZE]
  }

  ghost function CopyPage(ram: seq<Byte>, src: int, dst: int): (ram': seq<Byte>)
    requires |ram| == TOTAL_PAGES * PAGE_SIZE && IsFrame(src) && IsFrame(dst)
    ensures |ram'| == |ram|
  {
    ram[..dst * PAGE_SIZE] + Page(ram, src) + ram[dst * PAGE_SIZE + PAGE_SIZE..]
  }

  // ---- fork ----

  datatype Image = Image(pt: seq<seq<Entry>>, ram: seq<Byte>)

  ghost predicate ImageShape(x: Image) {
    TablesShape(x.pt) && |x.ram| == TOTAL_PAGES * PAGE_SIZE
  }

  /** sys.c:412-418: data page j of the child gets frame f, which is mapped for a moment into the page
      table of the parent so that the page can be copied through it. */
  ghost function ForkPage(x: Image, cd: int, pd: int, j: int, f: int): (y: Image)
    requires ImageShape(x) && IsDir(cd) && IsDir(pd) && IsData(j) && IsFrame(f)
    requires IsFrame(Maps(x.pt, pd, j)) && cd != pd
    ensures ImageShape(y)
  {
    var pt1 := SetPage(x.pt, cd, PAG_DATA + j, DataEntry(f));
    var pt2 := SetPage(pt1, pd, PAG_END + j, DataEntry(f));
    var ram := CopyPage(x.ram, pt2[pd][PAG_DATA + j].frame, pt2[pd][PAG_END + j].frame);
    Image(SetPage(pt2, pd, PAG_END + j, Absent), ram)
  }

  ghost predicate IsData(j: int) { 0 <= j < NUM_PAG_DATA }

  /** The frame of data page j in the page table of directory d. */
  ghost function Maps(pt: seq<seq<Entry>>, d: int, j: int): int
    requires TablesShape(pt) && IsDir(d) && IsData(j)
  {
    pt[d][PAG_DATA + j].frame
  }

  /** A program may read and write the page of this entry. */
  predicate UserWritable(e: Entry) {
    e.present && e.user && e.rw
  }

  /** All data pages of directory d are there, for programs to read and write. */
  ghost predicate DataMapped(pt: seq<seq<Entry>>, d: int)
    requires TablesShape(pt) && IsDir(d)
  {
    forall j :: IsData(j) ==> IsFrame(Maps(pt, d, j)) && UserWritable(pt[d][PAG_DATA + j])
  }

  /** The first n rounds of fork's copy loop. */
  ghost function ForkPages(x: Image, cd: int, pd: int, v: seq<int>, n: nat): (y: Image)
    requires ImageShape(x) && IsDir(cd) && IsDir(pd) && cd != pd && DataMapped(x.pt, pd)
    requires n <= |v| == NUM_PAG_DATA && forall i :: 0 <= i < |v| ==> IsFrame(v[i])
    ensures ImageShape(y)
    ensures forall j :: IsData(j) ==> Maps(y.pt, pd, j) == Maps(x.pt, pd, j)
    ensures DataMapped(y.pt, pd)
    decreases n
  {
    if n == 0 then x
    else
      var y := ForkPages(x, cd, pd, v, n - 1);
      assert Maps(y.pt, pd, n - 1) == Maps(x.pt, pd, n - 1);
      ForkPage(y, cd, pd, n - 1, v[n - 1])
  }

  /** allocate_DIR: the first directory from `i` on that nobody uses, or -1 */
  ghost function FindDir(usage: seq<int>, i: nat): (d: int)
    requires i <= |usage|
    ensures d == -1 || (i <= d < |usage| && usage[d] == 0)
    ensures d == -1 ==> forall e :: i <= e < |usage| ==> usage[e] != 0
    ensures d != -1 ==> forall e :: i <= e < d ==> usage[e] != 0
    decreases |usage| - i
  {
    if i == |usage| then -1 else if usage[i] == 0 then i else FindDir(usage, i + 1)
  }

  /** sys.c:403-409: kernel and code entries are shared */
  ghost function ShareCode(pt: seq<seq<Entry>>, cd: int, pd: int): (pt': seq<seq<Entry>>)
    requires TablesShape(pt) && IsDir(cd) && IsDir(pd)
    ensures TablesShape(pt')
  {
    pt[cd := pt[pd][..PAG_DATA] + pt[cd][PAG_DATA..]]
  }

  /** The memory part of sys_fork once the frames `r.v` are there. */
  ghost function ForkSpace(m: Space, r: Frames, parent: int, child: int): (m': Space)
    requires Shape(m) && 0 <= parent < NR_TASKS && 0 <= child < NR_TASKS && parent != child
    requires m.dirOf[parent] >= 0 && FindDir(m.usage, 0) >= 0 && FindDir(m.usage, 0) != m.dirOf[parent]
    requires DataMapped(m.pt, m.dirOf[parent])
    requires |r.phys| == TOTAL_PAGES && |r.v| == NUM_PAG_DATA && forall i :: 0 <= i < |r.v| ==> IsFrame(r.v[i])
    ensures Shape(m')
  {
    var d := FindDir(m.usage, 0);
    var pd := m.dirOf[parent];
    assert forall j :: IsData(j) ==> Maps(ShareCode(m.pt, d, pd), pd, j) == Maps(m.pt, pd, j);
    var x := ForkPages(Image(ShareCode(m.pt, d, pd), m.ram), d, pd, r.v, NUM_PAG_DATA);
    Space(m.dirOf[child := d], m.usage[d := m.usage[d] + 1], r.phys, x.pt, x.ram)
  }

  // ---- clone, exit, and stores of user programs ----

  ghost function CloneSpace(m: Space, parent: int, child: int): (m': Space)
    requires Shape(m) && 0 <= parent < NR_TASKS && 0 <= child < NR_TASKS && m.dirOf[parent] >= 0
    ensures Shape(m')
  {
    var d := m.dirOf[parent];
    m.(dirOf := m.dirOf[child := d], usage := m.usage[d := m.usage[d] + 1])
  }

  datatype Table = Table(phys: seq<bool>, row: seq<Entry>)

  /** The first n rounds of free_user_pages. */
  ghost function FreePages(phys: seq<bool>, row: seq<Entry>, n: nat): (r: Table)
    requires |row| == TOTAL_PAGES && n <= NUM_PAG_DATA
    ensures |r.phys| == |phys| && |r.row| == |row|
  {
    if n == 0 then Table(phys, row)
    else
      var r := FreePages(phys, row, n - 1);
      var p := PAG_DATA + n - 1;
      Table(FreeFrame(r.phys, r.row[p].frame), r.row[p := Absent])
  }

  ghost function ExitSpace(m: Space, t: int): (m': Space)
    requires Shape(m) && 0 <= t < NR_TASKS && m.dirOf[t] >= 0
    ensures Shape(m')
  {
    var d := m.dirOf[t];
    var m1 := m.(dirOf := m.dirOf[t := -1], usage := m.usage[d := m.usage[d] - 1]);
    if m1.usage[d] == 0 then
      var r := FreePages(m.phys, m.pt[d], NUM_PAG_DATA);
      m1.(phys := r.phys, pt := m.pt[d := r.row])
    else m1
  }

  /** A user program writes one byte of its data page j. */
  ghost function Store(m: Space, t: int, j: int, off: int, value: Byte): (m': Space)
    requires Shape(m) && 0 <= t < NR_TASKS && m.dirOf[t] >= 0 && DataMapped(m.pt, m.dirOf[t])
    requires IsData(j) && 0 <= off < PAGE_SIZE
    ensures Shape(m')
  {
    m.(ram := m.ram[Maps(m.pt, m.dirOf[t], j) * PAGE_SIZE + off := value])
  }
}
