/** When readFile and writeFile transfer the right bytes. */
module FatDataLaws {
  import opened FatChains
  import opened FatData

  /** A range of at least one byte of the file. */
  ghost predicate Range(x: Span, size: int) {
    size > 0 && InFile(x.l, x.s, x.start) && InFile(x.l, x.s, x.start + size - 1)
  }

  ghost function First(x: Span): int { x.start / SECTOR }

  ghost function LastSector(x: Span, size: int): int { (x.start + size - 1) / SECTOR }

  /** The index in its chain of the cluster where the range starts, and the sector within it. */
  ghost function Place(x: Span): int
    requires 0 < x.l.spc
  {
    Index(x.l, x.start)
  }

  ghost function Index(l: Layout, b: int): int
    requires 0 < l.spc
  {
    b / SECTOR / l.spc
  }

  ghost function Offset(x: Span): int
    requires 0 < x.l.spc
  {
    (x.start / SECTOR) % x.l.spc
  }

  /** The first sector of the file behind that cluster. */
  ghost function Next(x: Span): int
    requires 0 < x.l.spc
  {
    (x.start / SECTOR / x.l.spc + 1) * x.l.spc
  }

  ghost predicate OneCluster(x: Span, size: int)
    requires Range(x, size)
  {
    LastSector(x, size) < Next(x)
  }

  /** The range lies in one cluster, or it ends in the first sector of the next one, which follows on the disk. */
  ghost predicate Placed(x: Span, size: int)
    requires Range(x, size)
  {
    || OneCluster(x, size)
    || (LastSector(x, size) == Next(x) && Place(x) + 1 < |x.s| && x.s[Place(x) + 1] == x.s[Place(x)] + 1)
  }

  // ---- sectors ----

  /** The sectors of the file from the one of byte `start` to the end of its cluster. */
  lemma FileSectorsAfter(x: Span, k: int)
    requires InFile(x.l, x.s, x.start) && 0 <= k && Offset(x) + k < x.l.spc
    ensures (First(x) + k) / x.l.spc == Place(x)
    ensures FileSector(x.l, x.s, First(x) + k) == FileSector(x.l, x.s, First(x)) + k
  {
    DivMod(First(x) + k, x.l.spc, Place(x), Offset(x) + k);
  }

  /** The first two sectors behind the cluster of byte `start`. */
  lemma FileSectorsBehind(x: Span)
    requires InFile(x.l, x.s, x.start)
    ensures var e, j, l, s := Next(x), Place(x), x.l, x.s;
            && e == First(x) - Offset(x) + l.spc
            && e / l.spc == j + 1
            && (j + 1 < |s| ==> FileSector(l, s, e) == GetDiskSector(l, s[j + 1], 0))
            && (l.spc > 1 ==> (e + 1) / l.spc == j + 1)
            && (l.spc > 1 && j + 1 < |s| ==> FileSector(l, s, e + 1) == GetDiskSector(l, s[j + 1], 1))
            && (l.spc == 1 ==> (e + 1) / l.spc == j + 2)
            && (l.spc == 1 && j + 2 < |s| ==> FileSector(l, s, e + 1) == GetDiskSector(l, s[j + 2], 0))
  {
    var e, j, spc := Next(x), Place(x), x.l.spc;
    assert First(x) == j * spc + Offset(x);
    assert e == j * spc + spc;
    DivMod(e, spc, j + 1, 0);
    if spc > 1 {
      DivMod(e + 1, spc, j + 1, 1);
    }
  }

  /** Where both loops are as long as they have not left the cluster by more than one sector. */
  ghost function Near(x: Span, k: int): Cursor
    requires InFile(x.l, x.s, x.start)
  {
    Cursor(x.s[Place(x)], Offset(x) + k, FileSector(x.l, x.s, First(x)) + k)
  }

  lemma {:induction false} VisitNear(x: Span, k: nat)
    requires SpanOk(x) && Offset(x) + k <= x.l.spc
    ensures Visit(x, k) == Near(x, k)
  {
    hide Visit, VolumeOk;
    if k == 0 {
      VisitNext(x, 0);
    } else {
      VisitNext(x, k - 1);
      VisitNear(x, k - 1);
    }
  }

  lemma {:induction false} PenNear(x: Span, k: nat)
    requires SpanOk(x) && Offset(x) + k <= x.l.spc
    ensures Pen(x, k) == Position(x.v, Near(x, k))
  {
    hide Pen, VolumeOk, Allocate, PositionOk;
    if k == 0 {
      PenNext(x, 0);
    } else {
      PenNext(x, k - 1);
      PenNear(x, k - 1);
    }
  }

  /** `at` is at sector t of the file. */
  ghost predicate At(x: Span, at: Cursor, t: int) {
    0 < x.l.spc && 0 <= t && 0 <= t / x.l.spc < |x.s| && at.Cursor? && at.sector == FileSector(x.l, x.s, t)
  }

  /** `at` is at some sector other than sector t of the file. */
  ghost predicate Misses(x: Span, at: Cursor, t: int) {
    0 < x.l.spc && 0 <= t && 0 <= t / x.l.spc < |x.s| && at.Cursor? && at.sector != FileSector(x.l, x.s, t)
  }

  /** `at` is at the first sector of the cluster that follows in the chain. */
  ghost predicate AtNextCluster(x: Span, at: Cursor) {
    0 < x.l.spc && 0 < Place(x) + 1 < |x.s| && at.Cursor? && at.sector == GetDiskSector(x.l, x.s[Place(x) + 1], 0)
  }

  /** The change of sector after that: both loops follow the chain. */
  lemma Behind(x: Span, k: nat)
    requires SpanOk(x) && Place(x) + 1 < |x.s| && k == x.l.spc - Offset(x) + 1 && k >= 1
    ensures AtNextCluster(x, Visit(x, k)) && AtNextCluster(x, Pen(x, k).at)
  {
    hide Visit, Pen, VolumeOk, Allocate, PositionOk;
    var j := Place(x);
    VisitNear(x, k - 1);
    VisitNext(x, k - 1);
    PenNear(x, k - 1);
    PenNext(x, k - 1);
    assert x.v.fat[x.s[j]] == x.s[j + 1];
  }

  lemma SectorSpan(l: Layout, c: int, d: int)
    requires 0 < l.spc
    ensures GetDiskSector(l, c, l.spc) == GetDiskSector(l, c + 1, 0)
    ensures GetDiskSector(l, c, l.spc) == GetDiskSector(l, d, 0) <==> d == c + 1
  {
    assert (c + 1) * l.spc == c * l.spc + l.spc;
    if d != c + 1 {
      SectorsDiffer(l, c + 1, 0, d, 0);
    }
  }

  lemma Inside(x: Span, size: int, i: int)
    requires Range(x, size) && 0 <= i < size
    ensures InFile(x.l, x.s, x.start + i)
    ensures (x.start + i) / SECTOR == First(x) + (Into(x.start) + i) / SECTOR
    ensures (x.start + i) % SECTOR == (Into(x.start) + i) % SECTOR
    ensures First(x) <= (x.start + i) / SECTOR <= LastSector(x, size)
  {
    Monotone(First(x), (x.start + i) / SECTOR, x.l.spc);
    Monotone((x.start + i) / SECTOR, LastSector(x, size), x.l.spc);
  }

  lemma Monotone(a: int, b: int, n: int)
    requires a <= b && n > 0
    ensures a / n <= b / n
  {
    if a / n > b / n {
      Multiples(a / n, b / n, n);
    }
  }

  /** On a placed range both loops are at the sector of the file. */
  lemma PlacedSector(x: Span, size: int, k: nat)
    requires SpanOk(x) && Range(x, size) && Placed(x, size) && First(x) + k <= LastSector(x, size)
    ensures At(x, Visit(x, k), First(x) + k) && At(x, Pen(x, k).at, First(x) + k) && Pen(x, k).v == x.v
  {
    hide Visit, Pen, VolumeOk, PositionOk;
    FileSectorsBehind(x);
    VisitNear(x, k);
    PenNear(x, k);
    if Offset(x) + k < x.l.spc {
      FileSectorsAfter(x, k);
    } else {
      SectorSpan(x.l, x.s[Place(x)], x.s[Place(x) + 1]);
    }
  }

  /** The first change of sector at which a range that is not placed goes wrong, and the sectors involved. */
  lemma Misplaced(x: Span, size: int) returns (k: nat)
    requires SpanOk(x) && Range(x, size) && !Placed(x, size)
    ensures 1 <= k && First(x) + k <= LastSector(x, size)
    ensures Misses(x, Visit(x, k), First(x) + k) && Misses(x, Pen(x, k).at, First(x) + k)
  {
    hide Visit, Pen, VolumeOk, PositionOk;
    var e, j, s := Next(x), Place(x), x.s;
    FileSectorsBehind(x);
    Monotone(e, LastSector(x, size), x.l.spc);
    SectorSpan(x.l, s[j], s[j + 1]);
    k := e - First(x);
    VisitNear(x, k);
    PenNear(x, k);
    if s[j + 1] == s[j] + 1 {
      Monotone(e + 1, LastSector(x, size), x.l.spc);
      k := k + 1;
      Behind(x, k);
      if x.l.spc > 1 {
        SectorsDiffer(x.l, s[j + 1], 0, s[j + 1], 1);
      } else {
        NotTwice(x, j + 1, j + 2);
        SectorsDiffer(x.l, s[j + 1], 0, s[j + 2], 0);
      }
    }
  }

  lemma NotTwice(x: Span, i: nat, j: nat)
    requires SpanOk(x) && i < j < |x.s|
    ensures x.s[i] != x.s[j]
  {
    Distinct(x.v.fat, x.s, i, j);
  }

  // ---- reading ----

  ghost predicate ReadsRight(disk: seq<seq<Byte>>, x: Span, was: seq<Byte>)
    requires SpanOk(x) && DiskShape(disk) && Stored(x.l, x.s, |disk|) && Range(x, |was|)
  {
    forall i :: 0 <= i < |was| ==> ReadAt(disk, x, was, i)
  }

  ghost predicate ReadAt(disk: seq<seq<Byte>>, x: Span, was: seq<Byte>, i: nat)
    requires SpanOk(x) && DiskShape(disk) && Stored(x.l, x.s, |disk|) && Range(x, |was|) && i < |was|
  {
    Holds(disk, x.l, x.s, x.start + i, ReadByte(disk, x, i, was[i]))
  }

  lemma PlacedReads(disk: seq<seq<Byte>>, x: Span, was: seq<Byte>, i: nat)
    requires SpanOk(x) && DiskShape(disk) && Stored(x.l, x.s, |disk|) && Range(x, |was|) && i < |was|
    requires Placed(x, |was|)
    ensures ReadAt(disk, x, was, i)
  {
    hide Visit, VolumeOk, PositionOk, Placed;
    Inside(x, |was|, i);
    var k := (Into(x.start) + i) / SECTOR;
    PlacedSector(x, |was|, k);
    StoredSector(x.l, x.s, |disk|, (First(x) + k) / x.l.spc, (First(x) + k) % x.l.spc);
  }

  /** All sectors are 0 but sector n, which is 1. */
  ghost function Marked(sectors: nat, n: int): (disk: seq<seq<Byte>>)
    ensures |disk| == sectors && DiskShape(disk)
    ensures forall m, o :: 0 <= m < sectors && 0 <= o < SECTOR ==> disk[m][o] == if m == n then 1 else 0
  {
    seq(sectors, m => seq(SECTOR, _ => if m == n then 1 else 0))
  }

  /** n bytes, all b but the one at place i, which is c. */
  ghost function Fill(n: nat, b: Byte, i: int, c: Byte): (z: seq<Byte>)
    ensures |z| == n && forall j :: 0 <= j < n ==> z[j] == if j == i then c else b
  {
    seq(n, j => if j == i then c else b)
  }

  /** The byte of the range that starts sector k behind the first one. */
  lemma SectorStart(x: Span, size: int, k: nat) returns (i: nat)
    requires Range(x, size) && 1 <= k && First(x) + k <= LastSector(x, size)
    ensures i < size && k * SECTOR == Into(x.start) + i
    ensures (x.start + i) / SECTOR == First(x) + k && (x.start + i) % SECTOR == 0 && InFile(x.l, x.s, x.start + i)
  {
    i := k * SECTOR - Into(x.start);
    SectorOf(x.start + i, First(x) + k, 0);
    Inside(x, size, i);
  }

  lemma NotPlacedReads(x: Span, size: int, sectors: int)
    requires SpanOk(x) && Range(x, size) && 0 <= sectors && Stored(x.l, x.s, sectors) && !Placed(x, size)
    ensures exists disk: seq<seq<Byte>>, was: seq<Byte> ::
              |disk| == sectors && DiskShape(disk) && |was| == size && !ReadsRight(disk, x, was)
  {
    hide Visit, VolumeOk, PositionOk, Placed, DiskShape;
    var k := Misplaced(x, size);
    var i := SectorStart(x, size, k);
    var disk, was := Marked(sectors, Visit(x, k).sector), Fill(size, 1, 0, 1);
    WrongRead(disk, x, was, i, k);
    NotAllRead(disk, x, was, i);
  }

  lemma WrongRead(disk: seq<seq<Byte>>, x: Span, was: seq<Byte>, i: nat, k: nat)
    requires SpanOk(x) && DiskShape(disk) && Stored(x.l, x.s, |disk|) && Range(x, |was|) && i < |was|
    requires k * SECTOR == Into(x.start) + i && (x.start + i) / SECTOR == First(x) + k && (x.start + i) % SECTOR == 0
    requires InFile(x.l, x.s, x.start + i) && Misses(x, Visit(x, k), First(x) + k)
    requires disk == Marked(|disk|, Visit(x, k).sector) && was[i] == 1
    ensures !ReadAt(disk, x, was, i)
  {
    hide Visit, VolumeOk, PositionOk;
    var t := First(x) + k;
    StoredSector(x.l, x.s, |disk|, t / x.l.spc, t % x.l.spc);
    SectorOf(Into(x.start) + i, k, 0);
  }

  lemma NotAllRead(disk: seq<seq<Byte>>, x: Span, was: seq<Byte>, i: nat)
    requires SpanOk(x) && DiskShape(disk) && Stored(x.l, x.s, |disk|) && Range(x, |was|) && i < |was|
    requires !ReadAt(disk, x, was, i)
    ensures !ReadsRight(disk, x, was)
  {
    hide ReadAt, VolumeOk;
  }

  /** readFile delivers the bytes of the file, whatever is on the disk, exactly for the ranges that are placed. */
  lemma ReadIff(x: Span, size: int, sectors: int)
    requires SpanOk(x) && Range(x, size) && 0 <= sectors && Stored(x.l, x.s, sectors)
    ensures (forall disk: seq<seq<Byte>>, was: seq<Byte> ::
               |disk| == sectors && DiskShape(disk) && |was| == size ==> ReadsRight(disk, x, was))
            <==> Placed(x, size)
  {
    hide VolumeOk, ReadAt, Placed, DiskShape;
    if Placed(x, size) {
      forall disk: seq<seq<Byte>>, was: seq<Byte> | |disk| == sectors && DiskShape(disk) && |was| == size
        ensures ReadsRight(disk, x, was)
      {
        forall i: nat | i < size ensures ReadAt(disk, x, was, i) {
          PlacedReads(disk, x, was, i);
        }
      }
    } else {
      NotPlacedReads(x, size, sectors);
    }
  }

  // ---- writing ----

  /** What writeFile makes of the disk. */
  ghost function Written(disk: seq<seq<Byte>>, x: Span, data: seq<Byte>): (disk': seq<seq<Byte>>)
    requires SpanOk(x) && DiskShape(disk)
    ensures |disk'| == |disk| && DiskShape(disk')
  {
    Put(disk, x, data, |data|)
  }

  ghost predicate WritesRight(disk: seq<seq<Byte>>, x: Span, data: seq<Byte>)
    requires SpanOk(x) && DiskShape(disk) && Stored(x.l, x.s, |disk|) && Range(x, |data|)
  {
    forall i :: 0 <= i < |data| ==> WrittenAt(disk, x, data, i)
  }

  ghost predicate WrittenAt(disk: seq<seq<Byte>>, x: Span, data: seq<Byte>, i: nat)
    requires SpanOk(x) && DiskShape(disk) && Stored(x.l, x.s, |disk|) && Range(x, |data|) && i < |data|
  {
    Holds(Written(disk, x, data), x.l, x.s, x.start + i, data[i])
  }

  /** Byte b of a file is `value`. */
  ghost predicate Holds(disk: seq<seq<Byte>>, l: Layout, s: seq<int>, b: int, value: Byte) {
    DiskShape(disk) && Stored(l, s, |disk|) && InFile(l, s, b) && FileByte(disk, l, s, b) == value
  }

  /** Byte i of the transfer goes to the i-th address from the start on. */
  ghost predicate PenFollows(x: Span, i: nat, sectors: int)
    requires SpanOk(x)
  {
    && OnDisk(PenAt(x, i), sectors)
    && Address(x.l, x.s, x.start) + i == PenAt(x, i).sector * SECTOR + OffsetAt(x, i)
  }

  /** On a placed range the bytes go to consecutive addresses, and these are the addresses of the bytes of the file. */
  lemma PlacedPen(x: Span, size: int, i: nat, sectors: int)
    requires SpanOk(x) && Range(x, size) && Placed(x, size) && i < size && Stored(x.l, x.s, sectors)
    ensures PenFollows(x, i, sectors) && AddressAt(x, i, Address(x.l, x.s, x.start) + i)
  {
    hide Pen, VolumeOk, PositionOk;
    Inside(x, size, i);
    var k := (Into(x.start) + i) / SECTOR;
    var t := First(x) + k;
    PlacedSector(x, size, k);
    PlacedNear(x, size, k);
    StoredSector(x.l, x.s, sectors, t / x.l.spc, t % x.l.spc);
  }

  ghost predicate AddressAt(x: Span, i: nat, a: int) {
    InFile(x.l, x.s, x.start + i) && Address(x.l, x.s, x.start + i) == a
  }

  lemma PlacedNear(x: Span, size: int, k: nat)
    requires SpanOk(x) && Range(x, size) && Placed(x, size) && First(x) + k <= LastSector(x, size)
    ensures InFile(x.l, x.s, (First(x) + k) * SECTOR)
            && FileSector(x.l, x.s, First(x) + k) == FileSector(x.l, x.s, First(x)) + k
  {
    hide VolumeOk;
    Monotone(First(x), First(x) + k, x.l.spc);
    Monotone(First(x) + k, LastSector(x, size), x.l.spc);
    FileSectorsBehind(x);
    if Offset(x) + k < x.l.spc {
      FileSectorsAfter(x, k);
    } else {
      SectorSpan(x.l, x.s[Place(x)], x.s[Place(x) + 1]);
    }
  }

  /** There writeFile is a block write. */
  lemma {:induction false} PlacedPut(disk: seq<seq<Byte>>, x: Span, data: seq<Byte>, n: nat)
    requires SpanOk(x) && DiskShape(disk) && Stored(x.l, x.s, |disk|)
    requires Range(x, |data|) && Placed(x, |data|) && n <= |data|
    ensures Put(disk, x, data, n) == Overlay(disk, Address(x.l, x.s, x.start), data[..n])
  {
    hide Put, Overlay, VolumeOk, Placed, PenAt, OffsetAt, DiskShape, Address, PositionOk;
    var a := Address(x.l, x.s, x.start);
    if n == 0 {
      PutNone(disk, x, data);
      OverlayNone(disk, a);
      assert data[..0] == [];
    } else {
      PlacedPut(disk, x, data, n - 1);
      PutNext(disk, x, data, n - 1);
      PlacedPen(x, |data|, n - 1, |disk|);
      OverlayNext(disk, a, data[..n - 1], data[n - 1], PenAt(x, n - 1).sector, OffsetAt(x, n - 1));
      assert data[..n] == data[..n - 1] + [data[n - 1]];
    }
  }

  /** A byte of a file after a block write, by its address. */
  lemma ByteAfter(disk: seq<seq<Byte>>, a: int, data: seq<Byte>, l: Layout, t: seq<int>, b: int)
    requires DiskShape(disk) && Stored(l, t, |disk|) && InFile(l, t, b)
    ensures FileByte(Overlay(disk, a, data), l, t, b)
            == if a <= Address(l, t, b) < a + |data| then data[Address(l, t, b) - a] else FileByte(disk, l, t, b)
  {
    StoredSector(l, t, |disk|, b / SECTOR / l.spc, (b / SECTOR) % l.spc);
  }

  lemma PlacedWrites(disk: seq<seq<Byte>>, x: Span, data: seq<Byte>, i: nat)
    requires SpanOk(x) && DiskShape(disk) && Stored(x.l, x.s, |disk|) && Range(x, |data|) && i < |data|
    requires Placed(x, |data|)
    ensures WrittenAt(disk, x, data, i)
  {
    hide Put, Overlay, VolumeOk, Placed, FileByte, DiskShape, Address, PositionOk, PenAt;
    PlacedPut(disk, x, data, |data|);
    assert data[..|data|] == data;
    PlacedPen(x, |data|, i, |disk|);
    ByteAfter(disk, Address(x.l, x.s, x.start), data, x.l, x.s, x.start + i);
  }

  /** On a disk of zeros, data with a single 1 leave a 1 at most where that byte was written. */
  lemma {:induction false} PutMark(disk: seq<seq<Byte>>, x: Span, data: seq<Byte>, n: nat, i: nat, m: int, o: int)
    requires SpanOk(x) && DiskShape(disk) && n <= |data| && 0 <= m < |disk| && 0 <= o < SECTOR
    requires disk == Marked(|disk|, |disk|) && data == Fill(|data|, 0, i, 1)
    ensures Put(disk, x, data, n)[m][o] == 1 ==> PenAt(x, i).Cursor? && PenAt(x, i).sector == m && OffsetAt(x, i) == o
  {
    hide Put, SpanOk, PenAt, OffsetAt, PositionOk;
    if n == 0 {
      PutNone(disk, x, data);
    } else {
      PutNext(disk, x, data, n - 1);
      PutMark(disk, x, data, n - 1, i, m, o);
    }
  }

  lemma WrongWrite(disk: seq<seq<Byte>>, x: Span, data: seq<Byte>, i: nat, k: nat)
    requires SpanOk(x) && DiskShape(disk) && Stored(x.l, x.s, |disk|) && Range(x, |data|) && i < |data|
    requires k * SECTOR == Into(x.start) + i && (x.start + i) / SECTOR == First(x) + k && (x.start + i) % SECTOR == 0
    requires InFile(x.l, x.s, x.start + i) && Misses(x, Pen(x, k).at, First(x) + k)
    requires disk == Marked(|disk|, |disk|) && data == Fill(|data|, 0, i, 1)
    ensures !WrittenAt(disk, x, data, i)
  {
    hide Pen, VolumeOk, PositionOk, Put, PenAt, OffsetAt;
    var t := First(x) + k;
    StoredSector(x.l, x.s, |disk|, t / x.l.spc, t % x.l.spc);
    PenHere(x, i, k, 0);
    PutMark(disk, x, data, |data|, i, FileSector(x.l, x.s, t), 0);
  }

  lemma NotAllWritten(disk: seq<seq<Byte>>, x: Span, data: seq<Byte>, i: nat)
    requires SpanOk(x) && DiskShape(disk) && Stored(x.l, x.s, |disk|) && Range(x, |data|) && i < |data|
    requires !WrittenAt(disk, x, data, i)
    ensures !WritesRight(disk, x, data)
  {
    hide WrittenAt, VolumeOk;
  }

  lemma NotPlacedWrites(x: Span, size: int, sectors: int)
    requires SpanOk(x) && Range(x, size) && 0 <= sectors && Stored(x.l, x.s, sectors) && !Placed(x, size)
    ensures exists disk: seq<seq<Byte>>, data: seq<Byte> ::
              |disk| == sectors && DiskShape(disk) && |data| == size && !WritesRight(disk, x, data)
  {
    hide Visit, Pen, VolumeOk, PositionOk, Placed, DiskShape;
    var k := Misplaced(x, size);
    var i := SectorStart(x, size, k);
    var disk, data := Marked(sectors, sectors), Fill(size, 0, i, 1);
    WrongWrite(disk, x, data, i, k);
    NotAllWritten(disk, x, data, i);
  }

  /** writeFile puts the data where the file has its bytes, exactly for the ranges that are placed; this covers the
      ranges on which it follows the chain, allocates, or finds the volume full. */
  lemma WriteIff(x: Span, size: int, sectors: int)
    requires SpanOk(x) && Range(x, size) && 0 <= sectors && Stored(x.l, x.s, sectors)
    ensures (forall disk: seq<seq<Byte>>, data: seq<Byte> ::
               |disk| == sectors && DiskShape(disk) && |data| == size ==> WritesRight(disk, x, data))
            <==> Placed(x, size)
  {
    hide VolumeOk, WrittenAt, Placed, DiskShape;
    if Placed(x, size) {
      forall disk: seq<seq<Byte>>, data: seq<Byte> | |disk| == sectors && DiskShape(disk) && |data| == size
        ensures WritesRight(disk, x, data)
      {
        forall i: nat | i < size ensures WrittenAt(disk, x, data, i) {
          PlacedWrites(disk, x, data, i);
        }
      }
    } else {
      NotPlacedWrites(x, size, sectors);
    }
  }

  // ---- the laws of the data path ----

  /** writeFile then readFile returns the written bytes, and the table is as before. */
  lemma RoundTrip(disk: seq<seq<Byte>>, x: Span, data: seq<Byte>, i: nat, was: Byte)
    requires SpanOk(x) && DiskShape(disk) && Stored(x.l, x.s, |disk|)
    requires Range(x, |data|) && Placed(x, |data|) && i < |data|
    ensures ReadByte(Written(disk, x, data), x, i, was) == data[i]
    ensures Pen(x, Changes(x.start, |data|)).v == x.v
  {
    hide Visit, Pen, VolumeOk, PositionOk, Placed, Written, ReadByte, FileByte, DiskShape;
    PlacedWrites(disk, x, data, i);
    PlacedReads(Written(disk, x, data), x, Fill(|data|, was, 0, was), i);
    Inside(x, |data|, |data| - 1);
    PlacedSector(x, |data|, Changes(x.start, |data|));
  }

  /** A placed range of a stored file needs nothing but sectors that are there. */
  lemma PlacedOnDisk(x: Span, size: int, sectors: int)
    requires SpanOk(x) && Range(x, size) && Placed(x, size) && Stored(x.l, x.s, sectors)
    ensures Readable(x, size, sectors) && Writable(x, size, sectors)
  {
    hide Visit, Pen, VolumeOk, PositionOk, Placed;
    Inside(x, size, size - 1);
    forall k: nat | k <= Changes(x.start, size) ensures OnDisk(Visit(x, k), sectors) && OnDisk(Pen(x, k).at, sectors) {
      PlacedSector(x, size, k);
      StoredSector(x.l, x.s, sectors, (First(x) + k) / x.l.spc, (First(x) + k) % x.l.spc);
    }
  }

  /** The disk that diskStartup.sh makes: 10000 sectors, 8 to a cluster, and a table of 16 sectors.  Its clusters are
      2 to 1245; on them everything fits together, although the table has FAT_SIZE entries. */
  lemma StartupDisk(s: seq<int>)
    requires forall i :: 0 <= i < |s| ==> 2 <= s[i] <= 1245
    ensures Stored(Layout(8, 32, 1, 16), s, 10000)
    ensures !Stored(Layout(8, 32, 1, 16), [1246], 10000)
    ensures forall c, i :: IsCluster(c) ==> GetDiskSector(Layout(8, 32, 1, 16), c, i) == 32 + 1 * 16 + (c - 2) * 8 + i
  {
    var t := [1246];
    assert t[0] == 1246;
  }

  /** When all clusters of that disk are in use, allocateCluster does not answer "full": the table has more entries
      than the disk has clusters, and the next one is cluster 1246, behind the end of the disk. */
  lemma StartupDiskOverrun()
    ensures var r := Allocate(Run(Filled(0), Appends(1244)).v, 0);
            r.cluster == 1246 && GetDiskSector(Layout(8, 32, 1, 16), r.cluster, 0) == 10000
  {
    hide Run, WellFormed, FirstFree;
    FillUp(0, 1244);
    FirstFilled(1244, From(Filled(1244).hint));
  }

  /** A placed range: no other byte of the file and no byte of another file changes. */
  lemma WriteElsewhere(disk: seq<seq<Byte>>, x: Span, data: seq<Byte>, t: seq<int>, b: int)
    requires SpanOk(x) && IsChain(x.v.fat, t) && DiskShape(disk) && Stored(x.l, x.s, |disk|) && Stored(x.l, t, |disk|)
    requires Range(x, |data|) && Placed(x, |data|) && InFile(x.l, t, b)
    requires if t == x.s then !(x.start <= b < x.start + |data|) else Apart(x.s, t)
    ensures FileByte(Written(disk, x, data), x.l, t, b) == FileByte(disk, x.l, t, b)
  {
    hide VolumeOk, Overlay, Put, FileByte, Address, DiskShape, Stored, IsChain, Placed, Pen, PositionOk, PenAt,
         OffsetAt;
    PlacedPut(disk, x, data, |data|);
    assert data[..|data|] == data;
    var a := Address(x.l, x.s, x.start);
    ByteAfter(disk, a, data, x.l, t, b);
    if a <= Address(x.l, t, b) < a + |data| {
      PlacedPen(x, |data|, Address(x.l, t, b) - a, |disk|);
      SameAddress(x, x.start + (Address(x.l, t, b) - a), t, b);
    }
  }

  /** Different bytes of files have different addresses. */
  lemma SameAddress(x: Span, a: int, t: seq<int>, b: int)
    requires SpanOk(x) && IsChain(x.v.fat, t) && InFile(x.l, x.s, a) && InFile(x.l, t, b)
    requires Address(x.l, x.s, a) == Address(x.l, t, b) && (t == x.s || Apart(x.s, t))
    ensures t == x.s && a == b
  {
    hide VolumeOk, IsChain;
    var l, i, j := x.l, Index(x.l, a), Index(x.l, b);
    SameQuotient(SECTOR, FileSector(l, x.s, a / SECTOR), a % SECTOR, FileSector(l, t, b / SECTOR), b % SECTOR);
    HitSector(l, x.s[i], (a / SECTOR) % l.spc, t[j], (b / SECTOR) % l.spc);
    if i < j {
      NotTwice(x, i, j);
    } else if j < i {
      NotTwice(x, j, i);
    }
    assert a / SECTOR == i * l.spc + (a / SECTOR) % l.spc && b / SECTOR == j * l.spc + (b / SECTOR) % l.spc;
  }

  lemma HitSector(l: Layout, c: int, i: int, d: int, j: int)
    requires 0 <= i < l.spc && 0 <= j < l.spc && GetDiskSector(l, c, i) == GetDiskSector(l, d, j)
    ensures c == d && i == j
  {
    if c != d || i != j {
      SectorsDiffer(l, c, i, d, j);
    }
  }

  // ---- the table on the disk and in memory ----

  ghost predicate TableKept(disk: seq<seq<Byte>>, x: Span, data: seq<Byte>)
    requires SpanOk(x) && DiskShape(disk)
  {
    forall n :: 0 <= n < |disk| && n < x.l.reserved + x.l.fats * x.l.sectorsPerFat ==>
      Written(disk, x, data)[n] == disk[n]
  }

  /** No write that starts in a file touches a copy of the table, however far it goes and whatever it allocates on its
      way, exactly when the copies fit into two clusters; the disk has at least the first sector of cluster 2. */
  lemma TableKeptIff(l: Layout, sectors: int)
    requires Geometry(l) && GetDiskSector(l, 2, 0) < sectors
    ensures (forall disk: seq<seq<Byte>>, x: Span, data: seq<Byte> ::
               |disk| == sectors && DiskShape(disk) && SpanOk(x) && x.l == l && Writable(x, |data|, sectors) ==>
                 TableKept(disk, x, data))
            <==> l.fats * l.sectorsPerFat <= 2 * l.spc
  {
    hide VolumeOk, Put, DiskShape;
    if l.fats * l.sectorsPerFat <= 2 * l.spc {
      forall disk: seq<seq<Byte>>, x: Span, data: seq<Byte>
        | |disk| == sectors && DiskShape(disk) && SpanOk(x) && x.l == l && Writable(x, |data|, sectors)
        ensures TableKept(disk, x, data)
      {
        forall n | 0 <= n < |disk| && n < l.reserved + 2 * l.spc ensures Written(disk, x, data)[n] == disk[n] {
          PutAbove(disk, x, data, |data|, n);
        }
      }
    } else {
      Clobbered(l, sectors);
    }
  }

  lemma {:induction false} PutAbove(disk: seq<seq<Byte>>, x: Span, data: seq<Byte>, k: nat, n: int)
    requires SpanOk(x) && DiskShape(disk) && k <= |data| && 0 <= n < |disk| && n < x.l.reserved + 2 * x.l.spc
    ensures Put(disk, x, data, k)[n] == disk[n]
  {
    hide Put, VolumeOk, PenAt;
    if k == 0 {
      PutNone(disk, x, data);
    } else {
      PutAbove(disk, x, data, k - 1, n);
      PutNext(disk, x, data, k - 1);
      PenAbove(x, k - 1);
    }
  }

  lemma PenAbove(x: Span, i: nat)
    requires SpanOk(x)
    ensures PenAt(x, i).Cursor? ==> x.l.reserved + 2 * x.l.spc <= PenAt(x, i).sector
  {
    hide Pen, VolumeOk;
    var at := PenAt(x, i);
    if at.Cursor? {
      SectorAbove(x.l, at.cluster, at.counter);
      SectorAbove(x.l, at.cluster, 0);
    }
  }

  lemma Clobbered(l: Layout, sectors: int)
    requires Geometry(l) && GetDiskSector(l, 2, 0) < sectors && l.fats * l.sectorsPerFat > 2 * l.spc
    ensures exists disk: seq<seq<Byte>>, x: Span, data: seq<Byte> ::
              |disk| == sectors && DiskShape(disk) && SpanOk(x) && x.l == l && Writable(x, |data|, sectors)
              && !TableKept(disk, x, data)
  {
    hide VolumeOk, Pen;
    SectorAbove(l, 2, 0);
    var x := Span(l, SmallVolume(), [2], 0);
    DivMod(0, l.spc, 0, 0);
    var disk, data, n := Marked(sectors, sectors), Fill(1, 1, 0, 1), GetDiskSector(l, 2, 0);
    PenNext(x, 0);
    PutHere(disk, x, data, 0, 0, 0);
    PutNone(disk, x, data);
    assert Written(disk, x, data)[n][0] == 1;
    assert !TableKept(disk, x, data);
  }

  /** A volume with one file of one cluster. */
  ghost function SmallVolume(): (v: Volume)
    ensures VolumeOk(v) && IsChain(v.fat, [2])
  {
    var fat := seq(FAT_SIZE, c => if c == 2 then EOC else 0);
    assert Ranked(fat, seq(FAT_SIZE, _ => 0));
    Volume(fat, NO_HINT)
  }

  /** What writing does to the table in memory: the chain of the file only grows at its end, and every other whole
      chain is untouched. */
  lemma {:induction false} WriteVolume(x: Span, k: nat, t: seq<int>)
    requires SpanOk(x) && IsChain(x.v.fat, t) && Head(x.v.fat, t[0]) && x.s[0] !in t
    ensures var v := Pen(x, k).v;
            && VolumeOk(v) && Used(v.fat, x.s[0]) && x.s <= ChainOf(v.fat, x.s[0])
            && IsChain(v.fat, t) && Head(v.fat, t[0])
  {
    hide Pen, WellFormed, IsChain, Allocate, Head, OnTrack;
    if k == 0 {
      PenNext(x, 0);
      UsedAt(x.v.fat, x.s, 0);
      ChainUnique(x.v.fat, x.s, ChainOf(x.v.fat, x.s[0]));
    } else {
      WriteVolume(x, k - 1, t);
      PenNext(x, k - 1);
      var p := Pen(x, k - 1);
      Grow(p.v, x.s[0]);
      AppendOther(p.v, x.s[0], t);
    }
  }

  lemma Grow(v: Volume, start: int)
    requires VolumeOk(v) && Used(v.fat, start)
    ensures var f := Allocate(v, start).v.fat;
            WellFormed(f) && Used(f, start) && ChainOf(v.fat, start) <= ChainOf(f, start)
  {
    hide WellFormed, Allocate;
    Allocates(v, start);
    AllocateUsed(v, start, start);
    var r := Allocate(v, start);
    if r.cluster != EOC {
      ChainUnique(r.v.fat, ChainOf(v.fat, start) + [r.cluster], ChainOf(r.v.fat, start));
    }
  }
}
