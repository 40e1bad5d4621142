/** The data path of fat32.c: getDiskSector, readFile and writeFile over a disk of 512-byte sectors. */
module FatData {
  import opened FatChains
  import S = Space

  type Byte = S.Byte

  const SECTOR: int := 512

  /** The fields of the BIOS parameter block and of the extended boot record that the data path uses. */
  datatype Layout = Layout(spc: int, reserved: int, fats: int, sectorsPerFat: int)

  ghost predicate DiskShape(disk: seq<seq<Byte>>) {
    forall n :: 0 <= n < |disk| ==> |disk[n]| == SECTOR
  }

  ghost predicate Geometry(l: Layout) { 0 < l.spc && 0 <= l.reserved }

  /** getDiskSector */
  function GetDiskSector(l: Layout, cluster: int, offset: int): int {
    cluster * l.spc + l.reserved + offset
  }

  /** The disk has all sectors of the clusters s; it need not have room for FAT_SIZE clusters. */
  ghost predicate Stored(l: Layout, s: seq<int>, sectors: int) {
    Geometry(l) && forall i :: 0 <= i < |s| ==> IsCluster(s[i]) && GetDiskSector(l, s[i], l.spc) <= sectors
  }

  lemma SectorAbove(l: Layout, cluster: int, offset: int)
    requires Geometry(l) && IsCluster(cluster) && 0 <= offset
    ensures l.reserved + 2 * l.spc <= GetDiskSector(l, cluster, offset)
  {
    if cluster > 2 {
      Multiples(cluster, 2, l.spc);
    }
  }

  lemma StoredSector(l: Layout, s: seq<int>, sectors: int, j: int, offset: int)
    requires Stored(l, s, sectors) && 0 <= j < |s| && 0 <= offset < l.spc
    ensures l.reserved + 2 * l.spc <= GetDiskSector(l, s[j], offset) < sectors
  {
    SectorAbove(l, s[j], offset);
  }

  /** The format puts cluster 2 right behind the copies of the table; getDiskSector agrees with it exactly when
      the copies fill two clusters. */
  lemma DataRegionIff(l: Layout)
    ensures (forall c, i :: IsCluster(c) ==>
            GetDiskSector(l, c, i) == l.reserved + l.fats * l.sectorsPerFat + (c - 2) * l.spc + i)
            <==> l.fats * l.sectorsPerFat == 2 * l.spc
  {
    forall c, i | IsCluster(c)
      ensures GetDiskSector(l, c, i) == l.reserved + (c - 2) * l.spc + 2 * l.spc + i
    {
      assert c * l.spc == (c - 2) * l.spc + 2 * l.spc;
    }
    assert IsCluster(2);
    assert GetDiskSector(l, 2, 0) == l.reserved + (2 - 2) * l.spc + 2 * l.spc;
  }

  // ---- arithmetic ----

  lemma DivMod(a: int, b: int, q: int, r: int)
    requires b > 0 && a == q * b + r && 0 <= r < b
    ensures a / b == q && a % b == r
  {
    SameQuotient(b, q, r, a / b, a % b);
  }

  lemma SameQuotient(b: int, q: int, r: int, p: int, u: int)
    requires b > 0 && q * b + r == p * b + u && 0 <= r < b && 0 <= u < b
    ensures q == p && r == u
  {
    if q > p {
      Multiples(q, p, b);
    } else if q < p {
      Multiples(p, q, b);
    }
  }

  lemma {:induction false} Multiples(k: int, j: int, b: int)
    requires k > j && b > 0
    ensures k * b >= j * b + b
    decreases k - j
  {
    if k > j + 1 {
      Multiples(k - 1, j, b);
    }
  }

  /** The cluster index and the sector within the cluster, as the code computes them and by sectors. */
  lemma Split(start: int, spc: int)
    requires 0 <= start && 0 < spc
    ensures SECTOR * spc > 0
    ensures start / (SECTOR * spc) == start / SECTOR / spc
    ensures (start % (SECTOR * spc)) / SECTOR == (start / SECTOR) % spc
  {
    var t, off := start / SECTOR, start % SECTOR;
    var q, r := t / spc, t % spc;
    assert t == q * spc + r;
    assert start == SECTOR * (q * spc + r) + off;
    assert SECTOR * (q * spc) == q * (SECTOR * spc);
    DivMod(start, SECTOR * spc, q, SECTOR * r + off);
  }

  lemma SectorsDiffer(l: Layout, c: int, i: int, d: int, j: int)
    requires 0 <= i < l.spc && 0 <= j < l.spc && (c != d || i != j)
    ensures GetDiskSector(l, c, i) != GetDiskSector(l, d, j)
  {
    if GetDiskSector(l, c, i) == GetDiskSector(l, d, j) {
      var a := c * l.spc + i;
      assert a == d * l.spc + j;
      DivMod(a, l.spc, c, i);
      DivMod(a, l.spc, d, j);
    }
  }

  // ---- the meaning of a file ----

  /** Sector t of the file whose chain is s. */
  ghost function FileSector(l: Layout, s: seq<int>, t: int): int
    requires 0 < l.spc && 0 <= t && t / l.spc < |s|
  {
    GetDiskSector(l, s[t / l.spc], t % l.spc)
  }

  ghost predicate InFile(l: Layout, s: seq<int>, b: int) {
    0 < l.spc && 0 <= b && 0 <= b / SECTOR / l.spc < |s|
  }

  /** Byte b of the file. */
  ghost function FileByte(disk: seq<seq<Byte>>, l: Layout, s: seq<int>, b: int): Byte
    requires DiskShape(disk) && Stored(l, s, |disk|) && InFile(l, s, b)
  {
    StoredSector(l, s, |disk|, b / SECTOR / l.spc, (b / SECTOR) % l.spc);
    disk[FileSector(l, s, b / SECTOR)][b % SECTOR]
  }

  // ---- bytes on the disk ----

  /** The disk, taken as one row of bytes, with `data` written from address a on. */
  ghost function Overlay(disk: seq<seq<Byte>>, a: int, data: seq<Byte>): (disk': seq<seq<Byte>>)
    requires DiskShape(disk)
    ensures |disk'| == |disk| && DiskShape(disk')
  {
    seq(|disk|, n requires 0 <= n < |disk| => OverlaySector(disk[n], n, a, data))
  }

  ghost function OverlaySector(sector: seq<Byte>, n: int, a: int, data: seq<Byte>): (sector': seq<Byte>)
    requires |sector| == SECTOR
    ensures |sector'| == SECTOR
    ensures forall o :: 0 <= o < SECTOR ==>
              sector'[o] == if a <= n * SECTOR + o < a + |data| then data[n * SECTOR + o - a] else sector[o]
  {
    seq(SECTOR, o requires 0 <= o < SECTOR =>
      if a <= n * SECTOR + o < a + |data| then data[n * SECTOR + o - a] else sector[o])
  }

  lemma OverlayNone(disk: seq<seq<Byte>>, a: int)
    requires DiskShape(disk)
    ensures Overlay(disk, a, []) == disk
  {
    forall n | 0 <= n < |disk| ensures Overlay(disk, a, [])[n] == disk[n] {
      assert forall o :: 0 <= o < SECTOR ==> OverlaySector(disk[n], n, a, [])[o] == disk[n][o];
    }
  }

  lemma OverlayNext(disk: seq<seq<Byte>>, a: int, data: seq<Byte>, x: Byte, n: int, o: int)
    requires DiskShape(disk) && 0 <= n < |disk| && 0 <= o < SECTOR && a + |data| == n * SECTOR + o
    ensures var d := Overlay(disk, a, data); Overlay(disk, a, data + [x]) == d[n := d[n][o := x]]
  {
    var d := Overlay(disk, a, data);
    var d' := Overlay(disk, a, data + [x]);
    forall m | 0 <= m < |disk| ensures d'[m] == d[n := d[n][o := x]][m] {
      forall p | 0 <= p < SECTOR ensures d'[m][p] == d[n := d[n][o := x]][m][p] {
      }
    }
  }

  class Disk {
    const sectors: array<seq<Byte>>

    constructor (content: seq<seq<Byte>>)
      requires DiskShape(content)
      ensures sectors[..] == content && fresh(sectors)
    {
      sectors := new seq<Byte>[|content|](i requires 0 <= i < |content| => content[i]);
    }

    method Idewrite(buffer: array<Byte>, n: int)
      requires buffer.Length == SECTOR && 0 <= n < sectors.Length
      modifies sectors
      ensures sectors[..] == old(sectors[..])[n := buffer[..]]
    {
      sectors[n] := buffer[..];
    }

    method Ideread(buffer: array<Byte>, n: int)
      requires buffer.Length == SECTOR && DiskShape(sectors[..]) && 0 <= n < sectors.Length
      modifies buffer
      ensures buffer[..] == sectors[n]
    {
      forall i | 0 <= i < SECTOR {
        buffer[i] := sectors[n][i];
      }
    }
  }

  ghost function Amount(size: int): nat {
    if size > 0 then size else 0
  }

  /** The byte address at which byte b of the file is. */
  ghost function Address(l: Layout, s: seq<int>, b: int): int
    requires InFile(l, s, b)
  {
    FileSector(l, s, b / SECTOR) * SECTOR + b % SECTOR
  }

  // ---- where the two loops go ----

  /** A place in a file: the volume, the chain of the file, and the byte where a transfer starts. */
  datatype Span = Span(l: Layout, v: Volume, s: seq<int>, start: int)

  ghost predicate SpanOk(x: Span) {
    Geometry(x.l) && VolumeOk(x.v) && IsChain(x.v.fat, x.s) && InFile(x.l, x.s, x.start)
  }

  /** The cluster, the sector counter that the code tests, and the disk sector in the local buffer; or nowhere. */
  datatype Cursor = Cursor(cluster: int, counter: int, sector: int) | Nowhere

  ghost predicate OnDisk(at: Cursor, sectors: int) {
    at.Cursor? && 0 <= at.sector < sectors
  }

  ghost function Start(x: Span): Cursor
    requires InFile(x.l, x.s, x.start)
  {
    var t := x.start / SECTOR;
    Cursor(x.s[t / x.l.spc], t % x.l.spc, FileSector(x.l, x.s, t))
  }

  /** Where in its sector a byte is. */
  ghost function Into(b: int): (o: int)
    ensures 0 <= o < SECTOR
  {
    b % SECTOR
  }

  /** How often a transfer changes the sector. */
  ghost function Changes(start: int, size: int): int {
    if size > 0 then (Into(start) + size - 1) / SECTOR else 0
  }

  ghost predicate OnTrack(l: Layout, fat: seq<int>, at: Cursor)
    requires |fat| == FAT_SIZE
  {
    at.Cursor? ==>
      && Used(fat, at.cluster) && 0 <= at.counter <= l.spc
      && (at.sector == GetDiskSector(l, at.cluster, at.counter)
          || (at.counter == l.spc && at.sector == GetDiskSector(l, at.cluster, 0)))
  }

  lemma StartOnTrack(x: Span)
    requires SpanOk(x)
    ensures OnTrack(x.l, x.v.fat, Start(x))
  {
    UsedAt(x.v.fat, x.s, x.start / SECTOR / x.l.spc);
  }

  /** One change of sector in readFile (fat32.c:525-542).  The counter is compared with the number of sectors, so
      the sector behind the cluster is read before the chain is followed. */
  ghost function Advance(l: Layout, fat: seq<int>, at: Cursor): (next: Cursor)
    requires |fat| == FAT_SIZE && (at.Cursor? ==> IsCluster(at.cluster))
  {
    if at.Nowhere? then Nowhere
    else if at.counter < l.spc then Cursor(at.cluster, at.counter + 1, at.sector + 1)
    else if Ends(fat[at.cluster]) then Nowhere
    else Cursor(fat[at.cluster], 0, GetDiskSector(l, fat[at.cluster], 0))
  }

  /** Where readFile is after k changes of sector; nowhere when the chain is over. */
  ghost function Visit(x: Span, k: nat): (at: Cursor)
    requires SpanOk(x)
    ensures OnTrack(x.l, x.v.fat, at)
  {
    StartOnTrack(x);
    if k == 0 then Start(x) else Advance(x.l, x.v.fat, Visit(x, k - 1))
  }

  /** writeFile changes the table on its way. */
  datatype Position = Position(v: Volume, at: Cursor)

  /** One change of sector in writeFile (fat32.c:445-465).  Unlike readFile it never sets the counter back, and at
      the end of the chain it allocates.  On a full volume it goes nowhere. */
  ghost function AdvanceWriting(l: Layout, first: int, p: Position): (next: Position)
    requires VolumeOk(p.v) && Used(p.v.fat, first) && (p.at.Cursor? ==> IsCluster(p.at.cluster))
  {
    var at := p.at;
    if at.Nowhere? then p
    else if at.counter < l.spc then Position(p.v, Cursor(at.cluster, at.counter + 1, at.sector + 1))
    else if Ends(p.v.fat[at.cluster]) then
      var r := Allocate(p.v, first);
      if r.cluster == EOC then Position(r.v, Nowhere)
      else Position(r.v, Cursor(r.cluster, at.counter, GetDiskSector(l, r.cluster, 0)))
    else Position(p.v, Cursor(p.v.fat[at.cluster], at.counter, GetDiskSector(l, p.v.fat[at.cluster], 0)))
  }

  ghost predicate PositionOk(x: Span, p: Position)
    requires SpanOk(x)
  {
    VolumeOk(p.v) && Used(p.v.fat, x.s[0]) && OnTrack(x.l, p.v.fat, p.at)
  }

  lemma AdvanceKeeps(x: Span, p: Position)
    requires SpanOk(x) && PositionOk(x, p)
    ensures PositionOk(x, AdvanceWriting(x.l, x.s[0], p))
  {
    hide WellFormed, IsChain, Allocate;
    LinkUsed(p.v.fat);
    Allocates(p.v, x.s[0]);
    AllocateUsed(p.v, x.s[0], x.s[0]);
  }

  /** Where writeFile is after k changes of sector. */
  ghost function Pen(x: Span, k: nat): (p: Position)
    requires SpanOk(x)
    ensures PositionOk(x, p)
  {
    StartOnTrack(x);
    UsedAt(x.v.fat, x.s, 0);
    if k == 0 then Position(x.v, Start(x))
    else
      AdvanceKeeps(x, Pen(x, k - 1));
      AdvanceWriting(x.l, x.s[0], Pen(x, k - 1))
  }

  // ---- what the two loops transfer ----

  /** The byte that readFile delivers at place i of the buffer; `was` when it delivers none. */
  ghost function ReadByte(disk: seq<seq<Byte>>, x: Span, i: nat, was: Byte): Byte
    requires SpanOk(x) && DiskShape(disk)
  {
    var at := Visit(x, (Into(x.start) + i) / SECTOR);
    if OnDisk(at, |disk|) then disk[at.sector][(Into(x.start) + i) % SECTOR] else was
  }

  /** The disk after writeFile has written the first n bytes of data, each where it is at that moment. */
  ghost function Put(disk: seq<seq<Byte>>, x: Span, data: seq<Byte>, n: nat): (disk': seq<seq<Byte>>)
    requires SpanOk(x) && DiskShape(disk) && n <= |data|
    ensures |disk'| == |disk| && DiskShape(disk')
  {
    if n == 0 then disk else PutByte(Put(disk, x, data, n - 1), PenAt(x, n - 1), OffsetAt(x, n - 1), data[n - 1])
  }

  /** Where writeFile is when it writes byte i of the buffer. */
  ghost function PenAt(x: Span, i: nat): Cursor
    requires SpanOk(x)
  {
    Pen(x, (Into(x.start) + i) / SECTOR).at
  }

  ghost function OffsetAt(x: Span, i: nat): (o: int)
    ensures 0 <= o < SECTOR
  {
    (Into(x.start) + i) % SECTOR
  }

  ghost function PutByte(disk: seq<seq<Byte>>, at: Cursor, o: int, b: Byte): (disk': seq<seq<Byte>>)
    requires DiskShape(disk) && 0 <= o < SECTOR
    ensures |disk'| == |disk| && DiskShape(disk')
  {
    if OnDisk(at, |disk|) then disk[at.sector := disk[at.sector][o := b]] else disk
  }

  /** Every sector that readFile looks at is on the disk. */
  ghost predicate Readable(x: Span, size: int, sectors: int)
    requires SpanOk(x)
  {
    forall k: nat :: k <= Changes(x.start, size) ==> Visit(x, k).Nowhere? || OnDisk(Visit(x, k), sectors)
  }

  /** Every sector that writeFile looks at is on the disk, and the volume does not fill up on the way. */
  ghost predicate Writable(x: Span, size: int, sectors: int)
    requires SpanOk(x)
  {
    forall k: nat :: k <= Changes(x.start, size) ==> OnDisk(Pen(x, k).at, sectors)
  }

  // ---- steps of the two loops ----

  lemma VisitNext(x: Span, k: nat)
    requires SpanOk(x)
    ensures Visit(x, 0) == Start(x)
    ensures Visit(x, k + 1) == Advance(x.l, x.v.fat, Visit(x, k))
  {
  }

  lemma PenNext(x: Span, k: nat)
    requires SpanOk(x)
    ensures Pen(x, 0) == Position(x.v, Start(x))
    ensures Pen(x, k + 1) == AdvanceWriting(x.l, x.s[0], Pen(x, k))
  {
  }

  lemma {:induction false} VisitOver(x: Span, k: nat, n: nat)
    requires SpanOk(x) && k <= n && Visit(x, k).Nowhere?
    ensures Visit(x, n).Nowhere?
  {
    if k < n {
      VisitOver(x, k, n - 1);
    }
  }

  lemma ReadHere(disk: seq<seq<Byte>>, x: Span, i: nat, was: Byte, k: nat, o: nat)
    requires SpanOk(x) && DiskShape(disk)
    requires k * SECTOR + o == Into(x.start) + i && o < SECTOR && OnDisk(Visit(x, k), |disk|)
    ensures ReadByte(disk, x, i, was) == disk[Visit(x, k).sector][o]
  {
    hide Visit, SpanOk;
    assert (Into(x.start) + i) / SECTOR == k;
  }

  lemma ReadOver(disk: seq<seq<Byte>>, x: Span, i: nat, was: Byte, k: nat)
    requires SpanOk(x) && DiskShape(disk) && k * SECTOR <= Into(x.start) + i && Visit(x, k).Nowhere?
    ensures ReadByte(disk, x, i, was) == was
  {
    hide Visit, SpanOk;
    VisitOver(x, k, (Into(x.start) + i) / SECTOR);
  }

  lemma PutNone(disk: seq<seq<Byte>>, x: Span, data: seq<Byte>)
    requires SpanOk(x) && DiskShape(disk)
    ensures Put(disk, x, data, 0) == disk
  {
  }

  lemma PutHere(disk: seq<seq<Byte>>, x: Span, data: seq<Byte>, i: nat, k: nat, o: nat)
    requires SpanOk(x) && DiskShape(disk) && i < |data|
    requires k * SECTOR + o == Into(x.start) + i && o < SECTOR && OnDisk(Pen(x, k).at, |disk|)
    ensures var d, n := Put(disk, x, data, i), Pen(x, k).at.sector;
            Put(disk, x, data, i + 1) == d[n := d[n][o := data[i]]]
  {
    hide Pen, SpanOk, PositionOk, Put, DiskShape, PenAt, OffsetAt;
    PenHere(x, i, k, o);
    PutNext(disk, x, data, i);
  }

  lemma PenHere(x: Span, i: nat, k: nat, o: nat)
    requires SpanOk(x) && k * SECTOR + o == Into(x.start) + i && o < SECTOR
    ensures PenAt(x, i) == Pen(x, k).at && OffsetAt(x, i) == o
  {
    hide Pen, SpanOk, Into, PositionOk;
    SectorOf(Into(x.start) + i, k, o);
  }

  lemma SectorOf(a: int, k: int, o: int)
    requires a == k * SECTOR + o && 0 <= o < SECTOR
    ensures a / SECTOR == k && a % SECTOR == o
  {
  }

  lemma PutNext(disk: seq<seq<Byte>>, x: Span, data: seq<Byte>, i: nat)
    requires SpanOk(x) && DiskShape(disk) && i < |data|
    ensures Put(disk, x, data, i + 1) == PutByte(Put(disk, x, data, i), PenAt(x, i), OffsetAt(x, i), data[i])
  {
    hide SpanOk, PutByte, DiskShape, PenAt, OffsetAt;
  }

  // ---- where readFile is, in closed form ----

  /** With how many changes of sector readFile comes to the second cluster of the transfer: after the sectors up to the
      end of the first one and one more. */
  ghost function Rest(x: Span): (e: nat)
    requires SpanOk(x)
    ensures e > 1
  {
    x.l.spc - (x.start / SECTOR) % x.l.spc + 1
  }

  /** With how many it is past the end of the chain: every further cluster takes one change more than it has sectors. */
  ghost function Over(x: Span): int
    requires SpanOk(x)
  {
    Rest(x) + (|x.s| - 1 - x.start / SECTOR / x.l.spc) * (x.l.spc + 1)
  }

  /** The index in the chain of the cluster where it is after k changes. */
  ghost function ClusterAfter(x: Span, k: nat): int
    requires SpanOk(x)
  {
    x.start / SECTOR / x.l.spc + if k < Rest(x) then 0 else 1 + (k - Rest(x)) / (x.l.spc + 1)
  }

  /** And the sector, counted from the start of that cluster. */
  ghost function SectorAfter(x: Span, k: nat): int
    requires SpanOk(x)
  {
    if k < Rest(x) then (x.start / SECTOR) % x.l.spc + k else (k - Rest(x)) % (x.l.spc + 1)
  }

  lemma ClusterInChain(x: Span, k: nat)
    requires SpanOk(x)
    ensures 0 <= ClusterAfter(x, k) && 0 <= SectorAfter(x, k) <= x.l.spc
    ensures k < Over(x) <==> ClusterAfter(x, k) < |x.s|
  {
    hide VolumeOk, IsChain;
    if k >= Rest(x) {
      var q, n, b := (k - Rest(x)) / (x.l.spc + 1), |x.s| - 1 - x.start / SECTOR / x.l.spc, x.l.spc + 1;
      assert k - Rest(x) == q * b + (k - Rest(x)) % b;
      if n > q {
        Multiples(n, q, b);
      } else if n < q {
        Multiples(q, n, b);
      }
    } else {
      Fewer(|x.s| - 1 - x.start / SECTOR / x.l.spc, x.l.spc + 1);
    }
  }

  lemma Fewer(n: int, b: int)
    requires n >= 0 && b > 0
    ensures n * b >= 0
  {
  }

  /** One change of sector in these terms. */
  lemma AfterNext(x: Span, k: nat)
    requires SpanOk(x)
    ensures if SectorAfter(x, k) < x.l.spc
            then ClusterAfter(x, k + 1) == ClusterAfter(x, k) && SectorAfter(x, k + 1) == SectorAfter(x, k) + 1
            else ClusterAfter(x, k + 1) == ClusterAfter(x, k) + 1 && SectorAfter(x, k + 1) == 0
  {
    hide VolumeOk, IsChain;
    var b := x.l.spc + 1;
    if k + 1 == Rest(x) {
      DivMod(0, b, 0, 0);
    } else if k >= Rest(x) {
      var a := k - Rest(x);
      var q, r := a / b, a % b;
      assert a == q * b + r;
      if r < x.l.spc {
        DivMod(a + 1, b, q, r + 1);
      } else {
        assert a + 1 == (q + 1) * b + 0;
        DivMod(a + 1, b, q + 1, 0);
      }
    }
  }

  /** After k changes of sector readFile is at the sector with these numbers, or past the end of the chain. */
  lemma {:induction false} VisitClosed(x: Span, k: nat)
    requires SpanOk(x)
    ensures k >= Over(x) <==> Visit(x, k).Nowhere?
    ensures k < Over(x) ==>
              && 0 <= ClusterAfter(x, k) < |x.s|
              && Visit(x, k) == Cursor(x.s[ClusterAfter(x, k)], SectorAfter(x, k),
                                       GetDiskSector(x.l, x.s[ClusterAfter(x, k)], SectorAfter(x, k)))
  {
    hide Visit, VolumeOk, Over, ClusterAfter, SectorAfter, OnTrack, IsChain;
    ClusterInChain(x, k);
    if k == 0 {
      VisitNext(x, 0);
      AtStart(x);
    } else {
      VisitNext(x, k - 1);
      VisitClosed(x, k - 1);
      ClusterInChain(x, k - 1);
      AfterNext(x, k - 1);
      if k - 1 < Over(x) {
        LinkAfter(x, ClusterAfter(x, k - 1));
      }
    }
  }

  lemma AtStart(x: Span)
    requires SpanOk(x)
    ensures ClusterAfter(x, 0) == x.start / SECTOR / x.l.spc && SectorAfter(x, 0) == (x.start / SECTOR) % x.l.spc
  {
  }

  lemma LinkAfter(x: Span, i: int)
    requires SpanOk(x) && 0 <= i < |x.s|
    ensures IsCluster(x.s[i])
    ensures if i < |x.s| - 1 then x.v.fat[x.s[i]] == x.s[i + 1] && IsCluster(x.s[i + 1]) else Ends(x.v.fat[x.s[i]])
    ensures i < |x.s| - 1 ==> !Ends(x.v.fat[x.s[i]])
  {
    hide VolumeOk;
  }

  /** The byte at place i of the buffer after readFile: the one at its place in sector SectorAfter of cluster
      ClusterAfter, or what was there before if the chain is over. */
  ghost function Delivered(disk: seq<seq<Byte>>, x: Span, i: nat, was: Byte): Byte
    requires SpanOk(x) && DiskShape(disk)
  {
    var k := (Into(x.start) + i) / SECTOR;
    if k >= Over(x) then was
    else
      ClusterInChain(x, k);
      var n := GetDiskSector(x.l, x.s[ClusterAfter(x, k)], SectorAfter(x, k));
      if 0 <= n < |disk| then disk[n][(x.start + i) % SECTOR] else was
  }

  lemma ReadDelivers(disk: seq<seq<Byte>>, x: Span, i: nat, was: Byte)
    requires SpanOk(x) && DiskShape(disk)
    ensures ReadByte(disk, x, i, was) == Delivered(disk, x, i, was)
  {
    hide Visit, VolumeOk, OnTrack, IsChain, Over, ClusterAfter, SectorAfter, DiskShape;
    VisitClosed(x, (Into(x.start) + i) / SECTOR);
    assert (x.start + i) % SECTOR == (Into(x.start) + i) % SECTOR;
  }

  class FileSystem {
    const table: FileTable
    const disk: Disk
    const layout: Layout

    constructor (table: FileTable, disk: Disk, layout: Layout)
      ensures this.table == table && this.disk == disk && this.layout == layout
    {
      this.table := table;
      this.disk := disk;
      this.layout := layout;
    }

    ghost function Volume(): Volume
      reads table, table.FAT
    {
      FatChains.Volume(table.FAT[..], table.whereClusters)
    }

    ghost predicate Ready()
      reads this, table, table.FAT, disk, disk.sectors
    {
      table.Valid() && DiskShape(disk.sectors[..]) && Geometry(layout)
    }

    /** Follows `links` links of the chain s. */
    method Walk(startingCluster: int, links: int, ghost s: seq<int>) returns (cluster: int)
      requires IsChain(table.FAT[..], s) && s[0] == startingCluster && 0 <= links < |s|
      ensures cluster == s[links]
    {
      cluster := startingCluster;
      var n := links;
      while n > 0
        invariant 0 <= n <= links && cluster == s[links - n]
      {
        cluster := table.FAT[cluster];
        n := n - 1;
      }
    }

    /** readFile.  `s` is the chain of the file. */
    method ReadFile(startingCluster: int, buffer: array<Byte>, size: int, startByte: int, ghost s: seq<int>)
      requires Ready() && IsChain(table.FAT[..], s) && s[0] == startingCluster && InFile(layout, s, startByte)
      requires size <= buffer.Length && Readable(Span(layout, Volume(), s, startByte), size, disk.sectors.Length)
      modifies buffer
      ensures var x := Span(layout, Volume(), s, startByte);
              forall i :: 0 <= i < buffer.Length ==>
                buffer[i] == (if i < size then Delivered(disk.sectors[..], x, i, old(buffer[i])) else old(buffer[i]))
    {
      hide Visit, Delivered;
      var spc := layout.spc;
      Split(startByte, spc);
      var chainNum := startByte / (SECTOR * spc);
      var csn := (startByte % (SECTOR * spc)) / SECTOR;
      var offset := startByte % SECTOR;
      var cluster := Walk(startingCluster, chainNum, s);
      ghost var x := Span(layout, Volume(), s, startByte);
      forall i: nat | i < buffer.Length
        ensures ReadByte(disk.sectors[..], x, i, buffer[i]) == Delivered(disk.sectors[..], x, i, buffer[i])
      {
        ReadDelivers(disk.sectors[..], x, i, buffer[i]);
      }
      ReadSectors(buffer, size, x, cluster, csn, offset);
    }

    /** fat32.c:505-551 */
    method ReadSectors(buffer: array<Byte>, size: int, ghost x: Span, startCluster: int, startCounter: int, offset: int)
      requires Ready() && SpanOk(x) && x.l == layout && x.v == Volume()
      requires size <= buffer.Length && Readable(x, size, disk.sectors.Length)
      requires Cursor(startCluster, startCounter, GetDiskSector(layout, startCluster, startCounter)) == Start(x)
      requires offset == Into(x.start)
      modifies buffer
      ensures forall i :: 0 <= i < buffer.Length ==>
                buffer[i] == (if i < size then ReadByte(disk.sectors[..], x, i, old(buffer[i])) else old(buffer[i]))
    {
      hide Visit, SpanOk, ReadByte, Start, Advance, Readable, FileTable.Valid;
      ghost var d, was := disk.sectors[..], buffer[..];
      var cluster, csn, sector := startCluster, startCounter, GetDiskSector(layout, startCluster, startCounter);
      var local := new Byte[SECTOR];
      VisitNext(x, 0);
      MayRead(x, size, |d|, 0);
      disk.Ideread(local, sector);
      var remaining, bufferIt, sectorIt := size, offset, offset;
      ghost var k, i: nat := 0, 0;
      while remaining > 0
        invariant i <= Amount(size) && remaining == size - i && bufferIt == offset + i
        invariant 0 <= sectorIt <= SECTOR && k * SECTOR + sectorIt == offset + i
        invariant Visit(x, k) == Cursor(cluster, csn, sector)
        invariant 0 <= sector < |d| && local[..] == d[sector]
        invariant forall y :: 0 <= y < i ==> buffer[y] == ReadByte(d, x, y, was[y])
        invariant forall y :: i <= y < buffer.Length ==> buffer[y] == was[y]
        decreases remaining
      {
        if sectorIt == SECTOR {
          MayRead(x, size, |d|, k + 1);
          var over;
          over, cluster, csn, sector := NextSector(local, x, k, cluster, csn, sector);
          if over {
            forall y | i <= y < size ensures was[y] == ReadByte(d, x, y, was[y]) {
              ReadOver(d, x, y, was[y], k + 1);
            }
            break;
          }
          sectorIt := 0;
          k := k + 1;
        }
        ReadHere(d, x, i, was[i], k, sectorIt);
        buffer[bufferIt - offset] := local[sectorIt];
        bufferIt := bufferIt + 1;
        sectorIt := sectorIt + 1;
        remaining := remaining - 1;
        i := i + 1;
      }
    }

    /** fat32.c:525-542; `over` says that the loop ends here. */
    method NextSector(local: array<Byte>, ghost x: Span, ghost k: nat, cluster: int, csn: int, sector: int)
      returns (over: bool, cluster': int, csn': int, sector': int)
      requires Ready() && SpanOk(x) && x.l == layout && x.v == Volume() && local.Length == SECTOR
      requires Visit(x, k) == Cursor(cluster, csn, sector)
      requires Visit(x, k + 1).Nowhere? || OnDisk(Visit(x, k + 1), disk.sectors.Length)
      modifies local
      ensures over ==> Visit(x, k + 1) == Nowhere
      ensures !over ==> Visit(x, k + 1) == Cursor(cluster', csn', sector')
      ensures !over ==> 0 <= sector' < disk.sectors.Length && local[..] == disk.sectors[sector']
    {
      hide Visit, SpanOk;
      VisitNext(x, k);
      over, cluster', csn', sector' := false, cluster, csn, sector;
      if csn < layout.spc {
        sector' := sector + 1;
        csn' := csn + 1;
      } else {
        cluster' := table.FAT[cluster];
        if cluster' > BAD {
          over := true;
          return;
        }
        csn' := 0;
        sector' := GetDiskSector(layout, cluster', 0);
      }
      disk.Ideread(local, sector');
    }

    /** writeFile.  `s` is the chain of the file. */
    method WriteFile(startingCluster: int, buffer: array<Byte>, size: int, startByte: int, ghost s: seq<int>)
      requires Ready() && IsChain(table.FAT[..], s) && s[0] == startingCluster && InFile(layout, s, startByte)
      requires size <= buffer.Length && Writable(Span(layout, Volume(), s, startByte), size, disk.sectors.Length)
      modifies table, table.FAT, disk.sectors
      ensures Ready()
      ensures var x := Span(layout, old(Volume()), s, startByte);
              && Volume() == Pen(x, Changes(startByte, size)).v
              && disk.sectors[..] == Put(old(disk.sectors[..]), x, buffer[..Amount(size)], Amount(size))
    {
      hide Pen, Put;
      var spc := layout.spc;
      Split(startByte, spc);
      var chainNum := startByte / (SECTOR * spc);
      var csn := (startByte % (SECTOR * spc)) / SECTOR;
      var offset := startByte % SECTOR;
      var cluster := Walk(startingCluster, chainNum, s);
      WriteSectors(startingCluster, buffer, size, Span(layout, Volume(), s, startByte), cluster, csn, offset);
    }

    /** fat32.c:419-477 */
    method WriteSectors(first: int, buffer: array<Byte>, size: int, ghost x: Span, startCluster: int,
            startCounter: int, offset: int)
      requires Ready() && SpanOk(x) && x.l == layout && x.v == Volume() && x.s[0] == first
      requires size <= buffer.Length && Writable(x, size, disk.sectors.Length)
      requires Cursor(startCluster, startCounter, GetDiskSector(layout, startCluster, startCounter)) == Start(x)
      requires offset == Into(x.start)
      modifies table, table.FAT, disk.sectors
      ensures Ready() && Volume() == Pen(x, Changes(x.start, size)).v
      ensures disk.sectors[..] == Put(old(disk.sectors[..]), x, buffer[..Amount(size)], Amount(size))
    {
      hide Pen, Put, SpanOk, Start, AdvanceWriting, Writable, VolumeOk, Changes, Into, DiskShape;
      ghost var d, data := disk.sectors[..], buffer[..Amount(size)];
      var cluster, csn, sector := startCluster, startCounter, GetDiskSector(layout, startCluster, startCounter);
      var local := new Byte[SECTOR];
      PenNext(x, 0);
      ChangesReach(x.start, size, 0, 0);
      MayWrite(x, size, |d|, 0);
      disk.Ideread(local, sector);
      PutNone(d, x, data);
      var remaining, bufferIt, sectorIt := size, offset, offset;
      ghost var k, i: nat := 0, 0;
      while remaining > 0
        invariant i <= Amount(size) && remaining == size - i && bufferIt == offset + i
        invariant 0 <= sectorIt <= SECTOR && k * SECTOR + sectorIt == offset + i
        invariant (i == 0 ==> k == 0) && (i > 0 ==> sectorIt > 0)
        invariant Ready() && disk.sectors.Length == |d| && 0 <= sector < |d|
        invariant Pen(x, k) == Position(Volume(), Cursor(cluster, csn, sector))
        invariant disk.sectors[..][sector := local[..]] == Put(d, x, data, i) && buffer[..Amount(size)] == data
        decreases remaining
      {
        if sectorIt == SECTOR {
          ChangesReach(x.start, size, k + 1, i);
          MayWrite(x, size, |d|, k + 1);
          cluster, csn, sector := NextSectorWriting(local, first, x, k, cluster, csn, sector);
          Reload(disk.sectors[..], sector);
          sectorIt := 0;
          k := k + 1;
        }
        PutHere(d, x, data, i, k, sectorIt);
        BufferStep(disk.sectors[..], local[..], Put(d, x, data, i), sector, sectorIt, data[i]);
        local[sectorIt] := buffer[bufferIt - offset];
        bufferIt := bufferIt + 1;
        sectorIt := sectorIt + 1;
        remaining := remaining - 1;
        i := i + 1;
      }
      ChangesAre(x.start, size, k, sectorIt);
      disk.Idewrite(local, sector);
      assert disk.sectors[..] == Put(d, x, data, Amount(size));
    }

    /** fat32.c:442-465: the sector goes to the disk, and the next one is read. */
    method NextSectorWriting(local: array<Byte>, first: int, ghost x: Span, ghost k: nat, cluster: int, csn: int,
            sector: int)
      returns (cluster': int, csn': int, sector': int)
      requires Ready() && SpanOk(x) && x.l == layout && x.s[0] == first && local.Length == SECTOR
      requires Pen(x, k) == Position(Volume(), Cursor(cluster, csn, sector))
               && OnDisk(Pen(x, k + 1).at, disk.sectors.Length)
      requires 0 <= sector < disk.sectors.Length
      modifies local, table, table.FAT, disk.sectors
      ensures Ready() && Pen(x, k + 1) == Position(Volume(), Cursor(cluster', csn', sector'))
      ensures disk.sectors[..] == old(disk.sectors[..])[sector := old(local[..])]
      ensures 0 <= sector' < disk.sectors.Length && local[..] == disk.sectors[sector']
    {
      hide Pen, SpanOk, VolumeOk;
      PenNext(x, k);
      disk.Idewrite(local, sector);
      cluster', csn', sector' := cluster, csn, sector;
      if csn < layout.spc {
        sector' := sector + 1;
        csn' := csn + 1;
      } else {
        cluster' := NextCluster(cluster, first);
        sector' := GetDiskSector(layout, cluster', 0);
      }
      disk.Ideread(local, sector');
    }

    /** fat32.c:455-461 */
    method NextCluster(cluster: int, first: int) returns (cluster': int)
      requires table.Valid() && Used(table.FAT[..], cluster) && Used(table.FAT[..], first)
      modifies table, table.FAT
      ensures table.Valid()
      ensures if Ends(old(table.FAT[cluster])) then Allocated(Volume(), cluster') == Allocate(old(Volume()), first)
              else Volume() == old(Volume()) && cluster' == old(table.FAT[cluster])
    {
      hide Allocate, WellFormed;
      cluster' := table.FAT[cluster];
      if cluster' > BAD {
        cluster' := table.AllocateCluster(first);
      }
    }
  }

  /** A byte written in the local buffer, seen on the disk. */
  lemma BufferStep(disk: seq<seq<Byte>>, local: seq<Byte>, put: seq<seq<Byte>>, n: int, o: int, b: Byte)
    requires 0 <= n < |disk| && disk[n := local] == put && 0 <= o < |local|
    ensures disk[n := local[o := b]] == put[n := put[n][o := b]]
  {
  }

  lemma Reload(disk: seq<seq<Byte>>, n: int)
    requires 0 <= n < |disk|
    ensures disk[n := disk[n]] == disk
  {
  }

  lemma ChangesReach(start: int, size: int, k: nat, i: nat)
    requires k == 0 || (k * SECTOR <= Into(start) + i && i < size)
    ensures k <= Changes(start, size)
  {
    hide Into;
  }

  lemma ChangesAre(start: int, size: int, k: nat, o: int)
    requires 0 <= o <= SECTOR && k * SECTOR + o == Into(start) + Amount(size)
    requires size <= 0 ==> k == 0
    requires size > 0 ==> o > 0
    ensures Changes(start, size) == k
  {
    hide Into;
  }

  lemma MayRead(x: Span, size: int, sectors: int, k: nat)
    requires SpanOk(x) && Readable(x, size, sectors) && k <= Changes(x.start, size)
    ensures Visit(x, k).Nowhere? || OnDisk(Visit(x, k), sectors)
  {
  }

  lemma MayWrite(x: Span, size: int, sectors: int, k: nat)
    requires SpanOk(x) && Writable(x, size, sectors) && k <= Changes(x.start, size)
    ensures OnDisk(Pen(x, k).at, sectors)
  {
  }
}
