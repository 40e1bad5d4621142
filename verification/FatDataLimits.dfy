/** Exactly which writes are read back, and exactly which writes stay inside their file.  These laws are about every
    transfer that starts in a file, however long, as long as the sectors it meets exist; it may follow the chain and
    allocate. */
module FatDataLimits {
  import opened FatChains
  import opened FatData
  import opened FatDataLaws

  // ---- where writeFile goes behind the cluster in which it starts ----

  /** The chain of the file after k changes of sector. */
  ghost function ChainAt(x: Span, k: nat): (s: seq<int>)
    requires SpanOk(x)
    ensures IsChain(Pen(x, k).v.fat, s) && s[0] == x.s[0]
  {
    ChainOf(Pen(x, k).v.fat, x.s[0])
  }

  lemma ChainNext(x: Span, k: nat)
    requires SpanOk(x)
    ensures ChainAt(x, 0) == x.s && ChainAt(x, k) <= ChainAt(x, k + 1)
  {
    hide Pen, VolumeOk, Allocate, OnTrack, WellFormed, IsChain;
    PenNext(x, k);
    ChainUnique(x.v.fat, ChainAt(x, 0), x.s);
    Grow(Pen(x, k).v, x.s[0]);
  }

  /** The chain only grows at its end. */
  lemma {:induction false} ChainGrows(x: Span, k: nat, n: nat)
    requires SpanOk(x) && k <= n
    ensures x.s <= ChainAt(x, k) <= ChainAt(x, n)
    decreases n
  {
    hide ChainAt, SpanOk, Pen, IsChain, PositionOk;
    if k < n {
      ChainGrows(x, k, n - 1);
      ChainNext(x, n - 1);
      Prefixes(ChainAt(x, k), ChainAt(x, n - 1), ChainAt(x, n));
    } else if n > 0 {
      ChainGrows(x, n - 1, n - 1);
      ChainNext(x, n - 1);
      Prefixes(x.s, ChainAt(x, n - 1), ChainAt(x, n));
    } else {
      ChainNext(x, 0);
    }
  }

  lemma Prefixes(a: seq<int>, b: seq<int>, c: seq<int>)
    requires a <= b <= c
    ensures a <= c
  {
  }

  /** How many clusters further on writeFile is after k changes of sector. */
  ghost function Further(x: Span, k: int): int
    requires 0 < x.l.spc
  {
    Offset(x) + k - x.l.spc
  }

  /** The counter stands at the number of sectors, so every further change of sector leads to the first sector of the
      next cluster of the chain, which may have to be allocated. */
  lemma {:induction false} PenBehind(x: Span, k: nat)
    requires SpanOk(x) && Further(x, k) > 0 && Pen(x, k).at.Cursor?
    ensures var i, t := Place(x) + Further(x, k), ChainAt(x, k);
            0 < i < |t| && Pen(x, k).at == Cursor(t[i], x.l.spc, GetDiskSector(x.l, t[i], 0))
    decreases k
  {
    hide Pen, VolumeOk, Allocate, OnTrack, WellFormed, IsChain, ChainAt, AdvanceWriting;
    PenNext(x, k - 1);
    if Further(x, k) == 1 {
      PenNear(x, k - 1);
      ChainSame(x, k - 1);
      Follow(x, k - 1, Place(x));
    } else {
      Stays(x, k - 1);
      PenBehind(x, k - 1);
      Follow(x, k - 1, Place(x) + Further(x, k - 1));
    }
  }

  lemma Stays(x: Span, k: nat)
    requires SpanOk(x) && Pen(x, k + 1).at.Cursor?
    ensures Pen(x, k).at.Cursor?
  {
    hide Allocate, SpanOk;
    PenNext(x, k);
  }

  lemma ChainSame(x: Span, k: nat)
    requires SpanOk(x) && Pen(x, k).v == x.v
    ensures ChainAt(x, k) == x.s
  {
    hide Pen, VolumeOk, IsChain;
    ChainUnique(x.v.fat, ChainAt(x, k), x.s);
  }

  lemma Follow(x: Span, k: nat, i: nat)
    requires SpanOk(x) && i < |ChainAt(x, k)| && Pen(x, k + 1).at.Cursor?
    requires Pen(x, k).at.Cursor? && Pen(x, k).at.cluster == ChainAt(x, k)[i] && Pen(x, k).at.counter == x.l.spc
    ensures var t := ChainAt(x, k + 1);
            i + 1 < |t| && Pen(x, k + 1).at == Cursor(t[i + 1], x.l.spc, GetDiskSector(x.l, t[i + 1], 0))
  {
    hide Pen, Allocate, OnTrack, WellFormed, ChainAt, IsChain;
    var p, t := Pen(x, k), ChainAt(x, k);
    PenNext(x, k);
    ChainNext(x, k);
    if i < |t| - 1 {
      Link(p.v.fat, t, i);
    } else {
      AtEnd(p.v.fat, t);
      Allocates(p.v, x.s[0]);
      ChainOfIs(x, k);
      ChainOfIs(x, k + 1);
      ChainUnique(Pen(x, k + 1).v.fat, ChainAt(x, k + 1), t + [Allocate(p.v, x.s[0]).cluster]);
    }
  }

  lemma ChainOfIs(x: Span, k: nat)
    requires SpanOk(x)
    ensures ChainAt(x, k) == ChainOf(Pen(x, k).v.fat, x.s[0])
  {
    hide Pen, OnTrack, WellFormed, IsChain;
  }

  lemma Link(fat: seq<int>, s: seq<int>, i: nat)
    requires IsChain(fat, s) && i < |s| - 1
    ensures IsCluster(s[i]) && IsCluster(s[i + 1]) && fat[s[i]] == s[i + 1] && !Ends(s[i + 1])
  {
  }

  lemma AtEnd(fat: seq<int>, s: seq<int>)
    requires IsChain(fat, s)
    ensures IsCluster(s[|s| - 1]) && Ends(fat[s[|s| - 1]])
  {
  }

  /** The sector written after k changes, in terms of the chain after n of them. */
  lemma PenSector(x: Span, k: nat, n: nat)
    requires SpanOk(x) && k <= n && Pen(x, k).at.Cursor?
    ensures var m, t := Further(x, k), ChainAt(x, n);
            && Place(x) < |x.s| <= |t| && t[Place(x)] == x.s[Place(x)]
            && (m <= 0 ==> Pen(x, k).at.sector == GetDiskSector(x.l, t[Place(x)], Offset(x) + k))
            && (m > 0 ==> Place(x) + m < |t| && Pen(x, k).at.sector == GetDiskSector(x.l, t[Place(x) + m], 0))
  {
    hide Pen, VolumeOk, IsChain, ChainAt;
    ChainGrows(x, k, n);
    if Further(x, k) > 0 {
      PenBehind(x, k);
    } else {
      PenNear(x, k);
    }
  }

  // ---- the same in closed form ----

  /** The clusters of t behind s are the lowest free clusters of v from its hint up to that of w, in rising order. */
  ghost predicate Handed(v: Volume, s: seq<int>, w: Volume, t: seq<int>) {
    && |v.fat| == FAT_SIZE && |s| <= |t|
    && (forall i :: |s| <= i < |t| ==> IsCluster(t[i]) && From(v.hint) <= t[i] < From(w.hint) && v.fat[t[i]] == 0)
    && (forall i, j :: |s| <= i < j < |t| ==> t[i] < t[j])
    && (forall c :: IsCluster(c) && From(v.hint) <= c < From(w.hint) && v.fat[c] == 0 ==> c in t[|s|..])
  }

  /** Outside t only the old entries are in the table. */
  ghost predicate OldEntries(v: Volume, s: seq<int>, w: Volume, t: seq<int>) {
    && |v.fat| == |w.fat| == FAT_SIZE && 0 < |s| <= |t|
    && (forall c :: 0 <= c < FAT_SIZE && c !in t[|s| - 1..] ==> w.fat[c] == v.fat[c])
  }

  /** Volume w is v with the chain s prolonged to t: by the lowest free clusters from the hint on, in rising order; no
      entry changes but that of the former end and those of the new clusters. */
  ghost predicate Prolonged(v: Volume, s: seq<int>, w: Volume, t: seq<int>) {
    && s != [] && s <= t && IsChain(w.fat, t) && Handed(v, s, w, t) && OldEntries(v, s, w, t)
    && (if |t| == |s| then w == v else w.fat[Last(t)] == EOC && w.hint == Last(t) + 1)
  }

  lemma ProlongedNone(v: Volume, s: seq<int>)
    requires IsChain(v.fat, s)
    ensures Prolonged(v, s, v, s)
  {
    assert s[..|s|] == s;
  }

  lemma HandedNext(v: Volume, s: seq<int>, w: Volume, t: seq<int>, c: int, w': Volume)
    requires IsChain(v.fat, s) && Handed(v, s, w, t) && OldEntries(v, s, w, t) && (|t| == |s| ==> w == v)
    requires IsCluster(c) && From(w.hint) <= c && w.fat[c] == 0 && w'.hint == c + 1 && IsChain(w.fat, t)
    requires s != [] && s <= t && (|t| > |s| ==> w.hint == Last(t) + 1) && HintOk(w.hint)
    requires forall d :: From(w.hint) <= d < c ==> w.fat[d] != 0
    ensures Handed(v, s, w', t + [c])
  {
    hide IsChain;
    var t' := t + [c];
    assert t'[|s|..] == t[|s|..] + [c];
    HintGrows(v, s, w, t);
    WasFree(v, s, w, t, c);
    PrefixLast(s, t);
    forall d | IsCluster(d) && From(v.hint) <= d < From(w'.hint) && v.fat[d] == 0 ensures d in t'[|s|..] {
      if d >= From(w.hint) && d != c && d !in t[|s|..] {
        NotTaken(v, s, w, t, d);
      }
    }
  }

  lemma HintGrows(v: Volume, s: seq<int>, w: Volume, t: seq<int>)
    requires Handed(v, s, w, t) && (|t| == |s| ==> w == v) && (|t| > |s| ==> w.hint == Last(t) + 1)
    ensures From(v.hint) <= From(w.hint) && forall i :: |s| <= i < |t| ==> t[i] < From(w.hint)
  {
  }

  /** A free cluster of v that was not handed out is still free. */
  lemma NotTaken(v: Volume, s: seq<int>, w: Volume, t: seq<int>, d: int)
    requires OldEntries(v, s, w, t) && IsChain(v.fat, s) && IsCluster(d) && v.fat[d] == 0 && d !in t[|s|..]
    requires Last(s) == t[|s| - 1]
    ensures w.fat[d] == 0
  {
  }

  lemma PrefixLast(s: seq<int>, t: seq<int>)
    requires s != [] && s <= t
    ensures Last(s) == t[|s| - 1]
  {
  }

  lemma WasFree(v: Volume, s: seq<int>, w: Volume, t: seq<int>, c: int)
    requires OldEntries(v, s, w, t) && IsChain(w.fat, t) && IsCluster(c) && w.fat[c] == 0
    ensures v.fat[c] == 0
  {
    if c in t {
      var i :| 0 <= i < |t| && t[i] == c;
      UsedAt(w.fat, t, i);
    }
  }

  lemma ProlongedNext(v: Volume, s: seq<int>, w: Volume, t: seq<int>, start: int)
    requires IsChain(v.fat, s) && Prolonged(v, s, w, t) && VolumeOk(w) && Used(w.fat, start)
    requires t == ChainOf(w.fat, start) && Allocate(w, start).cluster != EOC
    ensures Prolonged(v, s, Allocate(w, start).v, t + [Allocate(w, start).cluster])
  {
    hide WellFormed, Allocate, ChainOf, IsChain, Handed, OldEntries;
    Allocates(w, start);
    var c, w' := Allocate(w, start).cluster, Allocate(w, start).v;
    TableSize(w'.fat);
    HandedNext(v, s, w, t, c, w');
    OldEntriesNext(v, s, w, t, c, w');
  }

  lemma OldEntriesNext(v: Volume, s: seq<int>, w: Volume, t: seq<int>, c: int, w': Volume)
    requires OldEntries(v, s, w, t) && |w'.fat| == FAT_SIZE
    requires forall d :: 0 <= d < FAT_SIZE && d != c ==> d == Last(t) || w'.fat[d] == w.fat[d]
    ensures OldEntries(v, s, w', t + [c])
  {
    assert (t + [c])[|s| - 1..] == t[|s| - 1..] + [c];
    assert Last(t) == t[|s| - 1..][|t| - |s|];
  }

  /** Where writeFile is after k changes of sector, and what it has made of the table.  Up to the sector behind its
      first cluster it counts on; from then on it is at the first sector of one cluster after the other, and it has
      allocated as many as it needed; if it is nowhere, no free cluster is left from the hint on. */
  lemma {:induction false} PenClosed(x: Span, k: nat)
    requires SpanOk(x)
    ensures var m, j, t, p := Further(x, k), Place(x), ChainAt(x, k), Pen(x, k);
            && Prolonged(x.v, x.s, p.v, t) && 0 <= j < |x.s|
            && (m <= 0 ==> p.at.Cursor? && p.at.sector == GetDiskSector(x.l, x.s[j], Offset(x) + k))
            && (p.at.Cursor? && m > 0 ==> j + m < |t| && p.at.sector == GetDiskSector(x.l, t[j + m], 0))
            && (p.at.Cursor? ==> |t| == if j + m < |x.s| then |x.s| else j + m + 1)
            && (p.at.Nowhere? ==> |t| <= j + m && NoneFree(p.v))
  {
    hide Pen, VolumeOk, OnTrack, WellFormed, IsChain, ChainAt, Allocate, Prolonged, NoneFree;
    if Further(x, k) <= 0 {
      PenNear(x, k);
      ChainSame(x, k);
      ProlongedNone(x.v, x.s);
    } else {
      PenClosed(x, k - 1);
      PenStep(x, k - 1);
      if Pen(x, k).at.Cursor? {
        PenSector(x, k, k);
      }
    }
  }

  lemma TableSize(fat: seq<int>)
    requires WellFormed(fat)
    ensures |fat| == FAT_SIZE
  {
  }

  /** One change of sector behind the first cluster, as far as the table is concerned. */
  lemma PenStep(x: Span, k: nat)
    requires SpanOk(x) && Further(x, k) >= 0 && Prolonged(x.v, x.s, Pen(x, k).v, ChainAt(x, k))
    ensures Prolonged(x.v, x.s, Pen(x, k + 1).v, ChainAt(x, k + 1))
    ensures var p, r, t, u, i := Pen(x, k), Pen(x, k + 1), ChainAt(x, k), ChainAt(x, k + 1), Place(x) + Further(x, k);
            if p.at.Nowhere? then r == p && u == t
            else
              && i < |t|
              && (i < |t| - 1 ==> r.at.Cursor? && u == t)
              && (i == |t| - 1 && r.at.Cursor? ==> |u| == |t| + 1)
              && (i == |t| - 1 && r.at.Nowhere? ==> u == t && NoneFree(r.v))
  {
    hide Pen, OnTrack, WellFormed, IsChain, ChainAt, Allocate, Prolonged, NoneFree;
    PenNext(x, k);
    ChainOfIs(x, k);
    ChainOfIs(x, k + 1);
    var p, t, i := Pen(x, k), ChainAt(x, k), Place(x) + Further(x, k);
    if p.at.Cursor? {
      Standing(x, k);
      if i < |t| - 1 {
        Link(p.v.fat, t, i);
      } else {
        PenGrows(x, k);
      }
    }
  }

  ghost predicate NoneFree(v: Volume)
    requires |v.fat| == FAT_SIZE && HintOk(v.hint)
  {
    forall c :: From(v.hint) <= c < FAT_SIZE ==> v.fat[c] != 0
  }

  lemma PenGrows(x: Span, k: nat)
    requires SpanOk(x) && Prolonged(x.v, x.s, Pen(x, k).v, ChainAt(x, k)) && Pen(x, k).at.Cursor?
    requires Pen(x, k).at.counter == x.l.spc && Pen(x, k).at.cluster == Last(ChainAt(x, k))
    ensures var r, t, u := Pen(x, k + 1), ChainAt(x, k), ChainAt(x, k + 1);
            && Prolonged(x.v, x.s, r.v, u)
            && if r.at.Nowhere? then u == t && NoneFree(r.v) else |u| == |t| + 1
  {
    hide Pen, OnTrack, WellFormed, IsChain, ChainAt, Allocate, Prolonged;
    PenNext(x, k);
    ChainOfIs(x, k);
    ChainOfIs(x, k + 1);
    ChainGrows(x, k, k);
    var p, t := Pen(x, k), ChainAt(x, k);
    AtEnd(p.v.fat, t);
    Allocates(p.v, x.s[0]);
    if Allocate(p.v, x.s[0]).cluster != EOC {
      ProlongedNext(x.v, x.s, p.v, t, x.s[0]);
      ChainUnique(Pen(x, k + 1).v.fat, ChainAt(x, k + 1), t + [Allocate(p.v, x.s[0]).cluster]);
    }
  }

  /** Behind the first cluster the counter stands at the number of sectors. */
  lemma Standing(x: Span, k: nat)
    requires SpanOk(x) && Further(x, k) >= 0 && Pen(x, k).at.Cursor?
    ensures var i, t := Place(x) + Further(x, k), ChainAt(x, k);
            0 <= i < |t| && Pen(x, k).at.cluster == t[i] && Pen(x, k).at.counter == x.l.spc
  {
    hide Pen, VolumeOk, OnTrack, WellFormed, IsChain, ChainAt;
    if Further(x, k) == 0 {
      PenNear(x, k);
      ChainSame(x, k);
    } else {
      PenBehind(x, k);
    }
  }

  /** The file after the write. */
  ghost function After(x: Span, size: int): (x': Span)
    requires SpanOk(x)
  {
    Span(x.l, Pen(x, Changes(x.start, size)).v, ChainAt(x, Changes(x.start, size)), x.start)
  }

  lemma AfterOk(x: Span, size: int)
    requires SpanOk(x)
    ensures SpanOk(After(x, size)) && x.s <= After(x, size).s
    ensures After(x, size).l == x.l && After(x, size).start == x.start
    ensures Place(After(x, size)) == Place(x) < |x.s| && Offset(After(x, size)) == Offset(x)
  {
    hide Pen, VolumeOk, IsChain, ChainAt, OnTrack;
    var n := Changes(x.start, size);
    ChainGrows(x, n, n);
    assert IsChain(Pen(x, n).v.fat, ChainAt(x, n));
  }

  // ---- what is read back ----

  /** Reading the range after writing it gives the data. */
  ghost predicate Returns(disk: seq<seq<Byte>>, x: Span, data: seq<Byte>, was: seq<Byte>)
    requires SpanOk(x) && SpanOk(After(x, |data|)) && DiskShape(disk) && |was| == |data|
  {
    forall i :: 0 <= i < |data| ==> ReturnedAt(disk, x, data, was, i)
  }

  ghost predicate ReturnedAt(disk: seq<seq<Byte>>, x: Span, data: seq<Byte>, was: seq<Byte>, i: nat)
    requires SpanOk(x) && SpanOk(After(x, |data|)) && DiskShape(disk) && |was| == |data| && i < |data|
  {
    ReadByte(Written(disk, x, data), After(x, |data|), i, was[i]) == data[i]
  }

  /** The range ends at the latest in the first sector behind its cluster; or one sector further on, and the next
      cluster does not follow on the disk; or, with one sector to a cluster, two sectors further on, and the cluster
      after the next one follows the next one. */
  ghost predicate Recovered(x: Span, size: int)
    requires SpanOk(x)
  {
    var m, j, t := Further(x, Changes(x.start, size)), Place(x), After(x, size).s;
    || m <= 0
    || (m == 1 && j + 1 < |t| && t[j + 1] != t[j] + 1)
    || (m == 2 && j + 2 < |t| && x.l.spc == 1 && t[j + 1] != t[j] + 1 && t[j + 2] == t[j + 1] + 1)
  }

  lemma VisitSector(x: Span, k: nat)
    requires SpanOk(x)
    ensures var m, j, s, at := Further(x, k), Place(x), x.s, Visit(x, k);
            && 0 <= j < |s|
            && (m <= 0 ==> at.Cursor? && at.sector == GetDiskSector(x.l, s[j], Offset(x) + k))
            && (m == 1 && j + 1 < |s| ==> at == Cursor(s[j + 1], 0, GetDiskSector(x.l, s[j + 1], 0)))
            && (m == 2 && j + 1 < |s| ==> at == Cursor(s[j + 1], 1, GetDiskSector(x.l, s[j + 1], 1)))
            && (m == 3 && x.l.spc == 1 && j + 2 < |s| ==> at == Cursor(s[j + 2], 0, GetDiskSector(x.l, s[j + 2], 0)))
    decreases k
  {
    hide Visit, VolumeOk, OnTrack;
    var m, j := Further(x, k), Place(x);
    if m <= 0 {
      VisitNear(x, k);
    } else {
      VisitNext(x, k - 1);
      if m == 1 {
        VisitNear(x, k - 1);
      } else if m <= 3 {
        VisitSector(x, k - 1);
      }
      if j + 1 < |x.s| {
        Link(x.v.fat, x.s, j);
      }
      if j + 2 < |x.s| {
        Link(x.v.fat, x.s, j + 1);
      }
    }
  }

  /** As far as a recovered range goes, readFile follows writeFile. */
  lemma SameSector(x: Span, size: int, k: nat)
    requires SpanOk(x) && Recovered(x, size) && k <= Changes(x.start, size) && Pen(x, k).at.Cursor?
    ensures SpanOk(After(x, size))
    ensures Visit(After(x, size), k).Cursor? && Visit(After(x, size), k).sector == Pen(x, k).at.sector
  {
    hide Visit, Pen, VolumeOk, OnTrack, IsChain, ChainAt;
    AfterOk(x, size);
    PenSector(x, k, Changes(x.start, size));
    VisitSector(After(x, size), k);
    if Further(x, k) == 2 {
      var t, j := After(x, size).s, Place(x);
      SectorSpan(x.l, t[j + 1], t[j + 2]);
    }
  }

  /** There writeFile comes to no sector twice. */
  lemma SectorOnce(x: Span, size: int, k: nat, n: nat)
    requires SpanOk(x) && Recovered(x, size) && k < n <= Changes(x.start, size)
    requires Pen(x, k).at.Cursor? && Pen(x, n).at.Cursor?
    ensures Pen(x, k).at.sector != Pen(x, n).at.sector
  {
    hide Visit, Pen, VolumeOk, OnTrack, IsChain, ChainAt;
    AfterOk(x, size);
    PenSector(x, k, Changes(x.start, size));
    PenSector(x, n, Changes(x.start, size));
    var l, t, j := x.l, After(x, size).s, Place(x);
    if Further(x, n) > 0 {
      var d := j + Further(x, n);
      NotTwice(After(x, size), j, d);
      if Further(x, k) < 0 {
        SectorsDiffer(l, t[j], Offset(x) + k, t[d], 0);
      } else {
        if Further(x, n) == 2 {
          NotTwice(After(x, size), j, j + 1);
          NotTwice(After(x, size), j + 1, d);
          SectorsDiffer(l, t[j + 1], 0, t[d], 0);
        }
        SectorSpan(l, t[j], t[d]);
      }
    }
  }

  ghost predicate SamePlace(x: Span, i: nat, n: nat)
    requires SpanOk(x)
  {
    && PenAt(x, i).Cursor? && PenAt(x, n).Cursor?
    && PenAt(x, i).sector == PenAt(x, n).sector && OffsetAt(x, i) == OffsetAt(x, n)
  }

  /** A byte stays on the disk as long as writeFile does not come back to its place. */
  lemma {:induction false} PutKept(disk: seq<seq<Byte>>, x: Span, data: seq<Byte>, i: nat, n: nat)
    requires SpanOk(x) && DiskShape(disk) && i < n <= |data| && OnDisk(PenAt(x, i), |disk|)
    requires forall m: nat :: i < m < n ==> !SamePlace(x, i, m)
    ensures Put(disk, x, data, n)[PenAt(x, i).sector][OffsetAt(x, i)] == data[i]
    decreases n
  {
    hide Put, SpanOk, PenAt, OffsetAt, PositionOk;
    PutNext(disk, x, data, n - 1);
    if i < n - 1 {
      PutKept(disk, x, data, i, n - 1);
      assert !SamePlace(x, i, n - 1);
    }
  }

  /** A place to which writeFile never comes keeps its byte. */
  lemma {:induction false} PutSpared(disk: seq<seq<Byte>>, x: Span, data: seq<Byte>, i: nat, n: int, o: int)
    requires SpanOk(x) && DiskShape(disk) && i <= |data| && 0 <= n < |disk| && 0 <= o < SECTOR
    requires forall m: nat :: m < i ==> !AtPlace(x, m, n, o)
    ensures Put(disk, x, data, i)[n][o] == disk[n][o]
  {
    hide Put, SpanOk, PenAt, OffsetAt, PositionOk;
    if i == 0 {
      PutNone(disk, x, data);
    } else {
      PutSpared(disk, x, data, i - 1, n, o);
      PutNext(disk, x, data, i - 1);
      assert !AtPlace(x, i - 1, n, o);
    }
  }

  ghost predicate AtPlace(x: Span, i: nat, n: int, o: int)
    requires SpanOk(x)
  {
    PenAt(x, i).Cursor? && PenAt(x, i).sector == n && OffsetAt(x, i) == o
  }

  /** The disk after writeFile, byte by byte: what was written last to the place, or what was there. */
  lemma WrittenByte(disk: seq<seq<Byte>>, x: Span, data: seq<Byte>, i: int, n: int, o: int)
    requires SpanOk(x) && DiskShape(disk) && 0 <= n < |disk| && 0 <= o < SECTOR && -1 <= i < |data|
    requires i >= 0 ==> AtPlace(x, i, n, o)
    requires forall m: nat :: i < m < |data| ==> !AtPlace(x, m, n, o)
    ensures Written(disk, x, data)[n][o] == if i >= 0 then data[i] else disk[n][o]
  {
    hide Put, SpanOk, PenAt, OffsetAt, PositionOk;
    if i >= 0 {
      forall m: nat | i < m < |data| ensures !SamePlace(x, i, m) {
        assert !AtPlace(x, m, n, o);
      }
      PutKept(disk, x, data, i, |data|);
    } else {
      PutSpared(disk, x, data, |data|, n, o);
    }
  }

  lemma PlaceOnce(x: Span, size: int, i: nat, n: nat)
    requires SpanOk(x) && Recovered(x, size) && i < n < size
    ensures !SamePlace(x, i, n)
  {
    hide Pen, VolumeOk, OnTrack, IsChain, Recovered;
    var k, m := (Into(x.start) + i) / SECTOR, (Into(x.start) + n) / SECTOR;
    if k < m && PenAt(x, i).Cursor? && PenAt(x, n).Cursor? {
      SectorOnce(x, size, k, m);
    }
  }

  lemma RecoveredReturns(disk: seq<seq<Byte>>, x: Span, data: seq<Byte>, was: seq<Byte>, i: nat)
    requires SpanOk(x) && DiskShape(disk) && |was| == |data| && i < |data|
    requires Recovered(x, |data|) && Writable(x, |data|, |disk|)
    ensures SpanOk(After(x, |data|)) && ReturnedAt(disk, x, data, was, i)
  {
    hide Pen, Visit, VolumeOk, OnTrack, IsChain, ChainAt, Recovered, PositionOk, Put;
    var k := (Into(x.start) + i) / SECTOR;
    assert OnDisk(Pen(x, k).at, |disk|);
    SameSector(x, |data|, k);
    forall m: nat | i < m < |data| ensures !SamePlace(x, i, m) {
      PlaceOnce(x, |data|, i, m);
    }
    PutKept(disk, x, data, i, |data|);
  }

  /** The byte of the transfer that starts the sector after k changes. */
  lemma ByteAt(x: Span, size: int, k: nat) returns (i: nat)
    requires size > 0 && 1 <= k <= Changes(x.start, size)
    ensures i < size && k * SECTOR == Into(x.start) + i
  {
    i := k * SECTOR - Into(x.start);
  }

  /** The reader comes twice to a place where the writer was twice. */
  lemma TwiceFails(x: Span, size: int, sectors: int, k: nat)
    requires SpanOk(x) && SpanOk(After(x, size)) && 0 <= sectors && size > 0 && 1 <= k < Changes(x.start, size)
    requires var x' := After(x, size); Visit(x', k).Cursor? && Visit(x', k + 1).Cursor?
    requires Visit(After(x, size), k).sector == Visit(After(x, size), k + 1).sector
    ensures exists disk: seq<seq<Byte>>, data: seq<Byte>, was: seq<Byte> ::
              |disk| == sectors && DiskShape(disk) && |data| == |was| == size && !Returns(disk, x, data, was)
  {
    hide Visit, Pen, After, SpanOk, Put, PositionOk, OnTrack, Changes;
    var i := ByteAt(x, size, k);
    var n := ByteAt(x, size, k + 1);
    var disk, data, was := Marked(sectors, sectors), Fill(size, 0, n, 1), Fill(size, 0, 0, 0);
    AfterOk(x, size);
    SectorOf(Into(x.start) + i, k, 0);
    SectorOf(Into(x.start) + n, k + 1, 0);
    assert !ReturnedAt(disk, x, data, was, i) || !ReturnedAt(disk, x, data, was, n);
  }

  /** The reader is at a place where the writer did not put that byte. */
  lemma ElsewhereFails(x: Span, size: int, sectors: int, k: nat)
    requires SpanOk(x) && SpanOk(After(x, size)) && 0 <= sectors && size > 0 && 1 <= k <= Changes(x.start, size)
    requires Visit(After(x, size), k).Cursor? && Pen(x, k).at.Cursor?
    requires Visit(After(x, size), k).sector != Pen(x, k).at.sector
    ensures exists disk: seq<seq<Byte>>, data: seq<Byte>, was: seq<Byte> ::
              |disk| == sectors && DiskShape(disk) && |data| == |was| == size && !Returns(disk, x, data, was)
  {
    hide Visit, Pen, After, SpanOk, Put, PositionOk, OnTrack, Changes, PenAt, OffsetAt;
    var i := ByteAt(x, size, k);
    var disk, data, was := Marked(sectors, sectors), Fill(size, 0, i, 1), Fill(size, 0, 0, 0);
    AfterOk(x, size);
    SectorOf(Into(x.start) + i, k, 0);
    PenHere(x, i, k, 0);
    var n := Visit(After(x, size), k).sector;
    if 0 <= n < sectors {
      PutMark(disk, x, data, size, i, n, 0);
    }
    assert !ReturnedAt(disk, x, data, was, i);
  }

  lemma NotRecovered(x: Span, size: int, sectors: int)
    requires SpanOk(x) && size > 0 && 0 <= sectors && Writable(x, size, sectors) && !Recovered(x, size)
    requires SpanOk(After(x, size))
    ensures exists disk: seq<seq<Byte>>, data: seq<Byte>, was: seq<Byte> ::
              |disk| == sectors && DiskShape(disk) && |data| == |was| == size && !Returns(disk, x, data, was)
  {
    hide Visit, Pen, VolumeOk, OnTrack, IsChain, ChainAt, PositionOk, Returns;
    var x', n, k, j := After(x, size), Changes(x.start, size), x.l.spc - Offset(x), Place(x);
    AfterOk(x, size);
    PenSector(x, k + 1, n);
    VisitSector(x', k);
    VisitSector(x', k + 1);
    SectorSpan(x.l, x'.s[j], x'.s[j + 1]);
    if x'.s[j + 1] == x'.s[j] + 1 {
      TwiceFails(x, size, sectors, k);
    } else {
      PenSector(x, k + 2, n);
      VisitSector(x', k + 2);
      SectorSpan(x.l, x'.s[j + 1], x'.s[j + 2]);
      if x.l.spc > 1 {
        SectorsDiffer(x.l, x'.s[j + 1], 1, x'.s[j + 2], 0);
        ElsewhereFails(x, size, sectors, k + 2);
      } else if x'.s[j + 2] != x'.s[j + 1] + 1 {
        ElsewhereFails(x, size, sectors, k + 2);
      } else {
        PenSector(x, k + 3, n);
        VisitSector(x', k + 3);
        NotTwice(x', j + 2, j + 3);
        SectorsDiffer(x.l, x'.s[j + 2], 0, x'.s[j + 3], 0);
        ElsewhereFails(x, size, sectors, k + 3);
      }
    }
  }

  /** writeFile then readFile with the table as it then is gives back the data, for every disk and all data, exactly
      for the ranges described by Recovered. */
  lemma RoundTripIff(x: Span, size: int, sectors: int)
    requires SpanOk(x) && size > 0 && 0 <= sectors && Writable(x, size, sectors)
    ensures SpanOk(After(x, size))
    ensures (forall disk: seq<seq<Byte>>, data: seq<Byte>, was: seq<Byte> ::
               |disk| == sectors && DiskShape(disk) && |data| == |was| == size ==> Returns(disk, x, data, was))
            <==> Recovered(x, size)
  {
    hide VolumeOk, Recovered, DiskShape, Pen, Visit, Writable, ReturnedAt, OnTrack, PositionOk, After;
    AfterOk(x, size);
    if Recovered(x, size) {
      forall disk: seq<seq<Byte>>, data: seq<Byte>, was: seq<Byte>
        | |disk| == sectors && DiskShape(disk) && |data| == |was| == size
        ensures Returns(disk, x, data, was)
      {
        forall i: nat | i < size ensures ReturnedAt(disk, x, data, was, i) {
          RecoveredReturns(disk, x, data, was, i);
        }
      }
    } else {
      NotRecovered(x, size, sectors);
    }
  }

  /** A volume with one file, which has the clusters 2 and 4. */
  ghost function GapVolume(): (v: Volume)
    ensures VolumeOk(v) && IsChain(v.fat, [2, 4])
  {
    var fat := seq(FAT_SIZE, c => if c == 2 then 4 else if c == 4 then EOC else 0);
    assert Ranked(fat, seq(FAT_SIZE, c => if c == 2 then 1 else 0));
    Volume(fat, NO_HINT)
  }

  /** A file with the clusters 2 and 4 on the disk of diskStartup.sh: 513 bytes from the last sector of its first
      cluster on are not placed, so neither call treats them as bytes of the file, and yet they come back. */
  lemma Astray()
    ensures var x := Span(Layout(8, 32, 1, 16), GapVolume(), [2, 4], 3584);
            && SpanOk(x) && Range(x, 513) && Stored(x.l, x.s, 10000) && Writable(x, 513, 10000)
            && !Placed(x, 513) && Recovered(x, 513)
  {
    hide VolumeOk, IsChain, Pen, OnTrack, PositionOk, ChainAt, GapVolume;
    var x := Span(Layout(8, 32, 1, 16), GapVolume(), [2, 4], 3584);
    assert Offset(x) == 7 && Place(x) == 0 && Changes(3584, 513) == 1;
    PenNear(x, 0);
    PenNear(x, 1);
  }

  // ---- what else is written ----

  /** Sector n belongs to a cluster of s. */
  ghost predicate Owns(l: Layout, s: seq<int>, n: int) {
    exists i, o :: 0 <= i < |s| && 0 <= o < l.spc && n == GetDiskSector(l, s[i], o)
  }

  /** The transfer reaches the sector behind its cluster. */
  ghost predicate Reaches(x: Span, size: int)
    requires 0 < x.l.spc
  {
    Further(x, Changes(x.start, size)) >= 0
  }

  /** The sector behind the cluster. */
  ghost function Spill(x: Span): int
    requires InFile(x.l, x.s, x.start)
  {
    GetDiskSector(x.l, x.s[Place(x)], x.l.spc)
  }

  /** writeFile writes no sector but those that it comes to. */
  lemma {:induction false} PutMissed(disk: seq<seq<Byte>>, x: Span, data: seq<Byte>, i: nat, n: int)
    requires SpanOk(x) && DiskShape(disk) && i <= |data| && 0 <= n < |disk|
    requires forall k: nat :: k <= Changes(x.start, |data|) ==> Pen(x, k).at.Nowhere? || Pen(x, k).at.sector != n
    ensures Put(disk, x, data, i)[n] == disk[n]
  {
    hide Put, SpanOk, Pen, PositionOk;
    if i == 0 {
      PutNone(disk, x, data);
    } else {
      PutMissed(disk, x, data, i - 1, n);
      PutNext(disk, x, data, i - 1);
      var k := (Into(x.start) + i - 1) / SECTOR;
      assert 0 <= k <= Changes(x.start, |data|);
      assert PenAt(x, i - 1) == Pen(x, k).at;
    }
  }

  lemma PenOwned(x: Span, size: int, k: nat)
    requires SpanOk(x) && k <= Changes(x.start, size) && Pen(x, k).at.Cursor?
    ensures Owns(x.l, After(x, size).s, Pen(x, k).at.sector) || (Reaches(x, size) && Pen(x, k).at.sector == Spill(x))
  {
    hide Pen, VolumeOk, OnTrack, IsChain, ChainAt;
    PenSector(x, k, Changes(x.start, size));
    var t, m, j := After(x, size).s, Further(x, k), Place(x);
    if m > 0 {
      assert Pen(x, k).at.sector == GetDiskSector(x.l, t[j + m], 0);
    } else {
      assert Pen(x, k).at.sector == GetDiskSector(x.l, t[j], Offset(x) + k);
    }
  }

  /** Once a 1 is written, data of ones leave it. */
  lemma {:induction false} OnesStay(disk: seq<seq<Byte>>, x: Span, data: seq<Byte>, i: nat, n: nat)
    requires SpanOk(x) && DiskShape(disk) && i < n <= |data| && OnDisk(PenAt(x, i), |disk|)
    requires forall m :: 0 <= m < |data| ==> data[m] == 1
    ensures Put(disk, x, data, n)[PenAt(x, i).sector][OffsetAt(x, i)] == 1
    decreases n
  {
    hide Put, SpanOk, PenAt, OffsetAt, PositionOk;
    PutNext(disk, x, data, n - 1);
    if i < n - 1 {
      OnesStay(disk, x, data, i, n - 1);
    }
  }

  /** A transfer that reaches the sector behind its cluster changes it on some disk. */
  lemma Spills(x: Span, size: int, sectors: int) returns (disk: seq<seq<Byte>>, data: seq<Byte>)
    requires SpanOk(x) && size > 0 && 0 <= sectors && Writable(x, size, sectors) && Reaches(x, size)
    ensures |disk| == sectors && DiskShape(disk) && |data| == size && 0 <= Spill(x) < sectors
    ensures Written(disk, x, data)[Spill(x)] != disk[Spill(x)]
  {
    hide Pen, VolumeOk, OnTrack, IsChain, PositionOk, Put;
    var k := x.l.spc - Offset(x);
    var i := ByteAt(x, size, k);
    disk, data := Marked(sectors, sectors), Fill(size, 1, 0, 1);
    PenNear(x, k);
    assert OnDisk(Pen(x, k).at, sectors);
    PenHere(x, i, k, 0);
    OnesStay(disk, x, data, i, size);
    assert Written(disk, x, data)[Spill(x)][0] == 1;
  }

  ghost predicate OutsideKept(disk: seq<seq<Byte>>, x: Span, data: seq<Byte>)
    requires SpanOk(x) && DiskShape(disk)
  {
    forall n :: 0 <= n < |disk| && !Owns(x.l, After(x, |data|).s, n) ==> Written(disk, x, data)[n] == disk[n]
  }

  /** A write changes no sector outside the file, as it is afterwards, exactly if it does not reach the sector behind
      the cluster where it starts, or the cluster that follows on the disk is in the file. */
  lemma WriteOutsideIff(x: Span, size: int, sectors: int)
    requires SpanOk(x) && size > 0 && 0 <= sectors && Writable(x, size, sectors)
    ensures (forall disk: seq<seq<Byte>>, data: seq<Byte> ::
               |disk| == sectors && DiskShape(disk) && |data| == size ==> OutsideKept(disk, x, data))
            <==> !Reaches(x, size) || x.s[Place(x)] + 1 in After(x, size).s
  {
    hide Pen, VolumeOk, OnTrack, IsChain, PositionOk, Put, ChainAt, Writable, DiskShape, Reaches, Owns, After;
    if !Reaches(x, size) || x.s[Place(x)] + 1 in After(x, size).s {
      SpillOwned(x, size);
      forall disk: seq<seq<Byte>>, data: seq<Byte> | |disk| == sectors && DiskShape(disk) && |data| == size
        ensures OutsideKept(disk, x, data)
      {
        forall n | 0 <= n < |disk| && !Owns(x.l, After(x, size).s, n) ensures Written(disk, x, data)[n] == disk[n] {
          Untouched(disk, x, data, n);
        }
      }
    } else {
      var disk, data := Spills(x, size, sectors);
      SpillOwned(x, size);
      assert !OutsideKept(disk, x, data);
    }
  }

  lemma Untouched(disk: seq<seq<Byte>>, x: Span, data: seq<Byte>, n: int)
    requires SpanOk(x) && DiskShape(disk) && 0 <= n < |disk| && !Owns(x.l, After(x, |data|).s, n)
    requires Reaches(x, |data|) ==> n != Spill(x)
    ensures Written(disk, x, data)[n] == disk[n]
  {
    hide Pen, VolumeOk, OnTrack, IsChain, PositionOk, Put, ChainAt, Owns, After, Reaches, Spill, DiskShape;
    forall k: nat | k <= Changes(x.start, |data|) ensures Pen(x, k).at.Nowhere? || Pen(x, k).at.sector != n {
      if Pen(x, k).at.Cursor? {
        PenOwned(x, |data|, k);
      }
    }
    PutMissed(disk, x, data, |data|, n);
  }

  lemma SpillOwned(x: Span, size: int)
    requires SpanOk(x)
    ensures Owns(x.l, After(x, size).s, Spill(x)) <==> x.s[Place(x)] + 1 in After(x, size).s
  {
    hide Pen, VolumeOk, OnTrack, IsChain, PositionOk, ChainAt;
    var l, c, t := x.l, x.s[Place(x)], After(x, size).s;
    SectorSpan(l, c, c + 1);
    if c + 1 in t {
      var i :| 0 <= i < |t| && t[i] == c + 1;
      assert Spill(x) == GetDiskSector(l, t[i], 0);
    } else if i, o :| 0 <= i < |t| && 0 <= o < l.spc && Spill(x) == GetDiskSector(l, t[i], o) {
      SectorsDiffer(l, c + 1, 0, t[i], o);
    }
  }

  // ---- whose data are safe ----

  /** Cluster d is in use, but not by this file. */
  ghost predicate Foreign(x: Span, d: int)
    requires SpanOk(x)
  {
    IsCluster(d) && x.v.fat[d] != 0 && d !in x.s
  }

  ghost predicate ForeignKept(disk: seq<seq<Byte>>, x: Span, data: seq<Byte>)
    requires SpanOk(x) && DiskShape(disk)
  {
    forall d, o :: Foreign(x, d) && 0 <= o < x.l.spc && 0 <= GetDiskSector(x.l, d, o) < |disk| ==>
      Written(disk, x, data)[GetDiskSector(x.l, d, o)] == disk[GetDiskSector(x.l, d, o)]
  }

  /** Allocation takes free clusters only. */
  lemma {:induction false} StillFree(x: Span, k: nat, c: int)
    requires SpanOk(x) && IsCluster(c) && Pen(x, k).v.fat[c] == 0
    ensures x.v.fat[c] == 0
  {
    hide Pen, VolumeOk, OnTrack, IsChain, WellFormed, Allocate;
    if k == 0 {
      PenNext(x, 0);
    } else {
      PenNext(x, k - 1);
      if Pen(x, k).v != Pen(x, k - 1).v {
        FreeBefore(Pen(x, k - 1).v, x.s[0], c);
      }
      StillFree(x, k - 1, c);
    }
  }

  lemma FreeBefore(v: Volume, start: int, c: int)
    requires VolumeOk(v) && Used(v.fat, start) && IsCluster(c) && Allocate(v, start).v.fat[c] == 0
    ensures v.fat[c] == 0
  {
    hide WellFormed;
  }

  /** The clusters of the file after the write were its own or free. */
  lemma {:induction false} OwnOrFree(x: Span, k: nat, c: int)
    requires SpanOk(x) && c in ChainAt(x, k)
    ensures IsCluster(c) && !Foreign(x, c)
  {
    hide Pen, VolumeOk, OnTrack, WellFormed, Allocate, PositionOk;
    if k == 0 {
      ChainNext(x, 0);
    } else if c in ChainAt(x, k - 1) {
      OwnOrFree(x, k - 1, c);
    } else {
      NewCluster(x, k - 1, c);
      StillFree(x, k - 1, c);
    }
  }

  lemma NewCluster(x: Span, k: nat, c: int)
    requires SpanOk(x) && c in ChainAt(x, k + 1) && c !in ChainAt(x, k)
    ensures IsCluster(c) && Pen(x, k).v.fat[c] == 0
  {
    hide Pen, OnTrack, WellFormed, Allocate, IsChain, ChainAt;
    var p := Pen(x, k);
    PenNext(x, k);
    ChainGrows(x, k, k);
    ChainOfIs(x, k);
    ChainOfIs(x, k + 1);
    if p.v != Pen(x, k + 1).v {
      Allocates(p.v, x.s[0]);
      ChainUnique(Pen(x, k + 1).v.fat, ChainAt(x, k + 1), ChainAt(x, k) + [Allocate(p.v, x.s[0]).cluster]);
    }
  }

  /** A write changes no byte of a cluster that another file has, or that is marked, exactly if it does not reach the
      sector behind the cluster where it starts, or the cluster that follows on the disk is no such cluster. */
  lemma WriteForeignIff(x: Span, size: int, sectors: int)
    requires SpanOk(x) && size > 0 && 0 <= sectors && Writable(x, size, sectors)
    ensures (forall disk: seq<seq<Byte>>, data: seq<Byte> ::
               |disk| == sectors && DiskShape(disk) && |data| == size ==> ForeignKept(disk, x, data))
            <==> !Reaches(x, size) || !Foreign(x, x.s[Place(x)] + 1)
  {
    hide Pen, VolumeOk, OnTrack, IsChain, PositionOk, Put, ChainAt, Writable, DiskShape, Reaches, Owns, After, Foreign;
    var c := x.s[Place(x)];
    SectorSpan(x.l, c, c + 1);
    if !Reaches(x, size) || !Foreign(x, c + 1) {
      forall disk: seq<seq<Byte>>, data: seq<Byte> | |disk| == sectors && DiskShape(disk) && |data| == size
        ensures ForeignKept(disk, x, data)
      {
        forall d, o | Foreign(x, d) && 0 <= o < x.l.spc && 0 <= GetDiskSector(x.l, d, o) < |disk|
          ensures Written(disk, x, data)[GetDiskSector(x.l, d, o)] == disk[GetDiskSector(x.l, d, o)]
        {
          NotOwned(x, size, d, o);
          if Reaches(x, size) {
            SectorsDiffer(x.l, d, o, c + 1, 0);
          }
          Untouched(disk, x, data, GetDiskSector(x.l, d, o));
        }
      }
    } else {
      var disk, data := Spills(x, size, sectors);
      assert GetDiskSector(x.l, c + 1, 0) == Spill(x);
      assert !ForeignKept(disk, x, data);
    }
  }

  lemma NotOwned(x: Span, size: int, d: int, o: int)
    requires SpanOk(x) && Foreign(x, d) && 0 <= o < x.l.spc
    ensures !Owns(x.l, After(x, size).s, GetDiskSector(x.l, d, o))
  {
    hide Pen, VolumeOk, OnTrack, IsChain, PositionOk, ChainAt, Foreign;
    var t := After(x, size).s;
    if i, u :| 0 <= i < |t| && 0 <= u < x.l.spc && GetDiskSector(x.l, d, o) == GetDiskSector(x.l, t[i], u) {
      OwnOrFree(x, Changes(x.start, size), t[i]);
      SectorsDiffer(x.l, d, o, t[i], u);
    }
  }

  ghost predicate OthersKept(disk: seq<seq<Byte>>, x: Span, data: seq<Byte>)
    requires SpanOk(x) && DiskShape(disk)
  {
    forall d, o :: d != x.s[Place(x)] && 0 <= o < x.l.spc && 0 <= GetDiskSector(x.l, d, o) < |disk| ==>
      Written(disk, x, data)[GetDiskSector(x.l, d, o)] == disk[GetDiskSector(x.l, d, o)]
  }

  /** A write changes no sector of any cluster but the one where it starts, be it in a file or free, exactly if it does
      not reach the sector behind that one. */
  lemma WriteOtherClusterIff(x: Span, size: int, sectors: int)
    requires SpanOk(x) && size > 0 && 0 <= sectors && Writable(x, size, sectors)
    ensures (forall disk: seq<seq<Byte>>, data: seq<Byte> ::
               |disk| == sectors && DiskShape(disk) && |data| == size ==> OthersKept(disk, x, data))
            <==> !Reaches(x, size)
  {
    hide Pen, VolumeOk, OnTrack, IsChain, PositionOk, Put, Writable, DiskShape, Reaches;
    var c := x.s[Place(x)];
    if !Reaches(x, size) {
      forall disk: seq<seq<Byte>>, data: seq<Byte> | |disk| == sectors && DiskShape(disk) && |data| == size
        ensures OthersKept(disk, x, data)
      {
        forall d, o | d != c && 0 <= o < x.l.spc && 0 <= GetDiskSector(x.l, d, o) < |disk|
          ensures Written(disk, x, data)[GetDiskSector(x.l, d, o)] == disk[GetDiskSector(x.l, d, o)]
        {
          WithinCluster(x, size, d, o);
          PutMissed(disk, x, data, size, GetDiskSector(x.l, d, o));
        }
      }
    } else {
      var disk, data := Spills(x, size, sectors);
      SectorSpan(x.l, c, c + 1);
      assert GetDiskSector(x.l, c + 1, 0) == Spill(x);
      assert !OthersKept(disk, x, data);
    }
  }

  lemma WithinCluster(x: Span, size: int, d: int, o: int)
    requires SpanOk(x) && !Reaches(x, size) && d != x.s[Place(x)] && 0 <= o < x.l.spc
    ensures forall k: nat :: k <= Changes(x.start, size) ==>
              Pen(x, k).at.Nowhere? || Pen(x, k).at.sector != GetDiskSector(x.l, d, o)
  {
    hide Pen, VolumeOk, OnTrack, IsChain, PositionOk;
    forall k: nat | k <= Changes(x.start, size)
      ensures Pen(x, k).at.Nowhere? || Pen(x, k).at.sector != GetDiskSector(x.l, d, o)
    {
      PenNear(x, k);
      SectorsDiffer(x.l, d, o, x.s[Place(x)], Offset(x) + k);
    }
  }
}
