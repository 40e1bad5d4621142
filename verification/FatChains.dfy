/** The file allocation table of fat32.c: cluster chains, allocateCluster and deleteFATchain. */
module FatChains {
  const FAT_SIZE: int := 2048
  const EOC: int := 0x0FFFFFFF
  const BAD: int := 0x0FFFFFF7
  const NO_HINT: int := 0xFFFFFFFF

  ghost predicate IsCluster(c: int) { 2 <= c < FAT_SIZE }

  /** An entry that ends a chain. */
  ghost predicate Ends(v: int) { v > BAD }

  /** Every entry is free, a link to a used cluster, the mark of a bad cluster, or an end mark. */
  ghost predicate Entries(fat: seq<int>) {
    && |fat| == FAT_SIZE
    && (forall c {:trigger fat[c]} :: IsCluster(c) ==> fat[c] == 0 || IsCluster(fat[c]) || fat[c] >= BAD)
    && (forall c, d {:trigger fat[c], fat[d]} :: IsCluster(c) && IsCluster(d) && fat[c] == d ==>
          fat[d] != 0 && fat[d] != BAD)
  }

  /** No cluster has two predecessors. */
  ghost predicate OnePredecessor(fat: seq<int>)
    requires |fat| == FAT_SIZE
  {
    forall c, d :: IsCluster(c) && IsCluster(d) && IsCluster(fat[c]) && fat[c] == fat[d] ==> c == d
  }

  /** Ranks that fall along every link. */
  ghost predicate Ranked(fat: seq<int>, rank: seq<nat>)
    requires |fat| == FAT_SIZE
  {
    |rank| == FAT_SIZE && forall c {:trigger fat[c]} :: IsCluster(c) && IsCluster(fat[c]) ==> rank[fat[c]] < rank[c]
  }

  /** A well-formed table: a forest of chains. */
  ghost predicate WellFormed(fat: seq<int>) {
    Entries(fat) && OnePredecessor(fat) && exists rank: seq<nat> :: Ranked(fat, rank)
  }

  ghost predicate Used(fat: seq<int>, c: int)
    requires |fat| == FAT_SIZE
  {
    IsCluster(c) && fat[c] != 0 && fat[c] != BAD
  }

  /** `s` lists the clusters of the chain that starts at s[0]. */
  ghost predicate IsChain(fat: seq<int>, s: seq<int>) {
    && |fat| == FAT_SIZE && s != []
    && (forall i :: 0 <= i < |s| ==> IsCluster(s[i]))
    && (forall i {:trigger fat[s[i]]} :: 0 <= i < |s| - 1 ==> fat[s[i]] == s[i + 1])
    && Ends(fat[s[|s| - 1]])
  }

  // ---- chains ----

  lemma {:induction false} ChainUnique(fat: seq<int>, s: seq<int>, t: seq<int>)
    requires IsChain(fat, s) && IsChain(fat, t) && s[0] == t[0]
    ensures s == t
    decreases |s|
  {
    assert s[0] == s[|s| - 1] || fat[s[0]] == s[1];
    assert t[0] == t[|t| - 1] || fat[t[0]] == t[1];
    if |s| > 1 && |t| > 1 {
      assert forall i :: 0 <= i < |s| - 1 ==> s[1..][i] == s[i + 1];
      assert forall i :: 0 <= i < |t| - 1 ==> t[1..][i] == t[i + 1];
      ChainUnique(fat, s[1..], t[1..]);
      assert s == [s[0]] + s[1..] && t == [t[0]] + t[1..];
    }
  }

  lemma {:induction false} ChainFrom(fat: seq<int>, rank: seq<nat>, c: int) returns (s: seq<int>)
    requires Entries(fat) && Ranked(fat, rank) && Used(fat, c)
    ensures IsChain(fat, s) && s[0] == c
    decreases rank[c]
  {
    if IsCluster(fat[c]) {
      var t := ChainFrom(fat, rank, fat[c]);
      s := [c] + t;
    } else {
      s := [c];
    }
  }

  /** Every used cluster starts exactly one chain. */
  lemma ChainExists(fat: seq<int>, c: int)
    requires WellFormed(fat) && Used(fat, c)
    ensures exists s :: IsChain(fat, s) && s[0] == c
  {
    var rank :| Ranked(fat, rank);
    var s := ChainFrom(fat, rank, c);
  }

  ghost function ChainOf(fat: seq<int>, c: int): (s: seq<int>)
    requires WellFormed(fat) && Used(fat, c)
    ensures IsChain(fat, s) && s[0] == c
  {
    ChainExists(fat, c);
    var s :| IsChain(fat, s) && s[0] == c;
    s
  }

  lemma {:induction false} RanksFall(fat: seq<int>, rank: seq<nat>, s: seq<int>, i: nat, j: nat)
    requires IsChain(fat, s) && Ranked(fat, rank) && i < j < |s|
    ensures rank[s[j]] < rank[s[i]]
    decreases j
  {
    assert fat[s[j - 1]] == s[j];
    if i < j - 1 {
      RanksFall(fat, rank, s, i, j - 1);
    }
  }

  /** A chain visits no cluster twice. */
  lemma NoRepeat(fat: seq<int>, s: seq<int>, i: nat, j: nat)
    requires WellFormed(fat) && IsChain(fat, s) && i < |s| && j < |s| && s[i] == s[j]
    ensures i == j
  {
    var rank :| Ranked(fat, rank);
    if i < j {
      RanksFall(fat, rank, s, i, j);
    } else if j < i {
      RanksFall(fat, rank, s, j, i);
    }
  }

  lemma Distinct(fat: seq<int>, s: seq<int>, i: nat, j: nat)
    requires WellFormed(fat) && IsChain(fat, s) && i < j < |s|
    ensures s[i] != s[j]
  {
    var rank :| Ranked(fat, rank);
    RanksFall(fat, rank, s, i, j);
  }

  ghost predicate Head(fat: seq<int>, c: int)
    requires |fat| == FAT_SIZE
  {
    forall p :: IsCluster(p) ==> fat[p] != c
  }

  ghost predicate Apart(s: seq<int>, t: seq<int>) {
    forall i, j :: 0 <= i < |s| && 0 <= j < |t| ==> s[i] != t[j]
  }

  lemma Before(fat: seq<int>, s: seq<int>, i: nat)
    requires IsChain(fat, s) && 0 < i < |s|
    ensures IsCluster(s[i - 1]) && IsCluster(s[i]) && fat[s[i - 1]] == s[i]
  {
  }

  lemma SamePredecessor(fat: seq<int>, c: int, d: int)
    requires WellFormed(fat) && IsCluster(c) && IsCluster(d) && IsCluster(fat[c]) && fat[c] == fat[d]
    ensures c == d
  {
  }

  /** A chain that starts outside a whole chain t never meets it. */
  lemma {:induction false} ChainsApart(fat: seq<int>, s: seq<int>, t: seq<int>, i: nat, j: nat)
    requires WellFormed(fat) && IsChain(fat, s) && IsChain(fat, t) && Head(fat, t[0]) && s[0] !in t
    requires i < |s| && j < |t|
    ensures s[i] != t[j]
    decreases i
  {
    hide WellFormed;
    if i > 0 && s[i] == t[j] {
      Before(fat, s, i);
      if j > 0 {
        Before(fat, t, j);
        SamePredecessor(fat, s[i - 1], t[j - 1]);
        ChainsApart(fat, s, t, i - 1, j - 1);
      }
    }
  }

  // ---- allocateCluster ----

  datatype Volume = Volume(fat: seq<int>, hint: int)

  /** The first free entry from i on, or FAT_SIZE and more. */
  ghost function FirstFree(fat: seq<int>, i: nat): (k: nat)
    requires |fat| == FAT_SIZE
    ensures k >= i && (k < FAT_SIZE ==> fat[k] == 0)
    ensures forall j :: i <= j < k && j < FAT_SIZE ==> fat[j] != 0
    decreases FAT_SIZE - i
  {
    if i >= FAT_SIZE || fat[i] == 0 then i else FirstFree(fat, i + 1)
  }

  ghost predicate HintOk(hint: int) { 2 <= hint }

  ghost function From(hint: int): int {
    if hint != NO_HINT then hint else 2
  }

  datatype Allocated = Allocated(v: Volume, cluster: int)

  /** allocateCluster.  Its local newFile is taken to be 0 when there is a chain to extend. */
  ghost function Allocate(v: Volume, start: int): (r: Allocated)
    requires WellFormed(v.fat) && HintOk(v.hint) && (start == 0 || Used(v.fat, start))
  {
    var k := FirstFree(v.fat, From(v.hint));
    if k >= FAT_SIZE then Allocated(v, EOC)
    else
      var fat := if start == 0 then v.fat else v.fat[Last(ChainOf(v.fat, start)) := k];
      Allocated(Volume(fat[k := EOC], k + 1), k)
  }

  ghost function Last(s: seq<int>): int
    requires s != []
  {
    s[|s| - 1]
  }

  /** Appending the free cluster k after `last`, or starting a chain with it, keeps the table well formed. */
  lemma AppendWellFormed(fat: seq<int>, last: int, k: int)
    requires WellFormed(fat) && IsCluster(k) && fat[k] == 0
    requires last == 0 || (IsCluster(last) && Ends(fat[last]))
    ensures WellFormed((if last == 0 then fat else fat[last := k])[k := EOC])
  {
    var fat' := (if last == 0 then fat else fat[last := k])[k := EOC];
    var rank :| Ranked(fat, rank);
    var rank': seq<nat> := seq(FAT_SIZE, i requires 0 <= i < FAT_SIZE => if i == k then 0 else rank[i] + 1);
    assert Ranked(fat', rank');
  }

  /** What allocateCluster promises: it takes the first free cluster from the hint on, which becomes the last
      one of the chain of `start`, or a chain of its own, and no other entry changes; or there is none, and nothing
      changes. */
  lemma Allocates(v: Volume, start: int)
    requires WellFormed(v.fat) && HintOk(v.hint) && (start == 0 || Used(v.fat, start))
    ensures var r := Allocate(v, start);
            && (r.cluster == EOC <==> forall c :: From(v.hint) <= c < FAT_SIZE ==> v.fat[c] != 0)
            && (r.cluster == EOC ==> r.v == v)
            && (r.cluster != EOC ==>
                  && IsCluster(r.cluster) && From(v.hint) <= r.cluster && v.fat[r.cluster] == 0
                  && WellFormed(r.v.fat) && r.v.hint == r.cluster + 1
                  && (forall c :: From(v.hint) <= c < r.cluster ==> v.fat[c] != 0)
                  && (forall c :: 0 <= c < FAT_SIZE && c != r.cluster ==>
                        (start != 0 && c == Last(ChainOf(v.fat, start))) || r.v.fat[c] == v.fat[c])
                  && r.v.fat[r.cluster] == EOC
                  && IsChain(r.v.fat, if start == 0 then [r.cluster] else ChainOf(v.fat, start) + [r.cluster]))
  {
    var k := FirstFree(v.fat, From(v.hint));
    if k < FAT_SIZE {
      if start == 0 {
        AppendWellFormed(v.fat, 0, k);
      } else {
        var s := ChainOf(v.fat, start);
        AppendWellFormed(v.fat, Last(s), k);
        Appended(v.fat, s, k);
      }
    }
  }

  lemma Appended(fat: seq<int>, s: seq<int>, k: int)
    requires WellFormed(fat) && IsChain(fat, s) && IsCluster(k) && fat[k] == 0
    ensures IsChain(fat[Last(s) := k][k := EOC], s + [k])
  {
    var fat' := fat[Last(s) := k][k := EOC];
    var t := s + [k];
    forall i | 0 <= i < |t| - 1 ensures fat'[t[i]] == t[i + 1] {
      if i < |s| - 1 {
        assert fat[s[i]] == s[i + 1];
        Distinct(fat, s, i, |s| - 1);
      }
    }
  }

  /** allocateCluster leaves alone every chain that does not end where the extended one ended; in particular
      every whole chain that `start` is not on. */
  lemma AllocateOther(v: Volume, start: int, t: seq<int>)
    requires WellFormed(v.fat) && HintOk(v.hint) && (start == 0 || Used(v.fat, start))
    requires IsChain(v.fat, t) && (start != 0 ==> Last(t) != Last(ChainOf(v.fat, start)))
    ensures IsChain(Allocate(v, start).v.fat, t)
  {
    var k := FirstFree(v.fat, From(v.hint));
    if k < FAT_SIZE {
      var fat' := Allocate(v, start).v.fat;
      var last := if start == 0 then k else Last(ChainOf(v.fat, start));
      forall i | 0 <= i < |t| ensures t[i] != k && t[i] != last {
        assert i < |t| - 1 ==> v.fat[t[i]] == t[i + 1];
      }
      forall i | 0 <= i < |t| - 1 ensures fat'[t[i]] == t[i + 1] {
        assert v.fat[t[i]] == t[i + 1];
      }
    }
  }

  /** Links lead to used clusters. */
  lemma LinkUsed(fat: seq<int>)
    requires WellFormed(fat)
    ensures forall c :: Used(fat, c) && !Ends(fat[c]) ==> Used(fat, fat[c])
  {
  }

  lemma UsedAt(fat: seq<int>, s: seq<int>, i: int)
    requires IsChain(fat, s) && 0 <= i < |s|
    ensures Used(fat, s[i])
  {
    assert i < |s| - 1 ==> fat[s[i]] == s[i + 1];
  }

  /** Allocation takes no cluster out of use, and what it hands out is in use. */
  lemma AllocateUsed(v: Volume, start: int, c: int)
    requires WellFormed(v.fat) && HintOk(v.hint) && (start == 0 || Used(v.fat, start)) && Used(v.fat, c)
    ensures var r := Allocate(v, start);
            |r.v.fat| == FAT_SIZE && Used(r.v.fat, c) && (r.cluster != EOC ==> Used(r.v.fat, r.cluster))
  {
  }

  // ---- deleteFATchain ----

  ghost function Cleared(fat: seq<int>, s: seq<int>): (fat': seq<int>)
    ensures |fat'| == |fat| && forall c :: 0 <= c < |fat| ==> fat'[c] == if c in s then 0 else fat[c]
  {
    seq(|fat|, c requires 0 <= c < |fat| => if c in s then 0 else fat[c])
  }

  /** Deleting a chain from its start leaves a well-formed table exactly when nothing links to its start. */
  lemma DeleteWellFormed(fat: seq<int>, s: seq<int>)
    requires WellFormed(fat) && IsChain(fat, s)
    ensures WellFormed(Cleared(fat, s)) <==> Head(fat, s[0])
  {
    if Head(fat, s[0]) {
      DeleteWhole(fat, s);
    } else {
      DeletePart(fat, s);
    }
  }

  lemma DeleteWhole(fat: seq<int>, s: seq<int>)
    requires WellFormed(fat) && IsChain(fat, s) && Head(fat, s[0])
    ensures WellFormed(Cleared(fat, s))
  {
    var fat' := Cleared(fat, s);
    var rank :| Ranked(fat, rank);
    assert Ranked(fat', rank);
    forall c | IsCluster(c) && IsCluster(fat'[c]) ensures fat'[fat'[c]] != 0 && fat'[fat'[c]] != BAD {
      if fat[c] in s {
        ChainClosed(fat, s, c);
      }
    }
  }

  lemma DeletePart(fat: seq<int>, s: seq<int>)
    requires WellFormed(fat) && IsChain(fat, s) && !Head(fat, s[0])
    ensures !WellFormed(Cleared(fat, s))
  {
    var fat' := Cleared(fat, s);
    var p :| IsCluster(p) && fat[p] == s[0];
    if i :| 0 <= i < |s| && s[i] == p {
      Ahead(fat, s, i);
    } else {
      assert fat'[p] == s[0] && fat'[s[0]] == 0;
    }
  }

  lemma Ahead(fat: seq<int>, s: seq<int>, i: nat)
    requires WellFormed(fat) && IsChain(fat, s) && i < |s|
    ensures fat[s[i]] != s[0]
  {
    if i < |s| - 1 {
      assert fat[s[i]] == s[i + 1];
      Distinct(fat, s, 0, i + 1);
    }
  }

  /** Only clusters of a whole chain link to clusters of the chain. */
  lemma ChainClosed(fat: seq<int>, s: seq<int>, c: int)
    requires WellFormed(fat) && IsChain(fat, s) && Head(fat, s[0]) && IsCluster(c) && fat[c] in s
    ensures c in s
  {
    var i :| 0 <= i < |s| && s[i] == fat[c];
    if i > 0 {
      assert fat[s[i - 1]] == s[i];
    }
  }

  lemma DeleteOther(fat: seq<int>, s: seq<int>, t: seq<int>)
    requires WellFormed(fat) && IsChain(fat, s) && IsChain(fat, t) && Apart(s, t)
    ensures IsChain(Cleared(fat, s), t)
  {
    var fat' := Cleared(fat, s);
    forall i | 0 <= i < |t| ensures fat'[t[i]] == fat[t[i]] {
    }
    forall i | 0 <= i < |t| - 1 ensures fat'[t[i]] == t[i + 1] {
      assert fat[t[i]] == t[i + 1];
    }
  }

  // ---- any number of requests between two mounts ----

  datatype Request = Append(start: int) | Delete(c: int)

  /** Chains are extended from any of their clusters and deleted from their first one. */
  ghost predicate Sound(fat: seq<int>, op: Request)
    requires |fat| == FAT_SIZE
  {
    match op
    case Append(start) => start == 0 || Used(fat, start)
    case Delete(c) => Used(fat, c) && Head(fat, c)
  }

  ghost predicate VolumeOk(v: Volume) { WellFormed(v.fat) && HintOk(v.hint) }

  /** One request; an unsound one is not made. */
  ghost function Do(v: Volume, op: Request): Allocated
    requires VolumeOk(v)
  {
    if !Sound(v.fat, op) then Allocated(v, EOC)
    else
      match op
      case Append(start) => Allocate(v, start)
      case Delete(c) => Allocated(v.(fat := Cleared(v.fat, ChainOf(v.fat, c))), EOC)
  }

  lemma DoKeeps(v: Volume, op: Request)
    requires VolumeOk(v)
    ensures var r := Do(v, op);
            && VolumeOk(r.v) && From(v.hint) <= From(r.v.hint)
            && (r.cluster != EOC ==>
                  IsCluster(r.cluster) && From(v.hint) <= r.cluster < From(r.v.hint) && v.fat[r.cluster] == 0)
  {
    if Sound(v.fat, op) {
      match op {
        case Append(start) => Allocates(v, start);
        case Delete(c) => DeleteWellFormed(v.fat, ChainOf(v.fat, c));
      }
    }
  }

  datatype History = History(v: Volume, got: seq<int>)

  /** The volume after the requests, and the clusters handed out, in order. */
  ghost function Run(v: Volume, ops: seq<Request>): (h: History)
    requires VolumeOk(v)
    ensures VolumeOk(h.v)
    decreases |ops|
  {
    if ops == [] then History(v, [])
    else
      DoKeeps(v, ops[0]);
      var a := Do(v, ops[0]);
      var h := Run(a.v, ops[1..]);
      History(h.v, if a.cluster == EOC then h.got else [a.cluster] + h.got)
  }

  /** The clusters handed out between two mounts strictly increase, whatever is deleted in between: none is
      handed out twice. */
  lemma {:induction false} HandedOutOnce(v: Volume, ops: seq<Request>)
    requires VolumeOk(v)
    ensures var h := Run(v, ops);
            && From(v.hint) <= From(h.v.hint)
            && (forall i :: 0 <= i < |h.got| ==> IsCluster(h.got[i]) && From(v.hint) <= h.got[i] < From(h.v.hint))
            && (forall i, j :: 0 <= i < j < |h.got| ==> h.got[i] < h.got[j])
    decreases |ops|
  {
    if ops != [] {
      DoKeeps(v, ops[0]);
      HandedOutOnce(Do(v, ops[0]).v, ops[1..]);
    }
  }

  ghost predicate Names(op: Request, s: seq<int>) {
    match op
    case Append(start) => start in s
    case Delete(c) => c in s
  }

  lemma DoOther(v: Volume, op: Request, t: seq<int>)
    requires VolumeOk(v) && IsChain(v.fat, t) && Head(v.fat, t[0]) && !Names(op, t)
    ensures var fat' := Do(v, op).v.fat; IsChain(fat', t) && Head(fat', t[0])
  {
    hide IsChain, Head;
    if Sound(v.fat, op) {
      match op {
        case Append(start) => AppendOther(v, start, t);
        case Delete(c) => DeleteFileOther(v, c, t);
      }
    }
  }

  lemma AppendOther(v: Volume, start: int, t: seq<int>)
    requires VolumeOk(v) && IsChain(v.fat, t) && Head(v.fat, t[0]) && start !in t && (start == 0 || Used(v.fat, start))
    ensures var fat' := Allocate(v, start).v.fat; IsChain(fat', t) && Head(fat', t[0])
  {
    hide WellFormed;
    if start != 0 {
      var s := ChainOf(v.fat, start);
      ChainsApart(v.fat, s, t, |s| - 1, |t| - 1);
    }
    AllocateOther(v, start, t);
    UsedFirst(v.fat, t);
  }

  lemma UsedFirst(fat: seq<int>, t: seq<int>)
    requires IsChain(fat, t)
    ensures fat[t[0]] != 0
  {
    assert |t| > 1 ==> fat[t[0]] == t[1];
  }

  lemma DeleteFileOther(v: Volume, c: int, t: seq<int>)
    requires VolumeOk(v) && IsChain(v.fat, t) && Head(v.fat, t[0]) && c !in t && Used(v.fat, c)
    ensures var fat' := Cleared(v.fat, ChainOf(v.fat, c)); IsChain(fat', t) && Head(fat', t[0])
  {
    hide WellFormed;
    var s := ChainOf(v.fat, c);
    forall i, j | 0 <= i < |s| && 0 <= j < |t| ensures s[i] != t[j] {
      ChainsApart(v.fat, s, t, i, j);
    }
    DeleteOther(v.fat, s, t);
  }

  /** A file's chain survives every run of requests that do not name one of its clusters. */
  lemma {:induction false} RunOther(v: Volume, ops: seq<Request>, t: seq<int>)
    requires VolumeOk(v) && IsChain(v.fat, t) && Head(v.fat, t[0])
    requires forall i :: 0 <= i < |ops| ==> !Names(ops[i], t)
    ensures IsChain(Run(v, ops).v.fat, t) && Head(Run(v, ops).v.fat, t[0])
    decreases |ops|
  {
    if ops != [] {
      DoKeeps(v, ops[0]);
      DoOther(v, ops[0], t);
      RunOther(Do(v, ops[0]).v, ops[1..], t);
    }
  }

  /** "Full" is answered although a cluster is free exactly when some cluster is free and all free ones lie below the
      hint, which never goes back. */
  lemma FullThoughFreeIff(v: Volume, start: int)
    requires VolumeOk(v) && (start == 0 || Used(v.fat, start))
    ensures Allocate(v, start).cluster == EOC && (exists c :: Free(v.fat, c))
            <==> (exists c :: Free(v.fat, c)) && (forall c :: Free(v.fat, c) ==> c < From(v.hint))
  {
    hide Allocate;
    Allocates(v, start);
    assert forall c :: From(v.hint) <= c < FAT_SIZE ==> (v.fat[c] == 0 <==> Free(v.fat, c));
  }

  ghost predicate Free(fat: seq<int>, c: int)
    requires |fat| == FAT_SIZE
  {
    IsCluster(c) && fat[c] == 0
  }

  /** A fresh table after n one-cluster files. */
  ghost function Filled(n: int): (v: Volume)
    requires 0 <= n <= FAT_SIZE - 2
    ensures VolumeOk(v)
  {
    var fat := seq(FAT_SIZE, c => if 2 <= c < 2 + n then EOC else 0);
    assert Ranked(fat, seq(FAT_SIZE, _ => 0));
    Volume(fat, if n == 0 then NO_HINT else 2 + n)
  }

  ghost function Appends(n: nat): seq<Request> {
    seq(n, _ => Append(0))
  }

  lemma {:induction false} FillUp(m: nat, n: nat)
    requires m + n <= FAT_SIZE - 2
    ensures Run(Filled(m), Appends(n)).v == Filled(m + n)
    decreases n
  {
    hide WellFormed, FirstFree, ChainOf;
    if n > 0 {
      FirstFilled(m, From(Filled(m).hint));
      assert Allocate(Filled(m), 0).v.fat == Filled(m + 1).fat;
      assert Appends(n)[0] == Append(0) && Appends(n)[1..] == Appends(n - 1);
      FillUp(m + 1, n - 1);
    }
  }

  lemma FirstFilled(m: nat, i: nat)
    requires m < FAT_SIZE - 2 && 2 <= i <= 2 + m && (i < 2 + m ==> i == 2 && m == 0)
    ensures FirstFree(Filled(m).fat, i) == 2 + m
  {
  }

  lemma {:induction false} RunConcat(v: Volume, a: seq<Request>, b: seq<Request>)
    requires VolumeOk(v)
    ensures Run(v, a + b).v == Run(Run(v, a).v, b).v
    decreases |a|
  {
    if a == [] {
      assert a + b == b;
    } else {
      DoKeeps(v, a[0]);
      assert (a + b)[1..] == a[1..] + b;
      RunConcat(Do(v, a[0]).v, a[1..], b);
    }
  }

  /** Starting from an empty table: make as many files as fit and delete the first one.  Its cluster is free, and yet
      the next allocation answers "full". */
  lemma FullThoughFree()
    ensures var v := Run(Filled(0), Appends(FAT_SIZE - 2) + [Delete(2)]).v;
            VolumeOk(v) && Free(v.fat, 2) && Allocate(v, 0) == Allocated(v, EOC)
  {
    hide Allocate, FirstFree, Run;
    var n := FAT_SIZE - 2;
    FillUp(0, n);
    RunConcat(Filled(0), Appends(n), [Delete(2)]);
    var w := Filled(n);
    RunOne(w, Delete(2));
    DeleteSecond(w);
    var v := Run(w, [Delete(2)]).v;
    Allocates(v, 0);
  }

  lemma RunOne(v: Volume, op: Request)
    requires VolumeOk(v)
    ensures Run(v, [op]).v == Do(v, op).v
  {
    DoKeeps(v, op);
    assert [op][1..] == [];
  }

  lemma DeleteSecond(w: Volume)
    requires w == Filled(FAT_SIZE - 2)
    ensures var v := Do(w, Delete(2)).v;
            |v.fat| == FAT_SIZE && v.hint == w.hint && forall c :: 0 <= c < FAT_SIZE ==>
              (v.fat[c] == 0 <==> w.fat[c] == 0 || c == 2)
  {
    hide WellFormed;
    assert IsChain(w.fat, [2]);
    ChainUnique(w.fat, ChainOf(w.fat, 2), [2]);
    assert Head(w.fat, 2);
  }

  class FileTable {
    const FAT: array<int>
    var whereClusters: int

    constructor ()
      ensures FAT.Length == FAT_SIZE && VolumeOk(Volume(FAT[..], whereClusters))
    {
      FAT := new int[FAT_SIZE](_ => 0);
      whereClusters := NO_HINT;
      new;
      assert Ranked(FAT[..], seq(FAT_SIZE, _ => 0));
    }

    ghost predicate Valid()
      reads this, FAT
    {
      FAT.Length == FAT_SIZE && VolumeOk(Volume(FAT[..], whereClusters))
    }

    method AllocateCluster(start: int) returns (cluster: int)
      requires Valid() && (start == 0 || Used(FAT[..], start))
      modifies this, FAT
      ensures Valid()
      ensures Allocated(Volume(FAT[..], whereClusters), cluster) == Allocate(old(Volume(FAT[..], whereClusters)), start)
    {
      hide WellFormed, IsChain, FirstFree, Last;
      ghost var v := Volume(FAT[..], whereClusters);
      Allocates(v, start);
      var newFile := start == 0;
      var last := start;
      if !newFile {
        last := FindLast(start);
      }
      var i := 2;
      if whereClusters != NO_HINT {
        i := whereClusters;
      }
      while i < FAT_SIZE
        invariant 2 <= i && FirstFree(v.fat, i) == FirstFree(v.fat, From(v.hint))
        invariant FAT[..] == v.fat && whereClusters == v.hint
      {
        FirstFreeStep(v.fat, i);
        if FAT[i] == 0 {
          if !newFile {
            FAT[last] := i;
          }
          FAT[i] := EOC;
          whereClusters := i + 1;
          return i;
        }
        i := i + 1;
      }
      FirstFreeStep(v.fat, i);
      cluster := EOC;
    }

    /** The loop of allocateCluster that looks for the last cluster of the chain. */
    method FindLast(start: int) returns (cluster: int)
      requires FAT.Length == FAT_SIZE && WellFormed(FAT[..]) && Used(FAT[..], start)
      ensures cluster == Last(ChainOf(FAT[..], start)) && IsCluster(cluster)
    {
      ghost var s := ChainOf(FAT[..], start);
      ghost var n := 0;
      cluster := start;
      while FAT[cluster] < BAD
        invariant 0 <= n < |s| && cluster == s[n] && IsCluster(cluster)
        decreases |s| - n
      {
        cluster := FAT[cluster];
        n := n + 1;
      }
    }

    /** deleteFATchain; `s` is the chain that starts at `cluster`. */
    method DeleteFATchain(cluster: int, ghost s: seq<int>)
      requires IsChain(FAT[..], s) && s[0] == cluster
      modifies FAT
      ensures FAT[..] == Cleared(old(FAT[..]), s)
      decreases |s|
    {
      if FAT[cluster] < BAD - 1 {
        assert |s| > 1 && FAT[cluster] == s[1];
        assert s == [s[0]] + s[1..];
        assert forall i :: 0 <= i < |s| - 1 ==> s[1..][i] == s[i + 1];
        DeleteFATchain(FAT[cluster], s[1..]);
      }
      FAT[cluster] := 0;
    }
  }

  lemma FirstFreeStep(fat: seq<int>, i: nat)
    requires |fat| == FAT_SIZE
    ensures FirstFree(fat, i) == if i >= FAT_SIZE || fat[i] == 0 then i else FirstFree(fat, i + 1)
  {
  }
}
