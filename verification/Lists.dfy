/** The intrusive lists of list.c.  A node is an index into the arrays `next` and `prev`; nodes
    below `anchors` are the list anchors embedded in the process control blocks, the others
    are list heads.  `Links.lists` is the abstract value: it maps every initialised head to the
    sequence of anchors queued on it. */
module Lists {
  const NULL := -1

  /** `next` and `prev` run around a circle that starts at head `h` and visits `s` in order. */
  ghost predicate Ring(next: seq<int>, prev: seq<int>, h: int, s: seq<int>)
    requires |next| == |prev|
  {
    && 0 <= h < |next|
    && (forall i :: 0 <= i < |s| ==> 0 <= s[i] < |next|)
    && next[h] == At(h, s, 0)
    && prev[h] == At(h, s, |s| - 1)
    && (forall i {:trigger next[s[i]]} :: 0 <= i < |s| ==> next[s[i]] == At(h, s, i + 1))
    && (forall i {:trigger prev[s[i]]} :: 0 <= i < |s| ==> prev[s[i]] == At(h, s, i - 1))
  }

  /** The i-th node of the circle; the head stands at both ends. */
  ghost function At(h: int, s: seq<int>, i: int): int {
    if 0 <= i < |s| then s[i] else h
  }

  ghost predicate On(lists: map<int, seq<int>>, x: int) {
    exists h :: h in lists && x in lists[h]
  }

  /** No anchor is queued twice, neither on one list nor on two. */
  ghost predicate Separate(lists: map<int, seq<int>>) {
    forall h, i, g, j ::
      h in lists && g in lists && 0 <= i < |lists[h]| && 0 <= j < |lists[g]| && lists[h][i] == lists[g][j]
      ==> h == g && i == j
  }

  ghost predicate AllRings(next: seq<int>, prev: seq<int>, lists: map<int, seq<int>>)
    requires |next| == |prev|
  {
    forall h :: h in lists ==> Ring(next, prev, h, lists[h])
  }

  /** Heads are the nodes from `anchors` on, queued nodes the ones below. */
  ghost predicate Split(anchors: int, lists: map<int, seq<int>>) {
    && (forall h :: h in lists ==> anchors <= h)
    && (forall h, i :: h in lists && 0 <= i < |lists[h]| ==> lists[h][i] < anchors)
  }

  /** An anchor that is on no list has null links. */
  ghost predicate NullAnchors(next: seq<int>, prev: seq<int>, anchors: int, lists: map<int, seq<int>>)
    requires |next| == |prev| && anchors <= |next|
  {
    forall x :: 0 <= x < anchors && !On(lists, x) ==> next[x] == NULL && prev[x] == NULL
  }

  ghost predicate Linked(next: seq<int>, prev: seq<int>, anchors: int, lists: map<int, seq<int>>) {
    && |next| == |prev|
    && 0 <= anchors <= |next|
    && AllRings(next, prev, lists)
    && Split(anchors, lists)
    && Separate(lists)
    && NullAnchors(next, prev, anchors, lists)
  }

  ghost function Insert(s: seq<int>, i: int, x: int): seq<int>
    requires 0 <= i <= |s|
  {
    s[..i] + [x] + s[i..]
  }

  ghost function Remove(s: seq<int>, i: int): seq<int>
    requires 0 <= i < |s|
  {
    s[..i] + s[i + 1..]
  }

  // The effect of the four assignments of __list_add, and of __list_del followed by the two
  // null assignments of list_del, on the two link arrays.

  ghost function AddedNext(next: seq<int>, x: int, p: int, n: int): seq<int>
    requires 0 <= x < |next| && 0 <= p < |next|
  {
    next[x := n][p := x]
  }

  ghost function AddedPrev(prev: seq<int>, x: int, p: int, n: int): seq<int>
    requires 0 <= x < |prev| && 0 <= n < |prev|
  {
    prev[n := x][x := p]
  }

  ghost function CutNext(next: seq<int>, x: int, p: int, n: int): seq<int>
    requires 0 <= x < |next| && 0 <= p < |next|
  {
    next[p := n][x := NULL]
  }

  ghost function CutPrev(prev: seq<int>, x: int, p: int, n: int): seq<int>
    requires 0 <= x < |prev| && 0 <= n < |prev|
  {
    prev[n := p][x := NULL]
  }

  ghost predicate Injective(s: seq<int>) {
    forall i, j :: 0 <= i < |s| && 0 <= j < |s| && s[i] == s[j] ==> i == j
  }

  lemma InsertAt(h: int, s: seq<int>, i: int, x: int, k: int)
    requires 0 <= i <= |s| && -1 <= k <= |s| + 1
    ensures At(h, Insert(s, i, x), k) == if k < i then At(h, s, k) else if k == i then x else At(h, s, k - 1)
  {
  }

  lemma RemoveAt(h: int, s: seq<int>, i: int, k: int)
    requires 0 <= i < |s| && -1 <= k <= |s| - 1
    ensures At(h, Remove(s, i), k) == if k < i then At(h, s, k) else At(h, s, k + 1)
  {
  }

  /** The links at one place of a circle. */
  lemma RingAt(next: seq<int>, prev: seq<int>, h: int, s: seq<int>, k: int)
    requires |next| == |prev| && Ring(next, prev, h, s) && -1 <= k < |s|
    ensures 0 <= At(h, s, k) < |next| && 0 <= At(h, s, k + 1) < |next|
    ensures next[At(h, s, k)] == At(h, s, k + 1) && prev[At(h, s, k + 1)] == At(h, s, k)
  {
    if k >= 0 {
      assert next[s[k]] == At(h, s, k + 1);
    }
    if k + 1 < |s| {
      assert prev[s[k + 1]] == At(h, s, k);
    }
  }

  ghost predicate LinkAt(next: seq<int>, prev: seq<int>, h: int, s: seq<int>, k: int)
    requires |next| == |prev|
  {
    && 0 <= At(h, s, k) < |next| && 0 <= At(h, s, k + 1) < |next|
    && next[At(h, s, k)] == At(h, s, k + 1) && prev[At(h, s, k + 1)] == At(h, s, k)
  }

  /** A circle is determined by its links at every place. */
  lemma RingFromAt(next: seq<int>, prev: seq<int>, h: int, s: seq<int>)
    requires |next| == |prev|
    requires forall k :: -1 <= k < |s| ==> LinkAt(next, prev, h, s, k)
    ensures Ring(next, prev, h, s)
  {
    assert LinkAt(next, prev, h, s, -1) && LinkAt(next, prev, h, s, |s| - 1);
    forall i | 0 <= i < |s|
      ensures 0 <= s[i] < |next| && next[s[i]] == At(h, s, i + 1) && prev[s[i]] == At(h, s, i - 1)
    {
      assert LinkAt(next, prev, h, s, i) && LinkAt(next, prev, h, s, i - 1);
    }
  }

  lemma AtDistinct(h: int, s: seq<int>, a: int, b: int)
    requires Injective(s) && h !in s && -1 <= a < |s| && -1 <= b < |s| && a != b
    ensures At(h, s, a) != At(h, s, b)
  {
  }

  /** Splicing a node that is outside the circle between two neighbours of the circle extends the
      circle's sequence at that place. */
  lemma InsertRing(next: seq<int>, prev: seq<int>, h: int, s: seq<int>, i: int, x: int)
    requires |next| == |prev| && Ring(next, prev, h, s) && Injective(s) && h !in s
    requires 0 <= i <= |s| && 0 <= x < |next| && x != h && x !in s
    ensures var p, n := At(h, s, i - 1), At(h, s, i);
            Ring(AddedNext(next, x, p, n), AddedPrev(prev, x, p, n), h, Insert(s, i, x))
  {
    var p, n := At(h, s, i - 1), At(h, s, i);
    var next', prev' := AddedNext(next, x, p, n), AddedPrev(prev, x, p, n);
    var t := Insert(s, i, x);
    forall k | -1 <= k < |t| ensures LinkAt(next', prev', h, t, k) {
      InsertAt(h, s, i, x, k);
      InsertAt(h, s, i, x, k + 1);
      SplicedLinks(next, prev, h, s, i, x, if k < i then k else k - 1);
    }
    RingFromAt(next', prev', h, t);
  }

  lemma SplicedLinks(next: seq<int>, prev: seq<int>, h: int, s: seq<int>, i: int, x: int, k: int)
    requires |next| == |prev| && Ring(next, prev, h, s) && Injective(s) && h !in s
    requires 0 <= i <= |s| && 0 <= x < |next| && x != h && x !in s && -1 <= k < |s|
    ensures var p, n := At(h, s, i - 1), At(h, s, i);
            && AddedNext(next, x, p, n)[At(h, s, k)] == (if k == i - 1 then x else At(h, s, k + 1))
            && AddedPrev(prev, x, p, n)[At(h, s, k + 1)] == (if k == i - 1 then x else At(h, s, k))
            && AddedNext(next, x, p, n)[x] == n && AddedPrev(prev, x, p, n)[x] == p
  {
    RingAt(next, prev, h, s, k);
    RingAt(next, prev, h, s, i - 1);
    if k != i - 1 {
      AtDistinct(h, s, k, i - 1);
      AtDistinct(h, s, if k + 1 == |s| then -1 else k + 1, if i == |s| then -1 else i);
    }
  }

  /** Cutting a node out of a circle removes it from the circle's sequence. */
  lemma RemoveRing(next: seq<int>, prev: seq<int>, h: int, s: seq<int>, i: int)
    requires |next| == |prev| && Ring(next, prev, h, s) && Injective(s) && h !in s
    requires 0 <= i < |s|
    ensures prev[s[i]] == At(h, s, i - 1) && next[s[i]] == At(h, s, i + 1)
    ensures var p, n := At(h, s, i - 1), At(h, s, i + 1);
            Ring(CutNext(next, s[i], p, n), CutPrev(prev, s[i], p, n), h, Remove(s, i))
  {
    var p, n := At(h, s, i - 1), At(h, s, i + 1);
    var next', prev' := CutNext(next, s[i], p, n), CutPrev(prev, s[i], p, n);
    var t := Remove(s, i);
    forall k | -1 <= k < |t| ensures LinkAt(next', prev', h, t, k) {
      RemoveAt(h, s, i, k);
      RemoveAt(h, s, i, k + 1);
      CutLinks(next, prev, h, s, i, if k < i then k else k + 1);
    }
    RingFromAt(next', prev', h, t);
  }

  lemma CutLinks(next: seq<int>, prev: seq<int>, h: int, s: seq<int>, i: int, k: int)
    requires |next| == |prev| && Ring(next, prev, h, s) && Injective(s) && h !in s
    requires 0 <= i < |s| && -1 <= k < |s| && k != i
    ensures var p, n := At(h, s, i - 1), At(h, s, i + 1);
            && 0 <= At(h, s, k) < |next| && 0 <= At(h, s, k + 1) < |next| && 0 <= At(h, s, i + 1) < |next|
            && CutNext(next, s[i], p, n)[At(h, s, k)] == (if k == i - 1 then n else At(h, s, k + 1))
            && (k != i - 1 ==> CutPrev(prev, s[i], p, n)[At(h, s, k + 1)] == At(h, s, k))
            && CutPrev(prev, s[i], p, n)[n] == p
  {
    RingAt(next, prev, h, s, k);
    RingAt(next, prev, h, s, i - 1);
    RingAt(next, prev, h, s, i);
    AtDistinct(h, s, k, i);
    AtDistinct(h, s, if i + 1 == |s| then -1 else i + 1, i);
    if k != i - 1 {
      AtDistinct(h, s, k, i - 1);
      AtDistinct(h, s, if k + 1 == |s| then -1 else k + 1, if i + 1 == |s| then -1 else i + 1);
      AtDistinct(h, s, if k + 1 == |s| then -1 else k + 1, i);
    }
  }

  /** A circle survives updates of links of nodes that are not on it. */
  lemma RingFrame(next: seq<int>, prev: seq<int>, next': seq<int>, prev': seq<int>, h: int, s: seq<int>)
    requires |next| == |prev| == |next'| == |prev'| && Ring(next, prev, h, s)
    requires forall x :: 0 <= x < |next| && (x == h || x in s) ==> next'[x] == next[x] && prev'[x] == prev[x]
    ensures Ring(next', prev', h, s)
  {
  }

  /** What the neighbours of a place in list `h` can be: `h` itself or anchors on `h`. */
  lemma Neighbour(next: seq<int>, prev: seq<int>, anchors: int, lists: map<int, seq<int>>, h: int, i: int)
    requires Linked(next, prev, anchors, lists) && h in lists
    ensures var p := At(h, lists[h], i);
            && 0 <= p < |next|
            && (p == h || On(lists, p))
            && (forall g :: g in lists && g != h ==> p != g && p !in lists[g])
  {
  }

  lemma InsertOneRing(next: seq<int>, prev: seq<int>, anchors: int, lists: map<int, seq<int>>, h: int, i: int,
          x: int, g: int)
    requires Linked(next, prev, anchors, lists) && h in lists && 0 <= i <= |lists[h]|
    requires 0 <= x < anchors && !On(lists, x) && g in lists
    ensures var p, n := At(h, lists[h], i - 1), At(h, lists[h], i);
            && 0 <= p < |next| && 0 <= n < |next|
            && Ring(AddedNext(next, x, p, n), AddedPrev(prev, x, p, n), g,
                    if g == h then Insert(lists[h], i, x) else lists[g])
  {
    Neighbour(next, prev, anchors, lists, h, i - 1);
    Neighbour(next, prev, anchors, lists, h, i);
    assert x !in lists[g];
    if g == h {
      OneList(lists, h);
      InsertRing(next, prev, h, lists[h], i, x);
    } else {
      ApartRing(next, prev, x, At(h, lists[h], i - 1), At(h, lists[h], i), g, lists[g]);
    }
  }

  lemma OneList(lists: map<int, seq<int>>, h: int)
    requires Separate(lists) && h in lists
    ensures Injective(lists[h])
  {
  }

  /** A circle that meets neither the spliced node nor its neighbours does not change. */
  lemma ApartRing(next: seq<int>, prev: seq<int>, x: int, p: int, n: int, g: int, s: seq<int>)
    requires |next| == |prev| && Ring(next, prev, g, s)
    requires 0 <= x < |next| && 0 <= p < |next| && 0 <= n < |next|
    requires g != x && g != p && g != n && x !in s && p !in s && n !in s
    ensures Ring(AddedNext(next, x, p, n), AddedPrev(prev, x, p, n), g, s)
    ensures Ring(CutNext(next, x, p, n), CutPrev(prev, x, p, n), g, s)
  {
    RingFrame(next, prev, AddedNext(next, x, p, n), AddedPrev(prev, x, p, n), g, s);
    RingFrame(next, prev, CutNext(next, x, p, n), CutPrev(prev, x, p, n), g, s);
  }

  lemma InsertOn(lists: map<int, seq<int>>, h: int, i: int, x: int, y: int)
    requires h in lists && 0 <= i <= |lists[h]|
    ensures On(lists[h := Insert(lists[h], i, x)], y) <==> y == x || On(lists, y)
  {
    var s := lists[h];
    var t := Insert(s, i, x);
    var lists' := lists[h := t];
    assert forall k :: 0 <= k < |t| ==> t[k] == if k < i then s[k] else if k == i then x else s[k - 1];
    assert t[i] == x;
    assert forall k :: 0 <= k < |s| ==> s[k] == t[if k < i then k else k + 1];
    assert y in t <==> y == x || y in s;
    assert forall g :: g in lists' ==> lists'[g] == if g == h then t else lists[g];
    if On(lists, y) {
      var g :| g in lists && y in lists[g];
      assert y in lists'[g];
    }
    assert x in lists'[h];
  }

  /** Inserting an unqueued anchor into one list leaves all lists well formed. */
  lemma InsertLinked(next: seq<int>, prev: seq<int>, anchors: int, lists: map<int, seq<int>>, h: int, i: int, x: int)
    requires Linked(next, prev, anchors, lists) && h in lists && 0 <= i <= |lists[h]|
    requires 0 <= x < anchors && !On(lists, x)
    ensures var p, n := At(h, lists[h], i - 1), At(h, lists[h], i);
            && 0 <= p < |next| && 0 <= n < |next|
            && Linked(AddedNext(next, x, p, n), AddedPrev(prev, x, p, n), anchors,
                      lists[h := Insert(lists[h], i, x)])
  {
    InsertAllRings(next, prev, anchors, lists, h, i, x);
    InsertNullAnchors(next, prev, anchors, lists, h, i, x);
    InsertSeparate(lists, h, i, x);
    InsertSplit(lists, anchors, h, i, x);
    hide AllRings, NullAnchors, Separate, Split, On, At, Insert;
  }

  lemma InsertAllRings(next: seq<int>, prev: seq<int>, anchors: int, lists: map<int, seq<int>>, h: int, i: int, x: int)
    requires Linked(next, prev, anchors, lists) && h in lists && 0 <= i <= |lists[h]|
    requires 0 <= x < anchors && !On(lists, x)
    ensures var p, n := At(h, lists[h], i - 1), At(h, lists[h], i);
            && 0 <= p < |next| && 0 <= n < |next|
            && AllRings(AddedNext(next, x, p, n), AddedPrev(prev, x, p, n), lists[h := Insert(lists[h], i, x)])
  {
    hide Separate, NullAnchors, Split, Ring, On, At, Insert;
    InsertOneRing(next, prev, anchors, lists, h, i, x, h);
    var p, n := At(h, lists[h], i - 1), At(h, lists[h], i);
    var lists' := lists[h := Insert(lists[h], i, x)];
    forall g | g in lists' ensures Ring(AddedNext(next, x, p, n), AddedPrev(prev, x, p, n), g, lists'[g]) {
      InsertOneRing(next, prev, anchors, lists, h, i, x, g);
    }
  }

  lemma InsertNullAnchors(next: seq<int>, prev: seq<int>, anchors: int, lists: map<int, seq<int>>, h: int, i: int,
          x: int)
    requires Linked(next, prev, anchors, lists) && h in lists && 0 <= i <= |lists[h]|
    requires 0 <= x < anchors
    ensures var p, n := At(h, lists[h], i - 1), At(h, lists[h], i);
            && 0 <= p < |next| && 0 <= n < |next|
            && NullAnchors(AddedNext(next, x, p, n), AddedPrev(prev, x, p, n), anchors,
                           lists[h := Insert(lists[h], i, x)])
  {
    hide Separate, AllRings, Ring, On, At, Insert;
    Neighbour(next, prev, anchors, lists, h, i - 1);
    Neighbour(next, prev, anchors, lists, h, i);
    var p, n := At(h, lists[h], i - 1), At(h, lists[h], i);
    var lists' := lists[h := Insert(lists[h], i, x)];
    forall y | 0 <= y < anchors && !On(lists', y)
      ensures AddedNext(next, x, p, n)[y] == NULL && AddedPrev(prev, x, p, n)[y] == NULL
    {
      InsertNull(lists, h, i, x, p, n, y);
    }
  }

  lemma InsertNull(lists: map<int, seq<int>>, h: int, i: int, x: int, p: int, n: int, y: int)
    requires h in lists && 0 <= i <= |lists[h]| && y != h
    requires (p == h || On(lists, p)) && (n == h || On(lists, n))
    requires !On(lists[h := Insert(lists[h], i, x)], y)
    ensures y != p && y != n && y != x && !On(lists, y)
  {
    InsertOn(lists, h, i, x, y);
  }

  lemma InsertSplit(lists: map<int, seq<int>>, anchors: int, h: int, i: int, x: int)
    requires h in lists && 0 <= i <= |lists[h]| && x < anchors && Split(anchors, lists)
    ensures Split(anchors, lists[h := Insert(lists[h], i, x)])
  {
    var t := Insert(lists[h], i, x);
    assert forall k :: 0 <= k < |t| ==> t[k] == if k < i then lists[h][k] else if k == i then x else lists[h][k - 1];
  }

  lemma InsertSeparate(lists: map<int, seq<int>>, h: int, i: int, x: int)
    requires Separate(lists) && h in lists && 0 <= i <= |lists[h]| && !On(lists, x)
    ensures Separate(lists[h := Insert(lists[h], i, x)])
  {
    var s := lists[h];
    var t := Insert(s, i, x);
    assert forall g :: g in lists ==> x !in lists[g];
    assert forall k :: 0 <= k < |t| ==> t[k] == if k < i then s[k] else if k == i then x else s[k - 1];
  }

  lemma RemoveOneRing(next: seq<int>, prev: seq<int>, anchors: int, lists: map<int, seq<int>>, h: int, i: int, g: int)
    requires Linked(next, prev, anchors, lists) && h in lists && 0 <= i < |lists[h]| && g in lists
    ensures var x := lists[h][i];
            && 0 <= x < |next|
            && var p, n := prev[x], next[x];
            && p == At(h, lists[h], i - 1) && n == At(h, lists[h], i + 1)
            && 0 <= p < |next| && 0 <= n < |next|
            && Ring(CutNext(next, x, p, n), CutPrev(prev, x, p, n), g,
                    if g == h then Remove(lists[h], i) else lists[g])
  {
    var s := lists[h];
    var x := s[i];
    assert Injective(s);
    RemoveRing(next, prev, h, s, i);
    var p, n := prev[x], next[x];
    Neighbour(next, prev, anchors, lists, h, i - 1);
    Neighbour(next, prev, anchors, lists, h, i);
    Neighbour(next, prev, anchors, lists, h, i + 1);
    if g != h {
      ApartRing(next, prev, x, p, n, g, lists[g]);
    }
  }

  lemma RemoveOn(lists: map<int, seq<int>>, h: int, i: int, y: int)
    requires Separate(lists) && h in lists && 0 <= i < |lists[h]|
    ensures On(lists[h := Remove(lists[h], i)], y) <==> y != lists[h][i] && On(lists, y)
  {
    var s := lists[h];
    var t := Remove(s, i);
    var lists' := lists[h := t];
    assert forall k :: 0 <= k < |t| ==> t[k] == s[if k < i then k else k + 1];
    assert forall k :: 0 <= k < |s| && k != i ==> s[k] == t[if k < i then k else k - 1];
    if On(lists', y) {
      var g :| g in lists' && y in lists'[g];
      assert y in lists[g];
    }
    if y != s[i] && On(lists, y) {
      var g :| g in lists && y in lists[g];
      assert y in lists'[g];
    }
  }

  /** Cutting a queued anchor out of its list leaves all lists well formed. */
  lemma RemoveLinked(next: seq<int>, prev: seq<int>, anchors: int, lists: map<int, seq<int>>, h: int, i: int)
    requires Linked(next, prev, anchors, lists) && h in lists && 0 <= i < |lists[h]|
    ensures var x := lists[h][i];
            && 0 <= x < |next|
            && var p, n := prev[x], next[x];
            && 0 <= p < |next| && 0 <= n < |next|
            && Linked(CutNext(next, x, p, n), CutPrev(prev, x, p, n), anchors,
                      lists[h := Remove(lists[h], i)])
  {
    RemoveAllRings(next, prev, anchors, lists, h, i);
    RemoveNullAnchors(next, prev, anchors, lists, h, i);
    RemoveSeparate(lists, h, i);
    RemoveSplit(lists, anchors, h, i);
    hide AllRings, NullAnchors, Separate, Split, On, At, Remove;
  }

  lemma RemoveAllRings(next: seq<int>, prev: seq<int>, anchors: int, lists: map<int, seq<int>>, h: int, i: int)
    requires Linked(next, prev, anchors, lists) && h in lists && 0 <= i < |lists[h]|
    ensures var x := lists[h][i];
            && 0 <= x < |next|
            && var p, n := prev[x], next[x];
            && 0 <= p < |next| && 0 <= n < |next|
            && AllRings(CutNext(next, x, p, n), CutPrev(prev, x, p, n), lists[h := Remove(lists[h], i)])
  {
    RemoveOneRing(next, prev, anchors, lists, h, i, h);
    hide Separate, NullAnchors, Split, Ring, On, At, Remove;
    var x := lists[h][i];
    var p, n := prev[x], next[x];
    var lists' := lists[h := Remove(lists[h], i)];
    forall g | g in lists' ensures Ring(CutNext(next, x, p, n), CutPrev(prev, x, p, n), g, lists'[g]) {
      RemoveOneRing(next, prev, anchors, lists, h, i, g);
    }
  }

  lemma CutNeighbours(next: seq<int>, prev: seq<int>, anchors: int, lists: map<int, seq<int>>, h: int, i: int)
    requires Linked(next, prev, anchors, lists) && h in lists && 0 <= i < |lists[h]|
    ensures var x := lists[h][i];
            && |next| == |prev| && 0 <= x < anchors <= |next| && anchors <= h
            && var p, n := prev[x], next[x];
            && 0 <= p < |next| && 0 <= n < |next|
            && (p == h || On(lists, p)) && p != x && (n == h || On(lists, n)) && n != x
            && NullAnchors(next, prev, anchors, lists) && Separate(lists)
  {
    hide Separate, AllRings, Ring, On, At, Remove, NullAnchors;
    RemoveOneRing(next, prev, anchors, lists, h, i, h);
    Neighbour(next, prev, anchors, lists, h, i - 1);
    Neighbour(next, prev, anchors, lists, h, i + 1);
    NeighbourStays(lists, h, i);
  }

  lemma RemoveNullAnchors(next: seq<int>, prev: seq<int>, anchors: int, lists: map<int, seq<int>>, h: int, i: int)
    requires Linked(next, prev, anchors, lists) && h in lists && 0 <= i < |lists[h]|
    ensures var x := lists[h][i];
            && 0 <= x < |next|
            && var p, n := prev[x], next[x];
            && 0 <= p < |next| && 0 <= n < |next|
            && NullAnchors(CutNext(next, x, p, n), CutPrev(prev, x, p, n), anchors, lists[h := Remove(lists[h], i)])
  {
    hide Linked, Separate, AllRings, Split, Ring, On, At, Remove;
    CutNeighbours(next, prev, anchors, lists, h, i);
    var x := lists[h][i];
    var p, n := prev[x], next[x];
    var lists' := lists[h := Remove(lists[h], i)];
    forall y | 0 <= y < anchors && !On(lists', y)
      ensures CutNext(next, x, p, n)[y] == NULL && CutPrev(prev, x, p, n)[y] == NULL
    {
      RemoveNull(lists, h, i, p, n, y);
    }
  }

  lemma RemoveNull(lists: map<int, seq<int>>, h: int, i: int, p: int, n: int, y: int)
    requires Separate(lists) && h in lists && 0 <= i < |lists[h]| && y != h
    requires (p == h || On(lists, p)) && p != lists[h][i] && (n == h || On(lists, n)) && n != lists[h][i]
    requires !On(lists[h := Remove(lists[h], i)], y)
    ensures y != p && y != n && (y == lists[h][i] || !On(lists, y))
  {
    RemoveOn(lists, h, i, y);
  }

  lemma RemoveSplit(lists: map<int, seq<int>>, anchors: int, h: int, i: int)
    requires h in lists && 0 <= i < |lists[h]| && Split(anchors, lists)
    ensures Split(anchors, lists[h := Remove(lists[h], i)])
  {
    var t := Remove(lists[h], i);
    assert forall k :: 0 <= k < |t| ==> t[k] == lists[h][if k < i then k else k + 1];
  }

  /** The neighbours of a removed anchor are the head or other anchors of the list. */
  lemma NeighbourStays(lists: map<int, seq<int>>, h: int, i: int)
    requires Separate(lists) && h in lists && 0 <= i < |lists[h]| && h !in lists[h]
    ensures At(h, lists[h], i - 1) != lists[h][i] && At(h, lists[h], i + 1) != lists[h][i]
  {
  }

  lemma RemoveSeparate(lists: map<int, seq<int>>, h: int, i: int)
    requires Separate(lists) && h in lists && 0 <= i < |lists[h]|
    ensures Separate(lists[h := Remove(lists[h], i)])
  {
    var s := lists[h];
    var t := Remove(s, i);
    assert forall k :: 0 <= k < |t| ==> t[k] == s[if k < i then k else k + 1];
  }

  /** A head that points to itself becomes an empty list; all other lists stay. */
  lemma InitLinked(next: seq<int>, prev: seq<int>, anchors: int, lists: map<int, seq<int>>, h: int)
    requires Linked(next, prev, anchors, lists) && anchors <= h < |next| && (h in lists ==> lists[h] == [])
    ensures Linked(next[h := h], prev[h := h], anchors, lists[h := []])
  {
    hide On, AllRings, NullAnchors;
    InitRings(next, prev, anchors, lists, h);
    InitNulls(next, prev, anchors, lists, h);
  }

  lemma InitRings(next: seq<int>, prev: seq<int>, anchors: int, lists: map<int, seq<int>>, h: int)
    requires Linked(next, prev, anchors, lists) && anchors <= h < |next|
    ensures AllRings(next[h := h], prev[h := h], lists[h := []])
  {
    hide On, NullAnchors, Separate;
    forall g | g in lists && g != h ensures Ring(next[h := h], prev[h := h], g, lists[g]) {
      RingFrame(next, prev, next[h := h], prev[h := h], g, lists[g]);
    }
  }

  lemma InitNulls(next: seq<int>, prev: seq<int>, anchors: int, lists: map<int, seq<int>>, h: int)
    requires |next| == |prev| && 0 <= anchors <= h < |next| && NullAnchors(next, prev, anchors, lists)
    requires h in lists ==> lists[h] == []
    ensures NullAnchors(next[h := h], prev[h := h], anchors, lists[h := []])
  {
    forall y | On(lists, y) ensures On(lists[h := []], y) {
      var g :| g in lists && y in lists[g];
      assert y in lists[h := []][g];
    }
  }

  class Links {
    const anchors: nat
    const next: array<int>
    const prev: array<int>
    ghost var lists: map<int, seq<int>>

    ghost predicate Valid()
      reads this, next, prev
    {
      && next != prev
      && next.Length == prev.Length
      && Linked(next[..], prev[..], anchors, lists)
    }

    /** The statically allocated anchors and heads of a kernel: all links are null. */
    constructor (anchors: nat, nodes: nat)
      requires anchors <= nodes
      ensures Valid() && lists == map[] && this.anchors == anchors && next.Length == nodes
      ensures fresh(next) && fresh(prev)
    {
      this.anchors := anchors;
      next := new int[nodes](_ => NULL);
      prev := new int[nodes](_ => NULL);
      lists := map[];
    }

    method InitListHead(h: int)
      requires Valid() && anchors <= h < next.Length
      requires h in lists ==> lists[h] == []
      modifies this, next, prev
      ensures Valid() && lists == old(lists)[h := []]
    {
      hide Linked, On;
      InitLinked(next[..], prev[..], anchors, lists, h);
      next[h] := h;
      prev[h] := h;
      lists := lists[h := []];
    }

    /** __list_add: the four assignments, in their order. */
    method InsertBetween(x: int, p: int, n: int)
      requires next != prev && next.Length == prev.Length
      requires 0 <= x < next.Length && 0 <= p < next.Length && 0 <= n < next.Length
      modifies next, prev
      ensures next[..] == AddedNext(old(next[..]), x, p, n)
      ensures prev[..] == AddedPrev(old(prev[..]), x, p, n)
    {
      prev[n] := x;
      next[x] := n;
      prev[x] := p;
      next[p] := x;
    }

    method ListAdd(x: int, h: int)
      requires Valid() && h in lists && 0 <= x < anchors && !On(lists, x)
      modifies this, next, prev
      ensures Valid() && lists == old(lists)[h := [x] + old(lists)[h]]
    {
      var n := next[h];
      assert n == At(h, lists[h], 0);
      InsertLinked(next[..], prev[..], anchors, lists, h, 0, x);
      assert Insert(lists[h], 0, x) == [x] + lists[h];
      hide Linked;
      InsertBetween(x, h, n);
      lists := lists[h := [x] + lists[h]];
    }

    method ListAddTail(x: int, h: int)
      requires Valid() && h in lists && 0 <= x < anchors && !On(lists, x)
      modifies this, next, prev
      ensures Valid() && lists == old(lists)[h := old(lists)[h] + [x]]
    {
      var p := prev[h];
      assert p == At(h, lists[h], |lists[h]| - 1);
      InsertLinked(next[..], prev[..], anchors, lists, h, |lists[h]|, x);
      assert Insert(lists[h], |lists[h]|, x) == lists[h] + [x];
      hide Linked;
      InsertBetween(x, p, h);
      lists := lists[h := lists[h] + [x]];
    }

    /** list_del.  `h` and `i` say where the entry is queued; the code does not need them. */
    method ListDel(x: int, ghost h: int, ghost i: int)
      requires Valid() && h in lists && 0 <= i < |lists[h]| && lists[h][i] == x
      modifies this, next, prev
      ensures Valid() && lists == old(lists)[h := Remove(old(lists)[h], i)] && !On(lists, x)
      ensures next[x] == NULL && prev[x] == NULL
    {
      RemoveLinked(next[..], prev[..], anchors, lists, h, i);
      RemoveOn(lists, h, i, x);
      var p, n := prev[x], next[x];
      prev[n] := p;
      next[p] := n;
      next[x] := NULL;
      prev[x] := NULL;
      assert next[..] == CutNext(old(next[..]), x, p, n);
      assert prev[..] == CutPrev(old(prev[..]), x, p, n);
      lists := lists[h := Remove(lists[h], i)];
    }

    method ListEmpty(h: int) returns (empty: bool)
      requires Valid() && h in lists
      ensures empty <==> lists[h] == []
    {
      empty := next[h] == h;
    }

    /** list_first */
    method First(h: int) returns (x: int)
      requires Valid() && h in lists
      ensures x == At(h, lists[h], 0)
    {
      x := next[h];
    }
  }
}
