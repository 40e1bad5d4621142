/** copy_data (utils.c): a word phase followed by a byte phase. */
module CopyData {
  import opened Space

  /** What copying byte by byte, upwards, makes of the memory. */
  ghost function ByteCopy(mem: seq<Byte>, src: nat, dst: nat, size: nat): (r: seq<Byte>)
    requires src + size <= |mem| && dst + size <= |mem|
    ensures |r| == |mem|
  {
    if size == 0 then mem
    else
      var r := ByteCopy(mem, src, dst, size - 1);
      r[dst + size - 1 := r[src + size - 1]]
  }

  /** One round of the word loop: four bytes are read before any of them is written. */
  ghost function WordStep(mem: seq<Byte>, src: nat, dst: nat): (r: seq<Byte>)
    requires src + 4 <= |mem| && dst + 4 <= |mem|
    ensures |r| == |mem|
  {
    mem[dst := mem[src]][dst + 1 := mem[src + 1]][dst + 2 := mem[src + 2]][dst + 3 := mem[src + 3]]
  }

  /** Bytes written by the first n words, and after them byte by byte. */
  ghost function WordCopy(mem: seq<Byte>, src: nat, dst: nat, words: nat): (r: seq<Byte>)
    requires src + 4 * words <= |mem| && dst + 4 * words <= |mem|
    ensures |r| == |mem|
  {
    if words == 0 then mem
    else WordStep(WordCopy(mem, src, dst, words - 1), src + 4 * (words - 1), dst + 4 * (words - 1))
  }

  /** How many words copy_data moves: the loop runs while more than four bytes are left. */
  ghost function Words(size: nat): nat {
    if size == 0 then 0 else (size - 1) / 4
  }

  /** The result of copy_data. */
  ghost function Copied(mem: seq<Byte>, src: nat, dst: nat, size: nat): (r: seq<Byte>)
    requires src + size <= |mem| && dst + size <= |mem|
    ensures |r| == |mem|
  {
    var w := 4 * Words(size);
    ByteCopy(WordCopy(mem, src, dst, Words(size)), src + w, dst + w, size - w)
  }

  lemma {:induction false} ByteCopySplit(mem: seq<Byte>, src: nat, dst: nat, a: nat, b: nat)
    requires src + a + b <= |mem| && dst + a + b <= |mem|
    ensures ByteCopy(ByteCopy(mem, src, dst, a), src + a, dst + a, b) == ByteCopy(mem, src, dst, a + b)
  {
    if b > 0 {
      ByteCopySplit(mem, src, dst, a, b - 1);
    }
  }

  /** A word written at once equals four bytes one after the other, unless the destination starts less
      than a word above the source. */
  lemma WordIsBytes(mem: seq<Byte>, src: nat, dst: nat)
    requires src + 4 <= |mem| && dst + 4 <= |mem| && !(src < dst < src + 4)
    ensures WordStep(mem, src, dst) == ByteCopy(mem, src, dst, 4)
  {
    var m0 := ByteCopy(mem, src, dst, 0);
    var m1 := ByteCopy(mem, src, dst, 1);
    var m2 := ByteCopy(mem, src, dst, 2);
    var m3 := ByteCopy(mem, src, dst, 3);
    assert m1 == mem[dst := mem[src]];
    assert m2 == m1[dst + 1 := mem[src + 1]];
    assert m3 == m2[dst + 2 := mem[src + 2]];
  }

  lemma {:induction false} WordsAreBytes(mem: seq<Byte>, src: nat, dst: nat, words: nat)
    requires src + 4 * words <= |mem| && dst + 4 * words <= |mem| && !(src < dst < src + 4)
    ensures WordCopy(mem, src, dst, words) == ByteCopy(mem, src, dst, 4 * words)
  {
    if words > 0 {
      WordsAreBytes(mem, src, dst, words - 1);
      WordIsBytes(WordCopy(mem, src, dst, words - 1), src + 4 * (words - 1), dst + 4 * (words - 1));
      ByteCopySplit(mem, src, dst, 4 * (words - 1), 4);
    }
  }

  /** copy_data equals a byte-by-byte copy, for every size, unless the destination starts less than a word
      above the source. */
  lemma CopiedIsByteCopy(mem: seq<Byte>, src: nat, dst: nat, size: nat)
    requires src + size <= |mem| && dst + size <= |mem| && !(src < dst < src + 4)
    ensures Copied(mem, src, dst, size) == ByteCopy(mem, src, dst, size)
  {
    hide ByteCopy, WordCopy, Words;
    WordsFit(size);
    CopiedIs(mem, src, dst, size, Words(size));
    WordsAreBytes(mem, src, dst, Words(size));
    ByteCopySplit(mem, src, dst, 4 * Words(size), size - 4 * Words(size));
  }

  lemma WordsFit(size: nat)
    ensures 4 * Words(size) <= size
  {
  }

  lemma CopiedIs(mem: seq<Byte>, src: nat, dst: nat, size: nat, words: nat)
    requires src + size <= |mem| && dst + size <= |mem| && words == Words(size) && 4 * words <= size
    ensures Copied(mem, src, dst, size)
            == ByteCopy(WordCopy(mem, src, dst, words), src + 4 * words, dst + 4 * words, size - 4 * words)
  {
    hide ByteCopy, WordCopy, Words;
  }

  /** What a byte-by-byte copy leaves alone, and what it writes when it does not overwrite its source. */
  lemma {:induction false} ByteCopyAt(mem: seq<Byte>, src: nat, dst: nat, size: nat, a: nat)
    requires src + size <= |mem| && dst + size <= |mem| && a < |mem|
    ensures !(dst <= a < dst + size) ==> ByteCopy(mem, src, dst, size)[a] == mem[a]
    ensures dst <= a < dst + size && (dst + size <= src || src + size <= dst) ==>
              ByteCopy(mem, src, dst, size)[a] == mem[src + (a - dst)]
  {
    if size > 0 {
      ByteCopyAt(mem, src, dst, size - 1, a);
      ByteCopyAt(mem, src, dst, size - 1, src + size - 1);
    }
  }

  /** Between disjoint regions copy_data is a block move. */
  lemma BlockMove(mem: seq<Byte>, src: nat, dst: nat, size: nat)
    requires src + size <= |mem| && dst + size <= |mem| && (dst + size <= src || src + size <= dst)
    ensures Copied(mem, src, dst, size) == mem[..dst] + mem[src..src + size] + mem[dst + size..]
  {
    var r := Copied(mem, src, dst, size);
    if src < dst < src + 4 {
      SmallCopy(mem, src, dst, size);
    } else {
      CopiedIsByteCopy(mem, src, dst, size);
    }
    forall a | 0 <= a < |mem| ensures r[a] == (mem[..dst] + mem[src..src + size] + mem[dst + size..])[a] {
      ByteCopyAt(mem, src, dst, size, a);
    }
  }

  /** Up to four bytes are copied by the byte loop alone. */
  lemma SmallCopy(mem: seq<Byte>, src: nat, dst: nat, size: nat)
    requires src + size <= |mem| && dst + size <= |mem| && size <= 4
    ensures Copied(mem, src, dst, size) == ByteCopy(mem, src, dst, size)
  {
    assert Words(size) == 0;
  }

  /** Exactly when copy_data is a byte-by-byte copy whatever the memory contains. */
  lemma ByteCopyIff(length: nat, src: nat, dst: nat, size: nat)
    requires src + size <= length && dst + size <= length
    ensures (forall mem: seq<Byte> :: |mem| == length ==> Copied(mem, src, dst, size) == ByteCopy(mem, src, dst, size))
            <==> size <= 4 || !(src < dst < src + 4)
  {
    hide Copied, ByteCopy;
    if size <= 4 || !(src < dst < src + 4) {
      forall mem: seq<Byte> | |mem| == length ensures Copied(mem, src, dst, size) == ByteCopy(mem, src, dst, size) {
        SameCopy(mem, src, dst, size);
      }
    } else {
      Differs(Spike(length, src), src, dst, size);
    }
  }

  lemma SameCopy(mem: seq<Byte>, src: nat, dst: nat, size: nat)
    requires src + size <= |mem| && dst + size <= |mem| && (size <= 4 || !(src < dst < src + 4))
    ensures Copied(mem, src, dst, size) == ByteCopy(mem, src, dst, size)
  {
    hide Copied, ByteCopy;
    if size <= 4 {
      SmallCopy(mem, src, dst, size);
    } else {
      CopiedIsByteCopy(mem, src, dst, size);
    }
  }

  /** A memory whose only non-zero byte is at `at`. */
  ghost function Spike(length: nat, at: nat): (mem: seq<Byte>)
    ensures |mem| == length && forall i :: 0 <= i < length ==> mem[i] == if i == at then 1 else 0
  {
    seq(length, i => if i == at then 1 else 0)
  }

  /** A byte copy drags the first source byte along to dst + (dst - src); copy_data does not. */
  lemma Differs(mem: seq<Byte>, src: nat, dst: nat, size: nat)
    requires src + size <= |mem| && dst + size <= |mem| && size > 4 && src < dst < src + 4
    requires forall i :: 0 <= i < |mem| ==> mem[i] == if i == src then 1 else 0
    ensures Copied(mem, src, dst, size) != ByteCopy(mem, src, dst, size)
  {
    var d := dst - src;
    var w := 4 * Words(size);
    ByteCopyPrefix(mem, src, dst, d + 1, size, dst + d);
    ByteCopyPrefix(mem, src, dst, 1, d, dst);
    assert ByteCopy(mem, src, dst, 1)[dst] == 1;
    WordCopyPrefix(mem, src, dst, Words(size), dst + d);
    ByteCopyAt(WordCopy(mem, src, dst, Words(size)), src + w, dst + w, size - w, dst + d);
  }

  /** A byte copy never writes below its current position again. */
  lemma {:induction false} ByteCopyPrefix(mem: seq<Byte>, src: nat, dst: nat, a: nat, b: nat, x: nat)
    requires a <= b && src + b <= |mem| && dst + b <= |mem| && x < dst + a
    ensures ByteCopy(mem, src, dst, b)[x] == ByteCopy(mem, src, dst, a)[x]
  {
    if a < b {
      ByteCopyPrefix(mem, src, dst, a, b - 1, x);
    }
  }

  lemma {:induction false} WordCopyPrefix(mem: seq<Byte>, src: nat, dst: nat, words: nat, x: nat)
    requires words >= 1 && src + 4 * words <= |mem| && dst + 4 * words <= |mem| && x < dst + 4
    ensures WordCopy(mem, src, dst, words)[x] == WordStep(mem, src, dst)[x]
  {
    if words > 1 {
      WordCopyPrefix(mem, src, dst, words - 1, x);
    } else {
      assert WordCopy(mem, src, dst, 0) == mem;
    }
  }

  /** `size` is an int in C: for size <= 0 nothing is copied. */
  ghost function Amount(size: int): nat {
    if size > 0 then size else 0
  }

  lemma NextWord(mem: seq<Byte>, src: nat, dst: nat, n: nat)
    requires src + 4 * n + 4 <= |mem| && dst + 4 * n + 4 <= |mem|
    ensures WordCopy(mem, src, dst, n + 1) == WordStep(WordCopy(mem, src, dst, n), src + 4 * n, dst + 4 * n)
  {
  }

  lemma NextByte(mem: seq<Byte>, src: nat, dst: nat, n: nat)
    requires src + n + 1 <= |mem| && dst + n + 1 <= |mem|
    ensures ByteCopy(mem, src, dst, n + 1) == ByteCopy(mem, src, dst, n)[dst + n := ByteCopy(mem, src, dst, n)[src + n]]
  {
  }

  /** copy_data: the two loops. */
  method CopyBytes(mem: array<Byte>, start: nat, dest: nat, size: int)
    requires start + Amount(size) <= mem.Length && dest + Amount(size) <= mem.Length
    modifies mem
    ensures mem[..] == Copied(old(mem[..]), start, dest, Amount(size))
  {
    hide WordCopy, ByteCopy;
    ghost var mem0 := mem[..];
    NoCopy(mem0, start, dest);
    var p, q, left := start, dest, size;
    ghost var n: nat := 0;
    while left > 4
      invariant left == size - 4 * n && n <= Words(Amount(size))
      invariant p == start + 4 * n && q == dest + 4 * n
      invariant mem[..] == WordCopy(mem0, start, dest, n)
      decreases left
    {
      NextWord(mem0, start, dest, n);
      mem[q], mem[q + 1], mem[q + 2], mem[q + 3] := mem[p], mem[p + 1], mem[p + 2], mem[p + 3];
      p, q, left := p + 4, q + 4, left - 4;
      n := n + 1;
    }
    assert n == Words(Amount(size));
    ghost var mem1, p1, q1, total: nat := mem[..], p, q, Amount(left);
    NoCopy(mem1, p, q);
    ghost var b: nat := 0;
    while left > 0
      invariant 0 <= b <= total && (total > 0 ==> left == total - b) && (total == 0 ==> left <= 0)
      invariant p == p1 + b && q == q1 + b
      invariant mem[..] == ByteCopy(mem1, p1, q1, b)
      decreases left
    {
      NextByte(mem1, p1, q1, b);
      mem[q] := mem[p];
      p, q, left := p + 1, q + 1, left - 1;
      b := b + 1;
    }
  }

  lemma NoCopy(mem: seq<Byte>, src: nat, dst: nat)
    requires src <= |mem| && dst <= |mem|
    ensures WordCopy(mem, src, dst, 0) == mem && ByteCopy(mem, src, dst, 0) == mem
  {
  }
}
