/** split_filename (sys.c) and extractFilename (fat32.c): two readings of a path. */
module Paths {
  const NUL: char := '\0'
  const NAME: int := 11

  /** A component of a path. */
  ghost predicate Name(c: string) {
    '/' !in c && NUL !in c
  }

  ghost predicate Names(cs: seq<string>) {
    forall i :: 0 <= i < |cs| ==> Name(cs[i])
  }

  /** The absolute path with components cs. */
  ghost function Join(cs: seq<string>): string {
    if cs == [] then "" else "/" + cs[0] + Join(cs[1..])
  }

  ghost function Spaces(n: nat): (s: string)
    ensures |s| == n && forall i :: 0 <= i < n ==> s[i] == ' '
  {
    seq(n, _ => ' ')
  }

  ghost function Gap(n: int): nat {
    if n < NAME then NAME - n else 0
  }

  /** A name, filled up with blanks to 11 characters if it has fewer. */
  ghost function Pad(c: string): (p: string)
    ensures |p| == |c| + Gap(|c|)
  {
    c + Spaces(Gap(|c|))
  }

  /** The part of a name that extractFilename looks at. */
  ghost function Cut(c: string): (d: string)
    ensures |d| <= NAME && |d| <= |c|
  {
    if |c| <= NAME then c else c[..NAME]
  }

  ghost function Pads(cs: seq<string>): (ps: seq<string>)
    requires Names(cs)
    ensures |ps| == |cs| && Names(ps) && forall i :: 0 <= i < |cs| ==> ps[i] == Pad(cs[i])
  {
    seq(|cs|, i requires 0 <= i < |cs| => Pad(cs[i]))
  }

  /** The string in a buffer that holds s and its terminator. */
  ghost predicate Holds(buffer: seq<char>, s: string) {
    |s| < |buffer| && buffer[..|s|] == s && buffer[|s|] == NUL && NUL !in s
  }

  /** The string at the start of a buffer: all up to the first terminator. */
  ghost function Text(buffer: seq<char>): (s: string)
    ensures NUL !in s && |s| <= |buffer| && s == buffer[..|s|]
    ensures |s| < |buffer| ==> buffer[|s|] == NUL
  {
    if buffer == [] || buffer[0] == NUL then "" else [buffer[0]] + Text(buffer[1..])
  }

  lemma {:induction false} TextIs(buffer: seq<char>, s: string)
    requires Holds(buffer, s)
    ensures Text(buffer) == s
  {
    if s != "" {
      assert buffer[..|s|][0] == s[0] && buffer[1..][..|s| - 1] == buffer[..|s|][1..];
      TextIs(buffer[1..], s[1..]);
    }
  }

  // ---- extractFilename ----

  /** The place behind the pos-th slash from i on, or -1 when the string ends before. */
  ghost function Skip(s: string, pos: int, i: nat): (r: int)
    requires i <= |s|
    ensures r == -1 || i <= r <= |s|
    decreases |s| - i
  {
    if pos <= 0 then i
    else if i == |s| then -1
    else Skip(s, if s[i] == '/' then pos - 1 else pos, i + 1)
  }

  /** The characters from i on up to the next slash, the end, or n of them. */
  ghost function NameAt(s: string, i: nat, n: nat): (r: string)
    requires i <= |s|
    ensures |r| <= n && i + |r| <= |s| && r == s[i..i + |r|] && '/' !in r
    ensures i + |r| == |s| || |r| == n || s[i + |r|] == '/'
    decreases n
  {
    if i == |s| || s[i] == '/' || n == 0 then "" else [s[i]] + NameAt(s, i + 1, n - 1)
  }

  datatype Extracted = NoEntry | Entry(name: string)

  ghost function Extract(s: string, pos: int): Extracted {
    var i := Skip(s, pos, 0);
    if i < 0 then NoEntry else Entry(Pad(NameAt(s, i, NAME)))
  }

  method ExtractFilename(path: array<char>, filename: array<char>, searchPos: int, ghost s: string) returns (r: int)
    requires Holds(path[..], s) && filename.Length >= NAME && filename != path
    modifies filename
    ensures r == (if Extract(s, searchPos).NoEntry? then -1 else 0)
    ensures filename[..NAME] == (if Extract(s, searchPos).NoEntry? then Spaces(NAME) else Extract(s, searchPos).name)
    ensures filename[NAME..] == old(filename[NAME..])
  {
    var i := 0;
    while i < NAME
      invariant 0 <= i <= NAME && forall x :: 0 <= x < i ==> filename[x] == ' '
      invariant filename[NAME..] == old(filename[NAME..])
    {
      filename[i] := ' ';
      i := i + 1;
    }
    assert filename[..NAME] == Spaces(NAME);
    var pathIt := SkipSlashes(path, searchPos, s);
    if pathIt < 0 {
      return -1;
    }
    CopyName(path, filename, pathIt, s);
    r := 0;
  }

  /** The second loop of extractFilename: where the entry starts, or -1. */
  method SkipSlashes(path: array<char>, searchPos: int, ghost s: string) returns (pathIt: int)
    requires Holds(path[..], s)
    ensures pathIt == Skip(s, searchPos, 0)
  {
    pathIt := 0;
    var slashes := 0;
    while slashes < searchPos
      invariant 0 <= pathIt <= |s|
      invariant Skip(s, searchPos, 0) == Skip(s, searchPos - slashes, pathIt)
      decreases |s| - pathIt
    {
      assert pathIt < |s| ==> path[..|s|][pathIt] == s[pathIt];
      if path[pathIt] == NUL {
        return -1;
      }
      if path[pathIt] == '/' {
        slashes := slashes + 1;
      }
      pathIt := pathIt + 1;
    }
  }

  /** The third loop of extractFilename. */
  method CopyName(path: array<char>, filename: array<char>, start: int, ghost s: string)
    requires Holds(path[..], s) && filename.Length >= NAME && filename != path && 0 <= start <= |s|
    requires filename[..NAME] == Spaces(NAME)
    modifies filename
    ensures filename[..NAME] == Pad(NameAt(s, start, NAME)) && filename[NAME..] == old(filename[NAME..])
  {
    hide Holds, NameAt, Pad;
    ghost var name := NameAt(s, start, NAME);
    CharAt(path[..], s, start);
    NameChar(s, start, 0);
    var pathIt, i := start, 0;
    while path[pathIt] != '/' && path[pathIt] != NUL && i < NAME
      invariant 0 <= i <= |name| && pathIt == start + i < path.Length
      invariant path[pathIt] == (if pathIt < |s| then s[pathIt] else NUL)
      invariant i == |name| <==> !(path[pathIt] != '/' && path[pathIt] != NUL && i < NAME)
      invariant filename[..NAME] == name[..i] + Spaces(NAME - i)
      invariant filename[NAME..] == old(filename[NAME..])
      decreases NAME - i
    {
      CharAt(path[..], s, pathIt + 1);
      NameChar(s, start, i);
      NameChar(s, start, i + 1);
      OneMore(filename[..NAME], name, i);
      ghost var before := filename[..NAME];
      filename[i] := path[pathIt];
      assert filename[..NAME] == before[i := name[i]];
      pathIt := pathIt + 1;
      i := i + 1;
    }
    PadIs(name);
    assert name[..i] == name;
  }

  lemma CharAt(buffer: seq<char>, s: string, i: nat)
    requires Holds(buffer, s) && i <= |s|
    ensures i < |buffer| && buffer[i] == (if i < |s| then s[i] else NUL) && (i < |s| ==> s[i] != NUL)
  {
    assert i < |s| ==> buffer[..|s|][i] == s[i];
  }

  lemma NameChar(s: string, start: nat, i: nat)
    requires start <= |s| && i <= |NameAt(s, start, NAME)|
    ensures var name := NameAt(s, start, NAME);
            && start + i <= |s|
            && (i < |name| ==> start + i < |s| && name[i] == s[start + i] && s[start + i] != '/' && i < NAME)
            && (i == |name| ==> start + i == |s| || s[start + i] == '/' || i == NAME)
  {
    var name := NameAt(s, start, NAME);
    assert i < |name| ==> name[i] in name;
  }

  lemma OneMore(before: string, name: string, i: nat)
    requires i < |name| <= NAME && before == name[..i] + Spaces(NAME - i)
    ensures before[i := name[i]] == name[..i + 1] + Spaces(NAME - (i + 1))
  {
  }

  lemma PadIs(c: string)
    ensures Pad(c) == c + Spaces(Gap(|c|))
  {
  }

  // ---- joined paths ----

  lemma {:induction false} JoinConcat(a: seq<string>, b: seq<string>)
    ensures Join(a + b) == Join(a) + Join(b)
  {
    if a == [] {
      assert a + b == b;
    } else {
      assert (a + b)[1..] == a[1..] + b;
      JoinConcat(a[1..], b);
    }
  }

  lemma JoinOne(c: string)
    ensures Join([c]) == "/" + c
  {
    assert [c][1..] == [];
    assert Join([c]) == "/" + c + Join([]);
  }

  lemma JoinFrom(cs: seq<string>, m: nat)
    requires m < |cs|
    ensures Join(cs[m..]) == "/" + cs[m] + Join(cs[m + 1..])
  {
    assert cs[m..][0] == cs[m] && cs[m..][1..] == cs[m + 1..];
  }

  /** The path around its component m. */
  lemma JoinAt(cs: seq<string>, m: nat)
    requires m < |cs|
    ensures Join(cs) == Join(cs[..m]) + ("/" + cs[m] + Join(cs[m + 1..]))
    ensures Join(cs[..m + 1]) == Join(cs[..m]) + ("/" + cs[m])
    ensures m + 1 < |cs| ==> Join(cs[m + 1..]) != "" && Join(cs[m + 1..])[0] == '/'
    ensures m + 1 == |cs| ==> Join(cs[m + 1..]) == ""
  {
    hide Join;
    JoinSplit(cs, m);
    JoinFrom(cs, m);
    JoinGrow(cs, m);
    JoinRest(cs, m);
  }

  lemma JoinSplit(cs: seq<string>, m: nat)
    requires m <= |cs|
    ensures Join(cs) == Join(cs[..m]) + Join(cs[m..])
  {
    hide Join;
    assert cs == cs[..m] + cs[m..];
    JoinConcat(cs[..m], cs[m..]);
  }

  lemma JoinGrow(cs: seq<string>, m: nat)
    requires m < |cs|
    ensures Join(cs[..m + 1]) == Join(cs[..m]) + ("/" + cs[m])
  {
    hide Join;
    assert cs[..m + 1] == cs[..m] + [cs[m]];
    JoinConcat(cs[..m], [cs[m]]);
    JoinOne(cs[m]);
  }

  lemma JoinRest(cs: seq<string>, m: nat)
    requires m < |cs|
    ensures m + 1 < |cs| ==> Join(cs[m + 1..]) != "" && Join(cs[m + 1..])[0] == '/'
    ensures m + 1 == |cs| ==> Join(cs[m + 1..]) == ""
  {
    hide Join;
    if m + 1 < |cs| {
      JoinFrom(cs, m + 1);
    } else {
      JoinEmpty();
      assert cs[m + 1..] == [];
    }
  }

  lemma JoinEmpty()
    ensures Join([]) == ""
  {
  }

  lemma {:induction false} JoinNoNul(cs: seq<string>)
    requires Names(cs)
    ensures NUL !in Join(cs)
  {
    if cs != [] {
      JoinNoNul(cs[1..]);
      assert Name(cs[0]);
    }
  }

  /** Character u of component m, or what follows the component. */
  lemma PathChar(cs: seq<string>, m: nat, u: nat)
    requires Names(cs) && m < |cs| && u <= |cs[m]|
    ensures var x := |Join(cs[..m])| + 1 + u;
            && x <= |Join(cs)|
            && (u < |cs[m]| ==> x < |Join(cs)| && Join(cs)[x] == cs[m][u] && cs[m][u] != '/' && cs[m][u] != NUL)
            && (u == |cs[m]| ==> x == |Join(cs[..m + 1])|)
            && (u == |cs[m]| && m + 1 < |cs| ==> x < |Join(cs)| && Join(cs)[x] == '/')
            && (u == |cs[m]| && m + 1 == |cs| ==> x == |Join(cs)|)
  {
    hide Join;
    JoinAt(cs, m);
    assert Name(cs[m]);
    assert u < |cs[m]| ==> cs[m][u] in cs[m];
  }

  // ---- extractFilename on joined paths ----

  /** Skipping over characters that are no slashes. */
  lemma {:induction false} SkipName(s: string, pos: int, i: nat, n: nat)
    requires i + n <= |s| && pos > 0 && '/' !in s[i..i + n]
    ensures Skip(s, pos, i) == Skip(s, pos, i + n)
    decreases n
  {
    if n > 0 {
      assert s[i] in s[i..i + n];
      assert s[i + 1..i + n] == s[i..i + n][1..];
      SkipName(s, pos, i + 1, n - 1);
    }
  }

  /** From the start of component m on, component m + pos is pos slashes away. */
  lemma {:induction false} SkipNames(cs: seq<string>, pos: nat, m: nat)
    requires Names(cs) && m <= |cs|
    ensures |Join(cs[..m])| <= |Join(cs)|
    ensures Skip(Join(cs), pos, |Join(cs[..m])|)
            == if pos == 0 then |Join(cs[..m])| else if m + pos <= |cs| then |Join(cs[..m + pos - 1])| + 1 else -1
    decreases pos
  {
    hide Join, Skip, Names;
    var s := Join(cs);
    if m == |cs| {
      assert cs[..m] == cs;
      SkipEnd(s, pos);
    } else {
      JoinAt(cs, m);
      var x := |Join(cs[..m])|;
      assert s[x] == '/';
      SkipSlash(s, pos, x);
      if pos > 1 {
        NameOf(cs, m);
        assert s[x + 1..x + 1 + |cs[m]|] == cs[m];
        SkipName(s, pos - 1, x + 1, |cs[m]|);
        SkipNames(cs, pos - 1, m + 1);
      }
    }
  }

  lemma NameOf(cs: seq<string>, m: nat)
    requires Names(cs) && m < |cs|
    ensures Name(cs[m])
  {
  }

  lemma SkipEnd(s: string, pos: nat)
    ensures Skip(s, pos, |s|) == if pos == 0 then |s| else -1
  {
  }

  lemma SkipSlash(s: string, pos: nat, i: nat)
    requires i < |s| && s[i] == '/'
    ensures Skip(s, pos, i) == (if pos == 0 then i else Skip(s, pos - 1, i + 1))
    ensures Skip(s, 0, i + 1) == i + 1
  {
  }

  lemma NameAtIs(s: string, x: nat, c: string)
    requires x + |c| <= |s| && s[x..x + |c|] == c && '/' !in c
    requires x + |c| == |s| || s[x + |c|] == '/'
    ensures NameAt(s, x, NAME) == Cut(c)
  {
    hide NameAt;
    var r := NameAt(s, x, NAME);
    var i := if |r| < |c| then |r| else |c|;
    NoSlash(s, x, c, i);
    NameChar(s, x, i);
    assert r == s[x..x + |c|][..|r|];
  }

  lemma NoSlash(s: string, x: nat, c: string, i: nat)
    requires x + |c| <= |s| && s[x..x + |c|] == c && '/' !in c && i <= |c|
    ensures i < |c| ==> s[x + i] != '/'
  {
    assert i < |c| ==> s[x + i] == s[x..x + |c|][i] && c[i] in c;
  }

  lemma NameAtJoin(cs: seq<string>, m: nat)
    requires Names(cs) && m < |cs|
    ensures |Join(cs[..m])| + 1 <= |Join(cs)|
    ensures NameAt(Join(cs), |Join(cs[..m])| + 1, NAME) == Cut(cs[m])
  {
    hide Join, NameAt, Names;
    var x := |Join(cs[..m])| + 1;
    JoinAt(cs, m);
    NameOf(cs, m);
    assert Join(cs)[x..x + |cs[m]|] == cs[m];
    NameAtIs(Join(cs), x, cs[m]);
  }

  /** extractFilename finds component pos of a path, cut off or filled up to 11 characters, and fails behind the last
      one. */
  lemma ExtractJoin(cs: seq<string>, pos: nat)
    requires Names(cs) && pos > 0
    ensures Extract(Join(cs), pos) == if pos <= |cs| then Entry(Pad(Cut(cs[pos - 1]))) else NoEntry
  {
    hide Join, Skip, NameAt, Pad, Names;
    JoinEmpty();
    assert cs[..0] == [];
    SkipNames(cs, pos, 0);
    if pos <= |cs| {
      NameOf(cs, pos - 1);
      NameAtJoin(cs, pos - 1);
    }
  }

  /** The code's answer for position 0 is blanks, not the slash that its comment promises. */
  lemma ExtractRoot(cs: seq<string>)
    ensures Extract(Join(cs), 0) == Entry(Spaces(NAME))
  {
    assert NameAt(Join(cs), 0, NAME) == "";
  }

  lemma {:induction false} SkipBehind(c: string, t: string, pos: int, i: nat)
    requires i <= |t|
    ensures Skip(c + t, pos, |c| + i) == if Skip(t, pos, i) < 0 then -1 else |c| + Skip(t, pos, i)
    decreases |t| - i
  {
    if pos > 0 && i < |t| {
      assert (c + t)[|c| + i] == t[i];
      SkipBehind(c, t, if t[i] == '/' then pos - 1 else pos, i + 1);
    }
  }

  lemma {:induction false} SkipOver(c: string, t: string, pos: int, i: nat)
    requires Name(c) && pos > 0 && i <= |c|
    ensures Skip(c + t, pos, i) == Skip(c + t, pos, |c|)
    decreases |c| - i
  {
    if i < |c| {
      assert (c + t)[i] == c[i] && c[i] in c;
      SkipOver(c, t, pos, i + 1);
    }
  }

  lemma {:induction false} NameBehind(c: string, t: string, i: nat, n: nat)
    requires i <= |t|
    ensures NameAt(c + t, |c| + i, n) == NameAt(t, i, n)
    decreases n
  {
    if i < |t| && n > 0 {
      assert (c + t)[|c| + i] == t[i];
      NameBehind(c, t, i + 1, n - 1);
    }
  }

  /** The same for every string, with what stands in front of its first slash: that is the entry at position 0. */
  lemma ExtractIff(c: string, cs: seq<string>, pos: int)
    requires Name(c) && Names(cs)
    ensures Extract(c + Join(cs), pos) ==
            if pos <= 0 then Entry(Pad(Cut(c))) else if pos <= |cs| then Entry(Pad(Cut(cs[pos - 1]))) else NoEntry
  {
    hide Join, Pad, Names, Name, Skip, NameAt, Cut, Extract;
    if pos <= 0 {
      FrontEntry(c, cs, pos);
    } else {
      ExtractJoin(cs, pos);
      ExtractBehind(c, Join(cs), pos);
    }
  }

  lemma FrontEntry(c: string, cs: seq<string>, pos: int)
    requires Name(c) && pos <= 0
    ensures Extract(c + Join(cs), pos) == Entry(Pad(Cut(c)))
  {
    hide Join, Pad, Skip, NameAt;
    var s := c + Join(cs);
    FirstSlashAt(cs);
    SkipNothing(s, pos);
    assert s[0..|c|] == c;
    NameAtIs(s, 0, c);
  }

  lemma ExtractBehind(c: string, t: string, pos: int)
    requires Name(c) && pos > 0
    ensures Extract(c + t, pos) == Extract(t, pos)
  {
    hide Pad, Skip, NameAt, Name;
    SkipOver(c, t, pos, 0);
    SkipBehind(c, t, pos, 0);
    if Skip(t, pos, 0) >= 0 {
      NameBehind(c, t, Skip(t, pos, 0), NAME);
    }
  }

  lemma SkipNothing(s: string, pos: int)
    requires pos <= 0
    ensures Skip(s, pos, 0) == 0
  {
  }

  lemma FirstSlashAt(cs: seq<string>)
    ensures Join(cs) == "" || Join(cs)[0] == '/'
  {
  }

  // ---- split_filename ----

  /** The directory part after u characters of component m: full components are filled up with blanks. */
  ghost function Sofar(cs: seq<string>, m: nat, u: nat): (d: string)
    requires Names(cs) && m < |cs| && u <= |cs[m]|
    ensures |d| == |Join(Pads(cs[..m]))| + 1 + u && d[0] == '/'
  {
    FirstSlash(Pads(cs[..m]), cs[m][..u]);
    Join(Pads(cs[..m])) + ("/" + cs[m][..u])
  }

  lemma FirstSlash(ps: seq<string>, c: string)
    ensures (Join(ps) + ("/" + c))[0] == '/'
  {
  }

  /** Where component m starts in the directory. */
  ghost function At(cs: seq<string>, m: nat): nat
    requires Names(cs) && m <= |cs|
  {
    |Join(Pads(cs[..m]))|
  }

  lemma AtNext(cs: seq<string>, m: nat)
    requires Names(cs) && m < |cs|
    ensures At(cs, m + 1) == At(cs, m) + 1 + |cs[m]| + Gap(|cs[m]|)
  {
    hide Join;
    assert Pads(cs[..m + 1]) == Pads(cs[..m]) + [Pad(cs[m])];
    JoinConcat(Pads(cs[..m]), [Pad(cs[m])]);
    JoinOne(Pad(cs[m]));
  }

  lemma {:induction false} AtGrows(cs: seq<string>, m: nat, n: nat)
    requires Names(cs) && m <= n <= |cs|
    ensures At(cs, m) <= At(cs, n)
    decreases n - m
  {
    hide At;
    if m < n {
      AtNext(cs, m);
      AtGrows(cs, m + 1, n);
    }
  }

  /** The index right behind the last character that split_filename copies. */
  ghost function End(cs: seq<string>): int
    requires Names(cs) && |cs| >= 1
  {
    At(cs, |cs| - 1) + 1 + |cs[|cs| - 1]|
  }

  lemma SofarChar(cs: seq<string>, m: nat, u: nat)
    requires Names(cs) && m < |cs| && u < |cs[m]|
    ensures Sofar(cs, m, u + 1) == Sofar(cs, m, u) + [cs[m][u]]
  {
    hide Join;
    assert cs[m][..u + 1] == cs[m][..u] + [cs[m][u]];
  }

  lemma SofarSlash(cs: seq<string>, m: nat)
    requires Names(cs) && m + 1 < |cs|
    ensures Sofar(cs, m + 1, 0) == Sofar(cs, m, |cs[m]|) + Spaces(Gap(|cs[m]|)) + "/"
  {
    hide Join;
    assert Pads(cs[..m + 1]) == Pads(cs[..m]) + [Pad(cs[m])];
    JoinConcat(Pads(cs[..m]), [Pad(cs[m])]);
    JoinOne(Pad(cs[m]));
    assert cs[m][..|cs[m]|] == cs[m];
    assert cs[m + 1][..0] == "";
  }

  /** The buffer with the name c at its start and blanks behind it, up to `width`. */
  ghost function Lay(buffer: seq<char>, c: string, width: int): (r: seq<char>)
    requires |c| <= |buffer| && width <= |buffer|
    ensures |r| == |buffer|
    ensures forall y :: 0 <= y < |r| ==> r[y] == if y < |c| then c[y] else if y < width then ' ' else buffer[y]
  {
    seq(|buffer|, y requires 0 <= y < |buffer| => if y < |c| then c[y] else if y < width then ' ' else buffer[y])
  }

  lemma LayNothing(buffer: seq<char>)
    ensures Lay(buffer, "", 0) == buffer
  {
  }

  lemma LayChar(buffer: seq<char>, c: string, u: nat)
    requires u < |c| <= |buffer|
    ensures Lay(buffer, c[..u], 0)[u := c[u]] == Lay(buffer, c[..u + 1], 0)
  {
  }

  lemma LayEnd(buffer: seq<char>, cs: seq<string>, m: nat, names: seq<char>)
    requires Room(cs, |names|) && m < |cs| && buffer == Laid(names, cs, m)
    ensures var f := Lay(buffer, cs[m][..|cs[m]|], 0);
            f[..|cs[m]|] == cs[m] && Lay(f, f[..|cs[m]|], NAME) == Laid(names, cs, m + 1)
  {
  }

  ghost predicate Room(cs: seq<string>, size: int) {
    NAME < size && forall m :: 0 <= m < |cs| ==> |cs[m]| <= size
  }

  /** The buffer for the last name after m components. */
  ghost function Laid(buffer: seq<char>, cs: seq<string>, m: nat): (r: seq<char>)
    requires Room(cs, |buffer|) && m <= |cs|
    ensures |r| == |buffer|
  {
    if m == 0 then buffer else Lay(Laid(buffer, cs, m - 1), cs[m - 1], NAME)
  }

  lemma LayStart(buffer: seq<char>, cs: seq<string>)
    requires Room(cs, |buffer|) && |cs| >= 1
    ensures Lay(Laid(buffer, cs, 0), cs[0][..0], 0) == buffer
  {
    LayNothing(buffer);
  }

  /** The buffer for the last name after split_filename; the last loop runs one step further than the others. */
  ghost function Filename(buffer: seq<char>, cs: seq<string>): (r: seq<char>)
    requires Room(cs, |buffer|) && |cs| >= 1
    ensures |r| == |buffer|
  {
    Lay(Laid(buffer, cs, |cs| - 1), cs[|cs| - 1], NAME + 1)
  }

  /** The for loop that fills up a component. */
  method FillUp(directory: array<char>, filename: array<char>, dirIt: int, fileIt: int) returns (dirIt': int)
    requires directory != filename && 0 <= fileIt <= filename.Length && NAME <= filename.Length
    requires 1 <= dirIt && dirIt + Gap(fileIt) <= directory.Length
    modifies directory, filename
    ensures dirIt' == dirIt + Gap(fileIt)
    ensures directory[1..dirIt'] == old(directory[1..dirIt]) + Spaces(Gap(fileIt))
    ensures forall y :: dirIt' <= y < directory.Length ==> directory[y] == old(directory[y])
    ensures directory[0] == old(directory[0])
    ensures filename[..] == Lay(old(filename[..]), old(filename[..fileIt]), NAME)
  {
    dirIt' := dirIt;
    var i := fileIt;
    while i < NAME
      invariant fileIt <= i && (i <= NAME || i == fileIt) && dirIt' == dirIt + (i - fileIt)
      invariant forall y :: 0 <= y < directory.Length ==>
                  directory[y] == if dirIt <= y < dirIt' then ' ' else old(directory[y])
      invariant forall y :: 0 <= y < filename.Length ==>
                  filename[y] == if fileIt <= y < i then ' ' else old(filename[y])
    {
      directory[dirIt'] := ' ';
      filename[i] := ' ';
      i := i + 1;
      dirIt' := dirIt' + 1;
    }
  }

  /** What split_filename does at a slash. */
  method Close(directory: array<char>, filename: array<char>, dirIt: int, fileIt: int) returns (dirIt': int)
    requires directory != filename && 0 <= fileIt <= filename.Length && NAME <= filename.Length
    requires 1 <= dirIt && dirIt + Gap(fileIt) < directory.Length
    modifies directory, filename
    ensures dirIt' == dirIt + Gap(fileIt) + 1
    ensures ['/'] + directory[1..dirIt'] == ['/'] + old(directory[1..dirIt]) + Spaces(Gap(fileIt)) + "/"
    ensures forall y :: dirIt' <= y < directory.Length ==> directory[y] == old(directory[y])
    ensures directory[0] == old(directory[0])
    ensures filename[..] == Lay(old(filename[..]), old(filename[..fileIt]), NAME)
  {
    dirIt' := FillUp(directory, filename, dirIt, fileIt);
    ghost var before := directory[1..dirIt'];
    directory[dirIt'] := '/';
    dirIt' := dirIt' + 1;
    assert directory[1..dirIt'] == before + "/";
  }

  /** The buffers are large enough for the names and different from each other. */
  ghost predicate Buffers(path: array<char>, directory: array<char>, filename: array<char>, cs: seq<string>)
    reads path
  {
    && Names(cs) && |cs| >= 1 && Holds(path[..], Join(cs))
    && Room(cs, filename.Length) && directory.Length > End(cs)
    && path != directory && path != filename && directory != filename
  }

  /** The main loop of split_filename. */
  method CopyPath(path: array<char>, directory: array<char>, filename: array<char>, ghost cs: seq<string>)
    returns (dirIt: int, fileIt: int)
    requires Buffers(path, directory, filename, cs)
    modifies directory, filename
    ensures var n := |cs| - 1;
            && dirIt == End(cs) && fileIt == |cs[n]|
            && ['/'] + directory[1..dirIt] == Sofar(cs, n, fileIt)
            && filename[..] == Lay(Laid(old(filename[..]), cs, n), cs[n], 0)
            && directory[dirIt..] == old(directory[dirIt..]) && directory[0] == old(directory[0])
  {
    hide Join, Sofar, Names, Holds, At, Lay, Laid, Pads, Gap, Spaces, Pad;
    ghost var names := filename[..];
    LayStart(names, cs);
    var pathIt := 1;
    dirIt, fileIt := 1, 0;
    ghost var m: nat := 0;
    SofarStart(cs);
    RoomIn(cs, 0);
    PathChar(cs, 0, 0);
    CharAt(path[..], Join(cs), |Join(cs)|);
    while path[pathIt] != NUL
      invariant 0 <= m < |cs| && 0 <= fileIt <= |cs[m]| <= filename.Length
      invariant pathIt == |Join(cs[..m])| + 1 + fileIt <= |Join(cs)| < path.Length
      invariant dirIt == At(cs, m) + 1 + fileIt <= End(cs)
      invariant ['/'] + directory[1..dirIt] == Sofar(cs, m, fileIt)
      invariant filename[..] == Lay(Laid(names, cs, m), cs[m][..fileIt], 0)
      invariant directory[0] == old(directory[0])
      invariant forall y :: dirIt <= y < directory.Length ==> directory[y] == old(directory[y])
      decreases |Join(cs)| - pathIt
    {
      PathChar(cs, m, fileIt);
      CharAt(path[..], Join(cs), pathIt);
      if path[pathIt] == '/' {
        RoomFor(cs, m);
        SofarSlash(cs, m);
        LayEnd(Laid(names, cs, m), cs, m, names);
        dirIt := Close(directory, filename, dirIt, fileIt);
        LayNothing(Laid(names, cs, m + 1));
        pathIt := pathIt + 1;
        fileIt := 0;
        m := m + 1;
      } else {
        RoomIn(cs, m);
        SofarChar(cs, m, fileIt);
        LayChar(Laid(names, cs, m), cs[m], fileIt);
        directory[dirIt] := path[pathIt];
        filename[fileIt] := path[pathIt];
        pathIt := pathIt + 1;
        dirIt := dirIt + 1;
        fileIt := fileIt + 1;
      }
    }
    PathChar(cs, m, fileIt);
    CharAt(path[..], Join(cs), pathIt);
    assert cs[m][..fileIt] == cs[m];
  }

  /** A component that is not the last one ends, filled up, before the end of the directory. */
  lemma RoomFor(cs: seq<string>, m: nat)
    requires Names(cs) && m + 1 < |cs|
    ensures At(cs, m + 1) == At(cs, m) + 1 + |cs[m]| + Gap(|cs[m]|) && At(cs, m + 1) + 1 <= End(cs)
  {
    hide At;
    AtNext(cs, m);
    AtGrows(cs, m + 1, |cs| - 1);
  }

  lemma RoomIn(cs: seq<string>, m: nat)
    requires Names(cs) && m < |cs|
    ensures At(cs, m) + 1 + |cs[m]| <= End(cs)
  {
    hide At;
    if m + 1 < |cs| {
      RoomFor(cs, m);
    }
  }

  lemma SofarStart(cs: seq<string>)
    requires Names(cs) && |cs| >= 1
    ensures Sofar(cs, 0, 0) == "/" && Join(cs[..0]) == "" && At(cs, 0) == 0
  {
    assert cs[..0] == [] && Pads([]) == [];
    assert cs[0][..0] == "";
  }

  /** Where split_filename puts the terminator: behind the last name if the buffer held a slash there, else in place
      of the slash in front of it. */
  ghost function Cutoff(cs: seq<string>, tail: seq<char>): int
    requires Names(cs) && |cs| >= 1 && |tail| >= 1
  {
    if tail[0] == '/' then End(cs) else At(cs, |cs| - 1)
  }

  /** The directory buffer after split_filename, where `tail` is what it held behind the last character copied. */
  ghost function Left(cs: seq<string>, tail: seq<char>): (buffer: seq<char>)
    requires Names(cs) && |cs| >= 1 && |tail| >= 1
    ensures |buffer| == End(cs) + |tail|
  {
    var n := |cs| - 1;
    assert |Sofar(cs, n, |cs[n]|)| == End(cs);
    (Sofar(cs, n, |cs[n]|) + tail)[Cutoff(cs, tail) := NUL][0 := '/']
  }

  /** The directory that split_filename leaves. */
  ghost function Directory(cs: seq<string>, tail: seq<char>): string
    requires Names(cs) && |cs| >= 1 && |tail| >= 1
  {
    Text(Left(cs, tail))
  }

  /** split_filename.  For a path of one component the search for the last slash runs down to the first byte of the
      directory, which the function has not set yet; unless that is a slash it leaves the buffer. */
  method SplitFilename(path: array<char>, directory: array<char>, filename: array<char>, ghost cs: seq<string>)
    requires Buffers(path, directory, filename, cs)
    requires |cs| == 1 ==> directory[0] == '/' || directory[End(cs)] == '/'
    modifies directory, filename
    ensures filename[..] == Filename(old(filename[..]), cs)
    ensures directory[..] == Left(cs, old(directory[End(cs)..]))
  {
    hide Join, Sofar, Names, Holds, At;
    ghost var n, tail := |cs| - 1, directory[End(cs)..];
    ghost var d := Sofar(cs, n, |cs[n]|);
    DirectoryFacts(cs);
    var dirIt, fileIt := CopyPath(path, directory, filename, cs);
    FillRest(filename, fileIt);
    while directory[dirIt] != '/'
      invariant At(cs, n) <= dirIt <= End(cs) && (dirIt < End(cs) ==> tail[0] != '/')
      invariant ['/'] + directory[1..End(cs)] == d && directory[End(cs)..] == tail
      invariant n == 0 && tail[0] != '/' ==> directory[0] == '/'
      decreases dirIt
    {
      assert dirIt == End(cs) ==> directory[dirIt] == directory[End(cs)..][0];
      assert dirIt > 0 && dirIt < End(cs) ==> directory[dirIt] == (['/'] + directory[1..End(cs)])[dirIt];
      assert At(cs, n) > 0 ==> directory[At(cs, n)] == (['/'] + directory[1..End(cs)])[At(cs, n)];
      dirIt := dirIt - 1;
    }
    assert dirIt == End(cs) ==> directory[dirIt] == directory[End(cs)..][0];
    assert dirIt > 0 && dirIt < End(cs) ==> directory[dirIt] == (['/'] + directory[1..End(cs)])[dirIt];
    assert dirIt == Cutoff(cs, tail);
    Terminated(directory[..], cs, tail);
    directory[dirIt] := NUL;
    directory[0] := '/';
  }

  lemma Terminated(buffer: seq<char>, cs: seq<string>, tail: seq<char>)
    requires Names(cs) && |cs| >= 1 && |tail| >= 1 && |buffer| == End(cs) + |tail| && buffer[End(cs)..] == tail
    requires ['/'] + buffer[1..End(cs)] == Sofar(cs, |cs| - 1, |cs[|cs| - 1]|)
    ensures 0 <= Cutoff(cs, tail) < |buffer| && buffer[Cutoff(cs, tail) := NUL][0 := '/'] == Left(cs, tail)
  {
    hide Join, Sofar, Names, At;
    assert buffer == buffer[..1] + buffer[1..End(cs)] + buffer[End(cs)..];
  }

  /** The last for loop of split_filename. */
  method FillRest(filename: array<char>, fileIt: int)
    requires 0 <= fileIt && filename.Length > NAME
    modifies filename
    ensures forall y :: 0 <= y < filename.Length ==>
              filename[y] == if fileIt <= y <= NAME then ' ' else old(filename[y])
  {
    var i := fileIt;
    while i <= NAME
      invariant fileIt <= i && (i <= NAME + 1 || i == fileIt)
      invariant forall y :: 0 <= y < filename.Length ==>
                  filename[y] == if fileIt <= y < i then ' ' else old(filename[y])
    {
      filename[i] := ' ';
      i := i + 1;
    }
  }

  /** The buffer then holds the last name, cut off or filled up to 11 characters for its reader. */
  lemma LastName(buffer: seq<char>, cs: seq<string>)
    requires Room(cs, |buffer|) && |cs| >= 1
    ensures var c, f := cs[|cs| - 1], Filename(buffer, cs);
            f[..|c|] == c && f[..NAME] == Pad(Cut(c)) && (|c| <= NAME ==> f[NAME] == ' ')
  {
  }

  /** Exactly the first bytes of that buffer may change: 12 of them, or as many as the longest name has.  So a buffer
      of 11 bytes is too short for every path. */
  lemma FilenameReach(cs: seq<string>, size: int, y: int)
    requires Room(cs, size) && |cs| >= 1 && 0 <= y < size
    ensures (forall buffer: seq<char> :: |buffer| == size ==> Filename(buffer, cs)[y] == buffer[y])
            <==> NAME < y && forall m :: 0 <= m < |cs| ==> |cs[m]| <= y
  {
    hide Laid, Filename;
    var n := |cs| - 1;
    if NAME < y && forall m :: 0 <= m < |cs| ==> |cs[m]| <= y {
      forall buffer: seq<char> | |buffer| == size ensures Filename(buffer, cs)[y] == buffer[y] {
        LaidKept(buffer, cs, n, y);
        FilenameAt(buffer, cs, y);
      }
    } else {
      var a, b := seq(size, _ => 'a'), seq(size, _ => 'b');
      FilenameAt(a, cs, y);
      FilenameAt(b, cs, y);
      if NAME < y && |cs[n]| <= y {
        var m :| 0 <= m < |cs| && |cs[m]| > y;
        LaidOver(a, b, cs, n, m, y);
      }
      assert Filename(a, cs)[y] == Filename(b, cs)[y];
      assert Filename(a, cs)[y] != a[y] || Filename(b, cs)[y] != b[y];
    }
  }

  lemma FilenameAt(buffer: seq<char>, cs: seq<string>, y: int)
    requires Room(cs, |buffer|) && |cs| >= 1 && 0 <= y < |buffer|
    ensures var n, c := |cs| - 1, cs[|cs| - 1];
            Filename(buffer, cs)[y] ==
              if y < |c| then c[y] else if y <= NAME then ' ' else Laid(buffer, cs, n)[y]
  {
    hide Laid;
  }

  lemma {:induction false} LaidKept(buffer: seq<char>, cs: seq<string>, m: nat, y: int)
    requires Room(cs, |buffer|) && m <= |cs| && NAME < y < |buffer| && forall i :: 0 <= i < m ==> |cs[i]| <= y
    ensures Laid(buffer, cs, m)[y] == buffer[y]
  {
    if m > 0 {
      LaidKept(buffer, cs, m - 1, y);
    }
  }

  lemma {:induction false} LaidOver(a: seq<char>, b: seq<char>, cs: seq<string>, m: nat, i: nat, y: int)
    requires Room(cs, |a|) && |a| == |b| && i < m <= |cs| && 0 <= y < |cs[i]|
    ensures Laid(a, cs, m)[y] == Laid(b, cs, m)[y]
  {
    if i < m - 1 {
      LaidOver(a, b, cs, m - 1, i, y);
    }
  }

  /** Where the slashes of the copied directory are. */
  lemma DirectoryFacts(cs: seq<string>)
    requires Names(cs) && |cs| >= 1
    ensures var n, d := |cs| - 1, Sofar(cs, |cs| - 1, |cs[|cs| - 1]|);
            && |d| == End(cs) && d[At(cs, n)] == '/'
            && (forall y :: At(cs, n) < y < |d| ==> d[y] != '/')
            && (n == 0 <==> At(cs, n) == 0) && (n == 0 ==> d == "/" + cs[0])
  {
    hide Join;
    var n := |cs| - 1;
    NameOf(cs, n);
    assert cs[n][..|cs[n]|] == cs[n];
    forall y | At(cs, n) < y < |Sofar(cs, n, |cs[n]|)| ensures Sofar(cs, n, |cs[n]|)[y] != '/' {
      assert Sofar(cs, n, |cs[n]|)[y] == cs[n][y - At(cs, n) - 1];
      assert cs[n][y - At(cs, n) - 1] in cs[n];
    }
    SofarStart(cs);
    if n > 0 {
      AtNext(cs, n - 1);
    } else {
      assert cs[..0] == [] && Pads([]) == [];
      JoinEmpty();
    }
  }

  /** The directory as a joined path: with the last component, without it, or, for a path of one component, with that
      and whatever the buffer held behind it. */
  lemma DirectoryIs(cs: seq<string>, tail: seq<char>)
    requires Names(cs) && |cs| >= 1 && |tail| >= 1
    ensures Names(Pads(cs[..|cs| - 1]) + [cs[|cs| - 1]])
    ensures var n := |cs| - 1;
            Directory(cs, tail) == if tail[0] == '/' then Join(Pads(cs[..n]) + [cs[n]])
                                   else if n > 0 then Join(Pads(cs[..n]))
                                   else "/" + cs[0] + Text(tail)
  {
    hide Join, Text, Sofar, Left;
    var n := |cs| - 1;
    NameOf(cs, n);
    DirectoryFacts(cs);
    if tail[0] == '/' {
      WithLast(cs, tail);
    } else if n > 0 {
      WithoutLast(cs, tail);
    } else {
      assert Left(cs, tail) == "/" + cs[0] + tail by { LeftOne(cs, tail); }
      TextBehind("/" + cs[0], tail);
    }
  }

  lemma WithLast(cs: seq<string>, tail: seq<char>)
    requires Names(cs) && |cs| >= 1 && |tail| >= 1 && tail[0] == '/' && Names(Pads(cs[..|cs| - 1]) + [cs[|cs| - 1]])
    ensures Directory(cs, tail) == Join(Pads(cs[..|cs| - 1]) + [cs[|cs| - 1]])
  {
    hide Join, Text, Pads;
    var n := |cs| - 1;
    JoinConcat(Pads(cs[..n]), [cs[n]]);
    JoinOne(cs[n]);
    assert cs[n][..|cs[n]|] == cs[n];
    var d := Sofar(cs, n, |cs[n]|);
    JoinNoNul(Pads(cs[..n]) + [cs[n]]);
    assert Left(cs, tail)[..|d|] == d;
    TextIs(Left(cs, tail), d);
  }

  lemma WithoutLast(cs: seq<string>, tail: seq<char>)
    requires Names(cs) && |cs| >= 2 && |tail| >= 1 && tail[0] != '/' && At(cs, |cs| - 1) > 0
    ensures Directory(cs, tail) == Join(Pads(cs[..|cs| - 1]))
  {
    hide Join, Text, Pads;
    var n := |cs| - 1;
    var d := Join(Pads(cs[..n]));
    JoinNoNul(Pads(cs[..n]));
    FirstSlash(Pads(cs[..n]), cs[n][..|cs[n]|]);
    assert Left(cs, tail)[..|d|] == d;
    TextIs(Left(cs, tail), d);
  }

  lemma LeftOne(cs: seq<string>, tail: seq<char>)
    requires Names(cs) && |cs| == 1 && |tail| >= 1 && tail[0] != '/'
    ensures Left(cs, tail) == "/" + cs[0] + tail
  {
    hide Join, Sofar, Names, At;
    DirectoryFacts(cs);
  }

  lemma {:induction false} TextBehind(s: string, tail: seq<char>)
    requires NUL !in s
    ensures Text(s + tail) == s + Text(tail)
  {
    if s == "" {
      assert s + tail == tail;
    } else {
      assert (s + tail)[1..] == s[1..] + tail;
      TextBehind(s[1..], tail);
      assert s == [s[0]] + s[1..];
    }
  }

  // ---- both readings agree ----

  /** Filling up a name makes no difference to extractFilename. */
  lemma CutPad(c: string)
    ensures Pad(Cut(Pad(c))) == Pad(Cut(c))
  {
    if |c| < NAME {
      assert Gap(|Pad(c)|) == 0;
      assert Cut(Pad(c)) == Pad(c);
      assert Spaces(0) == "";
      assert Pad(Pad(c)) == Pad(c) + "";
    } else {
      assert Spaces(0) == "";
      assert Pad(c) == c + "" == c;
    }
  }

  /** extractFilename finds in the directory that split_filename made all names of the path but the last, and nothing
      behind them exactly when the path has two components or more and the buffer held no slash behind the last
      character.  Names may have any length; both readings use the first 11 characters. */
  lemma SplitIff(cs: seq<string>, tail: seq<char>)
    requires Names(cs) && |cs| >= 1 && |tail| >= 1
    ensures forall k :: 1 <= k < |cs| ==>
              Extract(Directory(cs, tail), k) == Extract(Join(cs), k) == Entry(Pad(Cut(cs[k - 1])))
    ensures Extract(Join(cs), |cs|) == Entry(Pad(Cut(cs[|cs| - 1])))
    ensures Extract(Directory(cs, tail), |cs|) == NoEntry <==> |cs| >= 2 && tail[0] != '/'
  {
    hide Join, Extract, Directory, Pad, Cut;
    var n := |cs| - 1;
    DirectoryIs(cs, tail);
    ExtractJoin(cs, |cs|);
    if n == 0 && tail[0] != '/' {
      FirstEntry("/" + cs[0] + Text(tail));
    } else {
      var ds := if tail[0] == '/' then Pads(cs[..n]) + [cs[n]] else Pads(cs[..n]);
      forall k | 1 <= k < |cs| ensures Extract(Join(ds), k) == Extract(Join(cs), k) == Entry(Pad(Cut(cs[k - 1]))) {
        CutPad(cs[k - 1]);
        ExtractJoin(ds, k);
        ExtractJoin(cs, k);
        assert ds[k - 1] == Pad(cs[k - 1]);
      }
      ExtractJoin(ds, |cs|);
    }
  }

  lemma FirstEntry(s: string)
    requires s != "" && s[0] == '/'
    ensures Extract(s, 1).Entry?
  {
    SkipSlash(s, 1, 0);
  }

  /** For a path of one component the directory still has that component: it is the whole path if the buffer was clean
      behind it or held a slash there, and a longer name or path otherwise. */
  lemma OneComponent(c: string, tail: seq<char>)
    requires Name(c) && |tail| >= 1
    ensures Directory([c], tail) == Join([c]) + (if tail[0] == '/' then "" else Text(tail))
    ensures tail[0] == '/' || tail[0] == NUL ==> Extract(Directory([c], tail), 1) == Entry(Pad(Cut(c)))
  {
    hide Join, Extract, Directory, Pad, Cut, Pads;
    DirectoryIs([c], tail);
    JoinOne(c);
    assert [c][..0] == [] && Pads([]) == [] && [] + [c] == [c];
    ExtractJoin([c], 1);
    assert Join([c]) + "" == Join([c]);
  }
}
