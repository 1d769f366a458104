/** Calls on paths of one or two components, with what they do to the state in plain terms. */
module Scenarios {
  import opened Layout
  import opened Device
  import opened INode
  import opened Store
  import opened Directory
  import opened FileContents
  import opened Namespace
  import opened Steps
  import opened Path
  import opened NameOps
  import opened Syscalls
  import opened Reachability
  import Mkfs
  import Runs
  import Sessions

  // ---- Paths ----

  predicate Component(c: string) { c !in {"", ".", ".."} && NoSlash(c) && |c| < FILE_NAME_SIZE }

  function Top(c: string): string { "/" + c }

  function Deep(a: string, c: string): string { "/" + a + "/" + c }

  function Lookup(T: seq<Node>, d: nat, c: string): Outcome {
    match Bound(T, d, c)
    case None => Failed(ENOENT)
    case Some(n) => Found(n)
  }

  lemma WalkOne(T: seq<Node>, d: nat, c: string)
    requires IsDir(T, d) && Component(c)
    ensures Walk(T, d, [c]) == Lookup(T, d, c)
  {
    hide Bound;
    assert [c][1..] == [];
    forall n: nat ensures Walk(T, n, []) == Found(n) {}
  }

  lemma WalkTwo(T: seq<Node>, d: nat, a: string, c: string)
    requires IsDir(T, d) && Component(a) && Component(c) && Bound(T, d, a).Some?
    ensures var p := Bound(T, d, a).value; Walk(T, d, [a, c]) == if IsDir(T, p) then Lookup(T, p, c) else Found(p)
  {
    hide Bound;
    assert [a, c][1..] == [c];
    var p := Bound(T, d, a).value;
    assert Walk(T, d, [a, c]) == Walk(T, p, [c]);
    if IsDir(T, p) { WalkOne(T, p, c); }
  }

  lemma TopPath(T: seq<Node>, c: string)
    requires Sound(T) && Component(c)
    ensures !NoSlash(Top(c)) && Split(Top(c)) == ("", c) && NoDotDot(Top(c))
    ensures Resolve(T, "") == Found(ROOT_DIR_INODE) && Resolve(T, Top(c)) == Lookup(T, ROOT_DIR_INODE, c)
  {
    hide Split, Bound, Sound;
    var path := Top(c);
    assert path == "" + "/" + c && path[0] == '/' && path[0] in path;
    SplitIs("", c);
    SegmentsOfSplit(path);
    assert Segments(path) == [c];
    Runs.RootIsDir(T);
    WalkOne(T, ROOT_DIR_INODE, c);
  }

  lemma DeepPath(T: seq<Node>, a: string, c: string)
    requires Sound(T) && Component(a) && Component(c) && Bound(T, ROOT_DIR_INODE, a).Some?
    ensures var p := Bound(T, ROOT_DIR_INODE, a).value;
      Resolve(T, Top(a)) == Found(p) && Resolve(T, Deep(a, c)) == if IsDir(T, p) then Lookup(T, p, c) else Found(p)
    ensures !NoSlash(Deep(a, c)) && Split(Deep(a, c)) == (Top(a), c) && NoDotDot(Deep(a, c))
    ensures Segments(Deep(a, c)) == [a, c]
  {
    hide Split, Bound, Sound, Segments;
    var path := Deep(a, c);
    TopPath(T, a);
    assert path == Top(a) + "/" + c && path[0] == '/' && path[0] in path;
    SplitIs(Top(a), c);
    SegmentsOfSplit(path);
    SegmentsOfSplit(Top(a));
    assert Segments("") == [] by { NoSegments(); }
    assert Segments(path) == [a, c];
    Runs.RootIsDir(T);
    WalkTwo(T, ROOT_DIR_INODE, a, c);
  }

  /** The string alone; the last component may be empty, or "." or "..". */
  lemma DeepParts(a: string, c: string)
    requires NoSlash(a) && a != "" && NoSlash(c)
    ensures !NoSlash(Deep(a, c)) && Split(Deep(a, c)) == (Top(a), c)
    ensures Segments(Deep(a, c)) == [a] + if c == "" then [] else [c]
  {
    hide Split, Segments;
    var path := Deep(a, c);
    assert path == Top(a) + "/" + c && path[0] == '/' && path[0] in path;
    SplitIs(Top(a), c);
    SegmentsOfSplit(path);
    assert Top(a) == "" + "/" + a && Top(a)[0] == '/' && Top(a)[0] in Top(a);
    SplitIs("", a);
    SegmentsOfSplit(Top(a));
    assert Segments("") == [] by { NoSegments(); }
  }

  /** One component more. */
  lemma LongerPath(T: seq<Node>, parent: string, c: string)
    requires Resolve(T, parent).Found? && IsDir(T, Resolve(T, parent).num) && NoDotDot(parent) && Component(c)
    ensures var path := parent + "/" + c;
      !NoSlash(path) && Split(path) == (parent, c) && NoDotDot(path) &&
        Resolve(T, path) == Lookup(T, Resolve(T, parent).num, c)
  {
    hide Split, Bound, Walk, Segments;
    var path := parent + "/" + c;
    assert path[|parent|] == '/' && path[|parent|] in path;
    SplitIs(parent, c);
    SegmentsOfSplit(path);
    ResolveSplit(T, path);
  }

  lemma NoSegments()
    ensures Segments("") == []
  {
  }

  lemma NotBound(T: seq<Node>, d: nat, name: string)
    requires IsDir(T, d) ==> forall k :: 0 <= k < |T[d].ents| ==> T[d].ents[k].name != name
    ensures Bound(T, d, name) == None
  {
  }

  lemma BoundAt(T: seq<Node>, d: nat, k: nat)
    requires Sound(T) && IsDir(T, d) && k < |T[d].ents|
    ensures Bound(T, d, T[d].ents[k].name) == Some(T[d].ents[k].ino)
  {
    hide Sound, IndexOf;
    Runs.OrdinaryDirs(T, d);
    Runs.IndexOfNamed(T[d].ents, k, T[d].ents[k].name);
  }

  /** A directory this small is far from the size limit. */
  lemma Growable(D: seq<Block>, st: State, p: nat)
    requires Stored(D, st) && IsDir(st.table, p) && |st.table[p].ents| < 100_000
    ensures CanGrow(st.table, p)
  {
    hide Holds, Chain, Conserved;
    DirFacts(D, st, p);
  }

  // ---- Calls ----

  /** The numbers in use are those from the root's up to k. */
  ghost predicate UsedBelow(T: seq<Node>, k: nat) {
    ROOT_DIR_INODE <= k < |T| && (forall x :: ROOT_DIR_INODE <= x < k ==> !T[x].Unused?) &&
    forall x :: k <= x < |T| ==> T[x].Unused?
  }

  lemma NextNumber(T: seq<Node>, k: nat)
    requires UsedBelow(T, k)
    ensures !NoneUnused(T) && forall c: nat :: LeastUnused(T, c) ==> c == k
  {
    assert T[k].Unused?;
    forall c: nat | LeastUnused(T, c) ensures c == k { assert T[c].Unused?; }
  }

  /** A device in order, ready for a call that adds a name to directory p. */
  ghost predicate Ready(D: seq<Block>, st: State, p: nat, k: nat) {
    Stored(D, st) && Sound(st.table) && UsedBelow(st.table, k) && IsDir(st.table, p) &&
    |st.table[p].ents| < 100_000 && |st.chain| > 8
  }

  method Format(total: nat, ilistSize: nat) returns (d: Disk, ghost st: State)
    requires ilistSize >= 8 && 2 + ilistSize + 10 <= total
    ensures fresh(d) && Stored(d.dev, st) && Sound(st.table) && UsedBelow(st.table, 3)
    ensures |st.table| == ilistSize * INODES_PER_BLOCK && |st.chain| == total - 3 - ilistSize
    ensures IsDir(st.table, 2) && st.table[2].ents == [Entry(".", 2), Entry("..", 2)] && st.table[2].links == 2
    ensures Rooted(st.table)
  {
    hide Stored, Sound, Rooted;
    d := new Disk(seq(total, _ => FreeBlk(0)));
    st := Mkfs.InitUwufs(d, total, ilistSize);
    Sessions.RootOnlyRooted(|st.table|, 2 + ilistSize);
  }

  method CreateTop(d: Disk, name: string, ghost k: nat, ghost st: State) returns (ghost st': State)
    requires Ready(d.dev, st, 2, k) && Component(name) && Bound(st.table, 2, name) == None
    modifies d
    ensures Stored(d.dev, st') && Sound(st'.table)
    ensures CreateStep(st, 2, name, k, st') && Runs.Does(Runs.Create(2, name, k), st, st')
  {
    hide Stored, Sound, Bound, Split, Walk, Segments, CanGrow, CreateStep, NoneUnused, LeastUnused, UsedBelow, NoSlash;
    TopPath(st.table, name);
    SuperOf(d.dev, st);
    Growable(d.dev, st, 2);
    NextNumber(st.table, k);
    ghost var p, c, rec;
    var status;
    status, p, c, rec, st' := CreateRegularFile(d, Top(name), st);
  }

  method MkdirTop(d: Disk, name: string, ghost k: nat, ghost st: State) returns (ghost st': State)
    requires Ready(d.dev, st, 2, k) && Component(name) && Bound(st.table, 2, name) == None
    modifies d
    ensures Stored(d.dev, st') && MkdirStep(st, 2, name, k, st')
    ensures Sound(st'.table) <==> st.table[2].links + 1 < LINK_COUNT_LIMIT
    ensures Sound(st'.table) ==> Runs.Does(Runs.Mkdir(2, name, k), st, st')
  {
    hide Stored, Sound, Bound, Split, Walk, Segments, CanGrow, MkdirStep, NoneUnused, LeastUnused, UsedBelow, NoSlash;
    TopPath(st.table, name);
    SuperOf(d.dev, st);
    Growable(d.dev, st, 2);
    NextNumber(st.table, k);
    ghost var p, c;
    var status;
    status, p, c, st' := Mkdir(d, Top(name), st);
    FreshName(st.table, Top(name), 2);
  }

  method MkdirDeep(d: Disk, a: string, name: string, ghost p: nat, ghost k: nat, ghost st: State)
      returns (ghost st': State)
    requires Ready(d.dev, st, p, k) && Component(a) && Component(name)
    requires Bound(st.table, 2, a) == Some(p) && Bound(st.table, p, name) == None
    modifies d
    ensures Stored(d.dev, st') && MkdirStep(st, p, name, k, st')
    ensures Sound(st'.table) <==> st.table[p].links + 1 < LINK_COUNT_LIMIT
    ensures Sound(st'.table) ==> Runs.Does(Runs.Mkdir(p, name, k), st, st')
  {
    hide Stored, Sound, Bound, Split, Walk, Segments, CanGrow, MkdirStep, NoneUnused, LeastUnused, UsedBelow, NoSlash;
    DeepPath(st.table, a, name);
    SuperOf(d.dev, st);
    Growable(d.dev, st, p);
    NextNumber(st.table, k);
    ghost var q, c;
    var status;
    status, q, c, st' := Mkdir(d, Deep(a, name), st);
    FreshName(st.table, Deep(a, name), p);
  }

  method LinkTop(d: Disk, was: string, name: string, ghost i: nat, ghost k: nat, ghost st: State)
      returns (ghost st': State)
    requires Ready(d.dev, st, 2, k) && Component(was) && Component(name)
    requires Bound(st.table, 2, was) == Some(i) && IsFile(st.table, i) && Bound(st.table, 2, name) == None
    modifies d
    ensures Stored(d.dev, st') && LinkStep(st, 2, name, i, st')
    ensures Sound(st'.table) <==> st.table[i].links + 1 < LINK_COUNT_LIMIT
    ensures Sound(st'.table) ==> Runs.Does(Runs.Link(2, name, i), st, st')
  {
    hide Stored, Sound, Bound, Split, Walk, Segments, CanGrow, LinkStep, UsedBelow, NoSlash;
    TopPath(st.table, was);
    TopPath(st.table, name);
    SuperOf(d.dev, st);
    Growable(d.dev, st, 2);
    ghost var j, q;
    var status;
    status, j, q, st' := Link(d, Top(was), Top(name), st);
  }

  /** What path names, inode i in directory p, becomes target, in directory q. */
  method Move(d: Disk, path: string, target: string, ghost p: nat, ghost i: nat, ghost q: nat, ghost st: State)
      returns (ghost k: nat, ghost st': State)
    requires Stored(d.dev, st) && Sound(st.table) && |st.chain| > 8
    requires NoDotDot(path) && NoDotDot(target) && !NoSlash(path) && !NoSlash(target)
    requires Component(Split(path).1) && Component(Split(target).1)
    requires Resolve(st.table, Split(path).0) == Found(p) && IsDir(st.table, p) && Resolve(st.table, path) == Found(i)
    requires Resolve(st.table, Split(target).0) == Found(q) && IsDir(st.table, q) && |st.table[q].ents| < 100_000
    requires Resolve(st.table, target) == Failed(ENOENT) && q != i
    modifies d
    ensures Stored(d.dev, st') && RenameStep(st, p, k, q, Split(target).1, st')
    ensures IsDir(st.table, p) && k < |st.table[p].ents| && st.table[p].ents[k] == Entry(Split(path).1, i)
    ensures Sound(st'.table) <==> (IsDir(st.table, i) && p != q ==> st.table[q].links + 1 < LINK_COUNT_LIMIT)
  {
    hide Stored, Sound, Bound, Split, Walk, Segments, CanGrow, RenameStep, NoSlash;
    SuperOf(d.dev, st);
    Growable(d.dev, st, q);
    ghost var p2, q2;
    var status;
    status, p2, k, q2, st' := Rename(d, path, target, st);
  }

  // ---- Small devices ----

  /** A new device of total blocks with an empty file /f, which has inode number 3. */
  method OneFile(total: nat) returns (d: Disk, ghost st: State)
    requires total >= 20
    ensures fresh(d) && Ready(d.dev, st, 2, 4) && |st.chain| == total - 11 && |st.table| == 8 * INODES_PER_BLOCK
    ensures st.table[3] == File([], [], [], 1) && Bound(st.table, 2, "f") == Some(3)
    ensures st.table[2].ents == [Entry(".", 2), Entry("..", 2), Entry("f", 3)]
  {
    hide Stored, Sound, Bound, CreateStep, Rooted;
    ghost var st0;
    d, st0 := Format(total, 8);
    NotBound(st0.table, 2, "f");
    st := CreateTop(d, "f", 3, st0);
    CreateEffect(st0, 2, "f", 3, st);
    BoundAt(st.table, 2, 2);
  }

  function Ones(n: nat): (s: seq<Byte>)
    ensures |s| == n
  {
    seq(n, _ => 1)
  }

  lemma BlocksIn(k: nat)
    ensures CeilDiv(k * BLOCK_SIZE, BLOCK_SIZE) == k
  {
  }

  lemma EarlierFails(m: nat, n: nat, free: nat)
    requires m < n && GrowthCost(m, n - 1) + 1 >= free
    ensures !LastFails(m, n, free)
  {
    hide GrowthCost;
  }

  lemma NotLast(m: nat, n: nat, free: nat)
    requires GrowthCost(m, n) < free
    ensures !LastFails(m, n, free)
  {
    hide GrowthCost;
  }

  /** The directories /a and /b, with numbers 3 and 4, and /a/d, with number 5. */
  method ThreeDirs() returns (d: Disk, ghost st: State)
    ensures fresh(d) && Stored(d.dev, st) && Sound(st.table) && Rooted(st.table) && |st.chain| > 8 && |st.table| > 5
    ensures forall x :: 2 <= x <= 5 ==> IsDir(st.table, x) && |st.table[x].ents| < 10 && st.table[x].links < 10
    ensures Bound(st.table, 2, "a") == Some(3) && Bound(st.table, 2, "b") == Some(4) &&
      Bound(st.table, 3, "d") == Some(5)
    ensures Bound(st.table, 5, "..") == Some(3) && Bound(st.table, 4, "d") == None && Bound(st.table, 5, "c") == None
    ensures Bound(st.table, 2, "x") == None && |st.table[3].ents| == 3 && |st.table[4].ents| == 2
  {
    hide Stored, Sound, Bound, MkdirStep, Rooted;
    ghost var st0, st1, st2;
    d, st0 := Format(60, 8);
    NotBound(st0.table, 2, "a");
    st1 := MkdirTop(d, "a", 3, st0);
    MkdirEffect(st0, 2, "a", 3, st1);
    DoesRooted(Runs.Mkdir(2, "a", 3), st0, st1);
    NotBound(st1.table, 2, "b");
    st2 := MkdirTop(d, "b", 4, st1);
    MkdirEffect(st1, 2, "b", 4, st2);
    DoesRooted(Runs.Mkdir(2, "b", 4), st1, st2);
    BoundAt(st2.table, 2, 2);
    NotBound(st2.table, 3, "d");
    st := MkdirDeep(d, "a", "d", 3, 5, st2);
    MkdirEffect(st2, 3, "d", 5, st);
    DoesRooted(Runs.Mkdir(3, "d", 5), st2, st);
    BoundAt(st.table, 2, 2);
    BoundAt(st.table, 2, 3);
    BoundAt(st.table, 3, 2);
    BoundAt(st.table, 5, 1);
    NotBound(st.table, 4, "d");
    NotBound(st.table, 5, "c");
    NotBound(st.table, 2, "x");
  }

  /** The numbers in use, when all but those from k to k' are as they were. */
  lemma KeptNumbers(T: seq<Node>, T': seq<Node>, k: nat, k': nat)
    requires UsedBelow(T, k) && |T| == |T'| && k <= k' < |T|
    requires forall x :: 0 <= x < k ==> (T'[x].Unused? <==> T[x].Unused?)
    requires forall x :: k <= x < k' ==> !T'[x].Unused?
    requires forall x :: k' <= x < |T| ==> T'[x] == T[x]
    ensures UsedBelow(T', k')
  {
  }
}
