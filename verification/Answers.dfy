/** What the calls answer on small devices, from formatting on. */
module Answers {
  import opened Layout
  import opened Device
  import opened INode
  import opened Store
  import opened Directory
  import opened EntryRemoval
  import opened FileContents
  import opened Namespace
  import opened Steps
  import opened Path
  import opened Lifecycle
  import opened NameOps
  import opened Syscalls
  import opened Scenarios
  import opened Undo
  import opened Reachability
  import Runs

  // ---- Success ----

  /** mkdir /a and rmdir /a: the device stores what it stored before, and its counter says so. */
  method RmdirAfterMkdir() returns (d: Disk, status: Status, ghost before: seq<Block>, ghost st: State)
    ensures status == OK && Stored(before, st) && Sound(st.table) && Stored(d.dev, st)
    ensures before != [] && before[0].Super? && d.dev != [] && d.dev[0].Super?
    ensures d.dev[0].sb.left == before[0].sb.left == 48 && Bound(st.table, 2, "a") == None
  {
    hide Stored, Sound, Bound, Split, Walk, Segments, MkdirStep, RmdirStep, UsedBelow;
    d, st := Format(60, 8);
    before := d.dev;
    SuperOf(before, st);
    NotBound(st.table, 2, "a");
    ghost var st1 := MkdirTop(d, "a", 3, st);
    MkdirEffect(st, 2, "a", 3, st1);
    BoundAt(st1.table, 2, 2);
    TopPath(st1.table, "a");
    ghost var p, k, st2;
    status, p, k, st2 := Rmdir(d, Top("a"), st1);
    RmdirUndoesMkdir(st, 2, "a", 3, st1, k, st2);
    SuperOf(d.dev, st);
  }

  /** mkdir /a and create /a/f: a file below the root. */
  method CreateBelow() returns (d: Disk, status: Status, ghost st: State)
    ensures status == OK && Stored(d.dev, st) && Sound(st.table)
    ensures Bound(st.table, 3, "f") == Some(4) && Resolve(st.table, Deep("a", "f")) == Found(4)
    ensures 4 < |st.table| && st.table[4] == File([], [], [], 1)
  {
    hide Stored, Sound, Bound, Split, Walk, Segments, MkdirStep, CreateStep, UsedBelow, CanGrow, NoneUnused,
      LeastUnused;
    ghost var st0, st1, p, c, rec;
    d, st0 := Format(60, 8);
    NotBound(st0.table, 2, "a");
    st1 := MkdirTop(d, "a", 3, st0);
    MkdirEffect(st0, 2, "a", 3, st1);
    KeptNumbers(st0.table, st1.table, 3, 4);
    NextNumber(st1.table, 4);
    BoundAt(st1.table, 2, 2);
    NotBound(st1.table, 3, "f");
    DeepPath(st1.table, "a", "f");
    SuperOf(d.dev, st1);
    Growable(d.dev, st1, 3);
    status, p, c, rec, st := CreateRegularFile(d, Deep("a", "f"), st1);
    CreateEffect(st1, 3, "f", 4, st);
    BoundAt(st.table, 3, 2);
    BoundAt(st.table, 2, 2);
    DeepPath(st.table, "a", "f");
  }

  /** Writing a byte to /f, reading it, and unlinking /f. */
  method WriteReadUnlink() returns (d: Disk, answers: seq<Status>, buf: seq<Byte>, ghost st: State)
    ensures answers == [OK, OK, OK] && buf == [7]
    ensures Stored(d.dev, st) && Sound(st.table) && Bound(st.table, 2, "f") == None
    ensures 3 < |st.table| && st.table[3] == Unused([]) && |st.chain| - 1 == 18
  {
    hide Stored, Sound, Bound, Split, Walk, Segments, GrowthCost, LastFails, Lo, CeilDiv, WriteStep, UnlinkStep,
      UsedBelow, Blocks, Runs.BytesAfter;
    ghost var st0, st1, p, k;
    d, st0 := OneFile(30);
    TopPath(st0.table, "f");
    OneByte(0, 1);
    NotLast(0, 1, 19);
    SuperOf(d.dev, st0);
    var size, wrote, read, gone;
    wrote, size, st1 := Write(d, Top("f"), [7], 0, st0);
    OneByteFile(st0, 3, 0, [7], st1);
    TopPath(st1.table, "f");
    BoundAt(st1.table, 2, 2);
    read, buf := Read(d, Top("f"), 1, 0, st1);
    gone, p, k, st := Unlink(d, Top("f"), st1);
    LastName(st1, p, k, st);
    answers := [wrote, read, gone];
  }

  /** An empty file i with one name now holds buf, in the block that was the first free one. */
  ghost predicate FirstBlock(st: State, i: nat, buf: seq<Byte>, st': State) {
    i < |st.table| == |st'.table| && st.table[i] == File([], [], [], 1) && st.chain != [] &&
    st'.table[i] == File([st.chain[0]], [], buf, 1) && st' == State(st.chain[1..], st.table[i := st'.table[i]])
  }

  lemma OneByteFile(st: State, i: nat, off: nat, buf: seq<Byte>, st': State)
    requires i < |st.table| && st.table[i] == File([], [], [], 1)
    requires WriteStep(st, i, off, buf, st') && off == 0 && |buf| == 1
    ensures FirstBlock(st, i, buf, st') && |Blocks(st'.table[i])| == 1
  {
    hide GrowthCost, Blocks, CeilDiv, Splice;
    OneByte(0, 1);
    assert Splice([], 0, buf) == buf;
    assert Blocks(st.table[i]) == multiset{} by { NewFileBlocks(); }
    assert st.chain[..1] == [st.chain[0]];
    OneBlockFile(st'.table[i], st.chain[0]);
  }

  lemma OneBlockFile(f: Node, b: nat)
    requires f.File? && |f.blks| == 1 && Blocks(f) == multiset{b}
    ensures f.blks == [b] && f.nodes == [] && |Blocks(f)| == 1
  {
    assert multiset(f.blks) == multiset{f.blks[0]} by { assert f.blks == [f.blks[0]]; }
    assert f.blks[0] in Blocks(f);
    assert |Blocks(f)| == 1 + |multiset(f.nodes)|;
  }

  lemma OneByte(m: nat, n: nat)
    requires m == 0 && n == 1
    ensures CeilDiv(n, BLOCK_SIZE) == 1 && GrowthCost(m, n) == 1
  {
    hide Overhead;
    OverheadDirect(m);
    OverheadDirect(n);
  }

  /** unlink of the last name of a file, in a directory that keeps its blocks. */
  lemma LastName(st: State, p: nat, k: nat, st': State)
    requires Sound(st.table) && UnlinkStep(st, p, k, st')
    requires |st.table[p].ents| == 3 && st.table[st.table[p].ents[k].ino].links == 1
    ensures Bound(st'.table, p, st.table[p].ents[k].name) == None
    ensures var c := st.table[p].ents[k].ino;
      c < |st'.table| && st'.table[c] == Unused([]) && |st'.chain| == |st.chain| + |Blocks(st.table[c])|
  {
    hide Blocks, SwapRemove, Sound, Bound;
    Runs.UnlinkRefines(st, p, k, st', p, st.table[p].ents[k].name, 0);
  }

  // ---- Large files ----

  /** n data blocks and their indirect blocks, in numbers. */
  predicate Sample(n: nat, cost: nat) {
    match n
    case 10 => cost == 10
    case 276 => cost == 277
    case 277 => cost == 278
    case 522 => cost == 523
    case 523 => cost == 526
    case 1035 => cost == 1039
    case 262_666 => cost == 263_180
    case 262_667 => cost == 263_184
    case _ => false
  }

  lemma SampleCost(n: nat, cost: nat)
    requires Sample(n, cost)
    ensures GrowthCost(0, n) == cost && 10 <= n <= cost && n <= LEVEL_3_BLOCKS
  {
    hide Overhead;
    OverheadSamples(n);
    OverheadDirect(0);
    Sizes();
  }

  /** A new file of n blocks, on a device with just enough blocks for it: none is left. */
  method ExactFit(n: nat, cost: nat) returns (d: Disk, status: Status)
    requires Sample(n, cost)
    ensures status == OK && d.dev != [] && d.dev[0].Super? && d.dev[0].sb.left == 0
  {
    hide Stored, Sound, Bound, Split, Walk, Segments, GrowthCost, LastFails, Lo, CeilDiv, WriteStep, UsedBelow, Sample;
    ghost var st0, st;
    SampleCost(n, cost);
    d, st0 := OneFile(cost + 12);
    TopPath(st0.table, "f");
    BlocksIn(n);
    NotLast(0, n, |st0.chain|);
    SuperOf(d.dev, st0);
    var size;
    status, size, st := Write(d, Top("f"), Ones(n * BLOCK_SIZE), 0, st0);
    FilledUp(st0, 3, Ones(n * BLOCK_SIZE), n, st);
    SuperOf(d.dev, st);
  }

  lemma FilledUp(st: State, i: nat, buf: seq<Byte>, n: nat, st': State)
    requires i < |st.table| && st.table[i] == File([], [], [], 1) && |buf| == n * BLOCK_SIZE
    requires WriteStep(st, i, 0, buf, st')
    ensures |st'.chain| + GrowthCost(0, n) == |st.chain|
  {
    hide GrowthCost, Blocks, CeilDiv, Splice;
    BlocksIn(n);
  }

  /** One block less than a file of 277 blocks needs. */
  method OneShort() returns (d: Disk, status: Status)
    ensures status == ENOSPC && !InOrder(d.dev)
  {
    hide Stored, Sound, Bound, Split, Walk, Segments, GrowthCost, LastFails, Lo, CeilDiv, WriteStep, UsedBelow, InOrder;
    ghost var st0, st;
    SampleCost(277, 278);
    d, st0 := OneFile(289);
    TopPath(st0.table, "f");
    BlocksIn(277);
    SampleCost(276, 277);
    EarlierFails(0, 277, 278);
    SuperOf(d.dev, st0);
    var size;
    status, size, st := Write(d, Top("f"), Ones(277 * BLOCK_SIZE), 0, st0);
  }

  // ---- Refusals ----

  /** There are /a, /a/d and /b. Renaming /a to /b and /x to /b, unlinking /a, linking /a, creating
      x, which has no '/', and writing to /a. */
  method RefusedNames() returns (d: Disk, answers: seq<Status>, ghost before: seq<Block>)
    ensures answers == [EEXIST, ENOENT, EINVAL, EISDIR, ENOENT, EINVAL]
    ensures InOrder(before) && d.dev == before
  {
    hide Stored, Sound, Bound, Split, Walk, Segments, UsedBelow, InOrder, CanGrow, GrowthCost, LastFails, Rooted;
    ghost var st, p, k, q, st2, c, rec;
    d, st := ThreeDirs();
    before := d.dev;
    StateInOrder(before, st);
    TopPath(st.table, "a");
    TopPath(st.table, "b");
    TopPath(st.table, "x");
    SuperOf(before, st);
    Growable(before, st, 2);
    BareName("x");
    var renamed, moved, removed, linked, created, wrote, size;
    renamed, p, k, q, st2 := Rename(d, Top("a"), Top("b"), st);
    moved, p, k, q, st2 := Rename(d, Top("x"), Top("b"), st);
    removed, p, k, st2 := Unlink(d, Top("a"), st);
    linked, p, q, st2 := Link(d, Top("a"), Top("x"), st);
    created, p, c, rec, st2 := CreateRegularFile(d, "x", st);
    wrote, size, st2 := Write(d, Top("a"), [7], 0, st);
    answers := [renamed, moved, removed, linked, created, wrote];
  }

  lemma BareName(c: string)
    requires |c| == 1 && NoSlash(c)
    ensures Split(c) == ("", c) && Segments(c) == [c]
  {
    hide Segments;
    SegmentsOfOne(c);
    assert c[..0] == "" && Split("") == ("", "") && "" + [c[0]] == c;
  }

  /** rmdir of /a, which is not empty, of /, /b/., /b/.. and /b/, and of /x, which is not there. */
  method RefusedRmdirs() returns (d: Disk, answers: seq<Status>, ghost before: seq<Block>)
    ensures answers == [ENOTEMPTY, EPERM, EINVAL, ENOTEMPTY, EIO, ENOENT]
    ensures InOrder(before) && d.dev == before
  {
    hide Stored, Sound, Bound, Split, Walk, Segments, UsedBelow, InOrder, Rooted;
    ghost var st, p, k, st2;
    d, st := ThreeDirs();
    before := d.dev;
    StateInOrder(before, st);
    TopPath(st.table, "a");
    TopPath(st.table, "b");
    TopPath(st.table, "x");
    DeepParts("b", ".");
    DeepParts("b", "..");
    DeepParts("b", "");
    ResolveTrailing(st.table, Deep("b", ""));
    SplitRoot("/");
    SplitRoot(Deep("b", "."));
    RootPath();
    var full, root, dot, dots, slash, none;
    full, p, k, st2 := Rmdir(d, Top("a"), st);
    root, p, k, st2 := Rmdir(d, "/", st);
    dot, p, k, st2 := Rmdir(d, Deep("b", "."), st);
    dots, p, k, st2 := Rmdir(d, Deep("b", ".."), st);
    slash, p, k, st2 := Rmdir(d, Deep("b", ""), st);
    none, p, k, st2 := Rmdir(d, Top("x"), st);
    answers := [full, root, dot, dots, slash, none];
  }

  lemma RootPath()
    ensures Segments("/") == []
  {
    assert "/"[1..] == "" && Segments("") == [];
  }

  /** There is a file /f: it is no directory, and its name is taken. */
  method RefusedForFile() returns (d: Disk, answers: seq<Status>, ghost before: seq<Block>)
    ensures answers == [ENOTDIR, EEXIST, EEXIST]
    ensures InOrder(before) && d.dev == before
  {
    hide Stored, Sound, Bound, Split, Walk, Segments, UsedBelow, InOrder, CanGrow;
    ghost var st, p, k, q, st2;
    d, st := OneFile(30);
    before := d.dev;
    StateInOrder(before, st);
    TopPath(st.table, "f");
    SuperOf(before, st);
    Growable(before, st, 2);
    var removed, linked, renamed;
    removed, p, k, st2 := Rmdir(d, Top("f"), st);
    linked, p, q, st2 := Link(d, Top("f"), Top("f"), st);
    renamed, p, k, q, st2 := Rename(d, Top("f"), Top("f"), st);
    answers := [removed, linked, renamed];
  }

  function Letters(n: nat): (s: string)
    ensures |s| == n && forall k :: 0 <= k < n ==> s[k] == 'a'
  {
    seq(n, _ => 'a')
  }

  /** A name of 248 letters is one too long, a name of 247 is not. */
  method NameLengths() returns (d: Disk, answers: seq<Status>, ghost st: State)
    ensures answers == [ENAMETOOLONG, OK] && Stored(d.dev, st) && Sound(st.table)
    ensures Bound(st.table, 2, Letters(247)) == Some(3)
  {
    hide Stored, Sound, Bound, Split, Walk, Segments, UsedBelow, CanGrow, NoneUnused, LeastUnused, CreateStep;
    ghost var st0, p, c, rec, st1;
    d, st0 := Format(60, 8);
    SuperOf(d.dev, st0);
    Growable(d.dev, st0, 2);
    NextNumber(st0.table, 3);
    TopPath(st0.table, Letters(247));
    NotBound(st0.table, 2, Letters(247));
    LongName(st0.table, Letters(248));
    var long, short;
    long, p, c, rec, st1 := CreateRegularFile(d, Top(Letters(248)), st0);
    short, p, c, rec, st := CreateRegularFile(d, Top(Letters(247)), st0);
    CreateEffect(st0, 2, Letters(247), 3, st);
    BoundAt(st.table, 2, 2);
    answers := [long, short];
  }

  lemma LongName(T: seq<Node>, c: string)
    requires Sound(T) && |c| == 248 && forall k :: 0 <= k < |c| ==> c[k] == 'a'
    ensures !NoSlash(Top(c)) && Split(Top(c)) == ("", c) && NoDotDot(Top(c))
    ensures Resolve(T, "") == Found(ROOT_DIR_INODE)
  {
    hide Split, Bound, Sound;
    assert Top(c) == "" + "/" + c && Top(c)[0] == '/' && Top(c)[0] in Top(c);
    SplitIs("", c);
    SegmentsOfSplit(Top(c));
    assert Segments(Top(c)) == [c];
  }

  /** A device with eight free blocks: mkdir takes one, and then there are too few for the next. */
  method MkdirGuard() returns (d: Disk, answers: seq<Status>)
    ensures answers == [OK, ENOSPC] && d.dev != [] && d.dev[0].Super? && d.dev[0].sb.left == 7
  {
    hide Stored, Sound, Bound, Split, Walk, Segments, UsedBelow, CanGrow, NoneUnused, LeastUnused, MkdirStep;
    ghost var st0, p, c, st1, st2;
    d, st0 := Format(20, 8);
    TopPath(st0.table, "a");
    NotBound(st0.table, 2, "a");
    SuperOf(d.dev, st0);
    Growable(d.dev, st0, 2);
    NextNumber(st0.table, 3);
    var first, second;
    first, p, c, st1 := Mkdir(d, Top("a"), st0);
    MkdirEffect(st0, 2, "a", 3, st1);
    MkdirTakesOne(st0, 2, "a", 3, st1);
    TopPath(st1.table, "b");
    SuperOf(d.dev, st1);
    Growable(d.dev, st1, 2);
    second, p, c, st2 := Mkdir(d, Top("b"), st1);
    answers := [first, second];
  }

  lemma MkdirTakesOne(st: State, p: nat, name: string, c: nat, st': State)
    requires MkdirStep(st, p, name, c, st') && |st.table[p].ents| % ENTRIES_PER_BLOCK != 0
    ensures |st'.chain| + 1 == |st.chain|
  {
    hide IndexOf;
  }
}
