/** Inputs at which the code does not do what it is meant to. */
module Departures {
  import opened Layout
  import opened Device
  import opened Radix
  import opened PointerTree
  import opened INode
  import opened BulkRemove
  import opened DataBlockIterator
  import opened InodeTable
  import opened Store
  import opened Directory
  import opened FileContents
  import opened Namespace
  import opened Steps
  import opened Path
  import opened Lifecycle
  import opened NameOps
  import opened Syscalls
  import opened Reachability
  import opened Scenarios
  import Runs

  // ---- append_dblk and remove_dblks ----

  /** A device of 15 blocks. Blocks 3 to 13 are in use; 14, the sentinel, is all the free list. */
  const FULL: seq<Block> :=
    seq(15, x requires 0 <= x < 15 =>
      if x == 0 then Super(SuperBlk(15, 2, 1, 3, 12, 14, 0))
      else if x == 2 then Inodes(seq(INODES_PER_BLOCK, _ => NO_INODE))
      else if x == 14 then FreeBlk(0)
      else Data([]))

  function UpTo(n: nat): (s: seq<nat>)
    ensures |s| == n && forall i :: 0 <= i < n ==> s[i] == 3 + i
  {
    seq(n, i => 3 + i)
  }

  /** An inode whose only blocks are n direct ones. */
  function DirectOnly(n: nat): InodeRec
    requires n <= DIRECT_BLOCKS
  {
    NO_INODE.(direct := UpTo(n) + Zeros(DIRECT_BLOCKS - n), kind := Regular, links := 1)
  }

  lemma FullChain()
    ensures Chain(FULL, [14]) && Separate(FULL, [], [14])
  {
  }

  lemma DirectOnlyHolds(D: seq<Block>, n: nat)
    requires n <= DIRECT_BLOCKS
    ensures Holds(D, DirectOnly(n), UpTo(n), [])
  {
    hide Overhead, Lo;
    Levels();
    OverheadDirect(n);
    assert DirectOnly(n).direct == Page(UpTo(n), 0, DIRECT_BLOCKS, 0);
  }

  lemma EleventhCosts(n: nat)
    requires n == DIRECT_BLOCKS
    ensures n < Lo(4) && NewNodes(n) == 1
  {
    Levels();
    IndFirst(1);
  }

  /** The eleventh block of a file on a full device: append_dblk returns it all the same, and
      the inode does not hold it. */
  method AppendSilentlyFails() returns (d: Disk, inode: Inode, ret: nat)
    ensures ret == 13 && NoHolds(d.dev, inode.Rec(), UpTo(10) + [13])
  {
    hide Holds, Chain, Separate, NoHolds, NewNodes, Lo, FULL;
    d := new Disk(FULL);
    inode := new Inode(DirectOnly(10));
    FullChain();
    DirectOnlyHolds(FULL, 10);
    EleventhCosts(10);
    ghost var X, F;
    ret, X, F := AppendDblk(d, inode, 10, 13, UpTo(10), [], [14]);
  }

  /** remove_dblks(0, 1) on a file of one block leaves the block in the inode. */
  method RemoveDblksForgets() returns (d: Disk, inode: Inode)
    ensures !exists Z: seq<nat> :: Holds(d.dev, inode.Rec(), [], Z)
  {
    hide Holds, Chain, Separate, Overhead, Lo, FULL;
    d := new Disk(FULL);
    inode := new Inode(DirectOnly(1));
    FullChain();
    DirectOnlyHolds(FULL, 1);
    ghost var P := RemoveDblks(d, inode, 0, 1, UpTo(1), [], [14]);
    RemoveDblksLeavesStale(FULL, d.dev, inode.Rec(), UpTo(1), [], 0, P, [14]);
    assert UpTo(1)[..0] == [];
  }

  // ---- One file ----

  /** Creating /f a second time. E is what it leaves if the record on the stack has link count
      0; the record that it did write is rec. */
  method CreateTwice() returns (d: Disk, ghost D: seq<Block>, ghost st: State, ghost E: seq<Block>, ghost rec: InodeRec)
    ensures InOrder(D) && Stored(D, st) && MayLeave(D, st, Top("f"), E) && !InOrder(E)
    ensures rec.kind != FreeInode && rec.links == 0 ==> !InOrder(d.dev)
  {
    hide Stored, Sound, Bound, Split, Walk, Segments, CanGrow, NoneUnused, LeastUnused, InOrder, InodeWritten, MayLeave,
         UsedBelow, Tabled, RecAt, InodeCount;
    d, st := OneFile(30);
    D := d.dev;
    TopPath(st.table, "f");
    StateInOrder(D, st);
    E := Overwritten(D, st, 3);
    ghost var was: InodeRec :| InodeWritten(D, E, 3, was);
    MayOverwrite(D, st, Top("f"), was, E);
    SuperOf(D, st);
    Growable(D, st, 2);
    ghost var p, c, st2;
    var status;
    status, p, c, rec, st2 := CreateRegularFile(d, Top("f"), st);
    WrittenRecord(D, d.dev, 3, rec);
    if rec.kind != FreeInode && rec.links == 0 { ZeroLinks(d.dev, 3); }
  }

  lemma WrittenRecord(D: seq<Block>, E: seq<Block>, i: nat, rec: InodeRec)
    requires InodeWritten(D, E, i, rec)
    ensures Tabled(E) && i < InodeCount(E) && RecAt(E, i) == rec
  {
  }

  /** namei finds the file /f under /f/x. */
  method FileTakenForDirectory() returns (d: Disk, ghost st: State)
    ensures Stored(d.dev, st) && Sound(st.table) && IsFile(st.table, 3)
    ensures Resolve(st.table, Deep("f", "x")) == Found(3)
    ensures Strict(st.table, ROOT_DIR_INODE, Segments(Deep("f", "x"))) == Failed(ENOENT)
  {
    hide Stored, Sound, Bound, Split, Walk, Segments, UsedBelow;
    d, st := OneFile(30);
    DeepPath(st.table, "f", "x");
    StrictTwo(st.table, "f", "x", 3);
  }

  lemma StrictTwo(T: seq<Node>, a: string, c: string, i: nat)
    requires Component(a) && Component(c) && Bound(T, ROOT_DIR_INODE, a) == Some(i) && IsFile(T, i)
    ensures Strict(T, ROOT_DIR_INODE, [a, c]) == Failed(ENOENT)
  {
    assert [a, c][..1] == [a] && [a][..0] == [];
    assert Strict(T, ROOT_DIR_INODE, []) == Found(ROOT_DIR_INODE);
    assert Strict(T, ROOT_DIR_INODE, [a]) == Found(i);
  }

  /** Looking up block n, the first that is not direct, of an empty file reads block 0 as an
      indirect block. */
  method LookupReadsSuperblock(n: nat) returns (d: Disk, inode: Inode)
    requires n == DIRECT_BLOCKS
    ensures d.dev != [] && d.dev[0].Super? && Descend(d.dev, Root(inode.Rec(), SlotAt(n).region),
      SlotAt(n).path) == Astray(0)
  {
    hide Stored, Sound, Bound, Holds, Descend, Digits, SlotAt, RecAt, Tabled, InodeCount, UsedBelow;
    ghost var st;
    d, st := OneFile(30);
    FileSize(d.dev, st, 3);
    inode := ReadInode(d, 3);
    EmptyLookup(d.dev, st, inode.Rec(), n);
  }

  lemma EmptyLookup(D: seq<Block>, st: State, rec: InodeRec, n: nat)
    requires Stored(D, st) && Holds(D, rec, [], []) && n == DIRECT_BLOCKS
    ensures D != [] && D[0].Super? && Descend(D, Root(rec, SlotAt(n).region), SlotAt(n).path) == Astray(0)
  {
    hide Digits, Descend, Conserved, Is, Linked, SlotAt, Lo, Tree, Overhead;
    var k := FirstInTree(n);
    EmptyTree(D, rec, k);
    CapOne();
    DescendDigits(D, k, Root(rec, k), [], [], n - DIRECT_BLOCKS);
    EmptyNoLeaf(n - DIRECT_BLOCKS);
  }

  lemma FirstInTree(n: nat) returns (k: nat)
    requires n == DIRECT_BLOCKS
    ensures k == 1 && SlotAt(n) == Slot(k, Digits(k, n - DIRECT_BLOCKS))
  {
    hide Digits;
    k := 1;
    Levels();
  }

  lemma EmptyTree(D: seq<Block>, rec: InodeRec, k: nat)
    requires Holds(D, rec, [], []) && k == 1
    ensures Tree(D, k, Root(rec, k), [], [])
  {
    hide Lo, NodeLo, Overhead, Tree, Root;
    LoMono(k, k + 1);
    assert ArmBlocks([], k) == [] && ArmNodes([], k) == [];
  }

  // ---- write_file without room ----

  /** Nine blocks to write and eight free ones: ENOSPC, and the eight are lost. */
  method LostMidway() returns (d: Disk, status: Status)
    ensures status == ENOSPC && !InOrder(d.dev)
  {
    hide Stored, Sound, Bound, Split, Walk, Segments, GrowthCost, LastFails, Lo, InOrder, UsedBelow, CeilDiv, WriteStep;
    ghost var st, st2;
    d, st := OneFile(20);
    TopPath(st.table, "f");
    BlocksIn(9);
    CostAtLeast(0, 9);
    CostAtLeast(0, 8);
    EarlierFails(0, 9, 9);
    SuperOf(d.dev, st);
    var size;
    status, size, st2 := Write(d, Top("f"), Ones(9 * BLOCK_SIZE), 0, st);
  }

  lemma DirectCost(n: nat)
    requires n <= DIRECT_BLOCKS
    ensures GrowthCost(0, n) == n
  {
    hide Overhead;
    OverheadDirect(0);
    OverheadDirect(n);
  }

  /** A block whose append needs an indirect block gets its data block and no more, and nothing
      is reported. */
  lemma LastAppend(n: nat)
    requires n == DIRECT_BLOCKS
    ensures LastFails(n, n + 1, 2) && GrowthCost(n, n + 1) >= 2 && n + 1 <= Lo(4)
  {
    hide GrowthCost, Lo, NewNodes;
    EleventhCosts(n);
    NoCost(n);
    CostStep(n, n);
  }

  /** A file of ten blocks is to grow by one, and one block is free. The first half of
      write_file reports success, and the inode does not hold the eleven blocks B. */
  method LostAtTheEnd() returns (d: Disk, inode: Inode, status: Status, ghost B: seq<nat>)
    ensures status == OK && |B| == 11 && NoHolds(d.dev, inode.Rec(), B)
  {
    hide Stored, Sound, Bound, Split, Walk, Segments, GrowthCost, LastFails, Lo, NoHolds, GrownTo, UsedUp, RecAt,
      Tabled,
         InodeCount, WriteStep, UsedBelow;
    ghost var st, st2, a, F, n;
    n := DIRECT_BLOCKS;
    d, st := OneFile(23);
    TopPath(st.table, "f");
    BlocksIn(10);
    DirectCost(10);
    NotLast(0, 10, 12);
    SuperOf(d.dev, st);
    var size;
    status, size, st2 := Write(d, Top("f"), Ones(10 * BLOCK_SIZE), 0, st);
    TenBlocks(st, 3, Ones(10 * BLOCK_SIZE), st2);
    FileSize(d.dev, st2, 3);
    inode := ReadInode(d, 3);
    LastAppend(n);
    status, a, F, B := GrowFile(d, 10, 11, inode, 3, st2);
  }

  lemma TenBlocks(st: State, i: nat, buf: seq<Byte>, st': State)
    requires WriteStep(st, i, 0, buf, st') && st.table[i].data == [] && |st.table[i].blks| == 0 &&
      |buf| == 10 * BLOCK_SIZE
    requires |st.chain| == 12 && GrowthCost(0, 10) == 10
    ensures i < |st'.table| && st'.table[i].File? && |st'.table[i].blks| == 10 && |st'.chain| == 2
  {
    hide GrowthCost, Blocks;
    BlocksIn(10);
  }

  // ---- mkdir ----

  /** Making /a twice: the second time its name is in the root twice. */
  method MkdirTwice() returns (d: Disk, status: Status, ghost before: seq<Block>)
    ensures InOrder(before) && status == OK && !InOrder(d.dev)
  {
    hide Stored, Sound, Bound, Split, Walk, Segments, MkdirStep, CanGrow, NoneUnused, LeastUnused, InOrder, UsedBelow,
         Rooted;
    ghost var st0, st, p, c, st2;
    d, st0 := Format(60, 8);
    NotBound(st0.table, 2, "a");
    st := MkdirTop(d, "a", 3, st0);
    MkdirEffect(st0, 2, "a", 3, st);
    BoundAt(st.table, 2, 2);
    before := d.dev;
    StateInOrder(before, st);
    TopPath(st.table, "a");
    SuperOf(before, st);
    Growable(before, st, 2);
    KeptNumbers(st0.table, st.table, 3, 4);
    NextNumber(st.table, 4);
    status, p, c, st2 := Mkdir(d, Top("a"), st);
  }

  // ---- rename ----

  /** Renaming /a/d to /b/d: its ".." is still /a. */
  method DotDotLeftBehind() returns (d: Disk, ghost st': State)
    ensures Stored(d.dev, st') && Sound(st'.table)
    ensures Resolve(st'.table, Top("a")) == Found(3) && Resolve(st'.table, Top("b")) == Found(4)
    ensures Resolve(st'.table, Deep("b", "d")) == Found(5) && Bound(st'.table, 5, "..") == Some(3)
  {
    hide Stored, Sound, Bound, Split, Walk, Segments, RenameStep, Rooted;
    ghost var st, k;
    d, st := ThreeDirs();
    DeepPath(st.table, "a", "d");
    DeepPath(st.table, "b", "d");
    k, st' := Move(d, Deep("a", "d"), Deep("b", "d"), 3, 5, 4, st);
    MoveBounds(st, k, st');
    DeepPath(st'.table, "b", "d");
    TopPath(st'.table, "a");
  }

  lemma MoveBounds(st: State, k: nat, st': State)
    requires Sound(st.table) && RenameStep(st, 3, k, 4, "d", st') && st.table[3].ents[k] == Entry("d", 5)
    requires IsDir(st.table, 5) && 4 < |st.table| && st.table[4].Dir? && st.table[4].links < 10
    ensures Sound(st'.table) && IsDir(st'.table, 4)
    ensures Bound(st'.table, 4, "d") == Some(5) && Bound(st'.table, 5, "..") == Bound(st.table, 5, "..")
    ensures Bound(st'.table, 2, "a") == Bound(st.table, 2, "a") && Bound(st'.table, 2, "b") == Bound(st.table, 2, "b")
  {
    hide Sound, Bound, Runs.Bytes, Runs.BytesAfter;
    RenameKeepsSound(st, 3, k, 4, "d", st');
    Runs.RenameRefines(st, 3, k, 4, "d", st', 4, "d", 0);
    Runs.RenameRefines(st, 3, k, 4, "d", st', 5, "..", 0);
    Runs.RenameRefines(st, 3, k, 4, "d", st', 2, "a", 0);
    Runs.RenameRefines(st, 3, k, 4, "d", st', 2, "b", 0);
    RenameEffects(st, 3, k, 4, "d", st');
  }

  /** Renaming /a to /a/d/c: the counts are right, and nothing leads to it any more. */
  method DirectoryDetached() returns (d: Disk, ghost st': State)
    ensures Stored(d.dev, st') && Sound(st'.table) && InUse(st'.table, 3) && !Reachable(st'.table, 3)
  {
    hide Stored, Sound, Bound, Split, Walk, Segments, RenameStep, Rooted, Reachable;
    ghost var st, k;
    d, st := ThreeDirs();
    TopPath(st.table, "a");
    DeepPath(st.table, "a", "d");
    LongerPath(st.table, Deep("a", "d"), "c");
    k, st' := Move(d, Top("a"), Deep("a", "d") + "/" + "c", 2, 3, 5, st);
    Detached(st, k, st');
  }

  lemma Detached(st: State, k: nat, st': State)
    requires Sound(st.table) && RenameStep(st, 2, k, 5, "c", st') && st.table[2].ents[k] == Entry("a", 3)
    requires Bound(st.table, 3, "d") == Some(5) && IsDir(st.table, 5)
    ensures InUse(st'.table, 3) && !Reachable(st'.table, 3)
  {
    hide Sound, Names, Edge, KeepsEdges, Reachable, AddStep;
    var T := st.table;
    RenameEdges(st, 2, k, 5, "c", st');
    EdgeOf(T, 2, k);
    BoundEdge(T, 3, "d", 5);
    TargetInUse(T, 2, k);
    assert Leads(T, [2, 3, 5], 5) && 3 in [2, 3, 5];
    assert IsDir(T, 3);
    DirNames(T, 3);
    MoveCutsOff(T, st'.table, 3, 5);
  }

  /** A name other than "." and ".." is an edge. */
  lemma BoundEdge(T: seq<Node>, d: nat, name: string, x: nat)
    requires Sound(T) && Bound(T, d, name) == Some(x) && name != "." && name != ".."
    ensures Edge(T, d, x) && IsDir(T, d)
  {
    hide Counted, Names, SubDirs, Edge;
    SoundAt(T, d);
    EdgeOf(T, d, IndexOf(T[d].ents, name));
  }

  // ---- Full link counts ----

  /** The i-th of 65536 names of four letters. */
  function Name(i: nat): (s: string)
    requires i < LINK_COUNT_LIMIT
    ensures |s| == 4 && forall k :: 0 <= k < 4 ==> 'a' <= s[k] <= 'p'
  {
    [Letter(i / 16 / 16 / 16), Letter(i / 16 / 16 % 16), Letter(i / 16 % 16), Letter(i % 16)]
  }

  function Letter(k: nat): (c: char)
    requires k < 16
    ensures 'a' <= c <= 'p' && c as int == 97 + k
  {
    (97 + k) as char
  }

  lemma NamesDiffer(i: nat, j: nat)
    requires i < LINK_COUNT_LIMIT && j < LINK_COUNT_LIMIT && Name(i) == Name(j)
    ensures i == j
  {
    assert Name(i)[0] == Name(j)[0] && Name(i)[1] == Name(j)[1] && Name(i)[2] == Name(j)[2] && Name(i)[3] == Name(j)[3];
    assert i / 16 / 16 == j / 16 / 16;
    assert i / 16 == j / 16;
  }

  lemma NameComponent(i: nat)
    requires i < LINK_COUNT_LIMIT
    ensures Component(Name(i))
  {
    hide Name;
  }

  /** After b other entries with short names come the first n names. */
  ghost predicate Numbered(es: seq<Entry>, b: nat, n: nat) {
    n <= LINK_COUNT_LIMIT && |es| == b + n && (forall k :: 0 <= k < b ==> |es[k].name| <= 2) &&
    forall k :: 0 <= k < n ==> es[b + k].name == Name(k)
  }

  lemma NumberFree(T: seq<Node>, b: nat, n: nat)
    requires IsDir(T, 2) && Numbered(T[2].ents, b, n) && n < LINK_COUNT_LIMIT
    ensures Bound(T, 2, Name(n)) == None && Component(Name(n)) && Bound(T, 2, "new") == None
  {
    hide Bound, Name;
    var es := T[2].ents;
    forall k | 0 <= k < |es| ensures es[k].name != Name(n) && es[k].name != "new" {
      if k >= b {
        assert es[b + (k - b)].name == Name(k - b);
        if es[k].name == Name(n) { NamesDiffer(k - b, n); }
      }
    }
    NotBound(T, 2, Name(n));
    NotBound(T, 2, "new");
    NameComponent(n);
  }

  lemma NumberedNext(es: seq<Entry>, b: nat, n: nat, e: Entry)
    requires Numbered(es, b, n) && n < LINK_COUNT_LIMIT && e.name == Name(n)
    ensures Numbered(es + [e], b, n + 1)
  {
    hide Name;
  }

  /** A file gets 65535 links, and one more: its 16-bit count starts over at 0. */
  method LinkOverflows() returns (d: Disk, ghost before: seq<Block>)
    ensures InOrder(before) && !InOrder(d.dev)
  {
    hide Stored, Sound, Bound, LinkStep, InOrder, Numbered, Name, UsedBelow, Tabled, RecAt, InodeCount;
    ghost var st;
    d, st := OneFile(300_000);
    NumberedNone(st.table[2].ents);
    for i := 0 to 65534
      invariant Ready(d.dev, st, 2, 4) && Numbered(st.table[2].ents, 3, i) && Bound(st.table, 2, "f") == Some(3)
      invariant IsFile(st.table, 3) && st.table[3].links == 1 + i && |st.chain| + 4 * i >= 299_989
      invariant |st.table[2].ents| == 3 + i && |st.table| > 4
    {
      ghost var st0 := st;
      NumberFree(st.table, 3, i);
      st := LinkTop(d, "f", Name(i), 3, 4, st);
      LinkEffect(st0, 2, Name(i), 3, st);
      NumberedNext(st0.table[2].ents, 3, i, Entry(Name(i), 3));
      KeptNumbers(st0.table, st.table, 4, 4);
      Runs.LinkRefines(st0, 2, Name(i), 3, st, 2, "f", 0);
    }
    before := d.dev;
    StateInOrder(before, st);
    NumberFree(st.table, 3, 65534);
    ghost var st2 := LinkTop(d, "f", "new", 3, 4, st);
    LinkEffect(st, 2, "new", 3, st2);
    ZeroCount(d.dev, st2, 3);
  }

  lemma NumberedNone(es: seq<Entry>)
    requires forall k :: 0 <= k < |es| ==> |es[k].name| <= 2
    ensures Numbered(es, |es|, 0)
  {
  }

  lemma ZeroCount(D: seq<Block>, st: State, i: nat)
    requires Stored(D, st) && InUse(st.table, i) && st.table[i].links == 0
    ensures !InOrder(D)
  {
    hide Stored, InOrder, RecAt, Tabled, InodeCount;
    StoredTable(D, st, i);
    FileLinksOf(D, st, i);
    ZeroLinks(D, i);
  }

  /** The root has n directories, 3 to n + 2, of two entries each. */
  ghost predicate Crowded(T: seq<Node>, n: nat) {
    |T| == 65_600 && n < 65_534 && UsedBelow(T, 3 + n) && IsDir(T, 2) && Numbered(T[2].ents, 2, n) &&
    T[2].links == 2 + n && (forall x :: 3 <= x < 3 + n ==> IsDir(T, x) && |T[x].ents| == 2 && T[x].links == 2) &&
    (n > 0 ==> T[2].ents[2] == Entry(Name(0), 3) && T[3].ents == [Entry(".", 3), Entry("..", 2)])
  }

  lemma CrowdedNext(st: State, n: nat, st': State)
    requires Crowded(st.table, n) && n + 1 < 65_534 && MkdirStep(st, 2, Name(n), 3 + n, st')
    ensures Crowded(st'.table, n + 1) && |st'.chain| + 5 >= |st.chain|
  {
    hide MkdirStep, Numbered, UsedBelow, Name;
    var T, T', e := st.table, st'.table, Entry(Name(n), 3 + n);
    MkdirEffect(st, 2, Name(n), 3 + n, st');
    NumberedNext(T[2].ents, 2, n, e);
    CrowdedSize(T, n);
    KeptNumbers(T, T', 3 + n, 4 + n);
  }

  lemma CrowdedSize(T: seq<Node>, n: nat)
    requires Crowded(T, n)
    ensures |T[2].ents| == 2 + n
    ensures forall x :: 2 <= x < 3 + n ==> !T[x].Unused?
  {
  }

  method ManyDirs(n: nat) returns (d: Disk, ghost st: State)
    requires n < 65_534
    ensures fresh(d) && Ready(d.dev, st, 2, 3 + n) && Crowded(st.table, n) && |st.chain| > 100
  {
    hide Stored, Sound, Bound, MkdirStep, Crowded, Name, UsedBelow, Rooted;
    d, st := Format(400_000, 4100);
    CrowdedNone(st.table);
    for i := 0 to n
      invariant Ready(d.dev, st, 2, 3 + i) && Crowded(st.table, i) && |st.chain| + 5 * i >= 395_897
      invariant fresh(d)
    {
      ghost var st0 := st;
      CrowdedFacts(st.table, i);
      NumberFree(st.table, 2, i);
      st := MkdirTop(d, Name(i), 3 + i, st);
      CrowdedNext(st0, i, st);
      CrowdedFacts(st.table, i + 1);
    }
  }

  lemma CrowdedNone(T: seq<Node>)
    requires |T| == 65_600 && UsedBelow(T, 3) && IsDir(T, 2)
    requires T[2].ents == [Entry(".", 2), Entry("..", 2)] && T[2].links == 2
    ensures Crowded(T, 0)
  {
    NumberedNone(T[2].ents);
  }

  lemma CrowdedFacts(T: seq<Node>, n: nat)
    requires Crowded(T, n)
    ensures IsDir(T, 2) && Numbered(T[2].ents, 2, n) && T[2].links == 2 + n && UsedBelow(T, 3 + n) && |T| == 65_600
    ensures |T[2].ents| == 2 + n
    ensures n > 0 ==> IsDir(T, 3) && T[3].links == 2 && T[3].ents == [Entry(".", 3), Entry("..", 2)]
    ensures n > 0 ==> T[2].ents[2] == Entry(Name(0), 3)
  {
  }

  /** The root gets 65533 subdirectories, which is link count 65535, and one more. */
  method MkdirOverflows() returns (d: Disk, ghost before: seq<Block>)
    ensures InOrder(before) && !InOrder(d.dev)
  {
    hide Stored, Sound, Bound, MkdirStep, Crowded, InOrder, Name, UsedBelow;
    ghost var st;
    d, st := ManyDirs(65_533);
    before := d.dev;
    StateInOrder(before, st);
    CrowdedFacts(st.table, 65_533);
    NumberFree(st.table, 2, 65_533);
    ghost var st2 := MkdirTop(d, "new", 65_536, st);
    MkdirEffect(st, 2, "new", 65_536, st2);
    ZeroCount(d.dev, st2, 2);
  }

  /** The root gets 65533 subdirectories, and a directory moves there from one of them. */
  method RenameOverflows() returns (d: Disk, ghost before: seq<Block>)
    ensures InOrder(before) && !InOrder(d.dev)
  {
    hide Stored, Sound, Bound, MkdirStep, RenameStep, Crowded, InOrder, Name, UsedBelow, Split, Walk, Segments;
    ghost var st, k, st3;
    d, st := ManyDirs(65_533);
    CrowdedFacts(st.table, 65_533);
    NumberFree(st.table, 2, 65_533);
    NameComponent(0);
    BoundAt(st.table, 2, 2);
    NotBound(st.table, 3, "x");
    ghost var st2 := MkdirDeep(d, Name(0), "x", 3, 65_536, st);
    MkdirEffect(st, 3, "x", 65_536, st2);
    before := d.dev;
    StateInOrder(before, st2);
    SameBound(st.table, st2.table, 2, Name(0));
    SameBound(st.table, st2.table, 2, "new");
    BoundAt(st2.table, 3, 2);
    DeepPath(st2.table, Name(0), "x");
    TopPath(st2.table, "new");
    k, st3 := Move(d, Deep(Name(0), "x"), Top("new"), 3, 65_536, 2, st2);
    RenameEffects(st2, 3, k, 2, "new", st3);
    ZeroCount(d.dev, st3, 2);
  }

  lemma SameBound(T: seq<Node>, T': seq<Node>, d: nat, name: string)
    requires d < |T| && d < |T'| && T'[d] == T[d]
    ensures Bound(T', d, name) == Bound(T, d, name)
  {
  }
}
