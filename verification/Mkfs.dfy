/** Formatting: mkfs.uwu establishes everything that the other operations keep. */
module Mkfs {
  import opened Layout
  import opened Device
  import opened InodeTable
  import opened Store
  import opened Directory
  import opened Namespace
  import opened Steps
  import opened Lifecycle
  import opened Syscalls

  /** Blocks start, ..., start + size - 1 in order. */
  function Span(start: nat, size: nat): (s: seq<nat>)
    ensures |s| == size && forall i :: 0 <= i < size ==> s[i] == start + i
  {
    seq(size, i => start + i)
  }

  lemma {:induction false} SpanRange(start: nat, size: nat)
    ensures multiset(Span(start, size)) == Range(start, start + size)
  {
    if size == 0 {
      assert Span(start, 0) == [];
    } else {
      SpanRange(start, size - 1);
      assert Span(start, size) == Span(start, size - 1) + [start + size - 1];
    }
  }

  method InitFreelist(d: Disk, total: nat, start: nat, size: nat) returns (head: nat)
    requires start > 0 && size >= 10 && start + size <= total == |d.dev|
    modifies d
    ensures head == start && |d.dev| == old(|d.dev|)
    ensures forall x :: start <= x < start + size ==> d.dev[x] == FreeBlk(if x + 1 < start + size then x + 1 else 0)
    ensures forall x :: 0 <= x < |d.dev| && !(start <= x < start + size) ==> d.dev[x] == old(d.dev[x])
  {
    var end := start + size;
    var cur, next := start, start + 1;
    while cur < end - 1
      invariant start <= cur <= end - 1 && next == cur + 1 && |d.dev| == old(|d.dev|)
      invariant forall x :: start <= x < cur ==> d.dev[x] == FreeBlk(x + 1)
      invariant forall x :: 0 <= x < |d.dev| && !(start <= x < cur) ==> d.dev[x] == old(d.dev[x])
    {
      d.WriteBlk(cur, FreeBlk(next));
      cur := next;
      next := next + 1;
    }
    d.WriteBlk(cur, FreeBlk(0));
    head := start;
  }

  method InitSuperblock(d: Disk, total: nat, ilistStart: nat, ilistSize: nat, freeStart: nat, freeSize: nat, head: nat)
    requires |d.dev| > 0 && freeSize > 0
    modifies d
    ensures d.dev == old(d.dev)[0 := Super(SuperBlk(total, ilistStart, ilistSize, freeStart, freeSize, head,
      freeSize - 1))]
  {
    d.WriteBlk(0, Super(SuperBlk(total, ilistStart, ilistSize, freeStart, freeSize, head, freeSize - 1)));
  }

  const NO_INODES := Inodes(seq(INODES_PER_BLOCK, _ => NO_INODE))

  method InitInodes(d: Disk, ilistStart: nat, ilistSize: nat)
    requires ilistStart + ilistSize <= |d.dev| && ilistStart + ilistSize >= 10
    modifies d
    ensures |d.dev| == old(|d.dev|)
    ensures forall x :: 0 <= x < |d.dev| ==>
      d.dev[x] == if ilistStart <= x < ilistStart + ilistSize then NO_INODES else old(d.dev[x])
  {
    var end := ilistStart + ilistSize;
    for i := ilistStart to end
      invariant |d.dev| == old(|d.dev|)
      invariant forall x :: 0 <= x < |d.dev| ==> d.dev[x] == if ilistStart <= x < i then NO_INODES else old(d.dev[x])
    {
      d.WriteBlk(i, NO_INODES);
    }
  }

  // ---- The empty file system ----

  function NoNodes(n: nat): (t: seq<Node>)
    ensures |t| == n && forall i :: 0 <= i < n ==> t[i] == Unused([])
  {
    seq(n, _ => Unused([]))
  }

  lemma {:induction false} SumNone(n: nat, f: Node -> multiset<nat>)
    requires f(Unused([])) == multiset{}
    ensures Sum(NoNodes(n), f) == multiset{}
  {
    if n > 0 {
      SumNone(n - 1, f);
      assert NoNodes(n)[..n - 1] == NoNodes(n - 1);
    }
  }

  /** The device after the free list, the superblock and the inode list have been written. */
  lemma Formatted(D: seq<Block>, ilistSize: nat, freeSize: nat)
    requires ilistSize >= 1 && freeSize >= 1 && |D| == 2 + ilistSize + freeSize
    requires D[0] == Super(SuperBlk(|D|, 2, ilistSize, 2 + ilistSize, freeSize, 2 + ilistSize, freeSize - 1))
    requires forall x :: 2 <= x < 2 + ilistSize ==> D[x] == NO_INODES
    requires forall x :: 2 + ilistSize <= x < |D| ==> D[x] == FreeBlk(if x + 1 < |D| then x + 1 else 0)
    ensures Stored(D, State(Span(2 + ilistSize, freeSize), NoNodes(ilistSize * INODES_PER_BLOCK)))
  {
    hide Chain, Is, RecAt, Linked, Tabled;
    var F, T := Span(2 + ilistSize, freeSize), NoNodes(ilistSize * INODES_PER_BLOCK);
    FormattedChain(D, F);
    FormattedTable(D);
    SpanRange(2 + ilistSize, freeSize);
    SumNone(|T|, Blocks);
    forall i | 0 <= i < |T| ensures Is(D, RecAt(D, i), T[i]) { UnusedIs(D, RecAt(D, i)); }
  }

  lemma UnusedIs(D: seq<Block>, rec: InodeRec)
    requires rec.kind == FreeInode
    ensures Is(D, rec, Unused([]))
  {
  }

  lemma FormattedTable(D: seq<Block>)
    requires Geometry(D) && forall x :: D[0].sb.ilistStart <= x < D[0].sb.freeStart ==> D[x] == NO_INODES
    ensures Tabled(D) && forall i :: 0 <= i < InodeCount(D) ==> RecAt(D, i).kind == FreeInode
  {
    forall i | 0 <= i < InodeCount(D) ensures RecAt(D, i).kind == FreeInode { SlotInList(D, i); }
  }

  lemma FormattedChain(D: seq<Block>, F: seq<nat>)
    requires Geometry(D) && F == Span(D[0].sb.freeStart, D[0].sb.freeSize) && F != []
    requires D[0].sb.head == D[0].sb.freeStart && D[0].sb.left == D[0].sb.freeSize - 1
    requires forall x :: D[0].sb.freeStart <= x < |D| ==> D[x] == FreeBlk(if x + 1 < |D| then x + 1 else 0)
    ensures Chain(D, F)
  {
    forall i | 0 <= i < |F| ensures Linked(D, F, i) {
    }
  }

  /** The table with the root directory, whose only block is b. */
  function RootOnly(n: nat, b: nat): seq<Node>
    requires n > ROOT_DIR_INODE
  {
    NoNodes(n)[ROOT_DIR_INODE := NewDir(ROOT_DIR_INODE, ROOT_DIR_INODE, b)]
  }

  /** What formatting makes: the root directory, and all other blocks of the data region free. */
  function EmptyFs(total: nat, ilistSize: nat): State
    requires ilistSize >= 1 && 2 + ilistSize < total
  {
    State(Span(3 + ilistSize, total - 3 - ilistSize), RootOnly(ilistSize * INODES_PER_BLOCK, 2 + ilistSize))
  }

  lemma RootOnlySound(n: nat, b: nat)
    requires n > ROOT_DIR_INODE
    ensures Sound(RootOnly(n, b))
  {
    hide Names, SubDirs;
    var T, R := NoNodes(n), RootOnly(n, b);
    forall x ensures Names(R, x) == 0 {
      NamesNone(n, x);
      BecomesEffect(T, ROOT_DIR_INODE, R[ROOT_DIR_INODE], R);
    }
    NoSubDirs(R, ROOT_DIR_INODE);
    GoodNew(ROOT_DIR_INODE, ROOT_DIR_INODE);
  }

  lemma NamesNone(n: nat, x: nat)
    ensures Names(NoNodes(n), x) == 0
  {
    assert Targets(Ordinary(Unused([]))) == [];
    SumNone(n, NamedBy);
  }

  method InitRootDirectory(d: Disk, ghost st: State) returns (ghost st': State)
    requires Stored(d.dev, st) && |st.chain| > 1 && |st.table| > ROOT_DIR_INODE && st.table == NoNodes(|st.table|)
    modifies d
    ensures st' == State(st.chain[1..], RootOnly(|st.table|, st.chain[0])) && Stored(d.dev, st')
  {
    hide Stored, RecAt, InodeCount, Tabled, InodeWritten, DirBlock, PutFirst, NoSlotFree, Chain;
    ghost var D, root := d.dev, ROOT_DIR_INODE;
    EmptyNotFull();
    var status, ents := PutDirectoryFileEntry(DirBlock([], 0), ".", ROOT_DIR_INODE);
    OneNotFull(Entry(".", root), ents);
    var ents2;
    status, ents2 := PutDirectoryFileEntry(ents, "..", ROOT_DIR_INODE);
    TwoEntries(Entry(".", root), Entry("..", root), ents, ents2);
    StoredChain(D, st);
    var b;
    status, b := MallocBlk(d, st.chain);
    Reserved(D, d.dev, st, root);
    ghost var E, st1 := d.dev, State(st.chain[1..], st.table[root := Unused([b])]);
    BlockOf(E, st1, root, b);
    d.WriteBlk(b, Table(ents2));
    BlockWritten(E, st1, root, b, ents2);
    ghost var E1 := d.dev;
    WriteInode(d, NewDirRec(b), ROOT_DIR_INODE);
    NewDirStored(E, E1, d.dev, st1, root, root, b);
    st' := State(st.chain[1..], st1.table[root := NewDir(root, root, b)]);
    assert st'.table == RootOnly(|st.table|, b);
  }

  /** The sizes come from the caller; dividing them by ten for progress reports asks for at
      least ten free blocks and an inode list that ends at block 10 or later. */
  method InitUwufs(d: Disk, total: nat, ilistSize: nat) returns (ghost st: State)
    requires total == |d.dev| && ilistSize >= 1 && 2 + ilistSize >= 10 && 2 + ilistSize + 10 <= total
    modifies d
    ensures Stored(d.dev, st) && Sound(st.table) && st == EmptyFs(total, ilistSize)
  {
    hide Stored, Sound;
    var ilistStart := 1 + RESERVED_SPACE;
    var freeStart := ilistStart + ilistSize;
    var freeSize := total - 1 - RESERVED_SPACE - ilistSize;
    var head := InitFreelist(d, total, freeStart, freeSize);
    InitSuperblock(d, total, ilistStart, ilistSize, freeStart, freeSize, head);
    InitInodes(d, ilistStart, ilistSize);
    Formatted(d.dev, ilistSize, freeSize);
    ghost var st0 := State(Span(2 + ilistSize, freeSize), NoNodes(ilistSize * INODES_PER_BLOCK));
    st := InitRootDirectory(d, st0);
    RootOnlySound(|st0.table|, 2 + ilistSize);
    assert st0.chain[1..] == Span(3 + ilistSize, freeSize - 1);
  }
}
