/** Directories: a packed table of entries, sixteen a block. */
module Directory {
  import opened Layout
  import opened Device
  import opened PointerTree
  import opened INode
  import opened DataBlockIterator
  import opened InodeTable
  import opened Store
  import opened Editing

  function DirBlock(ents: seq<Entry>, k: nat): (p: seq<Entry>)
    ensures |p| == ENTRIES_PER_BLOCK
  {
    Page(ents, k, ENTRIES_PER_BLOCK, NO_ENTRY)
  }

  /** Slot k of the table is slot k % 16 of block k / 16. */
  lemma SlotOf(ents: seq<Entry>, b: nat, j: nat)
    requires j < ENTRIES_PER_BLOCK
    ensures DirBlock(ents, b)[j] ==
      if b * ENTRIES_PER_BLOCK + j < |ents| then ents[b * ENTRIES_PER_BLOCK + j] else NO_ENTRY
  {
  }

  ghost predicate Nonzero(ents: seq<Entry>) {
    forall k :: 0 <= k < |ents| ==> ents[k].ino != 0
  }

  lemma DirFacts(D: seq<Block>, st: State, i: nat)
    requires Stored(D, st) && i < |st.table| && st.table[i].Dir?
    ensures var a := st.table[i]; var rec := RecAt(D, i);
      && Tabled(D) && i < InodeCount(D) && Nonzero(a.ents) && |a.blks| == CeilDiv(|a.ents|, ENTRIES_PER_BLOCK)
      && Holds(D, rec, a.blks, a.nodes) && rec.size == |a.blks| * BLOCK_SIZE && rec.links == a.links &&
        rec.kind == Directory
      && |a.blks| <= Lo(4)
  {
    hide Tree, Kids, Linked, Conserved;
    assert Is(D, RecAt(D, i), st.table[i]);
  }

  lemma DirBlockAt(D: seq<Block>, st: State, i: nat, k: nat)
    requires Stored(D, st) && i < |st.table| && st.table[i].Dir? && k < |st.table[i].blks|
    ensures var a := st.table[i]; a.blks[k] < |D| && a.blks[k] != 0 && D[a.blks[k]] == Table(DirBlock(a.ents, k))
  {
    hide Tree, Kids, Linked, Holds;
    assert Is(D, RecAt(D, i), st.table[i]);
    var a := st.table[i];
    OwnSeparate(D, st, i);
    assert a.blks[k] in a.blks && a.blks[k] in DataBlks(a) + TreeNodes(a);
  }

  /** A directory is packed: entry k is in slot k % 16 of block k / 16, the slots after the
      last entry are free, and there is no block without an entry. */
  lemma Packed(D: seq<Block>, st: State, i: nat, b: nat, j: nat)
    requires Stored(D, st) && i < |st.table| && st.table[i].Dir? && b < |st.table[i].blks| && j < ENTRIES_PER_BLOCK
    ensures |st.table[i].blks| == CeilDiv(|st.table[i].ents|, ENTRIES_PER_BLOCK)
    ensures var blk := D[st.table[i].blks[b]]; var k := b * ENTRIES_PER_BLOCK + j;
      && blk.Table? && |blk.ents| == ENTRIES_PER_BLOCK
      && (blk.ents[j].ino != 0 <==> k < |st.table[i].ents|)
      && (k < |st.table[i].ents| ==> blk.ents[j] == st.table[i].ents[k])
      && blk.ents[0].ino != 0
  {
    hide Tree, Kids, Linked, Holds, Stored, RecAt;
    DirFacts(D, st, i);
    DirBlockAt(D, st, i, b);
    SlotOf(st.table[i].ents, b, j);
    SlotOf(st.table[i].ents, b, 0);
  }

  /** file_size of a directory counts whole blocks. */
  lemma DirBlocksOf(n: nat)
    ensures (n * BLOCK_SIZE + BLOCK_SIZE - 1) / BLOCK_SIZE == n
  {
  }

  // ---- Lookup ----

  /** The first entry with this name; |ents| when there is none. */
  function IndexOf(ents: seq<Entry>, name: string): (k: nat)
    ensures k <= |ents|
    ensures forall j :: 0 <= j < k ==> ents[j].name != name
    ensures k < |ents| ==> ents[k].name == name
  {
    if ents == [] then 0
    else if ents[0].name == name then 0
    else
      var k := IndexOf(ents[1..], name);
      assert forall j :: 0 < j < k + 1 ==> ents[j] == ents[1..][j - 1];
      k + 1
  }

  lemma IndexOfUnique(ents: seq<Entry>, name: string, k: nat)
    requires k < |ents| && ents[k].name == name && forall j :: 0 <= j < k ==> ents[j].name != name
    ensures IndexOf(ents, name) == k
  {
  }

  method NextInodeInPath(d: Disk, fileName: string, inode: Inode, ghost i: nat, ghost st: State)
      returns (status: Status, num: nat)
    requires Stored(d.dev, st) && i < |st.table| && st.table[i].Dir?
    requires Tabled(d.dev) && i < InodeCount(d.dev) && inode.Rec() == RecAt(d.dev, i)
    ensures var k := IndexOf(st.table[i].ents, fileName);
      if fileName != "" && k < |st.table[i].ents| then status == OK && num == st.table[i].ents[k].ino
      else status == ENOENT
  {
    hide Tree, Kids, Linked, Holds, Stored, Filled, RecAt, Tabled, InodeCount, Lo, Safe;
    ghost var a := st.table[i];
    DirFacts(d.dev, st, i);
    DirBlocksOf(|a.blks|);
    var n := (inode.size + BLOCK_SIZE - 1) / BLOCK_SIZE;
    var itr := new DataBlockIterator(inode, 0);
    Levels();
    num := 0;
    for b := 0 to n
      invariant itr.currentIndex == b
      invariant fileName != "" ==> forall q :: 0 <= q < |a.ents| && q < b * ENTRIES_PER_BLOCK ==>
        a.ents[q].name != fileName
    {
      DirBlockAt(d.dev, st, i, b);
      InsideSafe(|a.blks|, b);
      var no := itr.Next(d, a.blks, a.nodes);
      var blk := d.ReadBlk(no);
      for j := 0 to ENTRIES_PER_BLOCK
        invariant itr.currentIndex == b + 1
        invariant fileName != "" ==>
          forall q :: 0 <= q < |a.ents| && q < b * ENTRIES_PER_BLOCK + j ==> a.ents[q].name != fileName
      {
        SlotOf(a.ents, b, j);
        if blk.ents[j].ino > 0 && |fileName| > 0 && blk.ents[j].name == fileName {
          IndexOfUnique(a.ents, fileName, b * ENTRIES_PER_BLOCK + j);
          return OK, blk.ents[j].ino;
        }
      }
    }
    status := ENOENT;
  }

  /** Only the first block is read; packing makes that enough. */
  method IsDirectoryEmpty(d: Disk, inode: Inode, ghost i: nat, ghost st: State) returns (empty: bool)
    requires Stored(d.dev, st) && i < |st.table| && st.table[i].Dir? && st.table[i].ents != []
    requires Tabled(d.dev) && i < InodeCount(d.dev) && inode.Rec() == RecAt(d.dev, i)
    ensures empty <==> |st.table[i].ents| <= 2
  {
    hide Tree, Kids, Linked, Stored, Filled, RecAt, Tabled, InodeCount, Lo, Overhead;
    ghost var a := st.table[i];
    DirFacts(d.dev, st, i);
    DirBlockAt(d.dev, st, i, 0);
    FirstDirect(d.dev, RecAt(d.dev, i), a.blks, a.nodes);
    var blk := d.ReadBlk(inode.direct[0]);
    var count := 0;
    for j := 0 to ENTRIES_PER_BLOCK
      invariant count == Min(j, |a.ents|)
    {
      SlotOf(a.ents, 0, j);
      if blk.ents[j].ino != 0 {
        count := count + 1;
      }
    }
    return count <= 2;
  }

  lemma FirstDirect(D: seq<Block>, rec: InodeRec, B: seq<nat>, N: seq<nat>)
    requires Holds(D, rec, B, N) && B != []
    ensures |rec.direct| == DIRECT_BLOCKS && rec.direct[0] == B[0]
  {
  }

  // ---- Adding an entry ----

  ghost predicate NoSlotFree(p: seq<Entry>) {
    forall j :: 0 <= j < |p| ==> p[j].ino != 0
  }

  /** e went into the first free slot of p. */
  ghost predicate PutFirst(p: seq<Entry>, e: Entry, p': seq<Entry>) {
    exists j :: 0 <= j < |p| && PutAt(p, e, p', j)
  }

  ghost predicate PutAt(p: seq<Entry>, e: Entry, p': seq<Entry>, j: nat)
    requires j < |p|
  {
    p[j].ino == 0 && p' == p[j := e] && forall q :: 0 <= q < j ==> p[q].ino != 0
  }

  method PutDirectoryFileEntry(ents: seq<Entry>, name: string, ino: nat) returns (status: Status, ents': seq<Entry>)
    requires |ents| == ENTRIES_PER_BLOCK && |name| < FILE_NAME_SIZE
    ensures status == if NoSlotFree(ents) then ENOSPC else OK
    ensures status == ENOSPC ==> ents' == ents
    ensures status == OK ==> PutFirst(ents, Entry(name, ino), ents')
  {
    for i := 0 to ENTRIES_PER_BLOCK
      invariant forall j :: 0 <= j < i ==> ents[j].ino != 0
    {
      if ents[i].ino == 0 {
        assert PutAt(ents, Entry(name, ino), ents[i := Entry(name, ino)], i);
        return OK, ents[i := Entry(name, ino)];
      }
    }
    return ENOSPC, ents;
  }

  /** file_links_count is 16 bits wide. */
  function WrapLinks(links: int): nat { links % LINK_COUNT_LIMIT }

  /** Adding entry e to directory i. A new block, with the indirect blocks X it needs, is
      taken exactly when the last one is full. */
  ghost predicate AddStep(st: State, i: nat, e: Entry, delta: int, st': State) {
    i < |st.table| && st.table[i].Dir? &&
    var a := st.table[i];
    var links := WrapLinks(a.links + delta);
    if |a.ents| % ENTRIES_PER_BLOCK != 0 then
      st' == State(st.chain, st.table[i := Dir(a.blks, a.nodes, a.ents + [e], links)])
    else
      |a.blks| < Lo(4) && 1 + NewNodes(|a.blks|) < |st.chain| &&
      var c := 1 + NewNodes(|a.blks|);
      st' == State(st.chain[c..],
                   st.table[i := Dir(a.blks + [st.chain[0]], a.nodes + st.chain[1..c], a.ents + [e], links)])
  }

  /** The last block has room: its first free slot is the table's next one. */
  lemma AddInBlock(ents: seq<Entry>, e: Entry, blk: seq<Entry>, k: nat)
    requires Nonzero(ents) && ents != [] && |ents| % ENTRIES_PER_BLOCK != 0 && e.ino != 0
    requires PutFirst(DirBlock(ents, CeilDiv(|ents|, ENTRIES_PER_BLOCK) - 1), e, blk)
    ensures CeilDiv(|ents| + 1, ENTRIES_PER_BLOCK) == CeilDiv(|ents|, ENTRIES_PER_BLOCK)
    ensures DirBlock(ents + [e], k) == if k == CeilDiv(|ents|, ENTRIES_PER_BLOCK) - 1 then blk else DirBlock(ents, k)
  {
    var n := CeilDiv(|ents|, ENTRIES_PER_BLOCK) - 1;
    var p := DirBlock(ents, n);
    var j :| 0 <= j < |p| && PutAt(p, e, blk, j);
    var j0 := |ents| - n * ENTRIES_PER_BLOCK;
    assert 0 < j0 < ENTRIES_PER_BLOCK;
    assert p[j0].ino == 0 && forall q :: 0 <= q < j0 ==> p[q].ino != 0;
    assert j == j0;
    forall q | 0 <= q < ENTRIES_PER_BLOCK
      ensures DirBlock(ents + [e], k)[q] == (if k == n then blk else DirBlock(ents, k))[q]
    {
      SlotOf(ents + [e], k, q);
      SlotOf(ents, k, q);
    }
  }

  /** The last block is full exactly when the table fills its blocks. */
  lemma FullBlock(ents: seq<Entry>)
    requires Nonzero(ents) && ents != []
    ensures NoSlotFree(DirBlock(ents, CeilDiv(|ents|, ENTRIES_PER_BLOCK) - 1)) <==> |ents| % ENTRIES_PER_BLOCK == 0
  {
    var n := CeilDiv(|ents|, ENTRIES_PER_BLOCK) - 1;
    var p := DirBlock(ents, n);
    if |ents| % ENTRIES_PER_BLOCK != 0 {
      assert p[|ents| - n * ENTRIES_PER_BLOCK].ino == 0;
    }
  }

  /** A fresh block holds just the new entry. */
  lemma AddNewBlock(ents: seq<Entry>, e: Entry, k: nat)
    requires |ents| % ENTRIES_PER_BLOCK == 0
    ensures CeilDiv(|ents| + 1, ENTRIES_PER_BLOCK) == CeilDiv(|ents|, ENTRIES_PER_BLOCK) + 1
    ensures DirBlock(ents + [e], k) ==
      if k == CeilDiv(|ents|, ENTRIES_PER_BLOCK) then DirBlock([], 0)[0 := e] else DirBlock(ents, k)
  {
    var n := CeilDiv(|ents|, ENTRIES_PER_BLOCK);
    forall q | 0 <= q < ENTRIES_PER_BLOCK
      ensures DirBlock(ents + [e], k)[q] == (if k == n then DirBlock([], 0)[0 := e] else DirBlock(ents, k))[q]
    {
      SlotOf(ents + [e], k, q);
      SlotOf(ents, k, q);
      SlotOf([], 0, q);
    }
  }

  lemma PutInEmpty(e: Entry, p': seq<Entry>)
    requires PutFirst(DirBlock([], 0), e, p')
    ensures p' == DirBlock([], 0)[0 := e]
  {
    var p := DirBlock([], 0);
    var j :| 0 <= j < |p| && PutAt(p, e, p', j);
    assert p[0].ino == 0;
  }

  lemma EmptyNotFull()
    ensures !NoSlotFree(DirBlock([], 0))
  {
    assert DirBlock([], 0)[0].ino == 0;
  }

  lemma AddRoom(D: seq<Block>, st: State, i: nat)
    requires Stored(D, st) && i < |st.table| && st.table[i].Dir?
    ensures Tabled(D) && i < InodeCount(D)
    ensures Chain(D, st.chain) && Edited(D, D, st, i, RecAt(D, i), st.table[i], st.chain)
  {
    EditStart(D, st, i);
  }

  lemma AddedInBlock(D: seq<Block>, E1: seq<Block>, E2: seq<Block>, st: State, i: nat, rec2: InodeRec, e: Entry,
                     delta: int, no: nat, blk: seq<Entry>)
    requires Stored(D, st) && i < |st.table| && st.table[i].Dir? && st.table[i].ents != []
    requires |st.table[i].ents| % ENTRIES_PER_BLOCK != 0 && e.ino != 0
    requires InodeWritten(D, E1, i, rec2)
    requires rec2 == RecAt(D, i).(links := WrapLinks(st.table[i].links + delta))
    requires |st.table[i].blks| > 0 && no == st.table[i].blks[|st.table[i].blks| - 1] && no < |E1| &&
      E2 == E1[no := Table(blk)]
    requires PutFirst(DirBlock(st.table[i].ents, |st.table[i].blks| - 1), e, blk)
    ensures var a := st.table[i];
      var st' := State(st.chain, st.table[i := Dir(a.blks, a.nodes, a.ents + [e], WrapLinks(a.links + delta))]);
      Stored(E2, st') && AddStep(st, i, e, delta, st')
  {
    hide Tree, Kids, Linked, Holds, Conserved, Stored, RecAt, InodeWritten, Edited, DirBlock, PutFirst;
    var a := st.table[i];
    var a2 := Dir(a.blks, a.nodes, a.ents + [e], WrapLinks(a.links + delta));
    var n := |a.blks| - 1;
    AddRoom(D, st, i);
    DirFacts(D, st, i);
    BlksDistinct(D, D, st, i, RecAt(D, i), a, st.chain);
    EditRetype(D, D, st, i, RecAt(D, i), a, a2, st.chain);
    AddInBlock(a.ents, e, blk, n);
    forall k | 0 <= k < |a2.blks|
      ensures a2.blks[k] < |D| && 
        (if a2.blks[k] == no then Table(blk) else D[a2.blks[k]]) == Table(DirBlock(a2.ents, k))
    {
      DirBlockAt(D, st, i, k);
      AddInBlock(a.ents, e, blk, k);
    }
    ContentIs(a2);
    EditStoredLate(D, D, E1, E2, st, i, RecAt(D, i), rec2, a2, st.chain, no, Table(blk));
  }

  lemma ContentIs(a: Node)
    requires a.Dir?
    ensures forall k :: 0 <= k ==> Content(a, k) == Table(DirBlock(a.ents, k))
  {
  }

  /** The state after a block was allocated and appended to the directory. */
  ghost predicate AddGrown(D: seq<Block>, E: seq<Block>, st: State, i: nat, rec: InodeRec, no: nat, X: seq<nat>,
                           F: seq<nat>)
  {
    i < |st.table| && st.table[i].Dir? && Tabled(D) && i < InodeCount(D) &&
    Edited(D, E, st, i, rec, Grown(st.table[i], no, X), F) &&
    st.chain == [no] + X + F && |X| == NewNodes(|st.table[i].blks|) && |F| >= 1 && |st.table[i].blks| < Lo(4) &&
    rec.size == RecAt(D, i).size + BLOCK_SIZE && rec.links == RecAt(D, i).links && rec.kind == Directory &&
    no < |E| == |D| &&
    forall k :: 0 <= k < |st.table[i].blks| ==>
      st.table[i].blks[k] < |D| && E[st.table[i].blks[k]] == D[st.table[i].blks[k]]
  }

  lemma AddGrow(D: seq<Block>, E1: seq<Block>, E: seq<Block>, st: State, i: nat, rec: InodeRec, no: nat, X: seq<nat>,
                F: seq<nat>)
    requires Stored(D, st) && i < |st.table| && st.table[i].Dir? && |st.table[i].blks| < Lo(4)
    requires |st.chain| > 1 + NewNodes(|st.table[i].blks|) && no == st.chain[0]
    requires Chain(E1, st.chain[1..]) && OnlyTouches(D, E1, [], [])
    requires rec.size == (|st.table[i].blks| + 1) * BLOCK_SIZE && rec.links == st.table[i].links &&
      rec.kind == Directory
    requires Extended(E1, E, rec, st.table[i].blks, st.table[i].nodes, no, st.chain[1..], X, F)
    ensures AddGrown(D, E, st, i, rec, no, X, F)
  {
    hide Tree, Kids, Linked, Holds, Conserved, Stored, RecAt, Edited, Overhead, Lo;
    AddRoom(D, st, i);
    DirFacts(D, st, i);
    EditGrow(D, D, E1, E, st, i, RecAt(D, i), rec, st.table[i], st.chain, no, X, F);
    assert st.chain == [no] + X + F;
    forall k | 0 <= k < |st.table[i].blks|
      ensures st.table[i].blks[k] < |D| && E[st.table[i].blks[k]] == D[st.table[i].blks[k]]
    {
      DirBlockAt(D, st, i, k);
    }
  }

  lemma AddReady(D: seq<Block>, E1: seq<Block>, st: State, i: nat, no: nat)
    requires Stored(D, st) && i < |st.table| && st.table[i].Dir? && |st.chain| > 1 && no == st.chain[0]
    requires Chain(E1, st.chain[1..]) && OnlyTouches(D, E1, [], [])
    ensures Holds(E1, RecAt(D, i), st.table[i].blks, st.table[i].nodes) &&
      Separate(E1, st.table[i].nodes, st.chain[1..])
  {
    hide Tree, Kids, Linked, Holds, Conserved, Stored, Edited, RecAt, Separate;
    AddRoom(D, st, i);
    EditMalloc(D, D, E1, st, i, RecAt(D, i), st.table[i], st.chain, no);
  }

  lemma AddedInNewBlock(D: seq<Block>, E: seq<Block>, E1: seq<Block>, E2: seq<Block>, st: State, i: nat, rec: InodeRec,
                        rec2: InodeRec, e: Entry, delta: int, no: nat, X: seq<nat>, F: seq<nat>, blk: seq<Entry>)
    requires Stored(D, st) && AddGrown(D, E, st, i, rec, no, X, F) && st.table[i].ents != [] && e.ino != 0
    requires |st.table[i].ents| % ENTRIES_PER_BLOCK == 0
    requires InodeWritten(E, E1, i, rec2)
    requires rec2 == rec.(links := WrapLinks(st.table[i].links + delta))
    requires no < |E1| && E2 == E1[no := Table(blk)] && PutFirst(DirBlock([], 0), e, blk)
    ensures var a := st.table[i];
      var st' := State(F, st.table[i := Dir(a.blks + [no], a.nodes + X, a.ents + [e], WrapLinks(a.links + delta))]);
      Stored(E2, st') && AddStep(st, i, e, delta, st')
  {
    hide Tree, Kids, Linked, Holds, Conserved, Stored, RecAt, InodeWritten, Edited, DirBlock, PutFirst, Lo;
    var a := st.table[i];
    var a2 := Dir(a.blks + [no], a.nodes + X, a.ents + [e], WrapLinks(a.links + delta));
    DirFacts(D, st, i);
    EditRetype(D, E, st, i, rec, Grown(a, no, X), a2, F);
    BlksDistinct(D, E, st, i, rec, a2, F);
    PutInEmpty(e, blk);
    AddNewBlock(a.ents, e, 0);
    forall k | 0 <= k < |a2.blks|
      ensures a2.blks[k] < |E| && 
        (if a2.blks[k] == no then Table(blk) else E[a2.blks[k]]) == Table(DirBlock(a2.ents, k))
    {
      AddNewBlock(a.ents, e, k);
      assert a2.blks[|a.blks|] == no;
      if k < |a.blks| { DirBlockAt(D, st, i, k); }
    }
    ContentIs(a2);
    EditStoredLate(D, E, E1, E2, st, i, rec, rec2, a2, F, no, Table(blk));
    assert st.chain[1..1 + |X|] == X && st.chain[1 + |X|..] == F;
  }

  lemma WrittenSize(D: seq<Block>, E: seq<Block>, i: nat, rec: InodeRec)
    requires InodeWritten(D, E, i, rec)
    ensures |E| == |D|
  {
  }

  lemma AddGrownTabled(D: seq<Block>, E: seq<Block>, st: State, i: nat, rec: InodeRec, no: nat, X: seq<nat>,
          F: seq<nat>)
    requires AddGrown(D, E, st, i, rec, no, X, F)
    ensures Tabled(E) && i < InodeCount(E) && no < |E| && rec.links == st.table[i].links
  {
    hide Tree, Kids, Linked, Holds, Conserved;
    ListRecs(D, E);
    assert Is(D, RecAt(D, i), st.table[i]);
  }

  /** add_directory_file_entry when the last block is full: the entry goes into a new one. */
  method AddInNewBlock(d: Disk, inode: Inode, dirNum: nat, n: nat, name: string, fileNum: nat, nlinksChange: int,
                       ghost st: State)
      returns (status: Status, ghost st': State)
    requires Stored(d.dev, st) && dirNum < |st.table| && st.table[dirNum].Dir? && st.table[dirNum].ents != []
    requires Tabled(d.dev) && dirNum < InodeCount(d.dev) && inode.Rec() == RecAt(d.dev, dirNum)
    requires n == |st.table[dirNum].blks| < Lo(4) && 1 + NewNodes(n) < |st.chain|
    requires |st.table[dirNum].ents| % ENTRIES_PER_BLOCK == 0 && |name| < FILE_NAME_SIZE && fileNum != 0
    modifies d, inode
    ensures status == OK && Stored(d.dev, st') && AddStep(st, dirNum, Entry(name, fileNum), nlinksChange, st')
  {
    hide Tree, Kids, Chain, Holds, Separate, Stored, Filled, RecAt, Tabled, InodeCount, Lo, NewNodes, Overhead,
         Extended, InodeWritten, AddStep, Edited, AddGrown, DirBlock, PutFirst, NoSlotFree, OnlyTouches;
    ghost var D, a, e := d.dev, st.table[dirNum], Entry(name, fileNum);
    DirFacts(D, st, dirNum);
    AddRoom(D, st, dirNum);
    var no;
    status, no := MallocBlk(d, st.chain);
    if status != OK {
      return ENOSPC, st;
    }
    ghost var E1 := d.dev;
    inode.size := inode.size + BLOCK_SIZE;
    AddReady(D, E1, st, dirNum, no);
    HoldsPointers(E1, RecAt(D, dirNum), inode.Rec(), a.blks, a.nodes);
    EmptyNotFull();
    var ents;
    status, ents := PutDirectoryFileEntry(DirBlock([], 0), name, fileNum);
    ghost var X, F;
    var no2;
    no2, X, F := AppendDblk(d, inode, n, no, a.blks, a.nodes, st.chain[1..]);
    ghost var E, rec := d.dev, inode.Rec();
    AddGrow(D, E1, E, st, dirNum, rec, no, X, F);
    AddGrownTabled(D, E, st, dirNum, rec, no, X, F);
    inode.links := WrapLinks(inode.links + nlinksChange);
    WriteInode(d, inode.Rec(), dirNum);
    ghost var E2 := d.dev;
    WrittenSize(E, E2, dirNum, inode.Rec());
    d.WriteBlk(no, Table(ents));
    AddedInNewBlock(D, E, E2, d.dev, st, dirNum, rec, inode.Rec(), e, nlinksChange, no, X, F, ents);
    st' := State(F, st.table[dirNum := Dir(a.blks + [no], a.nodes + X, a.ents + [e],
      WrapLinks(a.links + nlinksChange))]);
  }

  /** The caller must make sure there is room for a new block and its indirect blocks. The
      directory has at least one block: "." and ".." are never removed. */
  method AddDirectoryFileEntry(d: Disk, dirNum: nat, name: string, fileNum: nat, nlinksChange: int, ghost st: State)
      returns (status: Status, ghost st': State)
    requires Stored(d.dev, st) && dirNum < |st.table| && st.table[dirNum].Dir? && st.table[dirNum].ents != []
    requires |name| < FILE_NAME_SIZE && fileNum != 0
    requires |st.table[dirNum].ents| % ENTRIES_PER_BLOCK == 0 ==>
      |st.table[dirNum].blks| < Lo(4) && 1 + NewNodes(|st.table[dirNum].blks|) < |st.chain|
    modifies d
    ensures status == OK && Stored(d.dev, st') && AddStep(st, dirNum, Entry(name, fileNum), nlinksChange, st')
  {
    hide Tree, Kids, Chain, Holds, Separate, Stored, Filled, RecAt, Tabled, InodeCount, Lo, NewNodes, Overhead,
         InodeWritten, AddStep, Edited, DirBlock, PutFirst, NoSlotFree;
    ghost var D, a, e := d.dev, st.table[dirNum], Entry(name, fileNum);
    DirFacts(D, st, dirNum);
    DirBlocksOf(|a.blks|);
    Levels();
    var inode := ReadInode(d, dirNum);
    var n := (inode.size + BLOCK_SIZE - 1) / BLOCK_SIZE;
    var no := GetDblk(d, inode, n - 1, a.blks, a.nodes);
    DirBlockAt(D, st, dirNum, n - 1);
    var blk := d.ReadBlk(no);
    var ents;
    status, ents := PutDirectoryFileEntry(blk.ents, name, fileNum);
    FullBlock(a.ents);
    if status == ENOSPC {
      status, st' := AddInNewBlock(d, inode, dirNum, n, name, fileNum, nlinksChange, st);
    } else {
      inode.links := WrapLinks(inode.links + nlinksChange);
      WriteInode(d, inode.Rec(), dirNum);
      ghost var E1 := d.dev;
      WrittenSize(D, E1, dirNum, inode.Rec());
      d.WriteBlk(no, Table(ents));
      AddedInBlock(D, E1, d.dev, st, dirNum, inode.Rec(), e, nlinksChange, no, ents);
      st' := State(st.chain, st.table[dirNum := Dir(a.blks, a.nodes, a.ents + [e], WrapLinks(a.links + nlinksChange))]);
    }
  }
}
