/** unlink_file: an entry leaves its directory, and the last entry fills the hole. */
module EntryRemoval {
  import opened Layout
  import opened Device
  import opened PointerTree
  import opened INode
  import opened DataBlockIterator
  import opened InodeTable
  import opened Store
  import opened Editing
  import opened Directory

  /** The table without entry k: the last entry takes its place. */
  function SwapRemove(ents: seq<Entry>, k: nat): seq<Entry>
    requires k < |ents|
  {
    ents[k := ents[|ents| - 1]][..|ents| - 1]
  }

  /** Nothing but entry k is lost, and nothing is added. */
  lemma SwapRemoveKeepsOthers(ents: seq<Entry>, k: nat)
    requires k < |ents|
    ensures multiset(SwapRemove(ents, k)) + multiset{ents[k]} == multiset(ents)
  {
    var n := |ents| - 1;
    var last := ents[n];
    if k == n {
      assert SwapRemove(ents, k) == ents[..n];
      assert ents == ents[..n] + [last];
    } else {
      assert ents == ents[..k] + [ents[k]] + ents[k + 1..n] + [last];
      assert SwapRemove(ents, k) == ents[..k] + [last] + ents[k + 1..n];
    }
  }

  /** The blocks of the table after the removal, as the code computes them. */
  function Cleared(p: seq<Entry>, l: nat): seq<Entry>
    requires l < |p|
  {
    p[l := NO_ENTRY]
  }

  ghost predicate LastSlot(ents: seq<Entry>, n: nat, l: nat) {
    ents != [] && l < ENTRIES_PER_BLOCK && n > 0 && |ents| == (n - 1) * ENTRIES_PER_BLOCK + l + 1
  }

  /** The slots of p up to l are in use, the others are free. */
  ghost predicate UsedUpTo(p: seq<Entry>, l: nat) {
    forall j :: 0 <= j < |p| ==> (p[j].ino != 0 <==> j <= l)
  }

  lemma LastSlotOf(ents: seq<Entry>, n: nat)
    requires Nonzero(ents) && ents != [] && n == CeilDiv(|ents|, ENTRIES_PER_BLOCK)
    ensures n > 0 && LastSlot(ents, n, (|ents| - 1) % ENTRIES_PER_BLOCK)
    ensures UsedUpTo(DirBlock(ents, n - 1), (|ents| - 1) % ENTRIES_PER_BLOCK)
  {
  }

  /** Block k of the table after entry j of block b has gone. */
  lemma RemovedBlock(ents: seq<Entry>, n: nat, l: nat, b: nat, j: nat, k: nat)
    requires LastSlot(ents, n, l) && j < ENTRIES_PER_BLOCK && b * ENTRIES_PER_BLOCK + j < |ents| && b < n
    ensures var i := b * ENTRIES_PER_BLOCK + j; var last := DirBlock(ents, n - 1);
      DirBlock(SwapRemove(ents, i), k) ==
        if k == b == n - 1 then Cleared(last[j := last[l]], l)
        else if k == b then DirBlock(ents, b)[j := last[l]]
        else if k == n - 1 then Cleared(last, l)
        else DirBlock(ents, k)
  {
    var i := b * ENTRIES_PER_BLOCK + j;
    var after := SwapRemove(ents, i);
    forall q | 0 <= q < ENTRIES_PER_BLOCK
      ensures DirBlock(after, k)[q] ==
        (var last := DirBlock(ents, n - 1);
         if k == b == n - 1 then Cleared(last[j := last[l]], l)
         else if k == b then DirBlock(ents, b)[j := last[l]]
         else if k == n - 1 then Cleared(last, l)
         else DirBlock(ents, k))[q]
    {
      SlotOf(after, k, q);
      SlotOf(ents, k, q);
      SlotOf(ents, n - 1, l);
    }
  }

  /** Entry k leaves directory i. The last block goes, with the indirect blocks that only
      it needed, exactly when its only entry is the one that moved or left. */
  ghost predicate RemoveStep(st: State, i: nat, k: nat, delta: int, st': State) {
    i < |st.table| && st.table[i].Dir? && k < |st.table[i].ents| &&
    var a := st.table[i];
    var ents, links := SwapRemove(a.ents, k), WrapLinks(a.links + delta);
    if (|a.ents| - 1) % ENTRIES_PER_BLOCK != 0 then
      st' == State(st.chain, st.table[i := Dir(a.blks, a.nodes, ents, links)])
    else
      0 < |a.blks| <= Lo(4) && NewNodes(|a.blks| - 1) <= |a.nodes| &&
      var n, c := |a.blks| - 1, |a.nodes| - NewNodes(|a.blks| - 1);
      st' == State([a.blks[n]] + (a.nodes[c..] + st.chain), st.table[i := Dir(a.blks[..n], a.nodes[..c], ents, links)])
  }

  method RemoveEntryFromDirDataBlk(blk: seq<Entry>, lastBlk: seq<Entry>, same: bool, lastIndex: nat, name: string,
                                   num: nat)
      returns (found: bool, blk': seq<Entry>, lastBlk': seq<Entry>, ghost j: nat)
    requires |blk| == |lastBlk| == ENTRIES_PER_BLOCK && lastIndex < ENTRIES_PER_BLOCK && (same ==> blk == lastBlk)
    ensures !found ==> forall q :: 0 <= q < |blk| ==> blk[q] != Entry(name, num)
    ensures found ==> j < |blk| && blk[j] == Entry(name, num) && forall q :: 0 <= q < j ==> blk[q] != Entry(name, num)
    ensures found && same ==> blk' == Cleared(blk[j := blk[lastIndex]], lastIndex) && lastBlk' == lastBlk
    ensures found && !same ==> blk' == blk[j := lastBlk[lastIndex]] && lastBlk' == Cleared(lastBlk, lastIndex)
  {
    for i := 0 to ENTRIES_PER_BLOCK
      invariant forall q :: 0 <= q < i ==> blk[q] != Entry(name, num)
    {
      if blk[i].ino == num && blk[i].name == name {
        if same && i == lastIndex {
          return true, blk[i := NO_ENTRY], lastBlk, i;
        } else if same {
          return true, blk[i := blk[lastIndex]][lastIndex := NO_ENTRY], lastBlk, i;
        } else {
          return true, blk[i := lastBlk[lastIndex]], lastBlk[lastIndex := NO_ENTRY], i;
        }
      }
    }
    return false, blk, lastBlk, 0;
  }

  /** The directory keeps its blocks. */
  lemma RemovedKeep(D: seq<Block>, E: seq<Block>, E2: seq<Block>, st: State, i: nat, rec2: InodeRec, l: nat, b: nat,
                    j: nat, delta: int, blk: seq<Entry>, lastBlk: seq<Entry>)
    requires Stored(D, st) && i < |st.table| && st.table[i].Dir? && b < |st.table[i].blks| && j < ENTRIES_PER_BLOCK
    requires LastSlot(st.table[i].ents, |st.table[i].blks|, l) && l > 0 &&
      b * ENTRIES_PER_BLOCK + j < |st.table[i].ents|
    requires Tabled(D) && i < InodeCount(D) && rec2 == RecAt(D, i).(links := WrapLinks(st.table[i].links + delta))
    requires var a := st.table[i]; var n := |a.blks|;
      && a.blks[n - 1] < |D| && a.blks[b] < |D|
      && (var last := DirBlock(a.ents, n - 1);
          if b == n - 1 then blk == Cleared(last[j := last[l]], l)
          else blk == DirBlock(a.ents, b)[j := last[l]] && lastBlk == Cleared(last, l))
      && E == D[a.blks[n - 1] := Table(lastBlk)][a.blks[b] := Table(blk)]
    requires InodeWritten(E, E2, i, rec2)
    ensures var a := st.table[i]; var k := b * ENTRIES_PER_BLOCK + j;
      var st' := State(st.chain, st.table[i := Dir(a.blks, a.nodes, SwapRemove(a.ents, k),
        WrapLinks(a.links + delta))]);
      Stored(E2, st') && RemoveStep(st, i, k, delta, st')
  {
    hide Tree, Kids, Linked, Holds, Conserved, Stored, RecAt, InodeWritten, Edited, DirBlock, Lo, Cleared, SwapRemove;
    var a := st.table[i];
    var n, k := |a.blks|, b * ENTRIES_PER_BLOCK + j;
    var a2 := Dir(a.blks, a.nodes, SwapRemove(a.ents, k), WrapLinks(a.links + delta));
    var D1 := D[a.blks[n - 1] := Table(lastBlk)];
    var rec := RecAt(D, i);
    AddRoom(D, st, i);
    DirFacts(D, st, i);
    assert a.blks[n - 1] in a.blks && a.blks[b] in a.blks;
    EditData(D, D, D1, st, i, rec, a, st.chain, a.blks[n - 1], Table(lastBlk));
    EditData(D, D1, E, st, i, rec, a, st.chain, a.blks[b], Table(blk));
    BlksDistinct(D, D, st, i, rec, a, st.chain);
    EditRetype(D, E, st, i, rec, a, a2, st.chain);
    forall q | 0 <= q < |a2.blks| ensures a2.blks[q] < |E| && E[a2.blks[q]] == Table(DirBlock(a2.ents, q)) {
      DirBlockAt(D, st, i, q);
      RemovedBlock(a.ents, n, l, b, j, q);
    }
    SwapRemoveShape(a.ents, k);
    ContentIs(a2);
    EditStored(D, E, E2, st, i, rec, rec2, a2, st.chain);
  }

  lemma SwapRemoveShape(ents: seq<Entry>, k: nat)
    requires Nonzero(ents) && k < |ents|
    ensures |SwapRemove(ents, k)| == |ents| - 1 && Nonzero(SwapRemove(ents, k))
    ensures (|ents| - 1) % ENTRIES_PER_BLOCK != 0 ==>
      CeilDiv(|ents| - 1, ENTRIES_PER_BLOCK) == CeilDiv(|ents|, ENTRIES_PER_BLOCK)
    ensures (|ents| - 1) % ENTRIES_PER_BLOCK == 0 ==>
      CeilDiv(|ents| - 1, ENTRIES_PER_BLOCK) == CeilDiv(|ents|, ENTRIES_PER_BLOCK) - 1
  {
  }

  /** The last data block detached, the directory block written, the last one freed. */
  ghost predicate Dropped(D: seq<Block>, E: seq<Block>, st: State, i: nat, rec: InodeRec, N: seq<nat>, X: seq<nat>,
                          b: nat, blk: Block)
  {
    i < |st.table| && st.table[i].Dir? &&
    var a := st.table[i];
    var n := |a.blks| - 1;
    n >= 0 && b <= n && a.nodes == N + X && n < Lo(4) && |X| == NewNodes(n) &&
    Chain(E, [a.blks[n]] + (X + st.chain)) && Holds(E, rec, a.blks[..n], N) && SameGeometry(D, E) &&
    (forall x :: 0 < x < |D| && !Owns(a, x) ==> E[x] == D[x]) &&
    (forall k :: 0 <= k < n ==> a.blks[k] < |D| && E[a.blks[k]] == if k == b then blk else D[a.blks[k]])
  }

  /** A directory on the point of losing its last block. */
  lemma DropReady(D: seq<Block>, st: State, i: nat) returns (N: seq<nat>, X: seq<nat>)
    requires Stored(D, st) && i < |st.table| && st.table[i].Dir? && st.table[i].blks != []
    ensures Tabled(D) && i < InodeCount(D)
    ensures var a := st.table[i]; var n := |a.blks| - 1;
      a.nodes == N + X && n < Lo(4) && Shrinkable(D, RecAt(D, i), a.blks[..n], a.blks[n], N, X, st.chain)
  {
    hide Tree, Kids, Linked, Overhead, Conserved, Lo, Is, NewNodes;
    DirFacts(D, st, i);
    OwnSeparate(D, st, i);
    var a := st.table[i];
    var n := |a.blks| - 1;
    OverheadStep(n);
    N, X := a.nodes[..Overhead(n)], a.nodes[Overhead(n)..];
    assert a.blks[..n] + [a.blks[n]] == a.blks && N + X == a.nodes;
  }

  /** The blocks of a directory whose nodes are N + X, set apart. */
  ghost predicate SetApart(D: seq<Block>, B: seq<nat>, N: seq<nat>, X: seq<nat>, F: seq<nat>) {
    Geometry(D) && Distinct(B) &&
    (forall x :: x in B ==> InRegion(D, x) && x !in N && x !in X && x !in F) &&
    (forall x :: x in N ==> InRegion(D, x))
  }

  lemma DirSetApart(D: seq<Block>, st: State, i: nat, N: seq<nat>, X: seq<nat>)
    requires Stored(D, st) && i < |st.table| && st.table[i].Dir? && st.table[i].nodes == N + X
    ensures SetApart(D, st.table[i].blks, N, X, st.chain)
  {
    hide Is, Conserved, Linked;
    OwnSeparate(D, st, i);
    var a := st.table[i];
    DistinctParts(a.blks, a.nodes);
    assert forall x :: x in a.blks ==> x in a.blks + a.nodes;
    assert forall x :: x in N || x in X ==> x in a.nodes && x in a.blks + a.nodes;
  }

  lemma DropWrite(D: seq<Block>, E1: seq<Block>, B: seq<nat>, rec: InodeRec, N: seq<nat>, X: seq<nat>, F: seq<nat>,
                  b: nat, blk: Block)
    requires SetApart(D, B, N, X, F) && b < |B| && Shrunk(D, E1, rec, B[..|B| - 1], N, X, F)
    ensures B[b] < |E1| && Chain(E1[B[b] := blk], X + F) && SameGeometry(D, E1[B[b] := blk])
    ensures Geometry(E1[B[b] := blk]) && InRegion(E1[B[b] := blk], B[|B| - 1]) && B[|B| - 1] !in X + F
    ensures Holds(E1[B[b] := blk], rec, B[..|B| - 1], N)
  {
    hide Linked, Holds, Distinct;
    assert B[b] in B && B[|B| - 1] in B;
    ChainFrame(E1, E1[B[b] := blk], X + F);
    HoldsFrame(E1, E1[B[b] := blk], rec, B[..|B| - 1], N);
  }

  lemma DropDone(D: seq<Block>, E1: seq<Block>, E3: seq<Block>, st: State, i: nat, rec: InodeRec, N: seq<nat>,
                 X: seq<nat>, b: nat, blk: Block)
    requires Stored(D, st) && i < |st.table| && st.table[i].Dir? && b < |st.table[i].blks|
    requires st.table[i].nodes == N + X && |st.table[i].blks| <= Lo(4) && |X| == NewNodes(|st.table[i].blks| - 1)
    requires SetApart(D, st.table[i].blks, N, X, st.chain)
    requires Shrunk(D, E1, rec, st.table[i].blks[..|st.table[i].blks| - 1], N, X, st.chain)
    requires st.table[i].blks[b] < |E1|
    requires Chain(E3, [st.table[i].blks[|st.table[i].blks| - 1]] + (X + st.chain))
    requires OnlyTouches(E1[st.table[i].blks[b] := blk], E3, [st.table[i].blks[|st.table[i].blks| - 1]], [])
    ensures Dropped(D, E3, st, i, rec, N, X, b, blk)
  {
    hide Chain, Overhead, Lo, Holds, NewNodes, Stored;
    var a := st.table[i];
    DropWrite(D, E1, a.blks, rec, N, X, st.chain, b, blk);
    DropFrame(D, E1, E3, a.blks, N, X, st.chain, b, blk);
    HoldsFrame(E1[a.blks[b] := blk], E3, rec, a.blks[..|a.blks| - 1], N);
    forall x | 0 < x < |D| && !Owns(a, x) ensures E3[x] == D[x] {
      assert x !in N + X;
      assert a.blks[b] in a.blks && a.blks[|a.blks| - 1] in a.blks;
    }
    forall k | 0 <= k < |a.blks| - 1
      ensures a.blks[k] < |D| && E3[a.blks[k]] == if k == b then blk else D[a.blks[k]]
    {
      DirBlockAt(D, st, i, k);
    }
  }

  lemma DropFrame(D: seq<Block>, E1: seq<Block>, E3: seq<Block>, B: seq<nat>, N: seq<nat>, X: seq<nat>, F: seq<nat>,
                  b: nat, blk: Block)
    requires SetApart(D, B, N, X, F) && b < |B| && OnlyTouches(D, E1, N + X, []) && B[b] < |E1|
    requires OnlyTouches(E1[B[b] := blk], E3, [B[|B| - 1]], [])
    ensures SameGeometry(D, E3)
    ensures forall x :: 0 < x < |D| && x !in N && x !in X && x != B[b] && x != B[|B| - 1] ==> E3[x] == D[x]
    ensures forall x :: x in N && x < |D| ==> E3[x] == E1[B[b] := blk][x]
    ensures forall k :: 0 <= k < |B| - 1 && B[k] < |D| ==> E3[B[k]] == if k == b then blk else D[B[k]]
  {
    assert B[b] in B && B[|B| - 1] in B;
    forall k | 0 <= k < |B| - 1 && B[k] < |D| ensures E3[B[k]] == if k == b then blk else D[B[k]] {
      assert B[k] in B;
    }
    assert E1[B[b] := blk][0] == E1[0];
  }

  lemma RemovedDrop(D: seq<Block>, E: seq<Block>, E2: seq<Block>, st: State, i: nat, rec: InodeRec, rec2: InodeRec,
                    N: seq<nat>, X: seq<nat>, b: nat, j: nat, delta: int, blk: seq<Entry>)
    requires Stored(D, st) && Dropped(D, E, st, i, rec, N, X, b, Table(blk)) && j < ENTRIES_PER_BLOCK
    requires LastSlot(st.table[i].ents, |st.table[i].blks|, 0) && b * ENTRIES_PER_BLOCK + j < |st.table[i].ents|
    requires b < |st.table[i].blks| - 1 ==>
      blk == DirBlock(st.table[i].ents, b)[j := DirBlock(st.table[i].ents, |st.table[i].blks| - 1)[0]]
    requires SamePointers(rec, rec2) && rec2.kind == Directory && rec2.links == WrapLinks(st.table[i].links + delta)
    requires rec2.size == (|st.table[i].blks| - 1) * BLOCK_SIZE
    requires InodeWritten(E, E2, i, rec2)
    ensures var a := st.table[i]; var n, k := |a.blks| - 1, b * ENTRIES_PER_BLOCK + j;
      var st' := State([a.blks[n]] + (X + st.chain),
                       st.table[i := Dir(a.blks[..n], N, SwapRemove(a.ents, k), WrapLinks(a.links + delta))]);
      Stored(E2, st') && RemoveStep(st, i, k, delta, st')
  {
    hide Tree, Kids, Linked, Holds, Conserved, Stored, RecAt, InodeWritten, Edited, DirBlock, Lo, Cleared, SwapRemove,
         NewNodes;
    var a := st.table[i];
    var n, k := |a.blks| - 1, b * ENTRIES_PER_BLOCK + j;
    var a2 := Dir(a.blks[..n], N, SwapRemove(a.ents, k), WrapLinks(a.links + delta));
    var F := [a.blks[n]] + (X + st.chain);
    AddRoom(D, st, i);
    DirFacts(D, st, i);
    DropEdited(D, E, st, i, rec, N, X, b, Table(blk), a2);
    forall q | 0 <= q < |a2.blks| ensures a2.blks[q] < |E| && E[a2.blks[q]] == Table(DirBlock(a2.ents, q)) {
      DirBlockAt(D, st, i, q);
      RemovedBlock(a.ents, |a.blks|, 0, b, j, q);
    }
    SwapRemoveShape(a.ents, k);
    ContentIs(a2);
    EditStored(D, E, E2, st, i, rec, rec2, a2, F);
    assert a.nodes[|a.nodes| - |X|..] == X && a.nodes[..|a.nodes| - |X|] == N;
  }

  lemma DropEdited(D: seq<Block>, E: seq<Block>, st: State, i: nat, rec: InodeRec, N: seq<nat>, X: seq<nat>, b: nat,
                   blk: Block, a2: Node)
    requires Stored(D, st) && Dropped(D, E, st, i, rec, N, X, b, blk) && a2.Dir?
    requires a2.blks == st.table[i].blks[..|st.table[i].blks| - 1] && a2.nodes == N
    ensures Edited(D, E, st, i, rec, a2, [st.table[i].blks[|st.table[i].blks| - 1]] + (X + st.chain))
  {
    hide Tree, Kids, Linked, Holds, Conserved, Stored, ListSame, OnlyInode, Lo, NewNodes;
    var a := st.table[i];
    var n := |a.blks| - 1;
    AddRoom(D, st, i);
    assert a.blks == a.blks[..n] + [a.blks[n]];
    EditMove(D, D, E, st, i, RecAt(D, i), rec, a, a2, st.chain, [a.blks[n]] + (X + st.chain));
  }

  /** Entry j of block b is about to go, the last entry being in slot l of block n - 1. */
  ghost predicate Removing(D: seq<Block>, st: State, i: nat, rec: InodeRec, n: nat, l: nat, b: nat, j: nat) {
    Stored(D, st) && i < |st.table| && st.table[i].Dir? && Tabled(D) && i < InodeCount(D) && rec == RecAt(D, i) &&
    n == |st.table[i].blks| && LastSlot(st.table[i].ents, n, l) &&
    b < n && j < ENTRIES_PER_BLOCK && b * ENTRIES_PER_BLOCK + j < |st.table[i].ents|
  }

  /** unlink_file when the last entry was alone in its block. */
  method RemoveLastBlock(d: Disk, inode: Inode, parentNum: nat, n: nat, no: nat, ents: seq<Entry>, nlinksChange: int,
                         ghost b: nat, ghost j: nat, ghost st: State) returns (ghost st': State)
    requires Removing(d.dev, st, parentNum, inode.Rec(), n, 0, b, j) && no == st.table[parentNum].blks[b]
    requires b < n - 1 ==>
      ents == DirBlock(st.table[parentNum].ents, b)[j := DirBlock(st.table[parentNum].ents, n - 1)[0]]
    modifies d, inode
    ensures Stored(d.dev, st') && RemoveStep(st, parentNum, b * ENTRIES_PER_BLOCK + j, nlinksChange, st')
  {
    hide Tree, Kids, Chain, Holds, Separate, Stored, Filled, RecAt, Tabled, InodeCount, Lo, NewNodes, Overhead,
         InodeWritten, RemoveStep, DirBlock, OnlyTouches, Shrunk, Shrinkable, Dropped, SwapRemove, SetApart, Nonzero;
    ghost var D, a, k := d.dev, st.table[parentNum], b * ENTRIES_PER_BLOCK + j;
    DirFacts(D, st, parentNum);
    ghost var N, X := DropReady(D, st, parentNum);
    ShrinkableSize(D, RecAt(D, parentNum), a.blks[..n - 1], a.blks[n - 1], N, X, st.chain);
    DirSetApart(D, st, parentNum, N, X);
    var last := RemoveDblk(d, inode, n - 1, a.blks[..n - 1], a.blks[n - 1], N, X, st.chain);
    ghost var E1, rec := d.dev, inode.Rec();
    DropWrite(D, E1, a.blks, rec, N, X, st.chain, b, Table(ents));
    d.WriteBlk(no, Table(ents));
    FreeBlock(d, last, X + st.chain);
    ghost var E := d.dev;
    DropDone(D, E1, E, st, parentNum, rec, N, X, b, Table(ents));
    DroppedTabled(D, E, st, parentNum, rec, N, X, b, Table(ents));
    inode.size := inode.size - BLOCK_SIZE;
    inode.links := WrapLinks(inode.links + nlinksChange);
    WriteInode(d, inode.Rec(), parentNum);
    RemovedDrop(D, E, d.dev, st, parentNum, rec, inode.Rec(), N, X, b, j, nlinksChange, ents);
    st' := State([a.blks[n - 1]] + (X + st.chain),
                 st.table[parentNum := Dir(a.blks[..n - 1], N, SwapRemove(a.ents, k),
                   WrapLinks(a.links + nlinksChange))]);
  }

  lemma ShrinkableSize(D: seq<Block>, ino: InodeRec, B: seq<nat>, b: nat, N: seq<nat>, X: seq<nat>, F: seq<nat>)
    requires Shrinkable(D, ino, B, b, N, X, F)
    ensures |X| == NewNodes(|B|)
  {
  }

  /** unlink_file when the last block keeps an entry: both blocks are written back, the last
      one first, so that the second write wins when they are the same. */
  method RewriteBlocks(d: Disk, inode: Inode, parentNum: nat, n: nat, lastNo: nat, lastEnts: seq<Entry>, no: nat,
                       ents: seq<Entry>, nlinksChange: int, ghost l: nat, ghost b: nat, ghost j: nat, ghost st: State)
      returns (ghost st': State)
    requires Removing(d.dev, st, parentNum, inode.Rec(), n, l, b, j) && l > 0
    requires lastNo == st.table[parentNum].blks[n - 1] && no == st.table[parentNum].blks[b]
    requires var last := DirBlock(st.table[parentNum].ents, n - 1);
      if b == n - 1 then ents == Cleared(last[j := last[l]], l)
      else ents == DirBlock(st.table[parentNum].ents, b)[j := last[l]] && lastEnts == Cleared(last, l)
    modifies d, inode
    ensures Stored(d.dev, st') && RemoveStep(st, parentNum, b * ENTRIES_PER_BLOCK + j, nlinksChange, st')
  {
    hide Tree, Kids, Chain, Holds, Separate, Stored, Filled, RecAt, Tabled, InodeCount, Lo, NewNodes, Overhead,
         InodeWritten, RemoveStep, DirBlock, OnlyTouches, SwapRemove, Cleared, Nonzero;
    ghost var D, a, k := d.dev, st.table[parentNum], b * ENTRIES_PER_BLOCK + j;
    DirFacts(D, st, parentNum);
    DirBlockAt(D, st, parentNum, n - 1);
    DirBlockAt(D, st, parentNum, b);
    d.WriteBlk(lastNo, Table(lastEnts));
    d.WriteBlk(no, Table(ents));
    ghost var E := d.dev;
    KeptTabled(D, st, parentNum, n - 1, b, Table(lastEnts), Table(ents));
    inode.links := WrapLinks(inode.links + nlinksChange);
    WriteInode(d, inode.Rec(), parentNum);
    RemovedKeep(D, E, d.dev, st, parentNum, inode.Rec(), l, b, j, nlinksChange, ents, lastEnts);
    st' := State(st.chain, st.table[parentNum := Dir(a.blks, a.nodes, SwapRemove(a.ents, k),
      WrapLinks(a.links + nlinksChange))]);
  }

  /** The last slot in use, searched from the end; the last block has one. */
  method LastEntryIndex(ents: seq<Entry>, ghost l: nat) returns (lastIndex: nat)
    requires |ents| == ENTRIES_PER_BLOCK && l < |ents| && UsedUpTo(ents, l)
    ensures lastIndex == l
  {
    lastIndex := ENTRIES_PER_BLOCK - 1;
    while lastIndex > 0 && ents[lastIndex].ino == 0
      invariant l <= lastIndex < ENTRIES_PER_BLOCK
    {
      lastIndex := lastIndex - 1;
    }
  }

  /** unlink_file, once the parent directory is known: remove the entry (childPath, inodeNum). */
  method UnlinkEntry(d: Disk, parentNum: nat, childPath: string, inodeNum: nat, nlinksChange: int, ghost st: State)
      returns (status: Status, ghost k: nat, ghost st': State)
    requires Stored(d.dev, st) && parentNum < |st.table| && st.table[parentNum].Dir? && st.table[parentNum].ents != []
    requires inodeNum != 0
    modifies d
    ensures status == OK || status == ENOENT
    ensures var e := Entry(childPath, inodeNum); var ents := st.table[parentNum].ents;
      if status == OK then
        k < |ents| && ents[k] == e && (forall q :: 0 <= q < k ==> ents[q] != e) &&
        Stored(d.dev, st') && RemoveStep(st, parentNum, k, nlinksChange, st')
      else
        (forall q :: 0 <= q < |ents| ==> ents[q] != e) && d.dev == old(d.dev) && st' == st
  {
    hide Tree, Kids, Chain, Holds, Separate, Stored, Filled, RecAt, Tabled, InodeCount, Lo, NewNodes, Overhead,
         InodeWritten, RemoveStep, DirBlock, OnlyTouches, Shrunk, Shrinkable, Dropped, SwapRemove, Cleared, SetApart,
         Nonzero, UsedUpTo, Safe, HasLeaf, SameGeometry;
    ghost var D, a, e := d.dev, st.table[parentNum], Entry(childPath, inodeNum);
    DirFacts(D, st, parentNum);
    AddRoom(D, st, parentNum);
    DirBlocksOf(|a.blks|);
    LastSlotOf(a.ents, |a.blks|);
    Levels();
    var inode := ReadInode(d, parentNum);
    var n := (inode.size + BLOCK_SIZE - 1) / BLOCK_SIZE;
    var lastNo := GetDblk(d, inode, n - 1, a.blks, a.nodes);
    DirBlockAt(D, st, parentNum, n - 1);
    var lastBlk := d.ReadBlk(lastNo);
    ghost var l := (|a.ents| - 1) % ENTRIES_PER_BLOCK;
    var lastIndex := LastEntryIndex(lastBlk.ents, l);
    BlksDistinctAt(D, st, parentNum);
    var itr := new DataBlockIterator(inode, 0);
    status, k, st' := ENOENT, 0, st;
    for b := 0 to n
      invariant itr.currentIndex == b && d.dev == D && inode.Rec() == RecAt(D, parentNum)
      invariant status == ENOENT && st' == st
      invariant forall q :: 0 <= q < |a.ents| && q < b * ENTRIES_PER_BLOCK ==> a.ents[q] != e
    {
      DirBlockAt(D, st, parentNum, b);
      InsideSafe(|a.blks|, b);
      var no := itr.Next(d, a.blks, a.nodes);
      var blk := d.ReadBlk(no);
      var found, ents, lastEnts;
      ghost var j;
      found, ents, lastEnts, j := RemoveEntryFromDirDataBlk(blk.ents, lastBlk.ents, lastNo == no, lastIndex, childPath,
        inodeNum);
      EntryIndex(a.ents, b, e, found, j);
      if found {
        k := b * ENTRIES_PER_BLOCK + j;
        if lastIndex == 0 {
          st' := RemoveLastBlock(d, inode, parentNum, n, no, ents, nlinksChange, b, j, st);
        } else {
          st' := RewriteBlocks(d, inode, parentNum, n, lastNo, lastEnts, no, ents, nlinksChange, l, b, j, st);
        }
        return OK, k, st';
      }
    }
  }

  lemma BlksDistinctAt(D: seq<Block>, st: State, i: nat)
    requires Stored(D, st) && i < |st.table| && st.table[i].Dir?
    ensures Distinct(st.table[i].blks)
  {
    hide Is;
    OwnSeparate(D, st, i);
    DistinctParts(st.table[i].blks, st.table[i].nodes);
  }

  /** A hit in slot j of block b is the first occurrence in the table. */
  lemma EntryIndex(ents: seq<Entry>, b: nat, e: Entry, found: bool, j: nat)
    requires e.ino != 0 && forall q :: 0 <= q < |ents| && q < b * ENTRIES_PER_BLOCK ==> ents[q] != e
    requires var p := DirBlock(ents, b);
      if found then j < |p| && p[j] == e && forall q :: 0 <= q < j ==> p[q] != e
      else forall q :: 0 <= q < |p| ==> p[q] != e
    ensures if found then
        var k := b * ENTRIES_PER_BLOCK + j;
        k < |ents| && ents[k] == e && forall q :: 0 <= q < k ==> ents[q] != e
      else forall q :: 0 <= q < |ents| && q < (b + 1) * ENTRIES_PER_BLOCK ==> ents[q] != e
  {
    var p := DirBlock(ents, b);
    forall q | 0 <= q < |ents| && b * ENTRIES_PER_BLOCK <= q < (b + 1) * ENTRIES_PER_BLOCK
      ensures ents[q] == p[q - b * ENTRIES_PER_BLOCK]
    {
      SlotOf(ents, b, q - b * ENTRIES_PER_BLOCK);
    }
    if found { SlotOf(ents, b, j); }
  }

  lemma DroppedTabled(D: seq<Block>, E: seq<Block>, st: State, i: nat, rec: InodeRec, N: seq<nat>, X: seq<nat>, b: nat,
                      blk: Block)
    requires Stored(D, st) && Dropped(D, E, st, i, rec, N, X, b, blk)
    ensures Tabled(E) && i < InodeCount(E)
  {
    hide Chain, Holds, Conserved, Lo, Is, NewNodes;
    OwnSeparate(D, st, i);
    var a := st.table[i];
    assert forall x: nat :: Owns(a, x) ==> x in DataBlks(a) + TreeNodes(a) && InRegion(D, x);
    ListRecs(D, E);
  }

  lemma KeptTabled(D: seq<Block>, st: State, i: nat, n: nat, b: nat, lastBlk: Block, blk: Block)
    requires Stored(D, st) && i < |st.table| && st.table[i].Dir? && n < |st.table[i].blks| && b < |st.table[i].blks|
    requires st.table[i].blks[n] < |D| && st.table[i].blks[b] < |D|
    ensures var E := D[st.table[i].blks[n] := lastBlk][st.table[i].blks[b] := blk]; Tabled(E) && i < InodeCount(E)
  {
    hide Chain, Holds, Conserved, Is;
    OwnSeparate(D, st, i);
    var a := st.table[i];
    assert a.blks[n] in a.blks + a.nodes && a.blks[b] in a.blks + a.nodes;
  }
}
