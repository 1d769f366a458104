/**
 * An inode held in memory while its blocks change on the device: the state that
 * file_operations.c passes through between reading an inode and writing it back.
 */
module Editing {
  import opened Layout
  import opened Device
  import opened PointerTree
  import opened INode
  import opened InodeTable
  import opened Store

  /** The inode list is as it was. */
  ghost predicate ListSame(D: seq<Block>, E: seq<Block>) {
    Tabled(D) && SameGeometry(D, E) && forall x :: 0 < x < D[0].sb.freeStart ==> E[x] == D[x]
  }

  /** Device D held st; now device E has inode i changed to pointers rec, owning the blocks
      of a, and free list F. The contents of a's data blocks are left open. */
  ghost predicate Edited(D: seq<Block>, E: seq<Block>, st: State, i: nat, rec: InodeRec, a: Node, F: seq<nat>) {
    Stored(D, st) && i < |st.table| && !a.Unused? && Chain(E, F) && ListSame(D, E) && OnlyInode(D, E, st, i) &&
    Conserved(E, State(F, st.table[i := a])) && Holds(E, rec, a.blks, a.nodes)
  }

  lemma EditStart(D: seq<Block>, st: State, i: nat)
    requires Stored(D, st) && i < |st.table| && !st.table[i].Unused?
    ensures Edited(D, D, st, i, RecAt(D, i), st.table[i], st.chain)
    ensures Filled(D, RecAt(D, i), st.table[i])
  {
    hide Tree, Kids, Linked, Holds;
    assert st.table[i := st.table[i]] == st.table;
    assert Is(D, RecAt(D, i), st.table[i]);
  }

  /** The blocks of the inode being edited are apart from each other and from the free list. */
  lemma EditSeparate(D: seq<Block>, E: seq<Block>, st: State, i: nat, rec: InodeRec, a: Node, F: seq<nat>)
    requires Edited(D, E, st, i, rec, a, F)
    ensures Separate(E, a.blks + a.nodes, F) && Separate(E, a.nodes, F)
  {
    hide Tree, Kids, Linked, Holds, Stored;
    OwnSeparate(E, State(F, st.table[i := a]), i);
  }

  lemma BlksDistinct(D: seq<Block>, E: seq<Block>, st: State, i: nat, rec: InodeRec, a: Node, F: seq<nat>)
    requires Edited(D, E, st, i, rec, a, F)
    ensures !a.Unused? && Distinct(a.blks)
  {
    EditSeparate(D, E, st, i, rec, a, F);
    DistinctParts(a.blks, a.nodes);
  }

  lemma ChainInRegion(D: seq<Block>, F: seq<nat>)
    requires Chain(D, F)
    ensures forall x :: x in F ==> InRegion(D, x)
  {
    forall x | x in F ensures InRegion(D, x) {
      var k :| 0 <= k < |F| && F[k] == x;
      assert Linked(D, F, k);
    }
  }

  /** Every block of the edited inode and of the free list was the inode's or free at the start. */
  lemma EditOrigin(D: seq<Block>, E: seq<Block>, st: State, i: nat, rec: InodeRec, a: Node, F: seq<nat>, x: nat)
    requires Edited(D, E, st, i, rec, a, F) && (x in F || Owns(a, x))
    ensures InRegion(D, x) && (Owns(st.table[i], x) || x in st.chain)
  {
    hide Tree, Kids, Linked, Holds, Blocks, Region;
    var t := st.table[i := a];
    SumUpdate(st.table, i, a, Blocks);
    OwnsCount(a, x);
    OwnsCount(st.table[i], x);
    assert (AllBlocks(t) + Blocks(st.table[i]))[x] == (AllBlocks(st.table) + Blocks(a))[x];
    assert (multiset(F) + AllBlocks(t))[x] == (multiset(st.chain) + AllBlocks(st.table))[x] by {
      assert Region(D) == Region(E) by { SameRegion(D, E); }
    }
    SumHas(t, i, Blocks, x);
    RegionOnce(E, x);
    assert (multiset(F) + AllBlocks(t))[x] <= 1;
  }

  lemma SameRegion(D: seq<Block>, E: seq<Block>)
    requires Geometry(D) && Geometry(E) && SameGeometry(D, E)
    ensures Region(D) == Region(E)
  {
  }

  ghost predicate SamePointers(a: InodeRec, b: InodeRec) {
    a.direct == b.direct && a.single == b.single && a.double == b.double && a.triple == b.triple
  }

  lemma HoldsPointers(D: seq<Block>, rec: InodeRec, rec2: InodeRec, B: seq<nat>, N: seq<nat>)
    requires Holds(D, rec, B, N) && SamePointers(rec, rec2)
    ensures Holds(D, rec2, B, N)
  {
    hide Tree;
    forall k | 1 <= k <= 3 ensures Tree(D, k, Root(rec2, k), ArmBlocks(B, k), ArmNodes(N, k)) {
      assert Root(rec2, k) == Root(rec, k);
    }
  }

  /** Any change confined to the blocks of the edited inode and the free list. */
  lemma EditMove(D: seq<Block>, E: seq<Block>, E2: seq<Block>, st: State, i: nat, rec: InodeRec, rec2: InodeRec,
                 a: Node, a2: Node, F: seq<nat>, F2: seq<nat>)
    requires Edited(D, E, st, i, rec, a, F) && !a2.Unused? && Chain(E2, F2) && Holds(E2, rec2, a2.blks, a2.nodes)
    requires SameGeometry(E, E2) && multiset(F2) + Blocks(a2) == multiset(F) + Blocks(a)
    requires forall x :: 0 < x < |E| && !Owns(a, x) && x !in F ==> E2[x] == E[x]
    ensures Edited(D, E2, st, i, rec2, a2, F2)
  {
    hide Tree, Kids, Linked, Holds, Blocks, Stored, Conserved, ListSame, OnlyInode, SameGeometry;
    var t := st.table[i := a];
    Moved(E, E2, F, t, i, F2, a2);
    assert t[i := a2] == st.table[i := a2];
    EditMoveFrame(D, E, E2, st, i, rec, a, F);
  }

  lemma EditMoveFrame(D: seq<Block>, E: seq<Block>, E2: seq<Block>, st: State, i: nat, rec: InodeRec, a: Node,
                      F: seq<nat>)
    requires Edited(D, E, st, i, rec, a, F) && SameGeometry(E, E2)
    requires forall x :: 0 < x < |E| && !Owns(a, x) && x !in F ==> E2[x] == E[x]
    ensures ListSame(D, E2) && OnlyInode(D, E2, st, i)
  {
    hide Tree, Kids, Linked, Holds, Blocks, Stored, Conserved;
    forall x: nat | InRegion(D, x) && !Owns(st.table[i], x) && x !in st.chain ensures E2[x] == D[x] {
      if x in F || Owns(a, x) { EditOrigin(D, E, st, i, rec, a, F, x); }
    }
    forall x | 0 < x < D[0].sb.freeStart ensures E2[x] == D[x] {
      if x in F || Owns(a, x) { EditOrigin(D, E, st, i, rec, a, F, x); }
    }
  }

  /** A data block of the edited inode is rewritten. */
  lemma EditData(D: seq<Block>, E: seq<Block>, E2: seq<Block>, st: State, i: nat, rec: InodeRec, a: Node, F: seq<nat>,
                 no: nat, b: Block)
    requires Edited(D, E, st, i, rec, a, F) && no in a.blks && no < |E| && E2 == E[no := b]
    ensures Edited(D, E2, st, i, rec, a, F)
  {
    hide Tree, Kids, Linked, Holds, Stored, Blocks, Conserved, ListSame, OnlyInode;
    EditSeparate(D, E, st, i, rec, a, F);
    DistinctParts(a.blks, a.nodes);
    assert no in a.blks + a.nodes && InRegion(E, no);
    HoldsFrame(E, E2, rec, a.blks, a.nodes);
    ChainFrame(E, E2, F);
    EditMove(D, E, E2, st, i, rec, rec, a, a, F, F);
  }

  function Grown(a: Node, no: nat, X: seq<nat>): Node
    requires !a.Unused?
  {
    match a
    case File(blks, nodes, data, links) => File(blks + [no], nodes + X, data, links)
    case Dir(blks, nodes, ents, links) => Dir(blks + [no], nodes + X, ents, links)
  }

  /** After allocating block no and perhaps writing it, an append to the inode may start. */
  lemma EditMalloc(D: seq<Block>, E: seq<Block>, E2: seq<Block>, st: State, i: nat, rec: InodeRec, a: Node, F: seq<nat>,
                   no: nat)
    requires Edited(D, E, st, i, rec, a, F) && |F| > 1 && no == F[0]
    requires Chain(E2, F[1..]) && OnlyTouches(E, E2, [no], [])
    ensures Holds(E2, rec, a.blks, a.nodes) && Separate(E2, a.nodes, F[1..]) && no !in a.nodes && InRegion(E2, no)
    ensures !Owns(a, no)
  {
    EditSeparate(D, E, st, i, rec, a, F);
    ChainInRegion(E, F);
    hide Tree, Kids, Linked, Holds, Stored, Conserved;
    assert no in F && forall x :: x in F[1..] ==> x in F;
    assert forall x :: Owns(a, x) ==> x in a.blks + a.nodes;
    HoldsFrame(E, E2, rec, a.blks, a.nodes);
  }

  /** ... and completes it. */
  lemma EditGrow(D: seq<Block>, E: seq<Block>, E2: seq<Block>, E3: seq<Block>, st: State, i: nat, rec: InodeRec,
                 rec2: InodeRec, a: Node, F: seq<nat>, no: nat, X: seq<nat>, F2: seq<nat>)
    requires Edited(D, E, st, i, rec, a, F) && |F| > 1 && no == F[0]
    requires Chain(E2, F[1..]) && OnlyTouches(E, E2, [no], [])
    requires F[1..] == X + F2 && Chain(E3, F2) && OnlyTouches(E2, E3, a.nodes, X)
    requires Holds(E3, rec2, a.blks + [no], a.nodes + X)
    ensures Edited(D, E3, st, i, rec2, Grown(a, no, X), F2)
    ensures no < |E2| == |E3| && E3[no] == E2[no]
    ensures forall k :: 0 <= k < |a.blks| && a.blks[k] < |E| ==> E3[a.blks[k]] == E[a.blks[k]]
  {
    hide Tree, Kids, Holds, Stored, Conserved, Linked, ListSame, OnlyInode, Blocks;
    EditSeparate(D, E, st, i, rec, a, F);
    ChainInRegion(E, F);
    assert F == [no] + X + F2;
    GrownFrame(E, E2, E3, a.blks, a.nodes, F, no, X, F2);
    GrownBlocks(a, no, X);
    EditMove(D, E, E3, st, i, rec, rec2, a, Grown(a, no, X), F, F2);
  }

  lemma GrownBlocks(a: Node, no: nat, X: seq<nat>)
    requires !a.Unused?
    ensures Blocks(Grown(a, no, X)) == Blocks(a) + multiset([no] + X)
  {
  }

  lemma GrownFrame(E: seq<Block>, E2: seq<Block>, E3: seq<Block>, B: seq<nat>, N: seq<nat>, F: seq<nat>, no: nat,
                   X: seq<nat>, F2: seq<nat>)
    requires Separate(E, B + N, F) && Distinct(F) && F == [no] + X + F2 && forall x :: x in F ==> InRegion(E, x)
    requires OnlyTouches(E, E2, [no], []) && OnlyTouches(E2, E3, N, X)
    ensures SameGeometry(E, E3) && 0 < no < |E2| == |E3| && E3[no] == E2[no]
    ensures forall k :: 0 <= k < |B| && B[k] < |E| ==> E3[B[k]] == E[B[k]]
    ensures forall x :: 0 < x < |E| && x !in N && x !in F ==> E3[x] == E[x]
  {
    DistinctParts([no] + X, F2);
    DistinctParts([no], X);
    DistinctParts(B, N);
    assert no in [no] && no in F;
    assert forall x :: x in X ==> x in F;
    forall k | 0 <= k < |B| && B[k] < |E| ensures E3[B[k]] == E[B[k]] {
      assert B[k] in B && B[k] in B + N && InRegion(E, B[k]);
    }
    assert forall x :: x in N ==> x in B + N;
  }

  /** The record goes back to the inode list. */
  lemma EditFinish(D: seq<Block>, E: seq<Block>, E2: seq<Block>, st: State, i: nat, rec: InodeRec, rec2: InodeRec,
                   a: Node, F: seq<nat>)
    requires Edited(D, E, st, i, rec, a, F)
    requires Tabled(E2) && SameGeometry(E, E2) && E2[0] == E[0]
    requires forall j :: 0 <= j < InodeCount(D) ==> RecAt(E2, j) == if j == i then rec2 else RecAt(D, j)
    requires forall x: nat :: InRegion(E, x) && x !in a.blks ==> E2[x] == E[x]
    requires Is(E2, rec2, a)
    ensures Stored(E2, State(F, st.table[i := a]))
  {
    EditSeparate(D, E, st, i, rec, a, F);
    ChainInRegion(E, F);
    hide Tree, Kids, Holds, Linked, Is, RecAt;
    assert forall x :: x in a.blks ==> x in a.blks + a.nodes;
    ChainFrame(E, E2, F);
    SameRegion(E, E2);
    forall x: nat | InRegion(D, x) && !Owns(st.table[i], x) && x !in st.chain ensures E2[x] == D[x] {
      if x in a.blks { EditOrigin(D, E, st, i, rec, a, F, x); }
    }
    StoreUpdate(D, E2, st, i, rec2, a, F);
  }

  /** Records read through an unchanged inode list. */
  lemma ListRecs(D: seq<Block>, E: seq<Block>)
    requires ListSame(D, E)
    ensures Tabled(E) && InodeCount(E) == InodeCount(D)
    ensures forall j :: 0 <= j < InodeCount(D) ==> RecAt(E, j) == RecAt(D, j)
  {
    forall j | 0 <= j < InodeCount(D) ensures RecAt(E, j) == RecAt(D, j) {
      SlotInList(D, j);
    }
  }

  /** Ownership does not depend on the contents or the link count. */
  lemma EditRetype(D: seq<Block>, E: seq<Block>, st: State, i: nat, rec: InodeRec, a: Node, a2: Node, F: seq<nat>)
    requires Edited(D, E, st, i, rec, a, F) && !a2.Unused? && a2.blks == a.blks && a2.nodes == a.nodes
    ensures Edited(D, E, st, i, rec, a2, F)
  {
    hide Tree, Kids, Linked, Holds, Stored, Conserved;
    EditMove(D, E, E, st, i, rec, rec, a, a2, F, F);
  }

  /** Writing the record back completes the edit, if the device holds a's contents. */
  lemma EditStored(D: seq<Block>, E: seq<Block>, E2: seq<Block>, st: State, i: nat, rec: InodeRec, rec2: InodeRec,
                   a: Node, F: seq<nat>)
    requires Edited(D, E, st, i, rec, a, F) && InodeWritten(E, E2, i, rec2) && SamePointers(rec, rec2)
    requires rec2.kind == (if a.File? then Regular else Directory) && rec2.links == a.links
    requires rec2.size == if a.File? then |a.data| else |a.blks| * BLOCK_SIZE
    requires a.Dir? ==> forall k :: 0 <= k < |a.ents| ==> a.ents[k].ino != 0
    requires |a.blks| == Units(a)
    requires forall k :: 0 <= k < |a.blks| ==> a.blks[k] < |E| && E[a.blks[k]] == Content(a, k)
    ensures Stored(E2, State(F, st.table[i := a]))
  {
    hide Tree, Kids, Linked, Holds, Conserved, RecAt, Stored, Content, Units;
    ListRecs(D, E);
    SlotInList(E, i);
    EditSeparate(D, E, st, i, rec, a, F);
    assert forall x :: x in a.blks || x in a.nodes ==> x in a.blks + a.nodes;
    HoldsFrame(E, E2, rec, a.blks, a.nodes);
    HoldsPointers(E2, rec, rec2, a.blks, a.nodes);
    assert forall k :: 0 <= k < |a.blks| ==> a.blks[k] in a.blks;
    EditFinish(D, E, E2, st, i, rec, rec2, a, F);
  }

  lemma HoldsNothing(D: seq<Block>, rec: InodeRec)
    requires SamePointers(rec, NO_INODE)
    ensures Holds(D, rec, [], [])
  {
    hide Overhead, Lo;
    OverheadDirect(0);
    assert rec.direct == Page([], 0, DIRECT_BLOCKS, 0);
  }

  /** All blocks of the edited inode were freed. */
  lemma EditEmpty(D: seq<Block>, E: seq<Block>, st: State, i: nat, rec: InodeRec, a: Node, a2: Node, F: seq<nat>,
                  P: seq<nat>, rec2: InodeRec)
    requires Edited(D, D, st, i, rec, a, F) && Chain(E, P + F) && OnlyTouches(D, E, P, [])
    requires multiset(P) == Blocks(a)
    requires SamePointers(rec2, NO_INODE) && !a2.Unused? && a2.blks == [] && a2.nodes == []
    ensures Edited(D, E, st, i, rec2, a2, P + F)
  {
    hide Tree, Kids, Linked, Holds, Stored, Conserved, ListSame, OnlyInode;
    HoldsNothing(E, rec2);
    forall x | x in P ensures Owns(a, x) {
      assert x in multiset(P);
      OwnsCount(a, x);
    }
    EditMove(D, D, E, st, i, rec, rec2, a, a2, F, P + F);
  }

  /** The record goes back first and one data block of the inode is written after it. */
  lemma EditStoredLate(D: seq<Block>, E: seq<Block>, E1: seq<Block>, E2: seq<Block>, st: State, i: nat, rec: InodeRec,
                       rec2: InodeRec, a: Node, F: seq<nat>, no: nat, b: Block)
    requires Edited(D, E, st, i, rec, a, F) && InodeWritten(E, E1, i, rec2) && SamePointers(rec, rec2)
    requires no in a.blks && no < |E1| && E2 == E1[no := b]
    requires rec2.kind == (if a.File? then Regular else Directory) && rec2.links == a.links
    requires rec2.size == if a.File? then |a.data| else |a.blks| * BLOCK_SIZE
    requires a.Dir? ==> forall k :: 0 <= k < |a.ents| ==> a.ents[k].ino != 0
    requires |a.blks| == Units(a)
    requires forall k :: 0 <= k < |a.blks| ==>
      a.blks[k] < |E| && (if a.blks[k] == no then b else E[a.blks[k]]) == Content(a, k)
    ensures Stored(E2, State(F, st.table[i := a]))
  {
    hide Tree, Kids, Linked, Holds, Conserved, Stored, Content, Units;
    ListRecs(D, E);
    SlotInList(E, i);
    EditSeparate(D, E, st, i, rec, a, F);
    DistinctParts(a.blks, a.nodes);
    assert forall x :: x in a.blks || x in a.nodes ==> x in a.blks + a.nodes;
    LateTabled(E1, E2, no, b);
    hide RecAt, Tabled;
    HoldsFrame(E, E2, rec, a.blks, a.nodes);
    HoldsPointers(E2, rec, rec2, a.blks, a.nodes);
    assert forall k :: 0 <= k < |a.blks| ==> a.blks[k] in a.blks;
    EditFinish(D, E, E2, st, i, rec, rec2, a, F);
  }

  /** A write in the data region does not touch the inode list. */
  lemma LateTabled(E1: seq<Block>, E2: seq<Block>, no: nat, b: Block)
    requires Tabled(E1) && InRegion(E1, no) && E2 == E1[no := b]
    ensures Tabled(E2) && SameGeometry(E1, E2) && E2[0] == E1[0] && InodeCount(E2) == InodeCount(E1)
    ensures forall j :: 0 <= j < InodeCount(E1) ==> RecAt(E2, j) == RecAt(E1, j)
  {
    forall j | 0 <= j < InodeCount(E1) ensures RecAt(E2, j) == RecAt(E1, j) {
      SlotInList(E1, j);
    }
  }
}
