/** How an inode number comes into use, changes its link count, and is given up. */
module Lifecycle {
  import opened Layout
  import opened Device
  import opened PointerTree
  import opened INode
  import opened FreeFile
  import opened InodeTable
  import opened Store
  import opened Editing
  import opened Directory
  import opened FileContents
  import opened Namespace
  import opened Steps

  // ---- A record is determined by what it stands for ----

  lemma PointersDetermined(D: seq<Block>, E: seq<Block>, rec: InodeRec, rec2: InodeRec, B: seq<nat>, N: seq<nat>)
    requires Holds(D, rec, B, N) && Holds(E, rec2, B, N)
    ensures SamePointers(rec, rec2)
  {
    hide Kids;
    forall k | 1 <= k <= 3 ensures Root(rec, k) == Root(rec2, k) {
      assert Tree(D, k, Root(rec, k), ArmBlocks(B, k), ArmNodes(N, k));
      assert Tree(E, k, Root(rec2, k), ArmBlocks(B, k), ArmNodes(N, k));
    }
    assert Root(rec, 1) == Root(rec2, 1) && Root(rec, 2) == Root(rec2, 2) && Root(rec, 3) == Root(rec2, 3);
  }

  /** A copy of an inode record read before other inodes changed is still the record on disk. */
  lemma SameRecord(D: seq<Block>, st: State, E: seq<Block>, st2: State, i: nat)
    requires Stored(D, st) && Stored(E, st2) && i < |st.table| && i < |st2.table|
    requires st2.table[i] == st.table[i] && !st.table[i].Unused?
    ensures Tabled(D) && Tabled(E) && i < InodeCount(D) && i < InodeCount(E) && RecAt(D, i) == RecAt(E, i)
  {
    hide Holds, Chain, Conserved, RecAt;
    var a := st.table[i];
    assert Is(D, RecAt(D, i), a) && Is(E, RecAt(E, i), a);
    PointersDetermined(D, E, RecAt(D, i), RecAt(E, i), a.blks, a.nodes);
  }

  // ---- The inode list says how much space is free ----

  function Size(a: Node): nat { |DataBlks(a)| + |TreeNodes(a)| }

  lemma SameSize(D: seq<Block>, E: seq<Block>, rec: InodeRec, a: Node, b: Node)
    requires Is(D, rec, a) && Is(E, rec, b)
    requires a.Unused? ==> a == Unused([])
    requires b.Unused? ==> b == Unused([])
    ensures Size(a) == Size(b)
  {
    hide Tree, Overhead, Content, Lo;
    if a.Dir? { DirBlocksOf(|a.blks|); }
  }

  lemma {:induction false} SameCount(s: seq<Node>, t: seq<Node>)
    requires |s| == |t| && forall i :: 0 <= i < |s| ==> Size(s[i]) == Size(t[i])
    ensures CountAll(s) == CountAll(t)
  {
    if s != [] {
      var n := |s| - 1;
      assert Size(s[n]) == Size(t[n]);
      SameCount(s[..n], t[..n]);
    }
  }

  // ---- One device, one state ----

  lemma SameData(D: seq<Block>, rec: InodeRec, a: Node, b: Node)
    requires Is(D, rec, a) && Is(D, rec, b) && a.File? && b.File?
    ensures a == b
  {
    hide Tree, Overhead, Lo, Holds;
    HoldsUnique(D, rec, a.blks, a.nodes, b.blks, b.nodes);
    forall p | 0 <= p < |a.data| ensures a.data[p] == b.data[p] {
      var k, j := p / BLOCK_SIZE, p % BLOCK_SIZE;
      assert k < |a.blks| && D[a.blks[k]] == Content(a, k) && D[a.blks[k]] == Content(b, k);
      assert Content(a, k).bytes[j] == a.data[p] && Content(b, k).bytes[j] == b.data[p];
    }
    assert a.data == b.data;
  }

  lemma SameEntry(D: seq<Block>, rec: InodeRec, a: Node, b: Node, p: nat)
    requires Is(D, rec, a) && Is(D, rec, b) && a.Dir? && b.Dir? && a.blks == b.blks
    ensures p < |a.ents| <==> p < |b.ents|
    ensures p < |a.ents| && p < |b.ents| ==> a.ents[p] == b.ents[p]
  {
    hide Tree, Overhead, Lo, Holds;
    var k, j := p / ENTRIES_PER_BLOCK, p % ENTRIES_PER_BLOCK;
    if k < |a.blks| {
      assert D[a.blks[k]] == Content(a, k) && D[a.blks[k]] == Content(b, k);
      assert Content(a, k).ents[j] == Content(b, k).ents[j];
      SlotOf(a.ents, k, j);
      SlotOf(b.ents, k, j);
    }
  }

  lemma SameEnts(D: seq<Block>, rec: InodeRec, a: Node, b: Node)
    requires Is(D, rec, a) && Is(D, rec, b) && a.Dir? && b.Dir?
    ensures a == b
  {
    hide Tree, Overhead, Lo, Holds, Content;
    DirBlocksOf(|a.blks|);
    HoldsUnique(D, rec, a.blks, a.nodes, b.blks, b.nodes);
    SameEntry(D, rec, a, b, |a.ents|);
    SameEntry(D, rec, a, b, |b.ents|);
    forall p | 0 <= p < |a.ents| ensures a.ents[p] == b.ents[p] { SameEntry(D, rec, a, b, p); }
    assert a.ents == b.ents;
  }

  /** A device stores one state only. */
  lemma StateUnique(D: seq<Block>, st: State, s: State)
    requires Stored(D, st) && Stored(D, s) && Settled(st.table) && Settled(s.table)
    ensures s == st
  {
    hide Conserved, Linked, Filled, RecAt;
    ChainUnique(D, s.chain, st.chain);
    forall i | 0 <= i < |st.table| ensures s.table[i] == st.table[i] {
      var rec := RecAt(D, i);
      assert Is(D, rec, st.table[i]) && Is(D, rec, s.table[i]);
      if st.table[i].File? { SameData(D, rec, st.table[i], s.table[i]); }
      if st.table[i].Dir? { SameEnts(D, rec, st.table[i], s.table[i]); }
    }
    assert s.table == st.table;
  }

  /** So a device is in order exactly when the state that it stores is sound. */
  lemma InOrderIsSound(D: seq<Block>, st: State)
    requires Stored(D, st) && Settled(st.table)
    ensures InOrder(D) <==> Sound(st.table)
  {
    hide Stored, Sound, Settled;
    forall s: State | Stored(D, s) && Sound(s.table) ensures Sound(st.table) {
      SoundSettled(s.table);
      StateUnique(D, st, s);
    }
    if Sound(st.table) { assert Stored(D, st) && Sound(st.table); }
  }

  /** The device stores a sound state. */
  ghost predicate InOrder(D: seq<Block>) { exists s: State :: Stored(D, s) && Sound(s.table) }

  lemma StateInOrder(D: seq<Block>, st: State)
    requires Stored(D, st) && Sound(st.table)
    ensures InOrder(D)
  {
    hide Stored, Sound;
  }

  /** Two devices in order with the same inode list have as many free blocks. */
  lemma ListDeterminesFree(D: seq<Block>, st: State, E: seq<Block>, s: State)
    requires Stored(D, st) && Sound(st.table) && Stored(E, s) && Sound(s.table) && ListSame(D, E)
    ensures |s.chain| == |st.chain|
  {
    hide Holds, Linked, Conserved, RecAt, Tabled, Names, SubDirs, Is, CountAll, Size;
    ListRecs(D, E);
    SpaceAccounted(D, st);
    SpaceAccounted(E, s);
    forall i | 0 <= i < |st.table| ensures Size(st.table[i]) == Size(s.table[i]) {
      SoundAt(st.table, i);
      SoundAt(s.table, i);
      assert Is(D, RecAt(D, i), st.table[i]) && Is(E, RecAt(E, i), s.table[i]);
      SameSize(D, E, RecAt(D, i), st.table[i], s.table[i]);
    }
    SameCount(st.table, s.table);
  }

  /** A write that ended in ENOSPC left a device in order exactly when there was nothing to
      allocate from the start: otherwise blocks are neither free nor in any inode. */
  lemma BlocksLost(D: seq<Block>, st: State, E: seq<Block>, F: seq<nat>)
    requires Stored(D, st) && Sound(st.table) && UsedUp(D, E, F) && (|st.chain| == 1 ==> E == D)
    ensures InOrder(E) <==> |st.chain| == 1
  {
    hide Stored, Sound, Chain, ListSame;
    forall s: State | Stored(E, s) && Sound(s.table) ensures |st.chain| == 1 {
      ListDeterminesFree(D, st, E, s);
      OneChain(E, s, F);
    }
    if |st.chain| == 1 { assert Stored(E, st) && Sound(st.table); }
  }

  /** A record in use with link count 0 fits no sound state. */
  lemma ZeroLinks(E: seq<Block>, c: nat)
    requires Tabled(E) && c < InodeCount(E) && RecAt(E, c).kind != FreeInode && RecAt(E, c).links == 0
    ensures !InOrder(E)
  {
    hide Holds, Chain, Conserved, Linked, RecAt, Names, SubDirs;
    forall s: State | Stored(E, s) ensures !Sound(s.table) {
      assert Is(E, RecAt(E, c), s.table[c]);
      if Sound(s.table) { SoundAt(s.table, c); }
    }
  }

  lemma OneChain(E: seq<Block>, s: State, F: seq<nat>)
    requires Stored(E, s) && Chain(E, F)
    ensures s.chain == F
  {
    hide Is, Conserved, Linked;
    ChainUnique(E, s.chain, F);
  }

  // ---- Changing one inode ----

  /** Inode i becomes a: device D changed to E in blocks of inode i and of the free list
      only, then its record was written. */
  lemma Replaced(D: seq<Block>, E: seq<Block>, E2: seq<Block>, st: State, i: nat, rec: InodeRec, a: Node, F: seq<nat>)
    requires Stored(D, st) && i < |st.table| && ListSame(D, E) && OnlyInode(D, E, st, i) && Chain(E, F)
    requires InodeWritten(E, E2, i, rec)
    requires multiset(F) + Blocks(a) == multiset(st.chain) + Blocks(st.table[i])
    requires Is(E2, rec, a)
    ensures Stored(E2, State(F, st.table[i := a]))
  {
    hide Is, Linked, Blocks, RecAt, Conserved;
    ListRecs(D, E);
    SlotInList(E, i);
    ChainInRegion(E, F);
    ChainFrame(E, E2, F);
    Moved(D, E2, st.chain, st.table, i, F, a);
    StoreUpdate(D, E2, st, i, rec, a, F);
  }

  /** A block leaves the free list for an inode number not yet in use. */
  lemma Reserved(D: seq<Block>, E: seq<Block>, st: State, c: nat)
    requires Stored(D, st) && c < |st.table| && st.table[c] == Unused([]) && |st.chain| > 1
    requires Chain(E, st.chain[1..]) && OnlyTouches(D, E, [], [])
    ensures Stored(E, State(st.chain[1..], st.table[c := Unused([st.chain[0]])]))
  {
    hide Chain, Linked, Blocks, RecAt, Conserved;
    var b, F := st.chain[0], st.chain[1..];
    assert Is(D, RecAt(D, c), st.table[c]);
    ListRecs(D, E);
    assert st.chain == [b] + F;
    ReservedBlocks(b, F);
    Moved(D, E, st.chain, st.table, c, F, Unused([b]));
    StoreUpdate(D, E, st, c, RecAt(D, c), Unused([b]), F);
  }

  lemma ReservedBlocks(b: nat, F: seq<nat>)
    ensures multiset(F) + Blocks(Unused([b])) == multiset([b] + F) + Blocks(Unused([]))
  {
  }

  // ---- Records of new inodes ----

  /** The record create writes. */
  const NEW_FILE := NO_INODE.(kind := Regular, links := 1)

  /** The record mkdir and mkfs write for a directory whose only block is b. */
  function NewDirRec(b: nat): InodeRec {
    NO_INODE.(direct := Zeros(DIRECT_BLOCKS)[0 := b], kind := Directory, size := BLOCK_SIZE, links := 2)
  }

  lemma NewFileStored(D: seq<Block>, E: seq<Block>, st: State, c: nat)
    requires Stored(D, st) && c < |st.table| && st.table[c] == Unused([])
    requires InodeWritten(D, E, c, NEW_FILE)
    ensures Stored(E, State(st.chain, st.table[c := File([], [], [], 1)]))
  {
    hide Chain, Linked, Tree, RecAt, Conserved, Holds, Stored;
    HoldsNothing(E, NEW_FILE);
    StoredParts(D, st);
    Replaced(D, D, E, st, c, NEW_FILE, File([], [], [], 1), st.chain);
  }

  lemma StoredParts(D: seq<Block>, st: State)
    requires Stored(D, st)
    ensures Chain(D, st.chain) && ListSame(D, D) && |st.table| == InodeCount(D)
    ensures forall i :: 0 <= i < |st.table| ==> OnlyInode(D, D, st, i)
  {
  }

  /** A directory of one block. */
  lemma HoldsOne(D: seq<Block>, b: nat)
    ensures Holds(D, NewDirRec(b), [b], [])
  {
    hide Overhead, Lo;
    Levels();
    OverheadDirect(1);
    assert NewDirRec(b).direct == Page([b], 0, DIRECT_BLOCKS, 0);
  }

  lemma NewDirIs(D: seq<Block>, c: nat, p: nat, b: nat)
    requires c != 0 && p != 0 && b < |D| && D[b] == Table(DirBlock(NewDir(c, p, b).ents, 0))
    ensures Is(D, NewDirRec(b), NewDir(c, p, b))
  {
    hide Holds;
    HoldsOne(D, b);
    ContentIs(NewDir(c, p, b));
  }

  lemma NewDirStored(D: seq<Block>, E: seq<Block>, E2: seq<Block>, st: State, c: nat, p: nat, b: nat)
    requires Stored(D, st) && c < |st.table| && st.table[c] == Unused([b]) && c != 0 && p != 0
    requires b < |D| && E == D[b := Table(DirBlock(NewDir(c, p, b).ents, 0))] && InodeWritten(E, E2, c, NewDirRec(b))
    ensures Stored(E2, State(st.chain, st.table[c := NewDir(c, p, b)]))
  {
    hide Linked, RecAt, Conserved, Is, Tabled;
    assert Owns(st.table[c], b);
    OneOwner(D, st, c, b);
    SlotInList(E, c);
    StoredParts(D, st);
    ChainFrame(D, E, st.chain);
    NewDirIs(E2, c, p, b);
    Replaced(D, E, E2, st, c, NewDirRec(b), NewDir(c, p, b), st.chain);
  }

  lemma BlockOf(D: seq<Block>, st: State, c: nat, b: nat)
    requires Stored(D, st) && c < |st.table| && st.table[c] == Unused([b])
    ensures 0 < b < |D| && Tabled(D[b := Table([])]) && InodeCount(D[b := Table([])]) == InodeCount(D) == |st.table|
  {
    hide Linked, Conserved, Is;
    assert Owns(st.table[c], b);
    OneOwner(D, st, c, b);
  }

  // ---- Link counts ----

  lemma RelinkedStored(D: seq<Block>, E: seq<Block>, st: State, i: nat, delta: int)
    requires Stored(D, st) && i < |st.table| && st.table[i].File?
    requires InodeWritten(D, E, i, RecAt(D, i).(links := WrapLinks(st.table[i].links + delta)))
    ensures Stored(E, State(st.chain, st.table[i := Relinked(st.table[i], delta)]))
  {
    hide Linked, RecAt, Conserved, Tree, Kids, Chain, InodeWritten, Edited, Holds, Stored;
    var a := st.table[i];
    EditStart(D, st, i);
    FileSize(D, st, i);
    EditRetype(D, D, st, i, RecAt(D, i), a, Relinked(a, delta), st.chain);
    EditStored(D, D, E, st, i, RecAt(D, i), RecAt(D, i).(links := WrapLinks(a.links + delta)), Relinked(a, delta),
      st.chain);
  }

  /** Writing back an unchanged record changes nothing. */
  lemma RewrittenSame(D: seq<Block>, E: seq<Block>, i: nat)
    requires Tabled(D) && i < InodeCount(D) && InodeWritten(D, E, i, RecAt(D, i))
    ensures E == D
  {
    SlotInList(D, i);
    var b := InodeBlk(i);
    forall s | 0 <= s < INODES_PER_BLOCK ensures E[b].recs[s] == D[b].recs[s] {
      SlotNumber(b, s);
      var j := (b - (1 + RESERVED_SPACE)) * INODES_PER_BLOCK + s;
      assert RecAt(E, j) == RecAt(D, j);
    }
    assert E[b].recs == D[b].recs;
  }

  // ---- Giving up an inode ----

  /** Its blocks were freed and its record marked free. */
  lemma GoneStored(D: seq<Block>, E: seq<Block>, E2: seq<Block>, st: State, i: nat, P: seq<nat>, rec: InodeRec)
    requires Stored(D, st) && i < |st.table| && !st.table[i].Unused?
    requires AllFreed(D, E, st.table[i].blks, st.table[i].nodes, P, st.chain)
    requires rec.kind == FreeInode && InodeWritten(E, E2, i, rec)
    ensures var st' := State(P + st.chain, st.table[i := Unused([])]);
      Stored(E2, st') && GoneStep(st, i, st')
  {
    hide Chain, RecAt, Conserved, InodeWritten, Stored, ListSame;
    var a := st.table[i];
    FreedTabled(D, E, st, i, P);
    forall x | x in P ensures Owns(a, x) { InMultiset(P, a.blks, a.nodes, x); }
    GeometryOf(D, st);
    Replaced(D, E, E2, st, i, rec, Unused([]), P + st.chain);
  }

  lemma GeometryOf(D: seq<Block>, st: State)
    requires Stored(D, st)
    ensures Geometry(D)
  {
  }
}
