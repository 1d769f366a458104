/**
 * The whole device as one abstract state: the free list and, for every inode number,
 * what the inode is. Block ownership is one equation: the free list and the blocks of
 * all inodes together are the data region, each block once.
 */
module Store {
  import opened Layout
  import opened Device
  import opened PointerTree
  import opened INode
  import opened InodeTable

  // An unused inode number may have blocks reserved by the operation that is about to use it.
  datatype Node =
    | Unused(blks: seq<nat>)
    | File(blks: seq<nat>, nodes: seq<nat>, data: seq<Byte>, links: nat)
    | Dir(blks: seq<nat>, nodes: seq<nat>, ents: seq<Entry>, links: nat)

  datatype State = State(chain: seq<nat>, table: seq<Node>)

  function DataBlks(a: Node): seq<nat> { a.blks }

  function TreeNodes(a: Node): seq<nat> { if a.Unused? then [] else a.nodes }

  /** All blocks of an inode. */
  function Blocks(a: Node): multiset<nat> { multiset(DataBlks(a)) + multiset(TreeNodes(a)) }

  ghost predicate Owns(a: Node, x: nat) { x in DataBlks(a) || x in TreeNodes(a) }

  /** The content of the k-th data block of an inode. */
  function Content(a: Node, k: nat): Block
    requires !a.Unused?
  {
    match a
    case File(_, _, data, _) => Data(Page(data, k, BLOCK_SIZE, 0))
    case Dir(_, _, ents, _) => Table(Page(ents, k, ENTRIES_PER_BLOCK, NO_ENTRY))
  }

  function Units(a: Node): nat
    requires !a.Unused?
  {
    match a
    case File(_, _, data, _) => CeilDiv(|data|, BLOCK_SIZE)
    case Dir(_, _, ents, _) => CeilDiv(|ents|, ENTRIES_PER_BLOCK)
  }

  /** The inode record rec of device D is the inode a. */
  ghost predicate Is(D: seq<Block>, rec: InodeRec, a: Node) {
    match a
    case Unused(_) => rec.kind == FreeInode
    case File(blks, nodes, data, links) =>
      rec.kind == Regular && rec.size == |data| && rec.links == links && Filled(D, rec, a)
    case Dir(blks, nodes, ents, links) =>
      rec.kind == Directory && rec.size == |blks| * BLOCK_SIZE && rec.links == links && Filled(D, rec, a) &&
      forall k :: 0 <= k < |ents| ==> ents[k].ino != 0
  }

  /** Its blocks are as many as its contents need, and hold them padded with zeros. */
  ghost predicate Filled(D: seq<Block>, rec: InodeRec, a: Node)
    requires !a.Unused?
  {
    Holds(D, rec, a.blks, a.nodes) && |a.blks| == Units(a) &&
    forall k :: 0 <= k < |a.blks| ==> a.blks[k] < |D| && D[a.blks[k]] == Content(a, k)
  }

  // ---- Ownership ----

  /** The sum of f over all inodes. */
  function {:induction false} Sum(table: seq<Node>, f: Node -> multiset<nat>): multiset<nat> {
    if table == [] then multiset{} else Sum(table[..|table| - 1], f) + f(table[|table| - 1])
  }

  function AllBlocks(table: seq<Node>): multiset<nat> { Sum(table, Blocks) }

  /** lo, ..., hi - 1, each once. */
  function Range(lo: nat, hi: nat): multiset<nat>
    requires lo <= hi
  {
    if lo == hi then multiset{} else Range(lo, hi - 1) + multiset{hi - 1}
  }

  lemma {:induction false} RangeCounts(lo: nat, hi: nat, x: nat)
    requires lo <= hi
    ensures Range(lo, hi)[x] == if lo <= x < hi then 1 else 0
    ensures |Range(lo, hi)| == hi - lo
  {
    if lo < hi { RangeCounts(lo, hi - 1, x); }
  }

  ghost function Region(D: seq<Block>): multiset<nat>
    requires Geometry(D)
  {
    Range(D[0].sb.freeStart, |D|)
  }

  ghost predicate Conserved(D: seq<Block>, st: State)
    requires Geometry(D)
  {
    multiset(st.chain) + AllBlocks(st.table) == Region(D)
  }

  ghost predicate Stored(D: seq<Block>, st: State) {
    Chain(D, st.chain) && Tabled(D) && Conserved(D, st) && |st.table| == InodeCount(D) &&
    forall i :: 0 <= i < |st.table| ==> Is(D, RecAt(D, i), st.table[i])
  }

  lemma {:induction false} SumUpdate(table: seq<Node>, i: nat, a: Node, f: Node -> multiset<nat>)
    requires i < |table|
    ensures Sum(table[i := a], f) + f(table[i]) == Sum(table, f) + f(a)
  {
    var n := |table| - 1;
    var t := table[i := a];
    if i < n {
      SumUpdate(table[..n], i, a, f);
      assert t[..n] == table[..n][i := a];
      forall z ensures (Sum(t, f) + f(table[i]))[z] == (Sum(table, f) + f(a))[z] {
        assert (Sum(t[..n], f) + f(table[i]))[z] == (Sum(table[..n], f) + f(a))[z];
      }
    } else {
      assert t[..n] == table[..n];
    }
  }

  lemma {:induction false} SumHas(table: seq<Node>, i: nat, f: Node -> multiset<nat>, x: nat)
    requires i < |table|
    ensures Sum(table, f)[x] >= f(table[i])[x]
  {
    var n := |table| - 1;
    if i < n { SumHas(table[..n], i, f, x); }
  }

  lemma {:induction false} SumHasTwo(table: seq<Node>, i: nat, j: nat, f: Node -> multiset<nat>, x: nat)
    requires i < j < |table|
    ensures Sum(table, f)[x] >= f(table[i])[x] + f(table[j])[x]
  {
    var n := |table| - 1;
    if j < n { SumHasTwo(table[..n], i, j, f, x); } else { SumHas(table[..n], i, f, x); }
  }

  lemma RegionOnce(D: seq<Block>, x: nat)
    requires Geometry(D)
    ensures Region(D)[x] <= 1
    ensures Region(D)[x] == 1 <==> InRegion(D, x)
  {
    RangeCounts(D[0].sb.freeStart, |D|, x);
  }

  /** No block has two owners, and every owned block is in the data region. */
  lemma OneOwner(D: seq<Block>, st: State, i: nat, x: nat)
    requires Geometry(D) && Conserved(D, st) && i < |st.table| && Owns(st.table[i], x)
    ensures InRegion(D, x) && x !in st.chain
    ensures forall j :: 0 <= j < |st.table| && j != i ==> !Owns(st.table[j], x)
    ensures Blocks(st.table[i])[x] == 1
  {
    hide Region, Blocks;
    RegionOnce(D, x);
    SumHas(st.table, i, Blocks, x);
    OwnsCount(st.table[i], x);
    assert (multiset(st.chain) + AllBlocks(st.table))[x] == Region(D)[x];
    forall j | 0 <= j < |st.table| && j != i ensures !Owns(st.table[j], x) {
      OwnsCount(st.table[j], x);
      if j < i { SumHasTwo(st.table, j, i, Blocks, x); } else { SumHasTwo(st.table, i, j, Blocks, x); }
    }
  }

  lemma OwnsCount(a: Node, x: nat)
    ensures Owns(a, x) <==> Blocks(a)[x] >= 1
  {
  }

  lemma DistinctFromCounts(s: seq<nat>)
    requires forall x :: x in s ==> multiset(s)[x] <= 1
    ensures Distinct(s)
  {
    forall i, j | 0 <= i < j < |s| ensures s[i] != s[j] {
      var a, b := s[..j], s[j..];
      assert s == a + b;
      assert a[i] in a && b[0] in b;
      assert multiset(s)[s[i]] == multiset(a)[s[i]] + multiset(b)[s[i]];
    }
  }

  /** The blocks of one inode, set against any free list. */
  lemma OwnSeparate(D: seq<Block>, st: State, i: nat)
    requires Geometry(D) && Conserved(D, st) && i < |st.table|
    ensures var a := st.table[i];
      Separate(D, DataBlks(a) + TreeNodes(a), st.chain) && Separate(D, TreeNodes(a), st.chain)
  {
    hide Conserved;
    var a := st.table[i];
    var S := DataBlks(a) + TreeNodes(a);
    assert multiset(S) == Blocks(a);
    forall x | x in S ensures InRegion(D, x) && x !in st.chain && multiset(S)[x] <= 1 {
      assert Owns(a, x);
      OneOwner(D, st, i, x);
    }
    DistinctFromCounts(S);
    DistinctParts(DataBlks(a), TreeNodes(a));
    assert forall x :: x in TreeNodes(a) ==> x in S;
  }

  // ---- Changing one inode ----

  lemma IsFrame(D: seq<Block>, E: seq<Block>, rec: InodeRec, a: Node)
    requires Is(D, rec, a) && |D| == |E|
    requires forall x: nat :: Owns(a, x) && x < |D| ==> E[x] == D[x]
    ensures Is(E, rec, a)
  {
    hide Tree, Kids, Holds;
    if !a.Unused? {
      HoldsFrame(D, E, rec, a.blks, a.nodes);
      assert forall k :: 0 <= k < |a.blks| ==> Owns(a, a.blks[k]);
    }
  }

  /** Outside the superblock and the inode list, only blocks of inode i and of the free list changed. */
  ghost predicate OnlyInode(D: seq<Block>, E: seq<Block>, st: State, i: nat)
    requires i < |st.table|
  {
    SameGeometry(D, E) && Geometry(D) &&
    forall x: nat :: InRegion(D, x) && !Owns(st.table[i], x) && x !in st.chain ==> E[x] == D[x]
  }

  lemma Cancel(f: multiset<nat>, t: multiset<nat>, x: multiset<nat>, u: multiset<nat>, y: multiset<nat>,
               c: multiset<nat>)
    requires t + x == u + y && f + y == c + x
    ensures f + t == c + u
  {
    forall z ensures (f + t)[z] == (c + u)[z] {
      assert (t + x)[z] == (u + y)[z] && (f + y)[z] == (c + x)[z];
    }
  }

  /** Moving blocks between the free list and one inode keeps every block owned once. */
  lemma Moved(D: seq<Block>, E: seq<Block>, F: seq<nat>, table: seq<Node>, i: nat, F': seq<nat>, a: Node)
    requires i < |table| && Geometry(D) && SameGeometry(D, E) && Geometry(E) && Conserved(D, State(F, table))
    requires multiset(F') + Blocks(a) == multiset(F) + Blocks(table[i])
    ensures Conserved(E, State(F', table[i := a]))
  {
    hide Blocks;
    SumUpdate(table, i, a, Blocks);
    Cancel(multiset(F'), AllBlocks(table[i := a]), Blocks(table[i]), AllBlocks(table), Blocks(a), multiset(F));
    assert Region(E) == Region(D);
  }

  lemma StoreUpdate(D: seq<Block>, E: seq<Block>, st: State, i: nat, rec: InodeRec, a: Node, F: seq<nat>)
    requires Stored(D, st) && i < |st.table| && OnlyInode(D, E, st, i)
    requires Chain(E, F) && Tabled(E) && Conserved(E, State(F, st.table[i := a]))
    requires forall j :: 0 <= j < InodeCount(D) ==> RecAt(E, j) == if j == i then rec else RecAt(D, j)
    requires Is(E, rec, a)
    ensures Stored(E, State(F, st.table[i := a]))
  {
    hide Is, Tree, Kids, Linked, Blocks, AllBlocks;
    var st' := State(F, st.table[i := a]);
    forall j | 0 <= j < |st'.table| ensures Is(E, RecAt(E, j), st'.table[j]) {
      if j != i {
        forall x: nat | Owns(st.table[j], x) && x < |D| ensures E[x] == D[x] {
          OneOwner(D, st, j, x);
        }
        IsFrame(D, E, RecAt(D, j), st.table[j]);
      }
    }
  }

  // ---- Counting ----

  function {:induction false} CountAll(table: seq<Node>): nat {
    if table == [] then 0
    else CountAll(table[..|table| - 1]) + |DataBlks(table[|table| - 1])| + |TreeNodes(table[|table| - 1])|
  }

  lemma {:induction false} CountAllBlocks(table: seq<Node>)
    ensures |AllBlocks(table)| == CountAll(table)
  {
    if table != [] { CountAllBlocks(table[..|table| - 1]); }
  }

  /** Every block of the data region is the sentinel, counted free, or owned by an inode. */
  lemma SpaceAccounted(D: seq<Block>, st: State)
    requires Stored(D, st)
    ensures D[0].sb.left + 1 + CountAll(st.table) == D[0].sb.freeSize
  {
    hide Is, Tree, Kids, Linked, RecAt;
    CountAllBlocks(st.table);
    RangeCounts(D[0].sb.freeStart, |D|, 0);
  }
}
