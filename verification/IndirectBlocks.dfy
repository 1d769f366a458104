/** Append and remove in one tree of indirect blocks. */
module IndirectBlocks {
  import opened Layout
  import opened Radix
  import opened Device
  import opened PointerTree

  method PowFanout(level: nat) returns (mod: nat)
    ensures mod == Cap(level)
  {
    mod := 1;
    for i := 0 to level
      invariant mod == Cap(i)
    {
      mod := mod * FANOUT;
    }
  }

  /** No tree at block no holds B. */
  ghost predicate NoTree(D: seq<Block>, h: nat, no: nat, B: seq<nat>) {
    forall Z: seq<nat> :: Distinct(Z) ==> !Tree(D, h, no, B, Z)
  }

  /** A node held in memory: its subtrees are on the device, the block no itself is ours. */
  ghost predicate Loaded(D: seq<Block>, h: nat, no: nat, nos: seq<nat>, B: seq<nat>, M: seq<nat>, G: seq<nat>)
    requires h > 0
  {
    Kids(D, h, nos, B, M) && Chain(D, G) && Separate(D, M, G) &&
    InRegion(D, no) && no !in M && no !in G
  }

  lemma OpenKid(D: seq<Block>, h: nat, no: nat, nos: seq<nat>, B: seq<nat>, M: seq<nat>, G: seq<nat>, q: nat)
    requires h > 0 && Loaded(D, h, no, nos, B, M, G) && q < FANOUT
    ensures Tree(D, h - 1, nos[q], KidBlocks(h, B, q), KidNodes(h, M, q))
    ensures Separate(D, KidNodes(h, M, q), G) && Chain(D, G) && |nos| == FANOUT && 0 < no < |D|
    ensures forall x :: x in KidNodes(h, M, q) ==> x in M
  {
    ChunkIn(M, q, Full(h - 1));
    ChunkDistinct(M, q, Full(h - 1));
  }

  lemma KidOf(D: seq<Block>, h: nat, no: nat, B: seq<nat>, N: seq<nat>, q: nat)
    requires h > 0 && B != [] && Tree(D, h, no, B, N) && q < FANOUT
    ensures no < |D| && D[no].Indirect? && |D[no].nos| == FANOUT && N != [] && N[0] == no
    ensures Tree(D, h - 1, D[no].nos[q], KidBlocks(h, B, q), KidNodes(h, N[1..], q))
  {
  }

  lemma OpenFresh(D: seq<Block>, E: seq<Block>, h: nat, F: seq<nat>)
    requires h > 0 && Chain(D, F) && |F| > 1 && Chain(E, F[1..]) && SameGeometry(D, E)
    ensures Loaded(E, h, F[0], Zeros(FANOUT), [], [], F[1..])
  {
    assert Linked(D, F, 0);
    KidsNone(E, h);
  }

  lemma OpenRead(D: seq<Block>, h: nat, no: nat, B: seq<nat>, N: seq<nat>, F: seq<nat>)
    requires h > 0 && Tree(D, h, no, B, N) && B != [] && Chain(D, F) && Separate(D, N, F)
    ensures no < |D| && D[no].Indirect? && Loaded(D, h, no, D[no].nos, B, N[1..], F)
    ensures N == [no] + N[1..]
  {
    var M := N[1..];
    assert N[0] in N && forall x :: x in M ==> x in N;
    assert forall i :: 0 <= i < |M| ==> M[i] == N[i + 1];
    assert no !in M;
  }

  // ---- Append ----

  /** What an append at index n of a tree with nodes N does to the device: it takes the
      blocks X off the free list F, which leaves F'. It succeeds exactly when the
      counter free_blks_left, which is |F| - 1, covers the nodes it needs. */
  ghost predicate Appended(D: seq<Block>, E: seq<Block>, h: nat, n: nat, no: nat, B: seq<nat>, N: seq<nat>, F: seq<nat>,
                           X: seq<nat>, F': seq<nat>)
  {
    F == X + F' && Chain(E, F') && OnlyTouches(D, E, N, X) &&
    if New(h, n) < |F| then |X| == New(h, n) && Tree(E, h, no, B, N + X)
    else |F'| == 1 && NoTree(E, h, no, B)
  }

  /** Between the halves of an append at index n: X was taken for the node, and the
      block goes to slot r of subtree q. */
  ghost predicate Opened(D: seq<Block>, E: seq<Block>, h: nat, n: nat, no: nat, nos: seq<nat>, B: seq<nat>, N: seq<nat>,
                         M: seq<nat>, F: seq<nat>, X: seq<nat>, G: seq<nat>, q: nat, r: nat)
    requires h > 0
  {
    Loaded(E, h, no, nos, B, M, G) && OnlyTouches(D, E, [], []) && At(h, B, M, q, r) &&
    F == X + G && N + X == [no] + M && New(h, n) == |X| + New(h - 1, r)
  }

  lemma OpenedKid(D: seq<Block>, E: seq<Block>, h: nat, n: nat, no: nat, nos: seq<nat>, B: seq<nat>, N: seq<nat>,
                  M: seq<nat>, F: seq<nat>, X: seq<nat>, G: seq<nat>, q: nat, r: nat)
    requires h > 0 && Opened(D, E, h, n, no, nos, B, N, M, F, X, G, q, r)
    ensures Tree(E, h - 1, nos[q], KidBlocks(h, B, q), KidNodes(h, M, q))
    ensures Separate(E, KidNodes(h, M, q), G) && Chain(E, G)
    ensures |nos| == FANOUT && no < |E| && q < FANOUT && |KidBlocks(h, B, q)| == r < Cap(h - 1)
  {
    OpenKid(E, h, no, nos, B, M, G, q);
    AtChunks(h, B, M, q, r);
  }

  /** The first half of an append at index n: the node is allocated when n is 0, read otherwise. */
  method OpenNode(d: Disk, h: nat, cur: nat, index: nat, ghost B: seq<nat>, ghost N: seq<nat>, ghost F: seq<nat>)
      returns (status: Status, no: nat, nos: seq<nat>, ghost M: seq<nat>, ghost X: seq<nat>, ghost G: seq<nat>,
               ghost q: nat, ghost r: nat)
    requires h > 0 && Chain(d.dev, F) && Tree(d.dev, h, cur, B, N) && Separate(d.dev, N, F)
    requires index == |B| < Cap(h)
    modifies d
    ensures status != OK ==> d.dev == old(d.dev) && index == 0 && |F| == 1
    ensures status == OK ==> Opened(old(d.dev), d.dev, h, index, no, nos, B, N, M, F, X, G, q, r)
    ensures q == index / Cap(h - 1) && r == index % Cap(h - 1) && (h == 1 ==> q == index && r == 0)
  {
    M := if B == [] then [] else N[1..];
    X, G := [], F;
    q, r := AtKids(h, B, M, index);
    status, no, nos := OK, cur, Zeros(FANOUT);
    if index == 0 {
      status, no := MallocBlk(d, F);
      if status == OK {
        X, G := [F[0]], F[1..];
        OpenFresh(old(d.dev), d.dev, h, F);
      }
    } else {
      var b := d.ReadBlk(cur);
      nos := b.nos;
      OpenRead(d.dev, h, cur, B, N, F);
    }
  }

  lemma AppendNodeFrame(D: seq<Block>, D2: seq<Block>, E: seq<Block>, h: nat, no: nat, nos: seq<nat>, q: nat, b: Block,
                        B: seq<nat>, M: seq<nat>, G: seq<nat>, X: seq<nat>, F': seq<nat>)
    requires h > 0 && Loaded(D, h, no, nos, B, M, G) && q < FANOUT && G == X + F'
    requires Chain(D2, F') && OnlyTouches(D, D2, KidNodes(h, M, q), X) && no < |D2| && E == D2[no := b]
    ensures Chain(E, F') && OnlyTouches(D, E, [no] + M, X)
  {
    OpenKid(D, h, no, nos, B, M, G, q);
    ChainFrame(D2, E, F');
  }

  lemma AppendNodeHolds(D: seq<Block>, D2: seq<Block>, E: seq<Block>, h: nat, no: nat, nos: seq<nat>, q: nat, r: nat,
                        kid: nat, b: nat, B: seq<nat>, M: seq<nat>, G: seq<nat>, X: seq<nat>, F': seq<nat>)
    requires h > 0 && Loaded(D, h, no, nos, B, M, G) && At(h, B, M, q, r) && G == X + F' && |X| == New(h - 1, r)
    requires OnlyTouches(D, D2, KidNodes(h, M, q), X) && no < |D2| && E == D2[no := Indirect(nos[q := kid])]
    requires Tree(D2, h - 1, kid, KidBlocks(h, B, q) + [b], KidNodes(h, M, q) + X)
    ensures Tree(E, h, no, B + [b], [no] + M + X)
  {
    OpenKid(D, h, no, nos, B, M, G, q);
    TreeFrame(D2, E, h - 1, kid, KidBlocks(h, B, q) + [b], KidNodes(h, M, q) + X);
    KidsAppend(D, E, h, nos, q, r, kid, B, M, b, X);
    assert ([no] + M + X)[1..] == M + X;
  }

  lemma AppendNodeFails(D2: seq<Block>, E: seq<Block>, h: nat, no: nat, nos: seq<nat>, q: nat, r: nat, kid: nat, b: nat,
                        B: seq<nat>, M: seq<nat>)
    requires h > 0 && At(h, B, M, q, r) && no < |D2| && |nos| == FANOUT && E == D2[no := Indirect(nos[q := kid])]
    requires NoTree(D2, h - 1, kid, KidBlocks(h, B, q) + [b])
    ensures NoTree(E, h, no, B + [b])
  {
    TimesStep(q, FANOUT, Cap(h - 1));
    TimesIs(FANOUT, Cap(h - 1));
    ChunkGrow(B, [b], q, Cap(h - 1), q);
    forall Z: seq<nat> | Distinct(Z) ensures !Tree(E, h, no, B + [b], Z) {
      if Tree(E, h, no, B + [b], Z) {
        var Y := KidNodes(h, Z[1..], q);
        ChunkIn(Z[1..], q, Full(h - 1));
        ChunkDistinct(Z[1..], q, Full(h - 1));
        KidOf(E, h, no, B + [b], Z, q);
        TreeFrame(E, D2, h - 1, kid, KidBlocks(h, B, q) + [b], Y);
        assert false;
      }
    }
  }

  /** The second half: the node goes back with its q-th entry replaced. */
  lemma AppendNode(D: seq<Block>, D2: seq<Block>, E: seq<Block>, h: nat, no: nat, nos: seq<nat>, q: nat, r: nat,
                   kid: nat, b: nat, B: seq<nat>, M: seq<nat>, G: seq<nat>, X: seq<nat>, F': seq<nat>)
    requires h > 0 && Loaded(D, h, no, nos, B, M, G) && At(h, B, M, q, r)
    requires Appended(D, D2, h - 1, r, kid, KidBlocks(h, B, q) + [b], KidNodes(h, M, q), G, X, F')
    requires no < |D2| && |nos| == FANOUT && E == D2[no := Indirect(nos[q := kid])]
    ensures G == X + F' && Chain(E, F') && OnlyTouches(D, E, [no] + M, X)
    ensures if New(h - 1, r) < |G| then |X| == New(h - 1, r) && Tree(E, h, no, B + [b], [no] + M + X)
            else |F'| == 1 && NoTree(E, h, no, B + [b])
  {
    AppendNodeFrame(D, D2, E, h, no, nos, q, E[no], B, M, G, X, F');
    if New(h - 1, r) < |G| {
      AppendNodeHolds(D, D2, E, h, no, nos, q, r, kid, b, B, M, G, X, F');
    } else {
      AppendNodeFails(D2, E, h, no, nos, q, r, kid, b, B, M);
    }
  }

  /** Both halves together: the blocks taken are those of opening, then those of the subtree. */
  lemma FinishAppend(D0: seq<Block>, D: seq<Block>, D2: seq<Block>, E: seq<Block>, h: nat, n: nat, no: nat,
                     nos: seq<nat>, q: nat, r: nat, kid: nat, b: nat, B: seq<nat>, N: seq<nat>, M: seq<nat>,
                     F: seq<nat>, G: seq<nat>, X: seq<nat>, Y: seq<nat>, F': seq<nat>)
    requires h > 0 && Opened(D0, D, h, n, no, nos, B, N, M, F, X, G, q, r)
    requires Appended(D, D2, h - 1, r, kid, KidBlocks(h, B, q) + [b], KidNodes(h, M, q), G, Y, F')
    requires no < |D2| && q < |nos| && E == D2[no := Indirect(nos[q := kid])]
    ensures Appended(D0, E, h, n, no, B + [b], N, F, X + Y, F')
  {
    AppendNode(D, D2, E, h, no, nos, q, r, kid, b, B, M, G, Y, F');
    assert N + (X + Y) == [no] + M + Y;
    assert X + (Y + F') == (X + Y) + F';
    forall x | 0 < x < |D0| && x !in N && x !in X + Y ensures E[x] == D0[x] {
      assert x !in N + X;
    }
  }

  lemma LeafAppended(D: seq<Block>, h: nat, r: nat, b: nat, B: seq<nat>, N: seq<nat>, G: seq<nat>)
    requires Chain(D, G) && h == 0 && B == [] && N == []
    ensures Appended(D, D, h, r, b, B + [b], N, G, [], G)
  {
    assert [] + G == G && B + [b] == [b];
  }

  lemma LeafKid(h: nat, B: seq<nat>, M: seq<nat>, q: nat)
    requires h == 1
    ensures Cap(h - 1) == 1 && KidNodes(h, M, q) == []
  {
  }

  /** In a node of height 1 the entry is the data block itself. */
  lemma FinishLeafAppend(D0: seq<Block>, D: seq<Block>, E: seq<Block>, h: nat, n: nat, no: nat, nos: seq<nat>, r: nat,
                         b: nat, B: seq<nat>, N: seq<nat>, M: seq<nat>, F: seq<nat>, G: seq<nat>, X: seq<nat>)
    requires h == 1 && Opened(D0, D, h, n, no, nos, B, N, M, F, X, G, n, r)
    requires no < |D| && n < |nos| && E == D[no := Indirect(nos[n := b])]
    ensures Appended(D0, E, h, n, no, B + [b], N, F, X, G)
  {
    hide *;
    OpenedKid(D0, D, h, n, no, nos, B, N, M, F, X, G, n, r);
    LeafKid(h, B, M, n);
    LeafAppended(D, h - 1, r, b, KidBlocks(h, B, n), KidNodes(h, M, n), G);
    assert X + [] == X;
    FinishAppend(D0, D, D, E, h, n, no, nos, n, r, b, b, B, N, M, F, G, X, [], G);
  }

  /** No block could be allocated for the root. */
  lemma NothingAppended(D: seq<Block>, h: nat, n: nat, B: seq<nat>, N: seq<nat>, F: seq<nat>)
    requires h > 0 && n == 0 && Chain(D, F) && |F| == 1 && B != []
    ensures Appended(D, D, h, n, 0, B, N, F, [], F)
  {
    assert [] + F == F;
  }

  method RecursiveAppendDblk(d: Disk, level: nat, cur: nat, index: nat, blk: nat, ghost B: seq<nat>, ghost N: seq<nat>,
                             ghost F: seq<nat>)
      returns (no: nat, ghost X: seq<nat>, ghost F': seq<nat>)
    requires Chain(d.dev, F) && Tree(d.dev, level + 1, cur, B, N) && Separate(d.dev, N, F)
    requires index == |B| < Cap(level + 1)
    modifies d
    ensures Appended(old(d.dev), d.dev, level + 1, index, no, B + [blk], N, F, X, F')
    decreases level
  {
    hide *;
    ghost var h, D := level + 1, d.dev;
    var status, nos;
    ghost var M, G, q, r, Y;
    status, no, nos, M, X, G, q, r := OpenNode(d, level + 1, cur, index, B, N, F);
    if status != OK {
      NothingAppended(D, h, index, B + [blk], N, F);
      return 0, [], F;
    }
    ghost var D1, nos1 := d.dev, nos;
    OpenedKid(D, D1, h, index, no, nos, B, N, M, F, X, G, q, r);
    if level == 0 {
      nos := nos[index := blk];
      d.WriteBlk(no, Indirect(nos));
      FinishLeafAppend(D, D1, d.dev, h, index, no, nos1, r, blk, B, N, M, F, G, X);
      F' := G;
    } else {
      var mod := PowFanout(level);
      var kid;
      kid, Y, F' := RecursiveAppendDblk(d, level - 1, nos[index / mod], index % mod, blk,
                                        KidBlocks(h, B, q), KidNodes(h, M, q), G);
      ghost var D2 := d.dev;
      nos := nos[index / mod := kid];
      AppendedSize(D1, D2, h - 1, r, kid, KidBlocks(h, B, q) + [blk], KidNodes(h, M, q), G, Y, F');
      d.WriteBlk(no, Indirect(nos));
      FinishAppend(D, D1, D2, d.dev, h, index, no, nos1, q, r, kid, blk, B, N, M, F, G, X, Y, F');
      X := X + Y;
    }
  }

  lemma AppendedSize(D: seq<Block>, E: seq<Block>, h: nat, n: nat, no: nat, B: seq<nat>, N: seq<nat>, F: seq<nat>,
                     X: seq<nat>, F': seq<nat>)
    requires Appended(D, E, h, n, no, B, N, F, X, F')
    ensures |E| == |D|
  {
  }

  // ---- Remove ----

  /** Removing the last block from a tree that held B + [b] with nodes N + X: the nodes X
      go back to the free list in the order in which the append took them. */
  ghost predicate Removed(D: seq<Block>, E: seq<Block>, h: nat, no: nat, B: seq<nat>, N: seq<nat>, X: seq<nat>,
                          F: seq<nat>)
  {
    Chain(E, X + F) && OnlyTouches(D, E, N + X, []) && Tree(E, h, if B == [] then 0 else no, B, N)
  }

  ghost predicate Removable(D: seq<Block>, h: nat, no: nat, B: seq<nat>, b: nat, N: seq<nat>, X: seq<nat>, F: seq<nat>)
  {
    Tree(D, h, no, B + [b], N + X) && |X| == New(h, |B|) && Chain(D, F) && Separate(D, N + X, F)
  }

  /** The root of a tree about to shrink, and the path to its last block. */
  ghost predicate RemoveAt(D: seq<Block>, h: nat, no: nat, B: seq<nat>, b: nat, N: seq<nat>, X: seq<nat>, F: seq<nat>,
                           M: seq<nat>, Y: seq<nat>, q: nat, r: nat)
    requires h > 0
  {
    no < |D| && D[no].Indirect? && Loaded(D, h, no, D[no].nos, B + [b], M + Y, F) &&
    At(h, B, M, q, r) && |Y| == New(h - 1, r) && N + X == [no] + M + Y &&
    if B == [] then N == [] == M && X == [no] + Y else N == [no] + M && X == Y
  }

  /** Taking the root off N + X. */
  lemma RootFirst(h: nat, no: nat, B: seq<nat>, N: seq<nat>, X: seq<nat>)
      returns (M: seq<nat>, Y: seq<nat>, q: nat, r: nat)
    requires h > 0 && |B| < Cap(h) && |N| == Ind(h, |B|) && |X| == New(h, |B|)
    requires N + X != [] && (N + X)[0] == no
    ensures At(h, B, M, q, r) && |Y| == New(h - 1, r) && N + X == [no] + M + Y
    ensures if B == [] then N == [] == M && X == [no] + Y else N == [no] + M && X == Y
    ensures q == |B| / Cap(h - 1) && r == |B| % Cap(h - 1) && (h == 1 ==> q == |B| && r == 0)
  {
    if B == [] { M, Y := [], X[1..]; } else { M, Y := N[1..], X; }
    q, r := AtKids(h, B, M, |B|);
  }

  lemma RemovePath(D: seq<Block>, h: nat, no: nat, B: seq<nat>, b: nat, N: seq<nat>, X: seq<nat>, F: seq<nat>)
      returns (M: seq<nat>, Y: seq<nat>, q: nat, r: nat)
    requires h > 0 && Removable(D, h, no, B, b, N, X, F)
    ensures RemoveAt(D, h, no, B, b, N, X, F, M, Y, q, r)
    ensures q == |B| / Cap(h - 1) < FANOUT && r == |B| % Cap(h - 1)
    ensures h == 1 ==> q == |B| && r == 0
    ensures no < |D| && D[no].Indirect? && |D[no].nos| == FANOUT
    ensures Removable(D, h - 1, D[no].nos[q], KidBlocks(h, B, q), b, KidNodes(h, M, q), Y, F)
    ensures r == |KidBlocks(h, B, q)| && InRegion(D, no)
  {
    OpenRead(D, h, no, B + [b], N + X, F);
    TreeSize(D, h, no, B + [b], N + X);
    IndStep(h, |B|);
    M, Y, q, r := RootFirst(h, no, B, N, X);
    assert (N + X)[1..] == M + Y by { assert ([no] + M + Y)[1..] == M + Y; }
    hide *;
    RemoveKid(D, h, no, B, b, F, M, Y, q, r);
  }

  lemma RemoveKid(D: seq<Block>, h: nat, no: nat, B: seq<nat>, b: nat, F: seq<nat>, M: seq<nat>, Y: seq<nat>, q: nat,
                  r: nat)
    requires h > 0 && no < |D| && D[no].Indirect? && Loaded(D, h, no, D[no].nos, B + [b], M + Y, F)
    requires At(h, B, M, q, r) && |Y| == New(h - 1, r)
    ensures |D[no].nos| == FANOUT && q < FANOUT && r == |KidBlocks(h, B, q)| && Geometry(D) && InRegion(D, no)
    ensures Removable(D, h - 1, D[no].nos[q], KidBlocks(h, B, q), b, KidNodes(h, M, q), Y, F)
  {
    AtChunks(h, B, M, q, r);
    GrowKids(h, B, M, q, r, b, Y);
    OpenKid(D, h, no, D[no].nos, B + [b], M + Y, F, q);
  }

  lemma RemoveNodeFrame(D: seq<Block>, D2: seq<Block>, E: seq<Block>, h: nat, no: nat, nos: seq<nat>, q: nat, b: Block,
                        B: seq<nat>, M: seq<nat>, Y: seq<nat>, F: seq<nat>)
    requires h > 0 && Loaded(D, h, no, nos, B, M + Y, F) && q < FANOUT
    requires Chain(D2, Y + F) && OnlyTouches(D, D2, KidNodes(h, M, q) + Y, []) && no < |D2| && E == D2[no := b]
    ensures Chain(E, Y + F) && OnlyTouches(D, E, [no] + M + Y, [])
    ensures forall x :: x in M && x < |D| && x !in KidNodes(h, M, q) && x !in Y ==> E[x] == D[x]
  {
    assert forall x :: x in M ==> x in M + Y;
    ChunkIn(M, q, Full(h - 1));
    ChainFrame(D2, E, Y + F);
  }

  lemma RemoveNodeHolds(D: seq<Block>, D2: seq<Block>, E: seq<Block>, h: nat, no: nat, nos: seq<nat>, q: nat, r: nat,
                        kid: nat, B: seq<nat>, b: nat, M: seq<nat>, Y: seq<nat>, F: seq<nat>)
    requires h > 0 && B != [] && Loaded(D, h, no, nos, B + [b], M + Y, F) && At(h, B, M, q, r) && |Y| == New(h - 1, r)
    requires Tree(D2, h - 1, kid, KidBlocks(h, B, q), KidNodes(h, M, q))
    requires |D2| == |D| && no < |D2| && E == D2[no := Indirect(nos[q := kid])]
    requires forall x :: x in M && x < |D| && x !in KidNodes(h, M, q) && x !in Y ==> E[x] == D[x]
    ensures Tree(E, h, no, B, [no] + M)
  {
    GrowKids(h, B, M, q, r, b, Y);
    ChunkIn(M, q, Full(h - 1));
    TreeFrame(D2, E, h - 1, kid, KidBlocks(h, B, q), KidNodes(h, M, q));
    KidsRemove(D, E, h, nos, q, r, kid, B, M, b, Y);
    assert ([no] + M)[1..] == M;
  }

  /** The node keeps its other entries and goes back with its q-th entry replaced. */
  lemma RemoveNode(D: seq<Block>, D2: seq<Block>, E: seq<Block>, h: nat, no: nat, q: nat, r: nat, kid: nat, B: seq<nat>,
                   b: nat, N: seq<nat>, X: seq<nat>, F: seq<nat>, M: seq<nat>, Y: seq<nat>)
    requires h > 0 && B != [] && RemoveAt(D, h, no, B, b, N, X, F, M, Y, q, r)
    requires kid == if r == 0 then 0 else D[no].nos[q]
    requires Removed(D, D2, h - 1, D[no].nos[q], KidBlocks(h, B, q), KidNodes(h, M, q), Y, F)
    requires |D2| == |D| && no < |D2| && E == D2[no := Indirect(D[no].nos[q := kid])]
    ensures Removed(D, E, h, no, B, N, X, F)
  {
    AtChunks(h, B, M, q, r);
    RemoveNodeFrame(D, D2, E, h, no, D[no].nos, q, E[no], B + [b], M, Y, F);
    RemoveNodeHolds(D, D2, E, h, no, D[no].nos, q, r, kid, B, b, M, Y, F);
  }

  /** The node itself does not change when its subtree keeps its root. */
  lemma RemoveInside(D: seq<Block>, D2: seq<Block>, h: nat, no: nat, q: nat, r: nat, B: seq<nat>, b: nat, N: seq<nat>,
                     X: seq<nat>, F: seq<nat>, M: seq<nat>, Y: seq<nat>)
    requires h > 0 && r > 0 && RemoveAt(D, h, no, B, b, N, X, F, M, Y, q, r)
    requires Removed(D, D2, h - 1, D[no].nos[q], KidBlocks(h, B, q), KidNodes(h, M, q), Y, F)
    requires |D2| == |D| && D2[no] == D[no]
    ensures Removed(D, D2, h, no, B, N, X, F)
  {
    var nos := D[no].nos;
    assert nos[q := nos[q]] == nos && D2[no] == Indirect(nos);
    RemoveNode(D, D2, D2, h, no, q, r, nos[q], B, b, N, X, F, M, Y);
  }

  /** The node had nothing left and was freed. */
  lemma RemoveRoot(D: seq<Block>, D2: seq<Block>, E: seq<Block>, h: nat, no: nat, q: nat, r: nat, B: seq<nat>, b: nat,
                   N: seq<nat>, X: seq<nat>, F: seq<nat>, M: seq<nat>, Y: seq<nat>)
    requires h > 0 && B == [] && RemoveAt(D, h, no, B, b, N, X, F, M, Y, q, r)
    requires OnlyTouches(D, D2, KidNodes(h, M, q) + Y, [])
    requires Chain(E, [no] + (Y + F)) && OnlyTouches(D2, E, [no], [])
    ensures Removed(D, E, h, no, B, N, X, F)
  {
    assert [no] + (Y + F) == X + F;
    ChunkIn(M, q, Full(h - 1));
    forall x | 0 < x < |D| && x !in N + X ensures E[x] == D[x] {
      assert x !in [no] + Y && x !in KidNodes(h, M, q);
    }
  }

  lemma RemovedKid(D: seq<Block>, D2: seq<Block>, h: nat, no: nat, q: nat, r: nat, B: seq<nat>, b: nat, N: seq<nat>,
                   X: seq<nat>, F: seq<nat>, M: seq<nat>, Y: seq<nat>)
    requires h > 0 && RemoveAt(D, h, no, B, b, N, X, F, M, Y, q, r)
    requires Removed(D, D2, h - 1, D[no].nos[q], KidBlocks(h, B, q), KidNodes(h, M, q), Y, F)
    ensures |D2| == |D| && Chain(D2, Y + F) && Geometry(D2) && InRegion(D2, no) && no !in Y + F
    ensures OnlyTouches(D, D2, KidNodes(h, M, q) + Y, [])
    ensures D2[no] == D[no]
  {
    ChunkIn(M, q, Full(h - 1));
    assert forall x :: x in Y || x in M ==> x in M + Y;
  }

  /** Below a node of height 1 there is nothing to do but to read the entry. */
  lemma RemoveLeaf(D: seq<Block>, h: nat, no: nat, q: nat, r: nat, B: seq<nat>, b: nat, N: seq<nat>, X: seq<nat>,
                   F: seq<nat>, M: seq<nat>, Y: seq<nat>)
    requires h == 1 && RemoveAt(D, h, no, B, b, N, X, F, M, Y, q, r)
    requires Removable(D, h - 1, D[no].nos[q], KidBlocks(h, B, q), b, KidNodes(h, M, q), Y, F)
    requires KidBlocks(h, B, q) == []
    ensures D[no].nos[q] == b && Y == [] && Y + F == F
    ensures Removed(D, D, h - 1, D[no].nos[q], KidBlocks(h, B, q), KidNodes(h, M, q), Y, F)
  {
    assert (KidBlocks(h, B, q) + [b])[0] == b;
    assert Y == [] && KidNodes(h, M, q) == [];
  }

  method RecursiveRemoveDblk(d: Disk, level: nat, cur: nat, index: nat, ghost B: seq<nat>, ghost b: nat,
                             ghost N: seq<nat>, ghost X: seq<nat>, ghost F: seq<nat>) returns (blk: nat, free: bool)
    requires Removable(d.dev, level + 1, cur, B, b, N, X, F) && index == |B|
    modifies d
    ensures blk == b && free == (index == 0)
    ensures Removed(old(d.dev), d.dev, level + 1, cur, B, N, X, F)
    decreases level
  {
    hide *;
    ghost var h, D := level + 1, d.dev;
    ghost var M, Y, q, r := RemovePath(D, h, cur, B, b, N, X, F);
    var node := d.ReadBlk(cur);
    var nos := node.nos;
    if level == 0 {
      blk := nos[index];
      RemoveLeaf(D, h, cur, q, r, B, b, N, X, F, M, Y);
      RemovedKid(D, D, h, cur, q, r, B, b, N, X, F, M, Y);
      if index == 0 {
        FreeBlock(d, cur, F);
        RemoveRoot(D, D, d.dev, h, cur, q, r, B, b, N, X, F, M, Y);
        return blk, true;
      }
      nos := nos[index := 0];
      d.WriteBlk(cur, Indirect(nos));
      RemoveNode(D, D, d.dev, h, cur, q, r, 0, B, b, N, X, F, M, Y);
      return blk, false;
    }
    var mod := PowFanout(level);
    blk, free := RecursiveRemoveDblk(d, level - 1, nos[index / mod], index % mod,
                                     KidBlocks(h, B, q), b, KidNodes(h, M, q), Y, F);
    ghost var D2 := d.dev;
    RemovedKid(D, D2, h, cur, q, r, B, b, N, X, F, M, Y);
    if free {
      if index == 0 {
        FreeBlock(d, cur, Y + F);
        RemoveRoot(D, D2, d.dev, h, cur, q, r, B, b, N, X, F, M, Y);
        return blk, true;
      }
      nos := nos[index / mod := 0];
      d.WriteBlk(cur, Indirect(nos));
      RemoveNode(D, D2, d.dev, h, cur, q, r, 0, B, b, N, X, F, M, Y);
    } else {
      RemoveInside(D, D2, h, cur, q, r, B, b, N, X, F, M, Y);
    }
    free := false;
  }
}
