/**
 * Two ways of freeing a file: remove_file follows the non-zero entries of the pointer
 * trees, truncate_file walks the indexes of the data blocks and leaves the indirect
 * blocks to remove_dblks. Both free every data block and every indirect block once.
 */
module FreeFile {
  import opened Layout
  import opened Radix
  import opened Device
  import opened PointerTree
  import opened INode
  import opened DataBlockIterator
  import opened BulkRemove

  /** The children before i of an open node are freed, with all that is below them. */
  ghost predicate Walked(D: seq<Block>, E: seq<Block>, h: nat, B: seq<nat>, M: seq<nat>, i: nat, P: seq<nat>,
                         F: seq<nat>)
    requires h > 0
  {
    Freed(D, E, P, F) &&
    multiset(P) == multiset(Before(B, i, Cap(h - 1))) + multiset(Before(M, i, Full(h - 1)))
  }

  /** A tree ready to be freed. */
  ghost predicate Ready(D: seq<Block>, h: nat, no: nat, B: seq<nat>, N: seq<nat>, F: seq<nat>) {
    Tree(D, h, no, B, N) && Chain(D, F) && Separate(D, B + N, F)
  }

  ghost predicate ReadyKids(D: seq<Block>, h: nat, nos: seq<nat>, B: seq<nat>, M: seq<nat>, F: seq<nat>)
    requires h > 0
  {
    Kids(D, h, nos, B, M) && Chain(D, F) && Separate(D, B + M, F)
  }

  /** Exactly the blocks of B and N were freed, each once. */
  ghost predicate AllFreed(D: seq<Block>, E: seq<Block>, B: seq<nat>, N: seq<nat>, P: seq<nat>, F: seq<nat>) {
    Freed(D, E, P, F) && multiset(P) == multiset(B) + multiset(N)
  }

  lemma RegionLow(D: seq<Block>, no: nat)
    requires Geometry(D) && InRegion(D, no)
    ensures no > 1 + RESERVED_SPACE
  {
  }

  /** Every root is in the data region, or 0 when there is no tree. */
  lemma ReadyRoot(D: seq<Block>, h: nat, no: nat, B: seq<nat>, N: seq<nat>, F: seq<nat>)
    requires Ready(D, h, no, B, N, F)
    ensures no <= 1 + RESERVED_SPACE <==> B == []
    ensures no < 1 + RESERVED_SPACE <==> B == []
    ensures B == [] ==> N == [] && AllFreed(D, D, B, N, [], F)
    ensures B != [] ==> Geometry(D) && InRegion(D, no) && no !in F
    ensures B != [] && h == 0 ==> B == [no] && N == []
    ensures B != [] && h > 0 ==> no < |D| && D[no].Indirect? && N != [] && N[0] == no
    ensures B != [] && h > 0 ==> ReadyKids(D, h, D[no].nos, B, N[1..], F)
  {
    hide Kids, Linked;
    assert [] + F == F;
    var S := B + N;
    if B != [] {
      assert no in S by {
        if h == 0 { assert S[0] == no; } else { assert S[|B|] == no; }
      }
      RegionLow(D, no);
      if h > 0 {
        var T := B + N[1..];
        assert forall x :: x in T ==> x in S;
        DistinctParts(B, N);
        assert N == [N[0]] + N[1..];
        DistinctParts([N[0]], N[1..]);
        assert forall x :: x in N[1..] ==> x in N;
        DistinctConcat(B, N[1..]);
      }
    }
  }

  lemma WalkKid(D: seq<Block>, E: seq<Block>, h: nat, nos: seq<nat>, B: seq<nat>, M: seq<nat>, i: nat, P: seq<nat>,
                F: seq<nat>)
    requires h > 0 && ReadyKids(D, h, nos, B, M, F) && Walked(D, E, h, B, M, i, P, F) && i < FANOUT
    ensures |nos| == FANOUT
    ensures Ready(E, h - 1, nos[i], KidBlocks(h, B, i), KidNodes(h, M, i), P + F)
  {
    hide Linked, Ind, Cap, Full;
    var KB, KM := KidBlocks(h, B, i), KidNodes(h, M, i);
    DistinctParts(B, M);
    WalkedMembers(D, E, h, B, M, i, P, F);
    KidApart(B, M, i, Cap(h - 1), Full(h - 1));
    assert forall x :: x in KB + KM ==> x in B + M;
    forall x | x in KM && x < |D| ensures E[x] == D[x] {
      assert x in B + M && InRegion(D, x) && x !in P;
    }
    TreeFrame(D, E, h - 1, nos[i], KB, KM);
    assert Separate(E, KB + KM, P + F);
  }

  lemma WalkedMembers(D: seq<Block>, E: seq<Block>, h: nat, B: seq<nat>, M: seq<nat>, i: nat, P: seq<nat>, F: seq<nat>)
    requires h > 0 && Walked(D, E, h, B, M, i, P, F)
    ensures forall x :: x in P ==> x in Before(B, i, Cap(h - 1)) || x in Before(M, i, Full(h - 1))
  {
    hide Freed;
    forall x | x in P ensures x in Before(B, i, Cap(h - 1)) || x in Before(M, i, Full(h - 1)) {
      assert x in multiset(P);
    }
  }

  lemma KidApart(B: seq<nat>, M: seq<nat>, i: nat, c: nat, f: nat)
    requires Distinct(B) && Distinct(M) && Apart(B, M)
    ensures Distinct(Chunk(B, i, c) + Chunk(M, i, f))
    ensures forall x :: x in Chunk(B, i, c) ==> x in B && x !in Before(B, i, c) && x !in Before(M, i, f)
    ensures forall x :: x in Chunk(M, i, f) ==> x in M && x !in Before(B, i, c) && x !in Before(M, i, f)
  {
    BeforeApart(B, i, c);
    BeforeApart(M, i, f);
    ChunkIn(B, i, c);
    ChunkIn(M, i, f);
    assert forall x :: x in Before(B, i, c) ==> x in B;
    assert forall x :: x in Before(M, i, f) ==> x in M;
    ChunkDistinct(B, i, c);
    ChunkDistinct(M, i, f);
    DistinctConcat(Chunk(B, i, c), Chunk(M, i, f));
  }

  lemma WalkedStep(D: seq<Block>, E: seq<Block>, E2: seq<Block>, h: nat, B: seq<nat>, M: seq<nat>, i: nat, P: seq<nat>,
                   Q: seq<nat>, F: seq<nat>)
    requires h > 0 && Walked(D, E, h, B, M, i, P, F)
    requires AllFreed(E, E2, KidBlocks(h, B, i), KidNodes(h, M, i), Q, P + F)
    ensures Walked(D, E2, h, B, M, i + 1, Q + P, F)
  {
    hide Chain, Cap, Full, Before, Chunk;
    BeforeStep(B, i, Cap(h - 1));
    BeforeStep(M, i, Full(h - 1));
    assert Q + P + F == Q + (P + F);
  }

  /** Freeing the node itself after all that is below it. */
  lemma RootFreed(D: seq<Block>, E: seq<Block>, E2: seq<Block>, no: nat, B: seq<nat>, N: seq<nat>, Q: seq<nat>,
                  F: seq<nat>)
    requires N != [] && N[0] == no && AllFreed(D, E, B, N[1..], Q, F)
    requires Chain(E2, [no] + (Q + F)) && OnlyTouches(E, E2, [no], [])
    ensures AllFreed(D, E2, B, N, [no] + Q, F)
  {
    hide Chain;
    assert N == [no] + N[1..];
    assert [no] + Q + F == [no] + (Q + F);
  }

  lemma RootStillOurs(D: seq<Block>, E: seq<Block>, h: nat, no: nat, B: seq<nat>, N: seq<nat>, Q: seq<nat>, F: seq<nat>)
    requires h > 0 && Ready(D, h, no, B, N, F) && B != [] && N != [] && N[0] == no && AllFreed(D, E, B, N[1..], Q, F)
    ensures Chain(E, Q + F) && Geometry(E) && InRegion(E, no) && no !in Q + F
  {
    hide Kids, Linked;
    var S := B + N;
    assert S[|B|] == no && no in S;
    DistinctParts(B, N);
    assert N == [no] + N[1..];
    DistinctParts([no], N[1..]);
    assert no !in B && no !in N[1..];
    if no in Q {
      InMultiset(Q, B, N[1..], no);
    }
  }

  lemma InMultiset(Q: seq<nat>, B: seq<nat>, N: seq<nat>, x: nat)
    requires multiset(Q) == multiset(B) + multiset(N) && x in Q
    ensures x in B || x in N
  {
    assert x in multiset(Q);
  }

  lemma LeafFreed(D: seq<Block>, E: seq<Block>, no: nat, B: seq<nat>, N: seq<nat>, F: seq<nat>)
    requires B == [no] && N == [] && Chain(E, [no] + F) && OnlyTouches(D, E, [no], [])
    ensures AllFreed(D, E, B, N, [no], F)
  {
  }

  lemma WalkedStart(D: seq<Block>, h: nat, nos: seq<nat>, B: seq<nat>, M: seq<nat>, F: seq<nat>)
    requires h > 0 && ReadyKids(D, h, nos, B, M, F)
    ensures Walked(D, D, h, B, M, 0, [], F) && |nos| == FANOUT
  {
    hide Linked, Tree;
    assert [] + F == F;
    assert Before(B, 0, Cap(h - 1)) == [] && Before(M, 0, Full(h - 1)) == [];
  }

  lemma WalkedEnd(D: seq<Block>, E: seq<Block>, h: nat, nos: seq<nat>, B: seq<nat>, M: seq<nat>, P: seq<nat>,
                  F: seq<nat>)
    requires h > 0 && ReadyKids(D, h, nos, B, M, F) && Walked(D, E, h, B, M, FANOUT, P, F)
    ensures AllFreed(D, E, B, M, P, F)
  {
    hide Chain, Tree, Separate;
    IndAtMostFull(h, |B|);
    TimesIs(FANOUT, Cap(h - 1));
    TimesIs(FANOUT, Full(h - 1));
    assert Before(B, FANOUT, Cap(h - 1)) == B && Before(M, FANOUT, Full(h - 1)) == M;
  }

  /** __free_indirect_blk, __free_double_indirect_blk and __free_triple_indirect_blk, which
      are the same walk at level 0, 1 and 2. */
  method FreeIndirectBlk(d: Disk, level: nat, nos: seq<nat>, ghost B: seq<nat>, ghost M: seq<nat>, ghost F: seq<nat>)
      returns (ghost P: seq<nat>)
    requires ReadyKids(d.dev, level + 1, nos, B, M, F)
    modifies d
    ensures AllFreed(old(d.dev), d.dev, B, M, P, F)
    decreases level
  {
    hide *;
    ghost var h, D := level + 1, d.dev;
    P := [];
    WalkedStart(D, h, nos, B, M, F);
    for i := 0 to FANOUT
      invariant Walked(D, d.dev, h, B, M, i, P, F)
    {
      ghost var E := d.dev;
      ghost var KB, KM, Q: seq<nat> := KidBlocks(h, B, i), KidNodes(h, M, i), [];
      WalkKid(D, E, h, nos, B, M, i, P, F);
      ReadyRoot(E, h - 1, nos[i], KB, KM, P + F);
      if nos[i] > 1 + RESERVED_SPACE {
        if level > 0 {
          var kid := d.ReadBlk(nos[i]);
          Q := FreeIndirectBlk(d, level - 1, kid.nos, KB, KM[1..], P + F);
          RootStillOurs(E, d.dev, h - 1, nos[i], KB, KM, Q, P + F);
          ghost var E1 := d.dev;
          FreeBlock(d, nos[i], Q + (P + F));
          RootFreed(E, E1, d.dev, nos[i], KB, KM, Q, P + F);
          Q := [nos[i]] + Q;
        } else {
          WalkedChain(D, E, h, B, M, i, P, F);
          FreeBlock(d, nos[i], P + F);
          LeafFreed(E, d.dev, nos[i], KB, KM, P + F);
          Q := [nos[i]];
        }
      }
      WalkedStep(D, E, d.dev, h, B, M, i, P, Q, F);
      P := Q + P;
    }
    WalkedEnd(D, d.dev, h, nos, B, M, P, F);
  }

  lemma WalkedChain(D: seq<Block>, E: seq<Block>, h: nat, B: seq<nat>, M: seq<nat>, i: nat, P: seq<nat>, F: seq<nat>)
    requires h > 0 && Walked(D, E, h, B, M, i, P, F)
    ensures Chain(E, P + F)
  {
  }

  // ---- remove_file ----

  /** The trees of height k + 1 and more are freed. */
  ghost predicate ArmsFreed(D: seq<Block>, E: seq<Block>, B: seq<nat>, N: seq<nat>, k: nat, P: seq<nat>, F: seq<nat>) {
    Freed(D, E, P, F) &&
    multiset(P) == multiset(B[Min(Lo(k + 1), |B|)..]) + multiset(N[Min(NodeLo(k + 1), |N|)..])
  }

  lemma ArmsStart(D: seq<Block>, ino: InodeRec, B: seq<nat>, N: seq<nat>, F: seq<nat>)
    requires Holds(D, ino, B, N) && Chain(D, F)
    ensures ArmsFreed(D, D, B, N, 3, [], F)
  {
    hide Tree, Kids, Linked, Lo;
    OverheadMax(3, |B|);
    assert [] + F == F;
  }

  /** Parts of B and N before the cuts b and n do not meet blocks from after the cuts. */
  lemma CutApart(B: seq<nat>, N: seq<nat>, b: nat, n: nat, P: seq<nat>)
    requires Distinct(B + N) && b <= |B| && n <= |N| && multiset(P) == multiset(B[b..]) + multiset(N[n..])
    ensures Distinct(B[..b] + N[..n]) && Apart(B[..b] + N[..n], P)
    ensures forall x :: x in B[..b] + N[..n] ==> x in B + N
  {
    DistinctParts(B, N);
    assert B == B[..b] + B[b..] && N == N[..n] + N[n..];
    DistinctParts(B[..b], B[b..]);
    DistinctParts(N[..n], N[n..]);
    assert forall x :: x in B[..b] || x in B[b..] ==> x in B;
    assert forall x :: x in N[..n] || x in N[n..] ==> x in N;
    DistinctConcat(B[..b], N[..n]);
    forall x | x in P ensures x in B[b..] || x in N[n..] {
      InMultiset(P, B[b..], N[n..], x);
    }
  }

  lemma PartOfCut(B: seq<nat>, N: seq<nat>, k: nat)
    requires 1 <= k <= 3
    ensures Lo(k) <= Lo(k + 1) && NodeLo(k) <= NodeLo(k + 1)
    ensures Distinct(B[..Min(Lo(k + 1), |B|)] + N[..Min(NodeLo(k + 1), |N|)]) ==>
      Distinct(ArmBlocks(B, k) + ArmNodes(N, k))
    ensures forall x :: x in ArmBlocks(B, k) + ArmNodes(N, k) ==>
      x in B[..Min(Lo(k + 1), |B|)] + N[..Min(NodeLo(k + 1), |N|)]
  {
    hide Lo, NodeLo;
    LoMono(k, k + 1);
    var S, T := B[..Min(Lo(k + 1), |B|)], N[..Min(NodeLo(k + 1), |N|)];
    var AB, AN := ArmBlocks(B, k), ArmNodes(N, k);
    assert forall x :: x in AB ==> x in S;
    assert forall x :: x in AN ==> x in T;
    if Distinct(S + T) {
      DistinctParts(S, T);
      DistinctConcat(AB, AN);
    }
  }

  lemma ArmReady(D: seq<Block>, E: seq<Block>, ino: InodeRec, B: seq<nat>, N: seq<nat>, k: nat, P: seq<nat>,
          F: seq<nat>)
    requires 1 <= k <= 3 && Holds(D, ino, B, N) && Separate(D, B + N, F) && ArmsFreed(D, E, B, N, k, P, F)
    ensures Ready(E, k, Root(ino, k), ArmBlocks(B, k), ArmNodes(N, k), P + F)
  {
    hide Tree, Kids, Linked, Overhead, Lo, NodeLo, ArmBlocks, ArmNodes;
    PartOfCut(B, N, k);
    CutApart(B, N, Min(Lo(k + 1), |B|), Min(NodeLo(k + 1), |N|), P);
    var AB, AN := ArmBlocks(B, k), ArmNodes(N, k);
    forall x | x in AN && x < |D| ensures E[x] == D[x] {
      assert x in AB + AN && x in B + N && InRegion(D, x);
    }
    TreeFrame(D, E, k, Root(ino, k), AB, AN);
  }

  lemma ArmsStep(D: seq<Block>, E: seq<Block>, E2: seq<Block>, B: seq<nat>, N: seq<nat>, k: nat, P: seq<nat>,
                 Q: seq<nat>, F: seq<nat>)
    requires 1 <= k <= 3 && ArmsFreed(D, E, B, N, k, P, F)
    requires AllFreed(E, E2, ArmBlocks(B, k), ArmNodes(N, k), Q, P + F)
    ensures ArmsFreed(D, E2, B, N, k - 1, Q + P, F)
  {
    hide Chain, Lo, NodeLo;
    LoMono(k, k + 1);
    assert Q + P + F == Q + (P + F);
    var a, b := Min(Lo(k), |B|), Min(Lo(k + 1), |B|);
    assert B[a..] == B[a..b] + B[b..];
    var m, n := Min(NodeLo(k), |N|), Min(NodeLo(k + 1), |N|);
    assert N[m..] == N[m..n] + N[n..];
  }

  /** One of the three blocks of remove_file: the tree below root, then the root. */
  method FreeArm(d: Disk, level: nat, root: nat, ghost B: seq<nat>, ghost N: seq<nat>, ghost F: seq<nat>)
      returns (ghost Q: seq<nat>)
    requires Ready(d.dev, level + 1, root, B, N, F)
    modifies d
    ensures AllFreed(old(d.dev), d.dev, B, N, Q, F)
  {
    hide *;
    ghost var D := d.dev;
    Q := [];
    ReadyRoot(D, level + 1, root, B, N, F);
    if root >= 1 + RESERVED_SPACE {
      var node := d.ReadBlk(root);
      Q := FreeIndirectBlk(d, level, node.nos, B, N[1..], F);
      ghost var E := d.dev;
      RootStillOurs(D, E, level + 1, root, B, N, Q, F);
      FreeBlock(d, root, Q + F);
      RootFreed(D, E, d.dev, root, B, N, Q, F);
      Q := [root] + Q;
    }
  }

  /** The trees and the first i direct blocks are freed. */
  ghost predicate DirectsFreed(D: seq<Block>, E: seq<Block>, B: seq<nat>, N: seq<nat>, i: nat, P: seq<nat>,
          F: seq<nat>) {
    Freed(D, E, P, F) &&
    multiset(P) == multiset(B[..Min(i, |B|)]) + multiset(B[Min(DIRECT_BLOCKS, |B|)..]) + multiset(N)
  }

  lemma DirectsStart(D: seq<Block>, E: seq<Block>, B: seq<nat>, N: seq<nat>, P: seq<nat>, F: seq<nat>)
    requires ArmsFreed(D, E, B, N, 0, P, F)
    ensures DirectsFreed(D, E, B, N, 0, P, F)
  {
    hide Chain;
    assert B[..0] == [] && N[0..] == N;
  }

  lemma DirectReady(D: seq<Block>, E: seq<Block>, ino: InodeRec, B: seq<nat>, N: seq<nat>, i: nat, P: seq<nat>,
                    F: seq<nat>)
    requires Holds(D, ino, B, N) && Separate(D, B + N, F) && DirectsFreed(D, E, B, N, i, P, F) && i < DIRECT_BLOCKS
    ensures |ino.direct| == DIRECT_BLOCKS && Chain(E, P + F)
    ensures ino.direct[i] < 1 + RESERVED_SPACE <==> i >= |B|
    ensures i < |B| ==> ino.direct[i] == B[i] && Geometry(E) && InRegion(E, B[i]) && B[i] !in P + F
  {
    hide Tree, Kids, Linked, Overhead;
    if i < |B| {
      assert B[i] in B && B[i] in B + N;
      RegionLow(D, B[i]);
      DistinctParts(B, N);
      if B[i] in P {
        InMultiset(P, B[..i] + B[Min(DIRECT_BLOCKS, |B|)..], N, B[i]);
      }
    }
  }

  lemma DirectsStep(D: seq<Block>, E: seq<Block>, E2: seq<Block>, B: seq<nat>, N: seq<nat>, i: nat, P: seq<nat>,
                    F: seq<nat>)
    requires DirectsFreed(D, E, B, N, i, P, F)
    ensures i >= |B| ==> DirectsFreed(D, E, B, N, i + 1, P, F)
    ensures i < |B| && Chain(E2, [B[i]] + (P + F)) && OnlyTouches(E, E2, [B[i]], []) ==>
      DirectsFreed(D, E2, B, N, i + 1, [B[i]] + P, F)
  {
    hide Chain;
    if i < |B| {
      assert B[..i + 1] == B[..i] + [B[i]];
      assert [B[i]] + P + F == [B[i]] + (P + F);
    }
  }

  lemma DirectsEnd(D: seq<Block>, E: seq<Block>, B: seq<nat>, N: seq<nat>, P: seq<nat>, F: seq<nat>)
    requires DirectsFreed(D, E, B, N, DIRECT_BLOCKS, P, F)
    ensures AllFreed(D, E, B, N, P, F)
  {
    hide Chain;
    var m := Min(DIRECT_BLOCKS, |B|);
    assert B == B[..m] + B[m..];
  }

  method RemoveFile(d: Disk, inode: Inode, ghost B: seq<nat>, ghost N: seq<nat>, ghost F: seq<nat>)
      returns (ghost P: seq<nat>)
    requires Holds(d.dev, inode.Rec(), B, N) && Chain(d.dev, F) && Separate(d.dev, B + N, F)
    modifies d, inode
    ensures AllFreed(old(d.dev), d.dev, B, N, P, F)
    ensures inode.Rec() == old(inode.Rec()).(kind := FreeInode)
  {
    hide Tree, Kids, Chain, Separate, Holds, ArmsFreed, AllFreed, DirectsFreed, Ready, Freed, Overhead, Lo, NodeLo;
    ghost var D, ino := d.dev, inode.Rec();
    P := [];
    ghost var E, Q;
    ArmsStart(D, ino, B, N, F);
    ArmReady(D, D, ino, B, N, 3, P, F);
    Q := FreeArm(d, 2, inode.triple, ArmBlocks(B, 3), ArmNodes(N, 3), P + F);
    ArmsStep(D, D, d.dev, B, N, 3, P, Q, F);
    E, P := d.dev, Q + P;
    ArmReady(D, E, ino, B, N, 2, P, F);
    Q := FreeArm(d, 1, inode.double, ArmBlocks(B, 2), ArmNodes(N, 2), P + F);
    ArmsStep(D, E, d.dev, B, N, 2, P, Q, F);
    E, P := d.dev, Q + P;
    ArmReady(D, E, ino, B, N, 1, P, F);
    Q := FreeArm(d, 0, inode.single, ArmBlocks(B, 1), ArmNodes(N, 1), P + F);
    ArmsStep(D, E, d.dev, B, N, 1, P, Q, F);
    P := Q + P;
    DirectsStart(D, d.dev, B, N, P, F);
    for i := 0 to DIRECT_BLOCKS
      invariant DirectsFreed(D, d.dev, B, N, i, P, F) && inode.Rec() == ino
    {
      E := d.dev;
      DirectReady(D, E, ino, B, N, i, P, F);
      if inode.direct[i] >= 1 + RESERVED_SPACE {
        FreeBlock(d, inode.direct[i], P + F);
        DirectsStep(D, E, d.dev, B, N, i, P, F);
        P := [B[i]] + P;
      } else {
        DirectsStep(D, E, E, B, N, i, P, F);
      }
    }
    DirectsEnd(D, d.dev, B, N, P, F);
    inode.kind := FreeInode;
  }

  // ---- the walk of truncate_file ----

  /** The data blocks from index i on are freed. */
  ghost predicate TailFreed(D: seq<Block>, E: seq<Block>, B: seq<nat>, i: nat, F: seq<nat>) {
    i <= |B| && Freed(D, E, B[i..], F)
  }

  lemma TailStep(D: seq<Block>, E: seq<Block>, ino: InodeRec, B: seq<nat>, N: seq<nat>, i: nat, F: seq<nat>)
    requires Holds(D, ino, B, N) && Separate(D, B + N, F) && 0 < i && TailFreed(D, E, B, i, F)
    ensures i <= |B| && Holds(E, ino, B, N) && Chain(E, B[i..] + F)
    ensures Geometry(E) && InRegion(E, B[i - 1]) && B[i - 1] !in B[i..] + F && B[i - 1] != 0
  {
    hide Tree, Kids, Linked, Overhead, Lo;
    DistinctParts(B, N);
    assert B[i - 1] in B + N;
    TailHolds(D, E, ino, B, N, i, F);
  }

  /** While the data blocks from index i on are free already, the tree that leads to the others
      stands, and none of its indirect blocks is free. */
  lemma TailHolds(D: seq<Block>, E: seq<Block>, ino: InodeRec, B: seq<nat>, N: seq<nat>, i: nat, F: seq<nat>)
    requires Holds(D, ino, B, N) && Separate(D, B + N, F) && TailFreed(D, E, B, i, F)
    ensures Holds(E, ino, B, N) && Separate(E, N, B[i..] + F) && Chain(E, B[i..] + F)
  {
    hide Tree, Kids, Linked, Overhead, Lo;
    DistinctParts(B, N);
    assert forall x :: x in B[i..] ==> x in B;
    assert forall x :: x in N ==> x in B + N;
    HoldsFrame(D, E, ino, B, N);
  }

  lemma TailFreedStep(D: seq<Block>, E: seq<Block>, E2: seq<Block>, B: seq<nat>, i: nat, F: seq<nat>)
    requires 0 < i && TailFreed(D, E, B, i, F)
    requires Chain(E2, [B[i - 1]] + (B[i..] + F)) && OnlyTouches(E, E2, [B[i - 1]], [])
    ensures TailFreed(D, E2, B, i - 1, F)
  {
    hide Chain;
    assert B[i - 1..] == [B[i - 1]] + B[i..];
    assert [B[i - 1]] + (B[i..] + F) == B[i - 1..] + F;
  }

  lemma TailStart(D: seq<Block>, B: seq<nat>, F: seq<nat>)
    requires Chain(D, F)
    ensures TailFreed(D, D, B, |B|, F)
  {
    assert B[|B|..] + F == F;
  }

  lemma NoOverhead(D: seq<Block>, ino: InodeRec, B: seq<nat>, N: seq<nat>)
    requires Holds(D, ino, B, N)
    ensures Overhead(0) == 0 && N[0..] == N && (B == [] ==> N == [])
    ensures B[0..] == B
  {
    hide Tree, Kids, Overhead, Lo;
    OverheadDirect(0);
  }

  lemma TailEnd(D: seq<Block>, E: seq<Block>, E2: seq<Block>, B: seq<nat>, N: seq<nat>, P: seq<nat>, F: seq<nat>)
    requires TailFreed(D, E, B, 0, F) && Freed(E, E2, P, B + F) && multiset(P) == multiset(N)
    ensures AllFreed(D, E2, B, N, P + B, F)
  {
    hide Chain;
    assert B[0..] == B && P + B + F == P + (B + F);
  }

  /** Nothing of the tree is read after it was freed: the data blocks go first, while the
      indirect blocks that lead to them still stand. */
  method FreeByIndex(d: Disk, inode: Inode, fileBlks: nat, ghost B: seq<nat>, ghost N: seq<nat>, ghost F: seq<nat>)
      returns (ghost P: seq<nat>)
    requires Holds(d.dev, inode.Rec(), B, N) && Chain(d.dev, F) && Separate(d.dev, B + N, F) && fileBlks == |B|
    modifies d
    ensures AllFreed(old(d.dev), d.dev, B, N, P, F)
  {
    hide Tree, Kids, Chain, Separate, Holds, AllFreed, Freed, TailFreed, Overhead, Lo, NodeLo;
    ghost var D, ino := d.dev, inode.Rec();
    TailStart(D, B, F);
    var index: nat := fileBlks;
    while index > 0
      invariant index <= fileBlks && TailFreed(D, d.dev, B, index, F)
    {
      ghost var E := d.dev;
      TailStep(D, E, ino, B, N, index, F);
      var no := GetDblk(d, inode, index - 1, B, N);
      if no == 0 {
        break;
      }
      FreeBlock(d, no, B[index..] + F);
      TailFreedStep(D, E, d.dev, B, index, F);
      index := index - 1;
    }
    ghost var E := d.dev;
    TailHolds(D, E, ino, B, N, index, F);
    NoOverhead(D, ino, B, N);
    P := RemoveDblks(d, inode, 0, fileBlks, B, N, B[index..] + F);
    TailEnd(D, E, d.dev, B, N, P, F);
    P := P + B;
  }
}
