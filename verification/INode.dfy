/** The block pointers of an inode: ten direct ones and trees of height 1, 2 and 3. */
module INode {
  import opened Layout
  import opened Radix
  import opened Device
  import opened PointerTree
  import opened IndirectBlocks

  /** First index of the tree of height k, and the number of nodes of the trees before it. */
  function Lo(k: nat): nat {
    if k <= 1 then DIRECT_BLOCKS else Lo(k - 1) + Cap(k - 1)
  }

  function NodeLo(k: nat): nat {
    if k <= 1 then 0 else NodeLo(k - 1) + Full(k - 1)
  }

  const LEVEL_0_BLOCKS := DIRECT_BLOCKS
  const LEVEL_1_BLOCKS := LEVEL_0_BLOCKS + FANOUT
  const LEVEL_2_BLOCKS := LEVEL_1_BLOCKS + FANOUT * FANOUT
  const LEVEL_3_BLOCKS := LEVEL_2_BLOCKS + FANOUT * FANOUT * FANOUT

  lemma Levels()
    ensures Lo(1) == LEVEL_0_BLOCKS && Lo(2) == LEVEL_1_BLOCKS && Lo(3) == LEVEL_2_BLOCKS && Lo(4) == LEVEL_3_BLOCKS
  {
    assert Cap(1) == FANOUT * Cap(0) && Cap(2) == FANOUT * Cap(1) && Cap(3) == FANOUT * Cap(2);
  }

  /** Indirect blocks that n data blocks need in the first k trees, and in all three. */
  function OverheadUpTo(k: nat, n: nat): nat {
    if k == 0 then 0 else OverheadUpTo(k - 1, n) + Ind(k, Cut(n, Lo(k), Lo(k + 1)))
  }

  function Overhead(n: nat): nat {
    OverheadUpTo(3, n)
  }

  /** The tree whose range holds index n; 0 for a direct block. */
  function Arm(n: nat): (k: nat)
    ensures k <= 3
  {
    if n < Lo(1) then 0 else if n < Lo(2) then 1 else if n < Lo(3) then 2 else 3
  }

  /** Indirect blocks that appending at index n allocates. */
  function NewNodes(n: nat): (c: nat)
    requires n < Lo(4)
    ensures c <= 3
  {
    if Arm(n) == 0 then 0 else New(Arm(n), n - Lo(Arm(n)))
  }

  /** struct uwufs_inode in memory. */
  class Inode {
    var direct: seq<nat>
    var single: nat
    var double: nat
    var triple: nat
    var kind: Kind
    var size: nat
    var links: nat

    constructor (rec: InodeRec)
      ensures Rec() == rec
    {
      direct, single, double, triple := rec.direct, rec.single, rec.double, rec.triple;
      kind, size, links := rec.kind, rec.size, rec.links;
    }

    function Rec(): InodeRec
      reads this
    {
      InodeRec(direct, single, double, triple, kind, size, links)
    }
  }

  function Root(ino: InodeRec, k: nat): nat {
    if k == 1 then ino.single else if k == 2 then ino.double else ino.triple
  }

  function SetRoot(ino: InodeRec, k: nat, no: nat): InodeRec {
    if k == 1 then ino.(single := no) else if k == 2 then ino.(double := no) else ino.(triple := no)
  }

  ghost function ArmBlocks(B: seq<nat>, k: nat): seq<nat>
    requires 1 <= k <= 3
  {
    Part(B, Lo(k), Lo(k + 1))
  }

  ghost function ArmNodes(N: seq<nat>, k: nat): seq<nat>
    requires 1 <= k <= 3
  {
    Part(N, NodeLo(k), NodeLo(k + 1))
  }

  /** The inode record holds the data blocks B in order, with indirect blocks N. */
  ghost predicate Holds(D: seq<Block>, ino: InodeRec, B: seq<nat>, N: seq<nat>) {
    |B| <= Lo(4) && |N| == Overhead(|B|) && ino.direct == Page(B, 0, DIRECT_BLOCKS, 0) &&
    forall k :: 1 <= k <= 3 ==> Tree(D, k, Root(ino, k), ArmBlocks(B, k), ArmNodes(N, k))
  }

  /** Only block pointers differ. */
  predicate SameMeta(a: InodeRec, b: InodeRec) {
    a.kind == b.kind && a.size == b.size && a.links == b.links
  }

  lemma HoldsFrame(D: seq<Block>, E: seq<Block>, ino: InodeRec, B: seq<nat>, N: seq<nat>)
    requires Holds(D, ino, B, N) && |D| == |E|
    requires forall x :: x in N && x < |D| ==> E[x] == D[x]
    ensures Holds(E, ino, B, N)
  {
    forall k | 1 <= k <= 3 ensures Tree(E, k, Root(ino, k), ArmBlocks(B, k), ArmNodes(N, k)) {
      TreeFrame(D, E, k, Root(ino, k), ArmBlocks(B, k), ArmNodes(N, k));
    }
  }

  lemma {:induction false} LoMono(j: nat, k: nat)
    requires j <= k
    ensures Lo(j) <= Lo(k) && NodeLo(j) <= NodeLo(k)
  {
    if j < k { LoMono(j, k - 1); }
  }

  /** The indirect blocks of n data blocks, level by level: in each of the first k trees one
      node of height j for every Cap(j) data blocks of that tree or part of it. */
  function LevelSums(k: nat, n: nat): nat {
    if k == 0 then 0 else LevelSums(k - 1, n) + LevelSum(k, Cut(n, Lo(k), Lo(k + 1)))
  }

  /** The closed form of the indirect blocks of a whole inode is LevelSums(3, n). */
  lemma {:induction false} OverheadClosed(k: nat, n: nat)
    ensures OverheadUpTo(k, n) == LevelSums(k, n)
  {
    hide Ind, LevelSum, Cap;
    if k > 0 {
      OverheadClosed(k - 1, n);
      IndClosed(k, Cut(n, Lo(k), Lo(k + 1)));
    }
  }

  /** What the sizes of the entities come to: 8-byte numbers fill an indirect block, names of
      248 bytes with a number fill a directory block, inodes of 256 bytes fill a block of the
      inode list; and the trees begin at these indices. */
  lemma Sizes()
    ensures FANOUT * 8 == BLOCK_SIZE && INODE_SIZE * INODES_PER_BLOCK == BLOCK_SIZE == 4096
    ensures (FILE_NAME_SIZE + 8) * ENTRIES_PER_BLOCK == BLOCK_SIZE
    ensures Lo(1) == 10 && Lo(2) == 522 && Lo(3) == 262_666 && Lo(4) == 134_480_394 == LEVEL_3_BLOCKS
    ensures Cap(1) == 512 && Cap(2) == 262_144 && Cap(3) == 134_217_728
  {
    assert Cap(0) == 1 && Cap(1) == FANOUT * Cap(0) && Cap(2) == FANOUT * Cap(1) && Cap(3) == FANOUT * Cap(2);
  }

  /** The indirect blocks of n data blocks, in numbers. */
  lemma IndirectBlocksOf(n: nat)
    ensures var (a, b, c) := (Cut(n, 10, 522), Cut(n, 522, 262_666), Cut(n, 262_666, 134_480_394));
      Overhead(n) == CeilDiv(a, 512) + CeilDiv(b, 512) + CeilDiv(b, 262_144) +
        CeilDiv(c, 512) + CeilDiv(c, 262_144) + CeilDiv(c, 134_217_728)
  {
    hide Lo, Cap, OverheadUpTo, CeilDiv, Cut, LevelSum, LevelSums;
    Sizes();
    OverheadClosed(3, n);
    var (a, b, c) := (Cut(n, 10, 522), Cut(n, 522, 262_666), Cut(n, 262_666, 134_480_394));
    ThreeLevels(a);
    ThreeLevels(b);
    ThreeLevels(c);
    ThreeSums(n);
  }

  lemma OverheadSamples(n: nat)
    ensures n <= 10 ==> Overhead(n) == 0
    ensures 11 <= n <= 522 ==> Overhead(n) == 1
    ensures 523 <= n <= 1034 ==> Overhead(n) == 3
    ensures n == 1035 ==> Overhead(n) == 4
    ensures n == 262_666 ==> Overhead(n) == 514
    ensures n == 262_667 ==> Overhead(n) == 517
    ensures n == 134_480_394 ==> Overhead(n) == 263_171
  {
    hide Overhead, CeilDiv;
    IndirectBlocksOf(n);
    CeilSamples();
    if 11 <= n <= 522 { CeilSmall(n - 10, 512); }
    if 523 <= n <= 1034 {
      CeilSmall(n - 522, 512);
      CeilSmall(n - 522, 262_144);
    }
  }

  lemma CeilSamples()
    ensures forall w :: w in {512, 262_144, 134_217_728} ==> CeilDiv(0, w) == 0 && CeilDiv(1, w) == 1 == CeilDiv(w, w)
    ensures CeilDiv(513, 512) == 2 && CeilDiv(512, 262_144) == 1 && CeilDiv(513, 262_144) == 1
    ensures CeilDiv(262_144, 512) == 512 && CeilDiv(134_217_728, 512) == 262_144
    ensures CeilDiv(134_217_728, 262_144) == 512
  {
  }

  lemma ThreeLevels(m: nat)
    ensures LevelSum(1, m) == CeilDiv(m, Cap(1)) && LevelSum(2, m) == LevelSum(1, m) + CeilDiv(m, Cap(2))
    ensures LevelSum(3, m) == LevelSum(2, m) + CeilDiv(m, Cap(3))
  {
    hide Cap, CeilDiv;
    assert LevelSum(0, m) == 0;
  }

  lemma ThreeSums(n: nat)
    ensures LevelSums(3, n) == LevelSum(1, Cut(n, Lo(1), Lo(2))) + LevelSum(2, Cut(n, Lo(2), Lo(3))) +
      LevelSum(3, Cut(n, Lo(3), Lo(4)))
  {
    hide Lo, LevelSum, Cut;
    LoMono(1, 2);
    LoMono(2, 3);
    LoMono(3, 4);
    assert LevelSums(0, n) == 0 && LevelSums(1, n) == LevelSum(1, Cut(n, Lo(1), Lo(2)));
    assert LevelSums(2, n) == LevelSums(1, n) + LevelSum(2, Cut(n, Lo(2), Lo(3)));
  }

  lemma {:induction false} OverheadFull(k: nat, n: nat)
    requires n >= Lo(k + 1)
    ensures OverheadUpTo(k, n) == NodeLo(k + 1)
  {
    if k > 0 {
      LoMono(k, k + 1);
      OverheadFull(k - 1, n);
      IndAtMostFull(k, Cap(k));
    }
  }

  lemma {:induction false} OverheadBeyond(k: nat, j: nat, n: nat)
    requires k <= j && n <= Lo(k + 1)
    ensures OverheadUpTo(j, n) == OverheadUpTo(k, n)
  {
    if k < j {
      LoMono(k + 1, j);
      LoMono(j, j + 1);
      OverheadBeyond(k, j - 1, n);
    }
  }

  /** With the trees before k full, the nodes of tree k start at NodeLo(k). */
  lemma OverheadAt(n: nat, k: nat)
    requires 1 <= k <= 3 && Lo(k) <= n <= Lo(k + 1)
    ensures Overhead(n) == NodeLo(k) + Ind(k, n - Lo(k))
    ensures Ind(k, n - Lo(k)) <= Full(k)
  {
    hide Ind, Full, Cap, NodeLo;
    OverheadBeyond(k, 3, n);
    OverheadFull(k - 1, n);
    IndAtMostFull(k, n - Lo(k));
  }

  lemma OverheadDirect(n: nat)
    requires n <= DIRECT_BLOCKS
    ensures Overhead(n) == 0
  {
    OverheadBeyond(0, 3, n);
  }

  lemma ArmRange(n: nat)
    requires n < Lo(4)
    ensures Arm(n) == 0 ==> n < DIRECT_BLOCKS && NewNodes(n) == 0
    ensures Arm(n) > 0 ==> Lo(Arm(n)) <= n < Lo(Arm(n) + 1) && NewNodes(n) == New(Arm(n), n - Lo(Arm(n)))
    ensures Arm(n) > 0 ==> Lo(Arm(n) + 1) == Lo(Arm(n)) + Cap(Arm(n))
  {
  }

  /** The cost of one append is exactly the growth of Overhead, and at most 3. */
  lemma OverheadStep(n: nat)
    requires n < Lo(4)
    ensures Overhead(n + 1) == Overhead(n) + NewNodes(n)
  {
    hide Overhead, Ind, New, NewNodes, Cap, Lo, NodeLo, Arm;
    var k := Arm(n);
    ArmRange(n);
    if k == 0 {
      OverheadDirect(n);
      OverheadDirect(n + 1);
    } else {
      OverheadAt(n, k);
      OverheadAt(n + 1, k);
      IndStep(k, n - Lo(k));
    }
  }

  lemma PartGrow<T>(s: seq<T>, x: seq<T>, lo: nat, hi: nat)
    requires lo <= hi
    ensures lo <= |s| && |s| + |x| <= hi ==> Part(s + x, lo, hi) == Part(s, lo, hi) + x
    ensures hi <= |s| || |s| + |x| <= lo ==> Part(s + x, lo, hi) == Part(s, lo, hi)
  {
  }

  lemma PartApart<T>(s: seq<T>, lo: nat, hi: nat, lo': nat, hi': nat)
    requires Distinct(s) && lo <= hi && lo' <= hi' && (hi <= lo' || hi' <= lo)
    ensures Apart(Part(s, lo, hi), Part(s, lo', hi'))
  {
  }

  /** Where index n, and the nodes appending there adds, lie relative to tree j. */
  lemma ArmBounds(n: nat, j: nat)
    requires n < Lo(4) && 1 <= j <= 3
    ensures Overhead(n + 1) == Overhead(n) + NewNodes(n)
    ensures j == Arm(n) ==>
      Lo(j) <= n < Lo(j) + Cap(j) == Lo(j + 1) && NodeLo(j) <= Overhead(n) && Overhead(n + 1) <= NodeLo(j + 1)
    ensures j < Arm(n) ==> Lo(j + 1) <= n && NodeLo(j + 1) <= Overhead(n)
    ensures j > Arm(n) ==> n + 1 <= Lo(j) && Overhead(n + 1) <= NodeLo(j)
  {
    hide Overhead, NewNodes, Cap, Full;
    var k := Arm(n);
    OverheadStep(n);
    if k == 0 {
      OverheadDirect(n + 1);
      LoMono(1, j);
    } else {
      OverheadAt(n, k);
      OverheadAt(n + 1, k);
      if j < k { LoMono(j + 1, k); }
      if j > k { LoMono(k + 1, j); }
    }
  }

  /** Adding one data block, and the nodes X it needs, changes tree k = Arm(|B|) only. */
  lemma GrowArms(B: seq<nat>, N: seq<nat>, b: nat, X: seq<nat>, j: nat)
    requires |B| < Lo(4) && |N| == Overhead(|B|) && |X| == NewNodes(|B|) && 1 <= j <= 3
    ensures j == Arm(|B|) ==> ArmBlocks(B + [b], j) == ArmBlocks(B, j) + [b] && ArmNodes(N + X, j) == ArmNodes(N, j) + X
    ensures j == Arm(|B|) ==> |ArmBlocks(B, j)| == |B| - Lo(j) < Cap(j) && Lo(j) <= |B| < Lo(j + 1)
    ensures j != Arm(|B|) ==> ArmBlocks(B + [b], j) == ArmBlocks(B, j) && ArmNodes(N + X, j) == ArmNodes(N, j)
  {
    hide Overhead, NewNodes, Lo, NodeLo, Cap, Arm;
    ArmBounds(|B|, j);
    LoMono(j, j + 1);
    PartGrow(B, [b], Lo(j), Lo(j + 1));
    PartGrow(N, X, NodeLo(j), NodeLo(j + 1));
  }

  lemma ArmApart(N: seq<nat>, j: nat, k: nat)
    requires Distinct(N) && 1 <= j <= 3 && 1 <= k <= 3 && j != k
    ensures Apart(ArmNodes(N, j), ArmNodes(N, k))
  {
    if j < k { LoMono(j + 1, k); } else { LoMono(k + 1, j); }
    PartApart(N, NodeLo(j), NodeLo(j + 1), NodeLo(k), NodeLo(k + 1));
  }

  lemma RootOther(ino: InodeRec, k: nat, no: nat, j: nat)
    requires 1 <= k <= 3 && 1 <= j <= 3
    ensures Root(SetRoot(ino, k, no), j) == if j == k then no else Root(ino, j)
    ensures SetRoot(ino, k, no).direct == ino.direct
  {
  }

  /** The trees other than k survive a change to nodes of tree k. */
  lemma OtherArm(D: seq<Block>, E: seq<Block>, k: nat, no: nat, B: seq<nat>, N: seq<nat>, j: nat)
    requires 1 <= k <= 3 && 1 <= j <= 3 && j != k && Distinct(N) && |D| == |E|
    requires Tree(D, j, no, ArmBlocks(B, j), ArmNodes(N, j))
    requires forall x :: x in ArmNodes(N, j) && x < |D| && x !in ArmNodes(N, k) ==> E[x] == D[x]
    ensures Tree(E, j, no, ArmBlocks(B, j), ArmNodes(N, j))
  {
    hide *;
    ArmApart(N, j, k);
    ApartSame(D, E, ArmNodes(N, j), ArmNodes(N, k));
    TreeFrame(D, E, j, no, ArmBlocks(B, j), ArmNodes(N, j));
  }

  lemma ApartSame(D: seq<Block>, E: seq<Block>, S: seq<nat>, T: seq<nat>)
    requires |D| == |E| && Apart(S, T)
    requires forall x :: x in S && x < |D| && x !in T ==> E[x] == D[x]
    ensures forall x :: x in S && x < |D| ==> E[x] == D[x]
  {
  }

  lemma HoldsAppend(D: seq<Block>, E: seq<Block>, ino: InodeRec, k: nat, no: nat, B: seq<nat>, N: seq<nat>, b: nat,
                    X: seq<nat>)
    requires Holds(D, ino, B, N) && Distinct(N) && |D| == |E|
    requires |B| < Lo(4) && k == Arm(|B|) > 0 && |X| == NewNodes(|B|)
    requires Tree(E, k, no, ArmBlocks(B, k) + [b], ArmNodes(N, k) + X)
    requires forall x :: x in N && x < |D| && x !in ArmNodes(N, k) ==> E[x] == D[x]
    ensures Holds(E, SetRoot(ino, k, no), B + [b], N + X)
  {
    hide Tree, Kids, Overhead, NewNodes, Lo, NodeLo, Root, SetRoot, Distinct;
    ArmBounds(|B|, k);
    var rec := SetRoot(ino, k, no);
    forall j | 1 <= j <= 3 ensures Tree(E, j, Root(rec, j), ArmBlocks(B + [b], j), ArmNodes(N + X, j)) {
      GrowArms(B, N, b, X, j);
      RootOther(ino, k, no, j);
      if j != k {
        assert forall x :: x in ArmNodes(N, j) ==> x in N;
        OtherArm(D, E, k, Root(ino, j), B, N, j);
      }
    }
    RootOther(ino, k, no, k);
    DirectFull(B, b);
  }

  lemma DirectFull(B: seq<nat>, b: nat)
    requires Arm(|B|) > 0
    ensures Page(B + [b], 0, DIRECT_BLOCKS, 0) == Page(B, 0, DIRECT_BLOCKS, 0)
  {
  }

  lemma HoldsRemove(D: seq<Block>, E: seq<Block>, ino: InodeRec, k: nat, no: nat, B: seq<nat>, N: seq<nat>, b: nat,
                    X: seq<nat>)
    requires Holds(D, ino, B + [b], N + X) && Distinct(N + X) && |D| == |E|
    requires |N| == Overhead(|B|) && k == Arm(|B|) > 0 && |X| == NewNodes(|B|)
    requires Tree(E, k, no, ArmBlocks(B, k), ArmNodes(N, k))
    requires forall x :: x in N && x < |D| && x !in ArmNodes(N + X, k) ==> E[x] == D[x]
    ensures Holds(E, SetRoot(ino, k, no), B, N)
  {
    hide Tree, Kids, Overhead, NewNodes, Lo, NodeLo, Root, SetRoot, Distinct;
    var rec := SetRoot(ino, k, no);
    forall j | 1 <= j <= 3 ensures Tree(E, j, Root(rec, j), ArmBlocks(B, j), ArmNodes(N, j)) {
      GrowArms(B, N, b, X, j);
      RootOther(ino, k, no, j);
      if j != k {
        assert forall x :: x in ArmNodes(N, j) ==> x in N;
        OtherArm(D, E, k, Root(ino, j), B + [b], N + X, j);
      }
    }
    RootOther(ino, k, no, k);
    DirectFull(B, b);
  }

  // ---- append_dblk ----

  ghost predicate NoHolds(D: seq<Block>, ino: InodeRec, B: seq<nat>) {
    forall Z: seq<nat> :: Distinct(Z) ==> !Holds(D, ino, B, Z)
  }

  /** Appending b at index |B|: the indirect blocks X come off the free list F, which
      leaves F'. The inode then holds B + [b] exactly when free_blks_left = |F| - 1
      covers the indirect blocks needed. */
  ghost predicate Extended(D: seq<Block>, E: seq<Block>, ino: InodeRec, B: seq<nat>, N: seq<nat>, b: nat, F: seq<nat>,
                           X: seq<nat>, F': seq<nat>)
    requires |B| < Lo(4)
  {
    F == X + F' && Chain(E, F') && OnlyTouches(D, E, N, X) &&
    if NewNodes(|B|) < |F| then |X| == NewNodes(|B|) && Holds(E, ino, B + [b], N + X)
    else |F'| == 1 && NoHolds(E, ino, B + [b])
  }

  lemma SeparatePart(D: seq<Block>, N: seq<nat>, F: seq<nat>, lo: nat, hi: nat)
    requires Separate(D, N, F) && lo <= hi
    ensures Separate(D, Part(N, lo, hi), F)
  {
  }

  /** The tree an append at index |B| goes to. */
  lemma ArmForAppend(D: seq<Block>, ino: InodeRec, B: seq<nat>, N: seq<nat>, F: seq<nat>, k: nat)
    requires Holds(D, ino, B, N) && Separate(D, N, F) && |B| < Lo(4) && k == Arm(|B|) > 0
    ensures Tree(D, k, Root(ino, k), ArmBlocks(B, k), ArmNodes(N, k)) && Separate(D, ArmNodes(N, k), F)
    ensures |ArmBlocks(B, k)| == |B| - Lo(k) < Cap(k)
  {
    hide Tree, Kids, Overhead, NodeLo, Lo, Cap;
    ArmBounds(|B|, k);
    LoMono(k, k + 1);
    SeparatePart(D, N, F, NodeLo(k), NodeLo(k + 1));
  }

  lemma ArmDistinct(Z: seq<nat>, k: nat)
    requires 1 <= k <= 3 && Distinct(Z)
    ensures Distinct(ArmNodes(Z, k))
  {
    hide NodeLo, Lo;
    LoMono(k, k + 1);
  }

  lemma ArmAppended(D: seq<Block>, E: seq<Block>, ino: InodeRec, k: nat, no: nat, B: seq<nat>, N: seq<nat>, b: nat,
                    F: seq<nat>, X: seq<nat>, F': seq<nat>)
    requires Holds(D, ino, B, N) && Separate(D, N, F) && |B| < Lo(4) && k == Arm(|B|) > 0 && Lo(k) <= |B|
    requires Appended(D, E, k, |B| - Lo(k), no, ArmBlocks(B, k) + [b], ArmNodes(N, k), F, X, F')
    ensures Extended(D, E, SetRoot(ino, k, no), B, N, b, F, X, F')
  {
    hide Tree, Kids, Overhead, NodeLo, Lo, Root, SetRoot, Cap, Chain;
    assert forall x :: x in ArmNodes(N, k) ==> x in N;
    assert forall x :: x in X ==> x in F;
    if NewNodes(|B|) < |F| {
      HoldsAppend(D, E, ino, k, no, B, N, b, X);
    } else {
      forall Z: seq<nat> | Distinct(Z) ensures !Holds(E, SetRoot(ino, k, no), B + [b], Z) {
        ArmBounds(|B|, k);
        PartGrow(B, [b], Lo(k), Lo(k + 1));
        RootOther(ino, k, no, k);
        ArmDistinct(Z, k);
        assert !Tree(E, k, no, ArmBlocks(B, k) + [b], ArmNodes(Z, k));
      }
    }
  }

  lemma DirectAppended(D: seq<Block>, ino: InodeRec, B: seq<nat>, N: seq<nat>, b: nat, F: seq<nat>)
    requires Holds(D, ino, B, N) && Chain(D, F) && |B| < DIRECT_BLOCKS
    ensures |B| < |ino.direct| && |B| < Lo(4) && Extended(D, D, ino.(direct := ino.direct[|B| := b]), B, N, b, F, [], F)
  {
    hide Tree, Kids, Overhead, Lo;
    LoMono(1, 4);
    DirectBelow(|B|);
    var rec := ino.(direct := ino.direct[|B| := b]);
    forall k | 1 <= k <= 3 ensures Tree(D, k, Root(rec, k), ArmBlocks(B + [b], k), ArmNodes(N, k)) {
      GrowArms(B, N, b, [], k);
      assert N + [] == N && Root(rec, k) == Root(ino, k);
    }
    OverheadStep(|B|);
    assert N + [] == N && [] + F == F;
    assert rec.direct == Page(B + [b], 0, DIRECT_BLOCKS, 0);
  }

  lemma DirectBelow(n: nat)
    requires n < DIRECT_BLOCKS
    ensures n < Lo(1) <= Lo(4) && Arm(n) == 0 && NewNodes(n) == 0
  {
    LoMono(1, 4);
  }

  method AppendDblk(d: Disk, inode: Inode, index: nat, blk: nat, ghost B: seq<nat>, ghost N: seq<nat>,
          ghost F: seq<nat>)
      returns (ret: nat, ghost X: seq<nat>, ghost F': seq<nat>)
    requires Holds(d.dev, inode.Rec(), B, N) && Chain(d.dev, F) && Separate(d.dev, N, F) && index == |B|
    modifies d, inode
    ensures SameMeta(old(inode.Rec()), inode.Rec())
    ensures index >= LEVEL_3_BLOCKS ==> ret == 0 && d.dev == old(d.dev) && inode.Rec() == old(inode.Rec())
    ensures |B| < Lo(4) <==> index < LEVEL_3_BLOCKS
    ensures |B| < Lo(4) ==> ret == blk && Extended(old(d.dev), d.dev, inode.Rec(), B, N, blk, F, X, F')
  {
    hide Tree, Kids, Chain, Separate, Holds, Extended, OnlyTouches, Lo, Cap, NewNodes, Overhead, Appended;
    ghost var D, ino := d.dev, inode.Rec();
    Levels();
    if index >= LEVEL_3_BLOCKS {
      return 0, [], F;
    }
    if index < LEVEL_0_BLOCKS {
      DirectAppended(D, ino, B, N, blk, F);
      inode.direct := inode.direct[index := blk];
      X, F' := [], F;
    } else if index < LEVEL_1_BLOCKS {
      ArmForAppend(D, ino, B, N, F, 1);
      inode.single, X, F' := RecursiveAppendDblk(d, 0, inode.single, index - LEVEL_0_BLOCKS, blk, ArmBlocks(B, 1),
        ArmNodes(N, 1), F);
      ArmAppended(D, d.dev, ino, 1, inode.single, B, N, blk, F, X, F');
    } else if index < LEVEL_2_BLOCKS {
      ArmForAppend(D, ino, B, N, F, 2);
      inode.double, X, F' := RecursiveAppendDblk(d, 1, inode.double, index - LEVEL_1_BLOCKS, blk, ArmBlocks(B, 2),
        ArmNodes(N, 2), F);
      ArmAppended(D, d.dev, ino, 2, inode.double, B, N, blk, F, X, F');
    } else {
      ArmForAppend(D, ino, B, N, F, 3);
      inode.triple, X, F' := RecursiveAppendDblk(d, 2, inode.triple, index - LEVEL_2_BLOCKS, blk, ArmBlocks(B, 3),
        ArmNodes(N, 3), F);
      ArmAppended(D, d.dev, ino, 3, inode.triple, B, N, blk, F, X, F');
    }
    ret := blk;
  }

  // ---- remove_dblk ----

  /** The inode holds B + [b] and its last index needed the nodes X. */
  ghost predicate Shrinkable(D: seq<Block>, ino: InodeRec, B: seq<nat>, b: nat, N: seq<nat>, X: seq<nat>, F: seq<nat>)
  {
    |B| < Lo(4) && Holds(D, ino, B + [b], N + X) && |X| == NewNodes(|B|) && Chain(D, F) && Separate(D, N + X, F)
  }

  /** The last block is gone and X is back on the free list, in its old order. */
  ghost predicate Shrunk(D: seq<Block>, E: seq<Block>, ino: InodeRec, B: seq<nat>, N: seq<nat>, X: seq<nat>,
          F: seq<nat>)
  {
    Chain(E, X + F) && OnlyTouches(D, E, N + X, []) && Holds(E, ino, B, N)
  }

  lemma ArmForRemove(D: seq<Block>, ino: InodeRec, B: seq<nat>, b: nat, N: seq<nat>, X: seq<nat>, F: seq<nat>, k: nat)
    requires Shrinkable(D, ino, B, b, N, X, F) && k == Arm(|B|) > 0
    ensures Removable(D, k, Root(ino, k), ArmBlocks(B, k), b, ArmNodes(N, k), X, F)
    ensures |ArmBlocks(B, k)| == |B| - Lo(k)
    ensures |N| == Overhead(|B|)
  {
    hide Tree, Kids, Chain, Overhead, NodeLo, Lo, Cap;
    OverheadStep(|B|);
    GrowArms(B, N, b, X, k);
    assert Tree(D, k, Root(ino, k), ArmBlocks(B, k) + [b], ArmNodes(N, k) + X);
    LoMono(k, k + 1);
    SeparatePart(D, N + X, F, NodeLo(k), NodeLo(k + 1));
  }

  lemma ArmRemoved(D: seq<Block>, E: seq<Block>, ino: InodeRec, k: nat, no: nat, B: seq<nat>, b: nat, N: seq<nat>,
                   X: seq<nat>, F: seq<nat>)
    requires Shrinkable(D, ino, B, b, N, X, F) && k == Arm(|B|) > 0 && |N| == Overhead(|B|)
    requires Removed(D, E, k, Root(ino, k), ArmBlocks(B, k), ArmNodes(N, k), X, F)
    requires no == if ArmBlocks(B, k) == [] then 0 else Root(ino, k)
    ensures Shrunk(D, E, SetRoot(ino, k, no), B, N, X, F)
  {
    hide Tree, Kids, Chain, Overhead, NodeLo, Lo, Cap, Root, SetRoot;
    GrowArms(B, N, b, X, k);
    assert forall x :: x in N || x in X ==> x in N + X;
    assert forall x :: x in ArmNodes(N, k) ==> x in N;
    HoldsRemove(D, E, ino, k, no, B, N, b, X);
  }

  lemma DirectRemoved(D: seq<Block>, ino: InodeRec, B: seq<nat>, b: nat, N: seq<nat>, X: seq<nat>, F: seq<nat>)
    requires Shrinkable(D, ino, B, b, N, X, F) && |B| < DIRECT_BLOCKS
    ensures |B| < |ino.direct| && ino.direct[|B|] == b
    ensures Shrunk(D, D, ino.(direct := ino.direct[|B| := 0]), B, N, X, F)
  {
    hide Tree, Kids, Chain, Overhead, Lo;
    DirectBelow(|B|);
    OverheadStep(|B|);
    var rec := ino.(direct := ino.direct[|B| := 0]);
    forall k | 1 <= k <= 3 ensures Tree(D, k, Root(rec, k), ArmBlocks(B, k), ArmNodes(N, k)) {
      GrowArms(B, N, b, X, k);
      assert Root(rec, k) == Root(ino, k);
    }
    assert N + X == N && X + F == F;
    assert rec.direct == Page(B, 0, DIRECT_BLOCKS, 0);
  }

  method RemoveDblk(d: Disk, inode: Inode, index: nat, ghost B: seq<nat>, ghost b: nat, ghost N: seq<nat>,
                    ghost X: seq<nat>, ghost F: seq<nat>) returns (blk: nat)
    requires Shrinkable(d.dev, inode.Rec(), B, b, N, X, F) && index == |B|
    modifies d, inode
    ensures blk == b && SameMeta(old(inode.Rec()), inode.Rec())
    ensures Shrunk(old(d.dev), d.dev, inode.Rec(), B, N, X, F)
  {
    hide Tree, Kids, Chain, Separate, Holds, Shrunk, OnlyTouches, Lo, Cap, NewNodes, Overhead, Removed, Removable;
    ghost var D, ino := d.dev, inode.Rec();
    var free;
    Levels();
    blk := 0;
    if index < LEVEL_0_BLOCKS {
      DirectRemoved(D, ino, B, b, N, X, F);
      blk := inode.direct[index];
      inode.direct := inode.direct[index := 0];
    } else if index < LEVEL_1_BLOCKS {
      ArmForRemove(D, ino, B, b, N, X, F, 1);
      blk, free := RecursiveRemoveDblk(d, 0, inode.single, index - LEVEL_0_BLOCKS, ArmBlocks(B, 1), b, ArmNodes(N, 1),
        X, F);
      if free {
        inode.single := 0;
      }
      ArmRemoved(D, d.dev, ino, 1, inode.single, B, b, N, X, F);
    } else if index < LEVEL_2_BLOCKS {
      ArmForRemove(D, ino, B, b, N, X, F, 2);
      blk, free := RecursiveRemoveDblk(d, 1, inode.double, index - LEVEL_1_BLOCKS, ArmBlocks(B, 2), b, ArmNodes(N, 2),
        X, F);
      if free {
        inode.double := 0;
      }
      ArmRemoved(D, d.dev, ino, 2, inode.double, B, b, N, X, F);
    } else if index < LEVEL_3_BLOCKS {
      ArmForRemove(D, ino, B, b, N, X, F, 3);
      blk, free := RecursiveRemoveDblk(d, 2, inode.triple, index - LEVEL_2_BLOCKS, ArmBlocks(B, 3), b, ArmNodes(N, 3),
        X, F);
      if free {
        inode.triple := 0;
      }
      ArmRemoved(D, d.dev, ino, 3, inode.triple, B, b, N, X, F);
    }
  }

  // ---- The inverse ----

  /** A tree is determined by the blocks it holds and the nodes it uses. */
  lemma {:induction false} TreeDetermined(D: seq<Block>, E: seq<Block>, h: nat, no: nat, no': nat, B: seq<nat>,
                                          N: seq<nat>)
    requires Tree(D, h, no, B, N) && Tree(E, h, no', B, N) && |D| == |E|
    ensures no == no' && forall x :: x in N && x < |D| ==> D[x] == E[x]
    decreases h
  {
    if B != [] && h > 0 {
      var M := N[1..];
      forall i | 0 <= i < FANOUT
        ensures D[no].nos[i] == E[no].nos[i]
        ensures forall x :: x in KidNodes(h, M, i) && x < |D| ==> D[x] == E[x]
      {
        TreeDetermined(D, E, h - 1, D[no].nos[i], E[no].nos[i], KidBlocks(h, B, i), KidNodes(h, M, i));
      }
      assert D[no].nos == E[no].nos;
      TreeSize(D, h, no, B, N);
      IndAtMostFull(h, |B|);
      TimesIs(FANOUT, Full(h - 1));
      forall j | 0 <= j < |M| && M[j] < |D| ensures D[M[j]] == E[M[j]] {
        var i := ChunkCovers(M, FANOUT, Full(h - 1), j);
        assert M[j] in KidNodes(h, M, i);
      }
      assert N == [no] + M;
    }
  }

  lemma HoldsDetermined(D: seq<Block>, E: seq<Block>, ino: InodeRec, ino': InodeRec, B: seq<nat>, N: seq<nat>)
    requires Holds(D, ino, B, N) && Holds(E, ino', B, N) && SameMeta(ino, ino') && |D| == |E|
    ensures ino == ino' && forall x :: x in N && x < |D| ==> D[x] == E[x]
  {
    hide Tree, Kids;
    forall k | 1 <= k <= 3
      ensures Root(ino, k) == Root(ino', k)
      ensures forall x :: x in ArmNodes(N, k) && x < |D| ==> D[x] == E[x]
    {
      TreeDetermined(D, E, k, Root(ino, k), Root(ino', k), ArmBlocks(B, k), ArmNodes(N, k));
    }
    assert ino.single == Root(ino, 1) && ino.double == Root(ino, 2) && ino.triple == Root(ino, 3);
    forall j | 0 <= j < |N| && N[j] < |D| ensures D[N[j]] == E[N[j]] {
      var k := NodeArm(|B|, j);
      assert ArmNodes(N, k)[j - NodeLo(k)] == N[j];
    }
  }

  /** An inode record holds, of a given number of blocks, one sequence only. */
  lemma HoldsUnique(D: seq<Block>, ino: InodeRec, B: seq<nat>, N: seq<nat>, B': seq<nat>, N': seq<nat>)
    requires Holds(D, ino, B, N) && Holds(D, ino, B', N') && |B| == |B'|
    ensures B == B' && N == N'
  {
    hide Tree, Kids, Overhead, Lo, NodeLo;
    forall k | 1 <= k <= 3 ensures ArmBlocks(B, k) == ArmBlocks(B', k) && ArmNodes(N, k) == ArmNodes(N', k) {
      ArmSizes(B, B', k);
      TreeUnique(D, k, Root(ino, k), ArmBlocks(B, k), ArmNodes(N, k), ArmBlocks(B', k), ArmNodes(N', k));
    }
    forall j | 0 <= j < |B| ensures B[j] == B'[j] { BlockArm(ino, B, B', j); }
    forall j | 0 <= j < |N| ensures N[j] == N'[j] {
      var k := NodeArm(|B|, j);
      assert ArmNodes(N, k)[j - NodeLo(k)] == ArmNodes(N', k)[j - NodeLo(k)];
    }
  }

  lemma ArmSizes(B: seq<nat>, B': seq<nat>, k: nat)
    requires |B| == |B'| && 1 <= k <= 3
    ensures |ArmBlocks(B, k)| == |ArmBlocks(B', k)|
  {
    hide Lo;
    LoMono(k, k + 1);
  }

  lemma BlockArm(ino: InodeRec, B: seq<nat>, B': seq<nat>, j: nat)
    requires |B| == |B'| <= Lo(4) && j < |B|
    requires Page(B, 0, DIRECT_BLOCKS, 0) == Page(B', 0, DIRECT_BLOCKS, 0)
    requires forall k :: 1 <= k <= 3 ==> ArmBlocks(B, k) == ArmBlocks(B', k)
    ensures B[j] == B'[j]
  {
    hide Lo, ArmBlocks;
    ArmRange(j);
    var k := Arm(j);
    if k == 0 {
      assert Page(B, 0, DIRECT_BLOCKS, 0)[j] == Page(B', 0, DIRECT_BLOCKS, 0)[j];
    } else {
      InArm(B, j, k);
      InArm(B', j, k);
    }
  }

  lemma InArm(B: seq<nat>, j: nat, k: nat)
    requires j < |B| && 1 <= k <= 3 && Lo(k) <= j < Lo(k + 1)
    ensures j - Lo(k) < |ArmBlocks(B, k)| && ArmBlocks(B, k)[j - Lo(k)] == B[j]
  {
    hide Lo;
  }

  lemma {:induction false} OverheadMax(k: nat, n: nat)
    ensures OverheadUpTo(k, n) <= NodeLo(k + 1)
  {
    if k > 0 {
      LoMono(k, k + 1);
      OverheadMax(k - 1, n);
      IndAtMostFull(k, Cut(n, Lo(k), Lo(k + 1)));
    }
  }

  /** The tree that node j belongs to. */
  lemma NodeArm(n: nat, j: nat) returns (k: nat)
    requires j < Overhead(n)
    ensures 1 <= k <= 3 && NodeLo(k) <= j < NodeLo(k + 1)
  {
    OverheadMax(3, n);
    hide Overhead;
    k := if j < NodeLo(2) then 1 else if j < NodeLo(3) then 2 else 3;
  }

  /** Blocks taken from the free list join the nodes. */
  lemma NowSeparate(D: seq<Block>, E: seq<Block>, N: seq<nat>, F: seq<nat>, X: seq<nat>, F': seq<nat>)
    requires Separate(D, N, F) && Chain(D, F) && F == X + F' && SameGeometry(D, E) && Geometry(E)
    ensures Separate(E, N + X, F')
  {
    assert forall x :: x in X || x in F' <==> x in F;
    forall i | 0 <= i < |F| ensures InRegion(D, F[i]) { assert Linked(D, F, i); }
    DistinctParts(X, F');
    DistinctConcat(N, X);
  }

  /** Appending a block and removing it again gives back the same inode and the same device:
      pointer tree, free counter, and free list in its original order. */
  lemma RemoveUndoesAppend(D: seq<Block>, D1: seq<Block>, D2: seq<Block>, ino: InodeRec, ino2: InodeRec, B: seq<nat>,
                           N: seq<nat>, F: seq<nat>, X: seq<nat>, F': seq<nat>)
    requires Holds(D, ino, B, N) && Chain(D, F) && Separate(D, N, F) && SameMeta(ino, ino2)
    requires F == X + F' && OnlyTouches(D, D1, N, X)
    requires Shrunk(D1, D2, ino2, B, N, X, F')
    ensures D2 == D && ino2 == ino
  {
    hide Holds;
    HoldsDetermined(D, D2, ino, ino2, B, N);
    forall x | 0 <= x < |D| ensures D2[x] == D[x] {
      if x in X {
        assert x in F;
        var i :| 0 <= i < |F| && F[i] == x;
        assert Linked(D, F, i) && Linked(D2, F, i);
      }
    }
  }

  method AppendThenRemove(d: Disk, inode: Inode, index: nat, blk: nat, ghost B: seq<nat>, ghost N: seq<nat>,
                          ghost F: seq<nat>)
      returns (ret: nat)
    requires Holds(d.dev, inode.Rec(), B, N) && Chain(d.dev, F) && Separate(d.dev, N, F)
    requires index == |B| < Lo(4) && NewNodes(|B|) < |F|
    modifies d, inode
    ensures ret == blk && d.dev == old(d.dev) && inode.Rec() == old(inode.Rec())
  {
    hide Tree, Kids, Holds, Chain;
    ghost var D, ino := d.dev, inode.Rec();
    ghost var X, F';
    ret, X, F' := AppendDblk(d, inode, index, blk, B, N, F);
    ghost var D1 := d.dev;
    NowSeparate(D, D1, N, F, X, F');
    ret := RemoveDblk(d, inode, index, B, blk, N, X, F');
    RemoveUndoesAppend(D, D1, d.dev, ino, inode.Rec(), B, N, F, X, F');
  }
}
