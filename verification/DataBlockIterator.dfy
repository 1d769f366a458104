/** Lookup of data blocks by index, with closed formulas for the entry at each level. */
module DataBlockIterator {
  import opened Layout
  import opened Radix
  import opened Device
  import opened PointerTree
  import opened INode

  /** The entries an append or a remove at index n walks through, outermost first. */
  function Digits(h: nat, n: nat): (p: seq<nat>)
    ensures |p| == h
  {
    if h == 0 then [] else [Quot(n, Cap(h - 1))] + Digits(h - 1, Rem(n, Cap(h - 1)))
  }

  function Undigits(p: seq<nat>): nat {
    if p == [] then 0 else Times(p[0], Cap(|p| - 1)) + Undigits(p[1..])
  }

  ghost predicate InRadix(p: seq<nat>) {
    forall i :: 0 <= i < |p| ==> p[i] < FANOUT
  }

  lemma FirstDigit(h: nat, n: nat)
    requires h > 0
    ensures Digits(h, n) == [n / Cap(h - 1)] + Digits(h - 1, n % Cap(h - 1))
  {
    QuotRem(n, Cap(h - 1));
  }

  /** Digits and Undigits are inverse bijections between [0, Cap(h)) and the paths of length h. */
  lemma {:induction false} DigitsInRadix(h: nat, n: nat)
    requires n < Cap(h)
    ensures InRadix(Digits(h, n)) && Undigits(Digits(h, n)) == n
  {
    if h > 0 {
      var q, r := DivCap(h - 1, n);
      QuotUnique(n, q, r, Cap(h - 1));
      DigitsInRadix(h - 1, r);
      var p := Digits(h, n);
      assert p[0] == q && p[1..] == Digits(h - 1, r);
      forall i | 0 <= i < |p| ensures p[i] < FANOUT {
        if i > 0 { assert p[i] == p[1..][i - 1]; }
      }
    }
  }

  lemma {:induction false} UndigitsInCap(p: seq<nat>)
    requires InRadix(p)
    ensures Undigits(p) < Cap(|p|) && Digits(|p|, Undigits(p)) == p
  {
    if p != [] {
      UndigitsInCap(p[1..]);
      CapTimes(|p| - 1);
      TimesStep(p[0], FANOUT, Cap(|p| - 1));
      QuotUnique(Undigits(p), p[0], Undigits(p[1..]), Cap(|p| - 1));
    }
  }

  lemma SingleDigits(h: nat, n: nat)
    requires h == 1
    ensures Digits(h, n) == [n]
  {
    FirstDigit(h, n);
  }

  lemma DoubleDigits(h: nat, n: nat)
    requires h == 2
    ensures Digits(h, n) == [n / FANOUT, n % FANOUT]
  {
    hide Digits;
    FirstDigit(h, n);
    SingleDigits(h - 1, n % Cap(h - 1));
  }

  /** The digit path of the recursive walk is what the lookup's closed formulas compute. */
  lemma TripleDigits(h: nat, n: nat)
    requires h == 3
    ensures Digits(h, n) == [n / (FANOUT * FANOUT), n % (FANOUT * FANOUT) / FANOUT, n % (FANOUT * FANOUT) % FANOUT]
  {
    hide Digits;
    FirstDigit(h, n);
    DoubleDigits(h - 1, n % Cap(h - 1));
  }

  // ---- Looking up ----

  /** In a tree of c data blocks there is an indirect block of height 1 for index n. */
  predicate HasLeaf(c: nat, n: nat) { n - n % FANOUT < c }

  lemma {:induction false} RemAdd(n: nat, m: nat, c: nat)
    requires c > 0
    ensures Rem(n + Times(m, c), c) == Rem(n, c)
  {
    if m > 0 { RemAdd(n, m - 1, c); }
  }

  /** Whole subtrees before an index do not change its last digit. */
  lemma {:induction false} LastDigit(h: nat, q: nat, r: nat)
    requires h > 0
    ensures (Times(q, Cap(h)) + r) % FANOUT == r % FANOUT
  {
    hide Cap;
    if q > 0 {
      LastDigit(h, q - 1, r);
      var m := CapMultiple(1, h);
      var n := Times(q - 1, Cap(h)) + r;
      RemAdd(n, m, Cap(1));
      QuotRem(n, FANOUT);
      QuotRem(n + Cap(h), FANOUT);
      CapOne();
    }
  }

  lemma CapOne()
    ensures Cap(1) == FANOUT && Cap(0) == 1
  {
  }

  /** The subtree on the path has the leaf exactly when the tree has it. */
  lemma LeafBelow(h: nat, B: seq<nat>, n: nat, q: nat, r: nat)
    requires h > 1 && n == Times(q, Cap(h - 1)) + r && r < Cap(h - 1)
    ensures HasLeaf(|KidBlocks(h, B, q)|, r) <==> HasLeaf(|B|, n)
    ensures r < |KidBlocks(h, B, q)| <==> n < |B|
    ensures n < |B| ==> KidBlocks(h, B, q)[r] == B[n]
  {
    hide Cap, Times;
    LastDigit(h - 1, q, r);
  }

  /** One step of a lookup: entry n / Cap(h - 1), then index n % Cap(h - 1) below it. */
  lemma LookupStep(D: seq<Block>, h: nat, no: nat, B: seq<nat>, N: seq<nat>, n: nat) returns (B': seq<nat>,
          N': seq<nat>)
    requires h > 1 && Tree(D, h, no, B, N) && n < Cap(h) && HasLeaf(|B|, n)
    ensures no < |D| && D[no].Indirect? && n / Cap(h - 1) < |D[no].nos| == FANOUT
    ensures Tree(D, h - 1, D[no].nos[n / Cap(h - 1)], B', N')
    ensures var r := n % Cap(h - 1);
      r < Cap(h - 1) && HasLeaf(|B'|, r) && (r < |B'| <==> n < |B|) && (n < |B| ==> B'[r] == B[n])
  {
    hide Cap, Times, HasLeaf, KidBlocks;
    var q, r := DivCap(h - 1, n);
    LeafBelow(h, B, n, q, r);
    assert B != [] by { assert HasLeaf(|B|, n); EmptyNoLeaf(n); }
    B', N' := KidBlocks(h, B, q), KidNodes(h, N[1..], q);
  }

  lemma EmptyNoLeaf(n: nat)
    ensures !HasLeaf(0, n)
  {
  }

  lemma LeafBlock(B: seq<nat>, n: nat)
    ensures KidBlocks(1, B, n) == if n < |B| then [B[n]] else []
  {
    CapOne();
    TimesIs(n, Cap(0));
  }

  /** The last step reads the block number. */
  lemma SingleLookup(D: seq<Block>, no: nat, B: seq<nat>, N: seq<nat>, n: nat)
    requires Tree(D, 1, no, B, N) && n < FANOUT && HasLeaf(|B|, n)
    ensures no < |D| && D[no].Indirect? && n < |D[no].nos| == FANOUT && D[no].nos[n] == if n < |B| then B[n] else 0
  {
    hide HasLeaf, KidBlocks, KidNodes, Cap, Ind;
    if B == [] { EmptyNoLeaf(n); }
    LeafBlock(B, n);
    assert Tree(D, 0, D[no].nos[n], KidBlocks(1, B, n), KidNodes(1, N[1..], n));
  }

  // What a walk down the tree ends with: an entry, or a block that was to be read as an
  // indirect block and is none.
  datatype Reading = Landed(no: nat) | Astray(no: nat)

  /** Following the path p of entries down from block no. */
  ghost function Descend(D: seq<Block>, no: nat, p: seq<nat>): Reading
    decreases |p|
  {
    if p == [] then Landed(no)
    else if no < |D| && D[no].Indirect? && p[0] < |D[no].nos| then Descend(D, D[no].nos[p[0]], p[1..])
    else Astray(no)
  }

  /** The path of n's digits leads to block n. Past the last block it finds 0 while there is
      an indirect block for the index; beyond that it reads block 0 as an indirect block. */
  lemma {:induction false} DescendDigits(D: seq<Block>, h: nat, no: nat, B: seq<nat>, N: seq<nat>, n: nat)
    requires h > 0 && Tree(D, h, no, B, N) && n < Cap(h) && |D| > 0 && D[0].Super?
    ensures Descend(D, no, Digits(h, n)) ==
      if n < |B| then Landed(B[n]) else if HasLeaf(|B|, n) then Landed(0) else Astray(0)
    decreases h, 1
  {
    var p := Digits(h, n);
    if B == [] {
      EmptyNoLeaf(n);
    } else if h == 1 {
      SingleDigits(h, n);
      CapOne();
      SingleLookup(D, no, B, N, n);
      assert p[1..] == [];
    } else {
      DescendDigitsStep(D, h, no, B, N, n);
    }
  }

  lemma {:induction false} DescendDigitsStep(D: seq<Block>, h: nat, no: nat, B: seq<nat>, N: seq<nat>, n: nat)
    requires h > 1 && Tree(D, h, no, B, N) && n < Cap(h) && |D| > 0 && D[0].Super? && B != []
    ensures Descend(D, no, Digits(h, n)) ==
      if n < |B| then Landed(B[n]) else if HasLeaf(|B|, n) then Landed(0) else Astray(0)
    decreases h, 0
  {
    hide Cap, Times, HasLeaf, KidBlocks, KidNodes;
    FirstDigit(h, n);
    var q, r := DivCap(h - 1, n);
    var p := Digits(h, n);
    assert p[0] == q && p[1..] == Digits(h - 1, r);
    LeafBelow(h, B, n, q, r);
    DescendDigits(D, h - 1, D[no].nos[q], KidBlocks(h, B, q), KidNodes(h, N[1..], q), r);
  }

  lemma ArmLookup(D: seq<Block>, ino: InodeRec, B: seq<nat>, N: seq<nat>, n: nat, k: nat)
    requires Holds(D, ino, B, N) && 1 <= k <= 3 && Lo(k) <= n < Lo(k + 1) && k == Arm(n) && Safe(|B|, n)
    ensures Tree(D, k, Root(ino, k), ArmBlocks(B, k), ArmNodes(N, k)) && Lo(k + 1) == Lo(k) + Cap(k)
    ensures HasLeaf(|ArmBlocks(B, k)|, n - Lo(k))
    ensures n - Lo(k) < |ArmBlocks(B, k)| <==> n < |B|
    ensures n < |B| ==> ArmBlocks(B, k)[n - Lo(k)] == B[n]
  {
    hide Tree, Kids, Cap;
  }

  /** Index n may be looked up in an inode of c data blocks: it is a direct one, or past every
      tree, or there is an indirect block for it. */
  predicate Safe(c: nat, n: nat) {
    n < Lo(1) || n >= Lo(4) || n - (n - Lo(Arm(n))) % FANOUT < c
  }

  class DataBlockIterator {
    const inode: Inode
    var currentIndex: nat

    constructor (inode: Inode, startIndex: nat)
      ensures this.inode == inode && currentIndex == startIndex
    {
      this.inode, currentIndex := inode, startIndex;
    }

    /** The next data block number, and 0 past the last one where the indirect block for the
        index exists. Elsewhere the walk leaves the tree, see DescendDigits. */
    method Next(d: Disk, ghost B: seq<nat>, ghost N: seq<nat>) returns (no: nat)
      requires Holds(d.dev, inode.Rec(), B, N) && Safe(|B|, currentIndex)
      modifies this
      ensures no == if old(currentIndex) < |B| then B[old(currentIndex)] else 0
      ensures currentIndex == old(currentIndex) + if old(currentIndex) < LEVEL_3_BLOCKS then 1 else 0
    {
      hide Tree, Kids, Lo, Cap, Overhead, NodeLo, ArmBlocks, ArmNodes, Safe, HasLeaf;
      Levels();
      Caps();
      ghost var D, ino, n := d.dev, inode.Rec(), currentIndex;
      if currentIndex < LEVEL_0_BLOCKS {
        no := inode.direct[currentIndex];
        currentIndex := currentIndex + 1;
        return;
      }
      ghost var B1, N1, B2, N2;
      if currentIndex < LEVEL_1_BLOCKS {
        var singleIndex := currentIndex - LEVEL_0_BLOCKS;
        ArmLookup(D, ino, B, N, n, 1);
        SingleLookup(D, inode.single, ArmBlocks(B, 1), ArmNodes(N, 1), singleIndex);
        var single := d.ReadBlk(inode.single);
        no := single.nos[singleIndex];
        currentIndex := currentIndex + 1;
        return;
      }
      if currentIndex < LEVEL_2_BLOCKS {
        var doubleIndex := currentIndex - LEVEL_1_BLOCKS;
        var i, j := doubleIndex / FANOUT, doubleIndex % FANOUT;
        ArmLookup(D, ino, B, N, n, 2);
        B1, N1 := LookupStep(D, 2, inode.double, ArmBlocks(B, 2), ArmNodes(N, 2), doubleIndex);
        SingleLookup(D, D[inode.double].nos[i], B1, N1, j);
        var double := d.ReadBlk(inode.double);
        var single := d.ReadBlk(double.nos[i]);
        no := single.nos[j];
        currentIndex := currentIndex + 1;
        return;
      }
      if currentIndex < LEVEL_3_BLOCKS {
        var tripleIndex := currentIndex - LEVEL_2_BLOCKS;
        var i, rem := tripleIndex / (FANOUT * FANOUT), tripleIndex % (FANOUT * FANOUT);
        var j, k := rem / FANOUT, rem % FANOUT;
        ArmLookup(D, ino, B, N, n, 3);
        B1, N1 := LookupStep(D, 3, inode.triple, ArmBlocks(B, 3), ArmNodes(N, 3), tripleIndex);
        B2, N2 := LookupStep(D, 2, D[inode.triple].nos[i], B1, N1, rem);
        var triple := d.ReadBlk(inode.triple);
        var double := d.ReadBlk(triple.nos[i]);
        SingleLookup(D, double.nos[j], B2, N2, k);
        var single := d.ReadBlk(double.nos[j]);
        no := single.nos[k];
        currentIndex := currentIndex + 1;
        return;
      }
      no := 0;
    }
  }

  /** Every index of a data block is safe. */
  lemma InsideSafe(c: nat, n: nat)
    requires n < c
    ensures Safe(c, n)
  {
    hide Lo;
    if n >= Lo(1) && n < Lo(4) { ArmRange(n); }
  }

  lemma Caps()
    ensures Cap(0) == 1 && Cap(1) == FANOUT && Cap(2) == FANOUT * FANOUT
  {
  }

  method GetDblk(d: Disk, inode: Inode, index: nat, ghost B: seq<nat>, ghost N: seq<nat>) returns (no: nat)
    requires Holds(d.dev, inode.Rec(), B, N) && index < |B|
    ensures no == B[index]
  {
    InsideSafe(|B|, index);
    var itr := new DataBlockIterator(inode, index);
    no := itr.Next(d, B, N);
  }

  /** k calls of Next from index start on. */
  method NextBlocks(d: Disk, inode: Inode, start: nat, k: nat, ghost B: seq<nat>, ghost N: seq<nat>)
      returns (nos: seq<nat>)
    requires Holds(d.dev, inode.Rec(), B, N) && start + k <= |B|
    ensures nos == B[start..start + k]
  {
    hide Holds, Safe, Lo;
    var itr := new DataBlockIterator(inode, start);
    nos := [];
    HoldsAtMost(d.dev, inode.Rec(), B, N);
    for i := 0 to k
      invariant itr.currentIndex == start + i && nos == B[start..start + i]
    {
      InsideSafe(|B|, start + i);
      var no := itr.Next(d, B, N);
      nos := nos + [no];
    }
  }

  lemma HoldsAtMost(D: seq<Block>, ino: InodeRec, B: seq<nat>, N: seq<nat>)
    requires Holds(D, ino, B, N)
    ensures |B| <= LEVEL_3_BLOCKS
  {
    hide Tree;
    Levels();
  }

  // ---- The slots of all four regions ----

  // Region 0 has the direct pointers; region k the tree of height k, its slots paths of entries.
  datatype Slot = Slot(region: nat, path: seq<nat>)

  ghost predicate IsSlot(s: Slot) {
    if s.region == 0 then |s.path| == 1 && s.path[0] < DIRECT_BLOCKS
    else s.region <= 3 && |s.path| == s.region && InRadix(s.path)
  }

  /** Where the pointer to data block n is. */
  function SlotAt(n: nat): Slot {
    if Arm(n) == 0 then Slot(0, [n]) else Slot(Arm(n), Digits(Arm(n), n - if Lo(Arm(n)) <= n then Lo(Arm(n)) else 0))
  }

  function IndexAt(s: Slot): nat {
    if s.region == 0 then (if s.path == [] then 0 else s.path[0]) else Lo(s.region) + Undigits(s.path)
  }

  /** Every index up to the largest file has a slot of its own ... */
  lemma IndexHasSlot(n: nat)
    requires n < LEVEL_3_BLOCKS
    ensures IsSlot(SlotAt(n)) && IndexAt(SlotAt(n)) == n
  {
    hide Digits, Undigits, Lo, Cap, InRadix;
    Levels();
    ArmRange(n);
    if Arm(n) > 0 { DigitsInRadix(Arm(n), n - Lo(Arm(n))); }
  }

  /** ... and every slot an index of its own. */
  lemma SlotHasIndex(s: Slot)
    requires IsSlot(s)
    ensures IndexAt(s) < LEVEL_3_BLOCKS && SlotAt(IndexAt(s)) == s
  {
    hide Digits, Undigits, Cap;
    Levels();
    LoMono(1, 4);
    if s.region > 0 {
      UndigitsInCap(s.path);
      RegionBounds(s.region, Undigits(s.path));
    } else {
      assert s.path == [s.path[0]];
    }
  }

  lemma RegionBounds(k: nat, m: nat)
    requires 1 <= k <= 3 && m < Cap(k)
    ensures Arm(Lo(k) + m) == k && Lo(k) + m < Lo(4)
  {
    hide Cap;
    LoMono(k + 1, 4);
  }

  /** The slot of n holds the number of data block n. */
  lemma SlotHolds(D: seq<Block>, ino: InodeRec, B: seq<nat>, N: seq<nat>, n: nat)
    requires Holds(D, ino, B, N) && n < |B| && |D| > 0 && D[0].Super?
    ensures var s := SlotAt(n);
      if s.region == 0 then n < |ino.direct| && ino.direct[n] == B[n]
      else Descend(D, Root(ino, s.region), s.path) == Landed(B[n])
  {
    hide Tree, Kids, Digits, Cap, Descend, Lo;
    HoldsAtMost(D, ino, B, N);
    Levels();
    ArmRange(n);
    InsideSafe(|B|, n);
    var k := Arm(n);
    if k > 0 {
      ArmLookup(D, ino, B, N, n, k);
      DescendDigits(D, k, Root(ino, k), ArmBlocks(B, k), ArmNodes(N, k), n - Lo(k));
    }
  }
}
