/** remove_dblks: freeing the indirect blocks of an index range in one walk. */
module BulkRemove {
  import opened Layout
  import opened Radix
  import opened Device
  import opened PointerTree
  import opened IndirectBlocks
  import opened INode

  /** The blocks P were pushed on the free list F; no other block changed. */
  ghost predicate Freed(D: seq<Block>, E: seq<Block>, P: seq<nat>, F: seq<nat>) {
    Chain(E, P + F) && OnlyTouches(D, E, P, [])
  }

  /** What comes before chunk i. */
  function Before<T>(s: seq<T>, i: nat, w: nat): seq<T> {
    s[..Min(Times(i, w), |s|)]
  }

  lemma BeforeStep<T>(s: seq<T>, i: nat, w: nat)
    ensures Before(s, i + 1, w) == Before(s, i, w) + Chunk(s, i, w)
  {
  }

  lemma BeforeApart<T>(s: seq<T>, i: nat, w: nat)
    requires Distinct(s)
    ensures Apart(Chunk(s, i, w), Before(s, i, w))
  {
  }

  /** Blocks of index start or more below a node covering [left, right). */
  function Kept(left: nat, right: nat, start: nat, n: nat): nat
    requires left <= right
  {
    Min(Cut(start, left, right), n)
  }

  /** The nodes with all their indexes at or above start are the ones allocated last. */
  ghost function Victims(h: nat, N: seq<nat>, keep: nat): seq<nat> {
    N[Min(Ind(h, keep), |N|)..]
  }

  /** Position in M where the nodes to free begin. */
  ghost function Boundary(h: nat, keep: nat): nat
    requires h > 0
  {
    if keep == 0 then 0 else Ind(h, keep) - 1
  }

  /** The nodes to free that lie before child i. */
  ghost function VictimsBefore(h: nat, M: seq<nat>, keep: nat, i: nat): seq<nat>
    requires h > 0
  {
    var e := Min(Times(i, Full(h - 1)), |M|);
    M[Min(Boundary(h, keep), e)..e]
  }

  /** How many blocks below child i have an index under keep. */
  ghost function KidKeep(h: nat, B: seq<nat>, keep: nat, i: nat): nat
    requires h > 0
  {
    var lo := Times(i, Cap(h - 1));
    Min(Cut(keep, lo, lo + Cap(h - 1)), |KidBlocks(h, B, i)|)
  }

  lemma BoundaryAt(h: nat, keep: nat, q: nat, r: nat)
    requires h > 0 && keep == Times(q, Cap(h - 1)) + r && r < Cap(h - 1)
    ensures Boundary(h, keep) == Times(q, Full(h - 1)) + Ind(h - 1, r)
    ensures Ind(h - 1, r) <= Full(h - 1) == Ind(h - 1, Cap(h - 1))
  {
    if keep > 0 { IndParts(h, keep, q, r); }
    IndAtMostFull(h - 1, r);
    IndAtMostFull(h - 1, Cap(h - 1));
  }

  /** Child i contributes exactly its own nodes to free. */
  lemma VictimsStep(h: nat, B: seq<nat>, M: seq<nat>, keep: nat, i: nat, q: nat, r: nat)
    requires h > 0 && keep <= |B| && i < FANOUT
    requires keep == Times(q, Cap(h - 1)) + r && r < Cap(h - 1)
    requires |KidNodes(h, M, i)| == Ind(h - 1, |KidBlocks(h, B, i)|)
    ensures VictimsBefore(h, M, keep, i + 1) ==
      VictimsBefore(h, M, keep, i) + Victims(h - 1, KidNodes(h, M, i), KidKeep(h, B, keep, i))
  {
    hide Ind, Cap, Full, Boundary;
    BoundaryAt(h, keep, q, r);
    TimesStep(i, q, Cap(h - 1));
    TimesStep(i, q, Full(h - 1));
    TimesStep(q, i, Cap(h - 1));
    TimesStep(q, i, Full(h - 1));
    IndZero(h - 1);
  }

  lemma IndZero(h: nat)
    ensures Ind(h, 0) == 0
  {
  }

  lemma SplitUpTo(h: nat, n: nat) returns (q: nat, r: nat)
    requires n <= Cap(h + 1)
    ensures n == Times(q, Cap(h)) + r && r < Cap(h)
  {
    TimesIs(FANOUT, Cap(h));
    if n == Cap(h + 1) { q, r := FANOUT, 0; } else { q, r := DivCap(h, n); }
  }

  /** Ranges of child i, given those of the node. */
  lemma KidRange(h: nat, B: seq<nat>, left: nat, start: nat, end: nat, i: nat)
    requires h > 0 && i < FANOUT && |B| == Cut(end, left, left + Cap(h)) && end > left
    ensures var l := left + Times(i, Cap(h - 1)); var r := l + Cap(h - 1);
      && |KidBlocks(h, B, i)| == Cut(end, l, r)
      && Kept(l, r, start, |KidBlocks(h, B, i)|) == KidKeep(h, B, Kept(left, left + Cap(h), start, |B|), i)
  {
    hide Cap, Times, KidBlocks;
    CapTimes(h - 1);
    TimesStep(i, FANOUT, Cap(h - 1));
    KidBlocksSize(h, B, i);
  }

  lemma KidBlocksSize(h: nat, B: seq<nat>, i: nat)
    requires h > 0
    ensures var lo := Times(i, Cap(h - 1)); |KidBlocks(h, B, i)| == Cut(|B|, lo, lo + Cap(h - 1))
  {
  }

  /** State of the walk over the children of an open node, before child i. */
  ghost predicate Swept(D: seq<Block>, E: seq<Block>, h: nat, M: seq<nat>, keep: nat, i: nat, P: seq<nat>, F: seq<nat>)
    requires h > 0
  {
    Freed(D, E, P, F) && multiset(P) == multiset(VictimsBefore(h, M, keep, i))
  }

  lemma SweptMembers(D: seq<Block>, E: seq<Block>, h: nat, M: seq<nat>, keep: nat, i: nat, P: seq<nat>, F: seq<nat>)
    requires h > 0 && Swept(D, E, h, M, keep, i, P, F)
    ensures forall x :: x in P ==> x in Before(M, i, Full(h - 1)) && x in M
  {
    forall x | x in P ensures x in Before(M, i, Full(h - 1)) && x in M {
      assert x in multiset(P);
      assert x in VictimsBefore(h, M, keep, i);
    }
  }

  lemma SweepKid(D: seq<Block>, E: seq<Block>, h: nat, nos: seq<nat>, B: seq<nat>, M: seq<nat>, keep: nat, i: nat,
                 P: seq<nat>, F: seq<nat>)
    requires h > 0 && Kids(D, h, nos, B, M) && Separate(D, M, F) && i < FANOUT
    requires Swept(D, E, h, M, keep, i, P, F)
    ensures Tree(E, h - 1, nos[i], KidBlocks(h, B, i), KidNodes(h, M, i))
    ensures Separate(E, KidNodes(h, M, i), P + F) && Chain(E, P + F)
    ensures |KidNodes(h, M, i)| == Ind(h - 1, |KidBlocks(h, B, i)|)
  {
    var K := KidNodes(h, M, i);
    SweptMembers(D, E, h, M, keep, i, P, F);
    BeforeApart(M, i, Full(h - 1));
    ChunkIn(M, i, Full(h - 1));
    ChunkDistinct(M, i, Full(h - 1));
    hide Tree, Kids, Chain;
    TreeSize(D, h - 1, nos[i], KidBlocks(h, B, i), K);
    TreeFrame(D, E, h - 1, nos[i], KidBlocks(h, B, i), K);
  }

  lemma SweptStep(D: seq<Block>, E: seq<Block>, E2: seq<Block>, h: nat, B: seq<nat>, M: seq<nat>, keep: nat, i: nat,
                  P: seq<nat>, Q: seq<nat>, F: seq<nat>)
    requires h > 0 && Swept(D, E, h, M, keep, i, P, F) && keep <= |B| <= Cap(h) && i < FANOUT
    requires |KidNodes(h, M, i)| == Ind(h - 1, |KidBlocks(h, B, i)|)
    requires Freed(E, E2, Q, P + F)
    requires multiset(Q) == multiset(Victims(h - 1, KidNodes(h, M, i), KidKeep(h, B, keep, i)))
    ensures Swept(D, E2, h, M, keep, i + 1, Q + P, F)
  {
    hide Chain, KidKeep, Ind, Cap, Full, Boundary, Victims, VictimsBefore, Before, Chunk, Part;
    var q, r := SplitUpTo(h - 1, keep);
    VictimsStep(h, B, M, keep, i, q, r);
    BeforeStep(M, i, Full(h - 1));
    assert Q + P + F == Q + (P + F);
  }

  method KidBounds(left: nat, i: nat, stride: nat) returns (kidLeft: nat, kidRight: nat)
    ensures kidLeft == left + Times(i, stride) && kidRight == kidLeft + stride
  {
    TimesIs(i, stride);
    TimesIs(i + 1, stride);
    kidLeft, kidRight := left + i * stride, left + (i + 1) * stride;
  }

  method ChildStride(left: nat, right: nat, ghost h: nat) returns (stride: nat)
    requires h > 0 && right == left + Cap(h)
    ensures stride == Cap(h - 1) && (stride > 1 <==> h > 1)
  {
    stride := (right - left) / FANOUT;
  }

  lemma NothingToFree(D: seq<Block>, h: nat, no: nat, B: seq<nat>, N: seq<nat>, left: nat, start: nat, end: nat,
                      F: seq<nat>)
    requires Tree(D, h, no, B, N) && Chain(D, F) && |B| == Cut(end, left, left + Cap(h))
    requires start >= left + Cap(h) || end <= left
    ensures Victims(h, N, Kept(left, left + Cap(h), start, |B|)) == [] && Freed(D, D, [], F)
  {
    TreeSize(D, h, no, B, N);
    assert [] + F == F;
  }

  lemma SweepStart(D: seq<Block>, h: nat, no: nat, B: seq<nat>, N: seq<nat>, keep: nat, F: seq<nat>)
    requires h > 0 && Tree(D, h, no, B, N) && B != [] && Chain(D, F) && Separate(D, N, F) && keep <= |B|
    ensures no < |D| && D[no].Indirect? && N != [] && N[0] == no && |D[no].nos| == FANOUT && |B| <= Cap(h)
    ensures Loaded(D, h, no, D[no].nos, B, N[1..], F) && Kids(D, h, D[no].nos, B, N[1..]) && Separate(D, N[1..], F)
    ensures Swept(D, D, h, N[1..], keep, 0, [], F)
    ensures h == 1 ==> Swept(D, D, h, N[1..], keep, FANOUT, [], F)
  {
    hide Tree, Kids, Chain, Ind;
    OpenRead(D, h, no, B, N, F);
    TreeSize(D, h, no, B, N);
    KidOf(D, h, no, B, N, 0);
    assert [] + F == F;
    if h == 1 { LeafNodes(h, |B|); }
  }

  lemma LeafNodes(h: nat, n: nat)
    requires h == 1 && 0 < n <= Cap(h)
    ensures Ind(h, n) == 1
  {
    if n == Cap(h) { IndAtMostFull(h, n); } else {
      var q, r := DivCap(h - 1, n);
      IndParts(h, n, q, r);
      TimesIs(q, Full(h - 1));
    }
  }

  /** After the last child every node below the root has been dealt with. */
  lemma SweepEnd(D: seq<Block>, E: seq<Block>, h: nat, no: nat, B: seq<nat>, N: seq<nat>, keep: nat, P: seq<nat>,
                 F: seq<nat>)
    requires h > 0 && Tree(D, h, no, B, N) && B != [] && Separate(D, N, F) && keep <= |B|
    requires Swept(D, E, h, N[1..], keep, FANOUT, P, F)
    ensures Freed(D, E, P, F) && multiset(P) == multiset(N[1 + Min(Boundary(h, keep), |N| - 1)..])
    ensures Geometry(E) && InRegion(E, no) && no !in P + F && Chain(E, P + F)
  {
    hide Tree, Kids, Chain, Ind, Full, Boundary;
    KidOf(D, h, no, B, N, 0);
    var M := N[1..];
    SweptMembers(D, E, h, M, keep, FANOUT, P, F);
    WholeBefore(D, h, no, B, N);
    assert forall j :: 0 <= j < |M| ==> M[j] == N[j + 1];
    assert VictimsBefore(h, M, keep, FANOUT) == N[1 + Min(Boundary(h, keep), |N| - 1)..];
    assert no in N;
  }

  lemma WholeBefore(D: seq<Block>, h: nat, no: nat, B: seq<nat>, N: seq<nat>)
    requires h > 0 && Tree(D, h, no, B, N) && B != []
    ensures |N[1..]| <= Times(FANOUT, Full(h - 1))
    ensures Before(N[1..], FANOUT, Full(h - 1)) == N[1..]
  {
    TreeSize(D, h, no, B, N);
    IndAtMostFull(h, |B|);
    TimesIs(FANOUT, Full(h - 1));
  }

  /** A node that keeps blocks stays, and the last nodes below it are gone. */
  lemma NodeStays(D: seq<Block>, E: seq<Block>, h: nat, B: seq<nat>, N: seq<nat>, keep: nat, P: seq<nat>, F: seq<nat>)
    requires h > 0 && keep > 0 && N != [] && |N| == Ind(h, |B|) && keep <= |B|
    requires Freed(D, E, P, F) && multiset(P) == multiset(N[1 + Min(Boundary(h, keep), |N| - 1)..])
    ensures Freed(D, E, P, F) && multiset(P) == multiset(Victims(h, N, keep))
  {
    hide Chain, Ind;
    assert forall x :: x in N[1..] ==> x in N;
    IndPositive(h, keep);
  }

  lemma IndPositive(h: nat, n: nat)
    requires h > 0 && n > 0
    ensures Ind(h, n) >= 1
  {
  }

  lemma NodeGoes(D: seq<Block>, E: seq<Block>, E2: seq<Block>, h: nat, no: nat, N: seq<nat>, keep: nat, P: seq<nat>,
                 F: seq<nat>)
    requires h > 0 && keep == 0 && N != [] && N[0] == no
    requires Freed(D, E, P, F) && multiset(P) == multiset(N[1 + Min(Boundary(h, keep), |N| - 1)..])
    requires Chain(E2, [no] + (P + F)) && OnlyTouches(E, E2, [no], [])
    ensures Freed(D, E2, [no] + P, F) && multiset([no] + P) == multiset(Victims(h, N, keep))
  {
    hide Chain;
    assert N == [no] + N[1..];
    assert [no] + P + F == [no] + (P + F);
    IndZero(h);
    assert Victims(h, N, keep) == N;
  }

  /** A subtree covering [left, right), of which the indexes below end are in use. */
  ghost predicate Covers(D: seq<Block>, h: nat, no: nat, left: nat, right: nat, end: nat, B: seq<nat>, N: seq<nat>,
                         F: seq<nat>)
  {
    h > 0 && right == left + Cap(h) && |B| == Cut(end, left, right) &&
    Tree(D, h, no, B, N) && Chain(D, F) && Separate(D, N, F)
  }

  /** Of the nodes N, exactly those beyond the first keep blocks were freed, each once. */
  ghost predicate FreedBeyond(D: seq<Block>, E: seq<Block>, h: nat, N: seq<nat>, keep: nat, P: seq<nat>, F: seq<nat>) {
    Freed(D, E, P, F) && multiset(P) == multiset(Victims(h, N, keep))
  }

  lemma CoversKid(D: seq<Block>, E: seq<Block>, h: nat, no: nat, left: nat, right: nat, start: nat, end: nat,
                  B: seq<nat>, N: seq<nat>, i: nat, l: nat, r: nat, P: seq<nat>, F: seq<nat>)
    requires Covers(D, h, no, left, right, end, B, N, F) && h > 1 && end > left && i < FANOUT
    requires N != [] && Swept(D, E, h, N[1..], Kept(left, right, start, |B|), i, P, F)
    requires l == left + Times(i, Cap(h - 1)) && r == l + Cap(h - 1)
    ensures no < |D| && D[no].Indirect? && i < |D[no].nos|
    ensures Covers(E, h - 1, D[no].nos[i], l, r, end, KidBlocks(h, B, i), KidNodes(h, N[1..], i), P + F)
  {
    hide Tree, Kids, Chain, Swept;
    OpenRead(D, h, no, B, N, F);
    KidOf(D, h, no, B, N, i);
    SweepKid(D, E, h, D[no].nos, B, N[1..], Kept(left, right, start, |B|), i, P, F);
    KidRange(h, B, left, start, end, i);
  }

  lemma KeptAtMost(left: nat, right: nat, start: nat, n: nat)
    requires left <= right
    ensures Kept(left, right, start, n) <= n
  {
  }

  lemma CoveredStep(D: seq<Block>, E: seq<Block>, E2: seq<Block>, h: nat, no: nat, left: nat, right: nat, start: nat,
                    end: nat, B: seq<nat>, N: seq<nat>, i: nat, l: nat, r: nat, P: seq<nat>, Q: seq<nat>, F: seq<nat>)
    requires Covers(D, h, no, left, right, end, B, N, F) && h > 1 && end > left && i < FANOUT
    requires N != [] && Swept(D, E, h, N[1..], Kept(left, right, start, |B|), i, P, F)
    requires l == left + Times(i, Cap(h - 1)) && r == l + Cap(h - 1)
    requires FreedBeyond(E, E2, h - 1, KidNodes(h, N[1..], i), Kept(l, r, start, |KidBlocks(h, B, i)|), Q, P + F)
    ensures Swept(D, E2, h, N[1..], Kept(left, right, start, |B|), i + 1, Q + P, F)
  {
    hide Tree, Kids, Chain, Swept, Separate, Kept, KidKeep, Victims, Ind, Cap, Full, KidBlocks, KidNodes, Freed;
    KeptAtMost(left, right, start, |B|);
    KidOf(D, h, no, B, N, i);
    TreeSize(D, h - 1, D[no].nos[i], KidBlocks(h, B, i), KidNodes(h, N[1..], i));
    TreeSize(D, h, no, B, N);
    KidRange(h, B, left, start, end, i);
    SweptStep(D, E, E2, h, B, N[1..], Kept(left, right, start, |B|), i, P, Q, F);
  }

  lemma CoverStart(D: seq<Block>, h: nat, no: nat, left: nat, right: nat, start: nat, end: nat, B: seq<nat>,
                   N: seq<nat>, F: seq<nat>)
    requires Covers(D, h, no, left, right, end, B, N, F)
    ensures h > 0 && right == left + Cap(h)
    ensures start >= right || end <= left ==> FreedBeyond(D, D, h, N, Kept(left, right, start, |B|), [], F)
    ensures end > left ==> N != [] && no < |D| && D[no].Indirect? && |D[no].nos| == FANOUT
    ensures end > left ==> Swept(D, D, h, N[1..], Kept(left, right, start, |B|), 0, [], F)
    ensures end > left && h == 1 ==> Swept(D, D, h, N[1..], Kept(left, right, start, |B|), FANOUT, [], F)
  {
    hide Tree, Kids, Chain, Swept, Separate;
    if start >= right || end <= left { NothingToFree(D, h, no, B, N, left, start, end, F); }
    if end > left { SweepStart(D, h, no, B, N, Kept(left, right, start, |B|), F); }
  }

  lemma CoverEnd(D: seq<Block>, E: seq<Block>, h: nat, no: nat, left: nat, right: nat, start: nat, end: nat,
                 B: seq<nat>, N: seq<nat>, P: seq<nat>, F: seq<nat>)
    requires Covers(D, h, no, left, right, end, B, N, F) && end > left && start < right
    requires N != [] && Swept(D, E, h, N[1..], Kept(left, right, start, |B|), FANOUT, P, F)
    ensures Chain(E, P + F) && Geometry(E) && InRegion(E, no) && no !in P + F
    ensures start > left ==> FreedBeyond(D, E, h, N, Kept(left, right, start, |B|), P, F)
  {
    hide Tree, Kids, Chain, Swept, OnlyTouches;
    var keep := Kept(left, right, start, |B|);
    KidOf(D, h, no, B, N, 0);
    TreeSize(D, h, no, B, N);
    SweepEnd(D, E, h, no, B, N, keep, P, F);
    if start > left { NodeStays(D, E, h, B, N, keep, P, F); }
  }

  lemma CoverGone(D: seq<Block>, E: seq<Block>, E2: seq<Block>, h: nat, no: nat, left: nat, right: nat, start: nat,
                  end: nat, B: seq<nat>, N: seq<nat>, P: seq<nat>, F: seq<nat>)
    requires Covers(D, h, no, left, right, end, B, N, F) && end > left && start <= left
    requires N != [] && Swept(D, E, h, N[1..], Kept(left, right, start, |B|), FANOUT, P, F)
    requires Chain(E2, [no] + (P + F)) && OnlyTouches(E, E2, [no], [])
    ensures FreedBeyond(D, E2, h, N, Kept(left, right, start, |B|), [no] + P, F)
  {
    hide Tree, Kids, Chain, Swept, OnlyTouches;
    var keep := Kept(left, right, start, |B|);
    KidOf(D, h, no, B, N, 0);
    SweepEnd(D, E, h, no, B, N, keep, P, F);
    NodeGoes(D, E, E2, h, no, N, keep, P, F);
  }

  method RecursiveRemoveDblks(d: Disk, cur: nat, left: nat, right: nat, start: nat, end: nat, ghost h: nat,
                              ghost B: seq<nat>, ghost N: seq<nat>, ghost F: seq<nat>)
      returns (ghost P: seq<nat>)
    requires Covers(d.dev, h, cur, left, right, end, B, N, F)
    modifies d
    ensures FreedBeyond(old(d.dev), d.dev, h, N, Kept(left, right, start, |B|), P, F)
    decreases h
  {
    hide *;
    ghost var D := d.dev;
    P := [];
    CoverStart(D, h, cur, left, right, start, end, B, N, F);
    if start >= right || end <= left {
      return;
    }
    ghost var M, keep := N[1..], Kept(left, right, start, |B|);
    var stride := ChildStride(left, right, h);
    if stride > 1 {
      var node := d.ReadBlk(cur);
      var nos := node.nos;
      for i := 0 to FANOUT
        invariant Swept(D, d.dev, h, M, keep, i, P, F)
      {
        ghost var E := d.dev;
        var kidLeft, kidRight := KidBounds(left, i, stride);
        CoversKid(D, E, h, cur, left, right, start, end, B, N, i, kidLeft, kidRight, P, F);
        ghost var Q := RecursiveRemoveDblks(d, nos[i], kidLeft, kidRight, start, end,
                                            h - 1, KidBlocks(h, B, i), KidNodes(h, M, i), P + F);
        CoveredStep(D, E, d.dev, h, cur, left, right, start, end, B, N, i, kidLeft, kidRight, P, Q, F);
        P := Q + P;
      }
    }
    CoverEnd(D, d.dev, h, cur, left, right, start, end, B, N, P, F);
    if start <= left {
      ghost var E := d.dev;
      FreeBlock(d, cur, P + F);
      CoverGone(D, E, d.dev, h, cur, left, right, start, end, B, N, P, F);
      P := [cur] + P;
    }
  }

  // ---- remove_dblks ----

  /** The nodes to free that belong to the trees before k. */
  ghost function ArmVictims(N: seq<nat>, start: nat, k: nat): seq<nat> {
    var e := Min(NodeLo(k), |N|);
    N[Min(Overhead(start), e)..e]
  }

  /** Where the nodes kept end, relative to tree k. */
  lemma KeepBounds(start: nat, k: nat)
    requires 1 <= k <= 3
    ensures start <= Lo(k) ==> Overhead(start) <= NodeLo(k)
    ensures start >= Lo(k + 1) ==> Overhead(start) >= NodeLo(k + 1)
    ensures Lo(k) <= start <= Lo(k + 1) ==> Overhead(start) == NodeLo(k) + Ind(k, start - Lo(k))
    ensures NodeLo(k + 1) == NodeLo(k) + Full(k) && Lo(k + 1) == Lo(k) + Cap(k)
    ensures Ind(k, 0) == 0 && Ind(k, Cap(k)) == Full(k)
  {
    hide Ind, Cap, Full;
    IndAtMostFull(k, Cap(k));
    IndZero(k);
    if start <= Lo(k) {
      OverheadBeyond(k - 1, 3, start);
      OverheadMax(k - 1, start);
    }
    if Lo(k) <= start <= Lo(k + 1) { OverheadAt(start, k); }
    if start >= Lo(k + 1) {
      OverheadFull(k, start);
      OverheadGrows(k, 3, start);
    }
  }

  lemma {:induction false} OverheadGrows(k: nat, j: nat, n: nat)
    requires k <= j
    ensures OverheadUpTo(k, n) <= OverheadUpTo(j, n)
  {
    if k < j { OverheadGrows(k, j - 1, n); }
  }

  lemma ArmVictimsStep(N: seq<nat>, start: nat, k: nat, n: nat)
    requires 1 <= k <= 3 && Cut(start, Lo(k), Lo(k + 1)) <= n && |ArmNodes(N, k)| == Ind(k, n)
    ensures ArmVictims(N, start, k + 1) ==
      ArmVictims(N, start, k) + Victims(k, ArmNodes(N, k), Kept(Lo(k), Lo(k + 1), start, n))
  {
    hide Overhead, Lo, NodeLo, Ind, Cap, Full;
    KeepBounds(start, k);
  }

  ghost predicate SweptArms(D: seq<Block>, E: seq<Block>, N: seq<nat>, start: nat, k: nat, P: seq<nat>, F: seq<nat>) {
    Freed(D, E, P, F) && multiset(P) == multiset(ArmVictims(N, start, k))
  }

  lemma SweepArm(D: seq<Block>, E: seq<Block>, ino: InodeRec, B: seq<nat>, N: seq<nat>, start: nat, k: nat, P: seq<nat>,
                 F: seq<nat>)
    requires 1 <= k <= 3 && Holds(D, ino, B, N) && Separate(D, N, F) && SweptArms(D, E, N, start, k, P, F)
    ensures Covers(E, k, Root(ino, k), Lo(k), Lo(k + 1), |B|, ArmBlocks(B, k), ArmNodes(N, k), P + F)
  {
    hide Tree, Kids, Chain, Overhead, Lo, NodeLo;
    LoMono(k, k + 1);
    assert Lo(k + 1) == Lo(k) + Cap(k) by { KeepBounds(0, k); }
    forall x | x in P ensures x in N && x !in ArmNodes(N, k) {
      assert x in multiset(P);
      assert x in ArmVictims(N, start, k);
      var e := Min(NodeLo(k), |N|);
      PartApart(N, 0, e, NodeLo(k), NodeLo(k + 1));
      assert x in Part(N, 0, e);
    }
    SeparatePart(D, N, F, NodeLo(k), NodeLo(k + 1));
    TreeFrame(D, E, k, Root(ino, k), ArmBlocks(B, k), ArmNodes(N, k));
  }

  lemma SweptArm(D: seq<Block>, E: seq<Block>, E2: seq<Block>, ino: InodeRec, B: seq<nat>, N: seq<nat>, start: nat,
                 k: nat, P: seq<nat>, Q: seq<nat>, F: seq<nat>)
    requires 1 <= k <= 3 && Lo(k) <= Lo(k + 1) && Holds(D, ino, B, N) && start <= |B| &&
      SweptArms(D, E, N, start, k, P, F)
    requires FreedBeyond(E, E2, k, ArmNodes(N, k), Kept(Lo(k), Lo(k + 1), start, |ArmBlocks(B, k)|), Q, P + F)
    ensures SweptArms(D, E2, N, start, k + 1, Q + P, F)
  {
    hide Tree, Kids, Chain, Overhead, Lo, NodeLo, Victims, ArmVictims, Ind;
    TreeSize(D, k, Root(ino, k), ArmBlocks(B, k), ArmNodes(N, k));
    ArmVictimsStep(N, start, k, |ArmBlocks(B, k)|);
    assert Q + P + F == Q + (P + F);
  }

  lemma SweptArmsStart(D: seq<Block>, N: seq<nat>, start: nat, F: seq<nat>)
    requires Chain(D, F)
    ensures SweptArms(D, D, N, start, 1, [], F)
  {
    assert [] + F == F;
  }

  lemma SweptArmsEnd(N: seq<nat>, n: nat, start: nat)
    requires |N| == Overhead(n)
    ensures ArmVictims(N, start, 4) == N[Min(Overhead(start), |N|)..]
  {
    OverheadMax(3, n);
  }

  /** The nodes in use above index start are freed, each once, and nothing else is touched.
      They are the ones that appending the indexes from start on allocated. The inode and
      the nodes that stay keep their stale entries. */
  method RemoveDblks(d: Disk, inode: Inode, start: nat, end: nat, ghost B: seq<nat>, ghost N: seq<nat>,
                     ghost F: seq<nat>)
      returns (ghost P: seq<nat>)
    requires Holds(d.dev, inode.Rec(), B, N) && end == |B| && Chain(d.dev, F) && Separate(d.dev, N, F)
    modifies d
    ensures Freed(old(d.dev), d.dev, P, F)
    ensures start >= end ==> P == []
    ensures start < end ==> multiset(P) == multiset(N[Min(Overhead(start), |N|)..])
  {
    hide Tree, Kids, Chain, Separate, Holds, Freed, Covers, FreedBeyond, SweptArms, ArmVictims, Lo, Cap, Overhead, Kept;
    ghost var D, ino := d.dev, inode.Rec();
    P := [];
    SweptArmsStart(D, N, start, F);
    SweptArmsNone(D, D, N, start, P, F);
    if start >= end {
      return;
    }
    Levels();
    HoldsSize(D, ino, B, N);
    SweepArm(D, D, ino, B, N, start, 1, P, F);
    ghost var Q := RecursiveRemoveDblks(d, inode.single, LEVEL_0_BLOCKS, LEVEL_1_BLOCKS, start, end,
                                        1, ArmBlocks(B, 1), ArmNodes(N, 1), P + F);
    SweptArm(D, D, d.dev, ino, B, N, start, 1, P, Q, F);
    P := Q + P;
    ghost var E := d.dev;
    SweepArm(D, E, ino, B, N, start, 2, P, F);
    Q := RecursiveRemoveDblks(d, inode.double, LEVEL_1_BLOCKS, LEVEL_2_BLOCKS, start, end,
                              2, ArmBlocks(B, 2), ArmNodes(N, 2), P + F);
    SweptArm(D, E, d.dev, ino, B, N, start, 2, P, Q, F);
    P := Q + P;
    E := d.dev;
    SweepArm(D, E, ino, B, N, start, 3, P, F);
    Q := RecursiveRemoveDblks(d, inode.triple, LEVEL_2_BLOCKS, LEVEL_3_BLOCKS, start, end,
                              3, ArmBlocks(B, 3), ArmNodes(N, 3), P + F);
    SweptArm(D, E, d.dev, ino, B, N, start, 3, P, Q, F);
    P := Q + P;
    SweptArmsNone(D, d.dev, N, start, P, F);
    SweptArmsEnd(N, |B|, start);
  }

  lemma SweptArmsNone(D: seq<Block>, E: seq<Block>, N: seq<nat>, start: nat, P: seq<nat>, F: seq<nat>)
    ensures SweptArms(D, E, N, start, 1, P, F) ==> Freed(D, E, P, F)
    ensures SweptArms(D, E, N, start, 4, P, F) ==> Freed(D, E, P, F) && multiset(P) == multiset(ArmVictims(N, start, 4))
  {
  }

  lemma HoldsSize(D: seq<Block>, ino: InodeRec, B: seq<nat>, N: seq<nat>)
    requires Holds(D, ino, B, N)
    ensures |N| == Overhead(|B|) && |B| <= Lo(4)
  {
  }

  // ---- The loop that remove_dblks is documented to stand for ----

  /** i blocks are left of an inode that held B with nodes N. */
  ghost predicate Cropped(D: seq<Block>, E: seq<Block>, ino: InodeRec, B: seq<nat>, N: seq<nat>, i: nat, F: seq<nat>)
    requires i <= |B| && |N| == Overhead(|B|)
  {
    Overhead(i) <= |N| && Holds(E, ino, B[..i], N[..Overhead(i)]) &&
    Chain(E, N[Overhead(i)..] + F) && OnlyTouches(D, E, N, [])
  }

  lemma CropStep(D: seq<Block>, E: seq<Block>, ino: InodeRec, B: seq<nat>, N: seq<nat>, i: nat, F: seq<nat>)
    requires i < |B| <= Lo(4) && |N| == Overhead(|B|) && Separate(D, N, F) && Cropped(D, E, ino, B, N, i + 1, F)
    ensures Overhead(i) <= Overhead(i + 1) <= |N|
    ensures Shrinkable(E, ino, B[..i], B[i], N[..Overhead(i)], N[Overhead(i)..Overhead(i + 1)],
      N[Overhead(i + 1)..] + F)
  {
    hide Holds, Linked, Overhead, Lo;
    OverheadStep(i);
    var a, c := Overhead(i), Overhead(i + 1);
    assert B[..i] + [B[i]] == B[..i + 1];
    assert N[..a] + N[a..c] == N[..c];
    assert N[..c] + N[c..] == N;
    DistinctParts(N[..c], N[c..]);
    assert |N[a..c]| == NewNodes(|B[..i]|);
    assert forall x :: x in N[..c] ==> x in N;
    assert Geometry(E) && Distinct(N[..c]) && Apart(N[..c], N[c..] + F);
  }

  lemma CroppedStep(D: seq<Block>, E: seq<Block>, E2: seq<Block>, ino: InodeRec, B: seq<nat>, N: seq<nat>, i: nat,
                    F: seq<nat>)
    requires i < |B| <= Lo(4) && |N| == Overhead(|B|) && OnlyTouches(D, E, N, []) &&
      Overhead(i) <= Overhead(i + 1) <= |N|
    requires Shrunk(E, E2, ino, B[..i], N[..Overhead(i)], N[Overhead(i)..Overhead(i + 1)], N[Overhead(i + 1)..] + F)
    ensures Cropped(D, E2, ino, B, N, i, F)
  {
    hide Holds, Chain, Overhead, Lo;
    var a, c := Overhead(i), Overhead(i + 1);
    assert N[a..c] + (N[c..] + F) == N[a..] + F;
    assert N[..a] + N[a..c] == N[..c];
  }

  lemma CroppedAll(D: seq<Block>, ino: InodeRec, B: seq<nat>, N: seq<nat>, F: seq<nat>)
    requires Holds(D, ino, B, N) && Chain(D, F)
    ensures Cropped(D, D, ino, B, N, |B|, F)
  {
    hide Tree, Kids, Linked, Overhead, Lo;
    assert B[..|B|] == B && N[..|N|] == N && N[|N|..] + F == F;
  }

  lemma CroppedEnd(D: seq<Block>, E: seq<Block>, ino: InodeRec, B: seq<nat>, N: seq<nat>, i: nat, F: seq<nat>)
    requires i <= |B| && |N| == Overhead(|B|) && Cropped(D, E, ino, B, N, i, F)
    ensures Overhead(i) <= |N| && Holds(E, ino, B[..i], N[..Overhead(i)])
    ensures Chain(E, N[Overhead(i)..] + F) && OnlyTouches(D, E, N, [])
  {
  }

  /** remove_dblk from the last index down to start, the loop whose effect remove_dblks
      summarises. It puts the same nodes N[Overhead(start)..] on the free list. */
  method RemoveOneByOne(d: Disk, inode: Inode, start: nat, end: nat, ghost B: seq<nat>, ghost N: seq<nat>,
                        ghost F: seq<nat>)
    requires Holds(d.dev, inode.Rec(), B, N) && start <= end == |B| && Chain(d.dev, F) && Separate(d.dev, N, F)
    modifies d, inode
    ensures SameMeta(old(inode.Rec()), inode.Rec())
    ensures Overhead(start) <= |N| && Holds(d.dev, inode.Rec(), B[..start], N[..Overhead(start)])
    ensures Chain(d.dev, N[Overhead(start)..] + F) && OnlyTouches(old(d.dev), d.dev, N, [])
  {
    hide Tree, Kids, Chain, Separate, Holds, Cropped, Overhead, Lo, Shrunk, Shrinkable, OnlyTouches;
    ghost var D := d.dev;
    HoldsSize(D, inode.Rec(), B, N);
    CroppedAll(D, inode.Rec(), B, N, F);
    var i := end;
    while i > start
      invariant start <= i <= end
      invariant Cropped(D, d.dev, inode.Rec(), B, N, i, F)
      invariant SameMeta(old(inode.Rec()), inode.Rec())
    {
      i := i - 1;
      ghost var E := d.dev;
      CropStep(D, E, inode.Rec(), B, N, i, F);
      CroppedEnd(D, E, inode.Rec(), B, N, i + 1, F);
      var blk := RemoveDblk(d, inode, i, B[..i], B[i], N[..Overhead(i)], N[Overhead(i)..Overhead(i + 1)],
        N[Overhead(i + 1)..] + F);
      CroppedStep(D, E, d.dev, inode.Rec(), B, N, i, F);
    }
    CroppedEnd(D, d.dev, inode.Rec(), B, N, start, F);
  }

  // ---- What remove_dblks leaves behind ----

  lemma StaleKid(D: seq<Block>, E: seq<Block>, h: nat, B: seq<nat>, M: seq<nat>, keep: nat, q: nat, r: nat)
    requires h > 0 && |D| == |E| && keep == Times(q, Cap(h - 1)) + r && r < Cap(h - 1) && 0 < keep < |B|
    requires forall x :: x in B || x in M ==> x != 0
    requires forall j :: 0 <= j < |M| && j + 1 < Ind(h, keep) && M[j] < |D| ==> E[M[j]] == D[M[j]]
    ensures r < |KidBlocks(h, B, q)| && KidBlocks(h, B[..keep], q) == KidBlocks(h, B, q)[..r]
    ensures forall x :: x in KidBlocks(h, B, q) || x in KidNodes(h, M, q) ==> x != 0
    ensures var K := KidNodes(h, M, q); forall j :: 0 <= j < |K| && j < Ind(h - 1, r) && K[j] < |D| ==>
      E[K[j]] == D[K[j]]
  {
    hide Ind, Cap, Full;
    IndParts(h, keep, q, r);
    ChunkIn(B, q, Cap(h - 1));
    ChunkIn(M, q, Full(h - 1));
    var K := KidNodes(h, M, q);
    forall j | 0 <= j < |K| && j < Ind(h - 1, r) && K[j] < |D| ensures E[K[j]] == D[K[j]] {
      assert K[j] == M[Times(q, Full(h - 1)) + j];
    }
  }

  /** A tree cropped by remove_dblks alone is not a tree for the blocks that stay. */
  lemma {:induction false} StaleTree(D: seq<Block>, E: seq<Block>, h: nat, no: nat, B: seq<nat>, N: seq<nat>, keep: nat)
    requires Tree(D, h, no, B, N) && keep < |B| && |D| == |E|
    requires forall x :: x in B || x in N ==> x != 0
    requires forall j :: 0 <= j < |N| && j < Ind(h, keep) && N[j] < |D| ==> E[N[j]] == D[N[j]]
    ensures forall Z: seq<nat> :: !Tree(E, h, no, B[..keep], Z)
    decreases h
  {
    if keep == 0 {
      assert B[..keep] == [] && B[0] in B && (h > 0 ==> N[0] in N);
    } else if h > 0 {
      StaleRoot(D, E, h, no, B, N, keep);
      var q, r := DivCap(h - 1, keep);
      var M := N[1..];
      KidOf(D, h, no, B, N, q);
      StaleKid(D, E, h, B, M, keep, q, r);
      StaleTree(D, E, h - 1, D[no].nos[q], KidBlocks(h, B, q), KidNodes(h, M, q), r);
      forall Z: seq<nat> ensures !Tree(E, h, no, B[..keep], Z) {
        if Tree(E, h, no, B[..keep], Z) {
          KidOf(E, h, no, B[..keep], Z, q);
          assert false;
        }
      }
    }
  }

  lemma StaleRoot(D: seq<Block>, E: seq<Block>, h: nat, no: nat, B: seq<nat>, N: seq<nat>, keep: nat)
    requires h > 0 && Tree(D, h, no, B, N) && 0 < keep < |B| && |D| == |E|
    requires forall x :: x in N ==> x != 0
    requires forall j :: 0 <= j < |N| && j < Ind(h, keep) && N[j] < |D| ==> E[N[j]] == D[N[j]]
    ensures no < |D| && E[no] == D[no] && |B| <= Cap(h) && N != []
    ensures var M := N[1..];
      && (forall x :: x in M ==> x != 0)
      && (forall j :: 0 <= j < |M| && j + 1 < Ind(h, keep) && M[j] < |D| ==> E[M[j]] == D[M[j]])
  {
    hide Kids;
    IndPositive(h, keep);
    TreeSize(D, h, no, B, N);
    assert N[0] == no && forall x :: x in N[1..] ==> x in N;
  }

  lemma FreedKeeps(D: seq<Block>, E: seq<Block>, N: seq<nat>, a: nat, P: seq<nat>, F: seq<nat>)
    requires Separate(D, N, F) && a <= |N| && Freed(D, E, P, F) && multiset(P) == multiset(N[a..])
    ensures |E| == |D| && forall j :: 0 <= j < a && N[j] < |D| ==> E[N[j]] == D[N[j]]
  {
    hide Chain;
    assert N == N[..a] + N[a..];
    DistinctParts(N[..a], N[a..]);
    SameMembers(P, N[a..]);
    forall j | 0 <= j < a && N[j] < |D| ensures E[N[j]] == D[N[j]] {
      assert N[j] == N[..a][j];
      assert N[j] in N && N[j] in N[..a];
    }
  }

  /** So remove_dblks replaces the loop exactly when it has nothing to do: otherwise the
      inode and the kept nodes still name the blocks that went. Its caller truncate_file
      passes start 0 and clears the inode. */
  lemma RemoveDblksLeavesStale(D: seq<Block>, E: seq<Block>, ino: InodeRec, B: seq<nat>, N: seq<nat>, start: nat,
                               P: seq<nat>, F: seq<nat>)
    requires Holds(D, ino, B, N) && Separate(D, N, F) && start <= |B| && (forall x :: x in B ==> x != 0)
    requires Freed(D, E, P, F) && multiset(P) == multiset(N[Min(Overhead(start), |N|)..])
    ensures (exists Z: seq<nat> :: Holds(E, ino, B[..start], Z)) <==> start == |B|
  {
    hide Tree, Kids, Chain, Overhead, Lo, NodeLo, Ind;
    var a := Min(Overhead(start), |N|);
    FreedKeeps(D, E, N, a, P, F);
    if start == |B| {
      assert B[..start] == B;
      assert forall x :: x in N ==> exists j :: 0 <= j < |N| && N[j] == x;
      HoldsFrame(D, E, ino, B, N);
    } else {
      forall Z: seq<nat> ensures !Holds(E, ino, B[..start], Z) {
        if Holds(E, ino, B[..start], Z) {
          StaleInode(D, E, ino, B, N, start, Z);
        }
      }
    }
  }

  lemma StaleInode(D: seq<Block>, E: seq<Block>, ino: InodeRec, B: seq<nat>, N: seq<nat>, start: nat, Z: seq<nat>)
    requires Holds(D, ino, B, N) && start < |B| && |D| == |E| && (forall x :: x in B || x in N ==> x != 0)
    requires forall j :: 0 <= j < |N| && j < Overhead(start) && N[j] < |D| ==> E[N[j]] == D[N[j]]
    ensures !Holds(E, ino, B[..start], Z)
  {
    hide Tree, Kids, Overhead, NodeLo, Ind, Lo;
    var k := Arm(start);
    ArmBounds(start, if k == 0 then 1 else k);
    if k == 0 {
      DirectIndex(start);
      assert Page(B[..start], 0, DIRECT_BLOCKS, 0)[start] == 0;
      assert Page(B, 0, DIRECT_BLOCKS, 0)[start] == B[start] && B[start] in B;
    } else {
      KeepBounds(start, k);
      StaleArm(D, E, Root(ino, k), B, N, start, k, Z);
    }
  }

  lemma PartCrop<T>(s: seq<T>, n: nat, lo: nat, hi: nat)
    requires lo <= n <= hi && n <= |s|
    ensures n - lo <= |Part(s, lo, hi)| && Part(s[..n], lo, hi) == Part(s, lo, hi)[..n - lo]
    ensures n < |s| && n < hi ==> n - lo < |Part(s, lo, hi)|
  {
    assert Part(s[..n], lo, hi) == s[lo..n];
  }

  lemma StaleArm(D: seq<Block>, E: seq<Block>, no: nat, B: seq<nat>, N: seq<nat>, start: nat, k: nat, Z: seq<nat>)
    requires 1 <= k <= 3 && Tree(D, k, no, ArmBlocks(B, k), ArmNodes(N, k)) && Lo(k) <= start < Lo(k + 1) && start < |B|
    requires |D| == |E| && (forall x :: x in B || x in N ==> x != 0)
    requires Overhead(start) == NodeLo(k) + Ind(k, start - Lo(k)) && NodeLo(k) <= NodeLo(k + 1)
    requires forall j :: 0 <= j < |N| && j < Overhead(start) && N[j] < |D| ==> E[N[j]] == D[N[j]]
    ensures !Tree(E, k, no, ArmBlocks(B[..start], k), ArmNodes(Z, k))
  {
    hide Tree, Kids, Overhead, NodeLo, Ind, Lo;
    var AB, AN := ArmBlocks(B, k), ArmNodes(N, k);
    PartCrop(B, start, Lo(k), Lo(k + 1));
    assert forall x :: x in AB ==> x in B;
    assert forall x :: x in AN ==> x in N;
    forall j | 0 <= j < |AN| && j < Ind(k, start - Lo(k)) && AN[j] < |D| ensures E[AN[j]] == D[AN[j]] {
      assert AN[j] == N[NodeLo(k) + j];
    }
    StaleTree(D, E, k, no, AB, AN, start - Lo(k));
  }

  lemma DirectIndex(n: nat)
    requires Arm(n) == 0
    ensures n < DIRECT_BLOCKS
  {
  }
}
