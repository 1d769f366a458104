/**
 * What a tree of indirect blocks holds. B lists the data blocks in file order
 * and N the indirect blocks in preorder, which is the order in which appending
 * allocates them.
 */
module PointerTree {
  import opened Layout
  import opened Radix
  import opened Device

  ghost predicate Tree(D: seq<Block>, h: nat, no: nat, B: seq<nat>, N: seq<nat>)
    decreases h, 1
  {
    if B == [] then no == 0 && N == []
    else if h == 0 then B == [no] && N == []
    else N != [] && N[0] == no && no < |D| && D[no].Indirect? && Kids(D, h, D[no].nos, B, N[1..])
  }

  /** The FANOUT subtrees below a node of height h; unused ones are 0. */
  ghost predicate Kids(D: seq<Block>, h: nat, nos: seq<nat>, B: seq<nat>, M: seq<nat>)
    requires h > 0
    decreases h, 0
  {
    |nos| == FANOUT && |B| <= Cap(h) &&
    |M| == Ind(h, |B|) - (if B == [] then 0 else 1) &&
    forall i :: 0 <= i < FANOUT ==>
      Tree(D, h - 1, nos[i], KidBlocks(h, B, i), KidNodes(h, M, i))
  }

  /** The data blocks, and the nodes, below child i of a node of height h. */
  function KidBlocks(h: nat, B: seq<nat>, i: nat): seq<nat>
    requires h > 0
  {
    Chunk(B, i, Cap(h - 1))
  }

  function KidNodes(h: nat, M: seq<nat>, i: nat): seq<nat>
    requires h > 0
  {
    Chunk(M, i, Full(h - 1))
  }

  ghost predicate SameKid(h: nat, B: seq<nat>, M: seq<nat>, B': seq<nat>, M': seq<nat>, i: nat)
    requires h > 0
  {
    KidBlocks(h, B', i) == KidBlocks(h, B, i) && KidNodes(h, M', i) == KidNodes(h, M, i)
  }

  /** The nodes N are distinct blocks of the data region, none of them free. */
  ghost predicate Separate(D: seq<Block>, N: seq<nat>, F: seq<nat>) {
    Geometry(D) && Distinct(N) && Apart(N, F) && forall x :: x in N ==> InRegion(D, x)
  }

  // ---- Sequences cut into chunks ----

  /** Growing s inside its q-th chunk changes that chunk only. */
  lemma ChunkGrow<T>(s: seq<T>, x: seq<T>, q: nat, w: nat, i: nat)
    requires Times(q, w) <= |s| && |s| + |x| <= Times(q, w) + w
    ensures i == q ==> Chunk(s + x, i, w) == Chunk(s, i, w) + x
    ensures i != q ==> Chunk(s + x, i, w) == Chunk(s, i, w)
  {
    TimesStep(i, q, w);
    TimesStep(q, i, w);
  }

  lemma ChunkApart<T>(s: seq<T>, i: nat, j: nat, w: nat)
    requires Distinct(s) && i != j
    ensures Apart(Chunk(s, i, w), Chunk(s, j, w))
  {
    TimesStep(i, j, w);
    TimesStep(j, i, w);
  }

  lemma ChunkIn<T>(s: seq<T>, i: nat, w: nat)
    ensures forall x :: x in Chunk(s, i, w) ==> x in s
  {
  }

  /** Every position below n * w lies in one of the first n chunks. */
  lemma {:induction false} ChunkCovers<T>(s: seq<T>, n: nat, w: nat, j: nat) returns (i: nat)
    requires j < |s| && j < Times(n, w)
    ensures i < n && s[j] in Chunk(s, i, w)
  {
    if j < Times(n - 1, w) {
      i := ChunkCovers(s, n - 1, w, j);
    } else {
      i := n - 1;
      assert Chunk(s, i, w)[j - Times(n - 1, w)] == s[j];
    }
  }

  lemma {:induction false} ChunkOf(n: nat, w: nat, j: nat) returns (i: nat)
    requires j < Times(n, w)
    ensures i < n && Times(i, w) <= j < Times(i, w) + w
  {
    if j < Times(n - 1, w) { i := ChunkOf(n - 1, w, j); } else { i := n - 1; }
  }

  /** Sequences of one length are equal if their chunks are. */
  lemma SameChunks<T>(s: seq<T>, t: seq<T>, n: nat, w: nat)
    requires |s| == |t| <= Times(n, w) && forall i :: 0 <= i < n ==> Chunk(s, i, w) == Chunk(t, i, w)
    ensures s == t
  {
    forall j | 0 <= j < |s| ensures s[j] == t[j] {
      var i := ChunkOf(n, w, j);
      assert Chunk(s, i, w)[j - Times(i, w)] == Chunk(t, i, w)[j - Times(i, w)];
    }
  }

  lemma SameKids(h: nat, B: seq<nat>, M: seq<nat>, B': seq<nat>, M': seq<nat>)
    requires h > 0 && |B| == |B'| <= Cap(h) && |M| == |M'| && |M| + 1 <= Full(h)
    requires forall i :: 0 <= i < FANOUT ==> SameKid(h, B, M, B', M', i)
    ensures B == B' && M == M'
  {
    hide Cap, Full, Chunk;
    CapTimes(h - 1);
    var c, f := Cap(h - 1), Full(h - 1);
    forall i | 0 <= i < FANOUT ensures Chunk(B, i, c) == Chunk(B', i, c) { assert SameKid(h, B, M, B', M', i); }
    forall i | 0 <= i < FANOUT ensures Chunk(M, i, f) == Chunk(M', i, f) { assert SameKid(h, B, M, B', M', i); }
    SameChunks(B, B', FANOUT, c);
    SameChunks(M, M', FANOUT, f);
  }

  /** A tree on a device holds, of a given number of blocks, one sequence only. */
  lemma {:induction false} TreeUnique(D: seq<Block>, h: nat, no: nat, B: seq<nat>, N: seq<nat>, B': seq<nat>,
          N': seq<nat>)
    requires Tree(D, h, no, B, N) && Tree(D, h, no, B', N') && |B| == |B'|
    ensures B == B' && N == N'
    decreases h
  {
    hide Cap, Full, Ind, Chunk;
    if B != [] && h > 0 {
      var M, M' := N[1..], N'[1..];
      forall i | 0 <= i < FANOUT ensures SameKid(h, B, M, B', M', i) {
        KidSizes(h, B, B', i);
        TreeUnique(D, h - 1, D[no].nos[i], KidBlocks(h, B, i), KidNodes(h, M, i), KidBlocks(h, B', i),
          KidNodes(h, M', i));
      }
      IndAtMostFull(h, |B|);
      FirstNode(h, |B|);
      SameKids(h, B, M, B', M');
      assert N == [no] + M && N' == [no] + M';
    }
  }

  lemma KidSizes(h: nat, B: seq<nat>, B': seq<nat>, i: nat)
    requires h > 0 && |B| == |B'|
    ensures |KidBlocks(h, B, i)| == |KidBlocks(h, B', i)|
  {
  }

  lemma FirstNode(h: nat, n: nat)
    requires h > 0 && n > 0
    ensures Ind(h, n) >= 1
  {
  }

  lemma ChunkDistinct<T>(s: seq<T>, i: nat, w: nat)
    requires Distinct(s)
    ensures Distinct(Chunk(s, i, w))
  {
  }

  // ---- Trees ----

  lemma {:induction false} TreeFrame(D: seq<Block>, E: seq<Block>, h: nat, no: nat, B: seq<nat>, N: seq<nat>)
    requires Tree(D, h, no, B, N)
    requires |D| == |E| && forall x :: x in N && x < |D| ==> E[x] == D[x]
    ensures Tree(E, h, no, B, N)
    decreases h, 1
  {
    if B != [] && h > 0 {
      assert N[0] in N;
      KidsFrame(D, E, h, D[no].nos, B, N[1..]);
    }
  }

  lemma {:induction false} KidsFrame(D: seq<Block>, E: seq<Block>, h: nat, nos: seq<nat>, B: seq<nat>, M: seq<nat>)
    requires h > 0 && Kids(D, h, nos, B, M)
    requires |D| == |E| && forall x :: x in M && x < |D| ==> E[x] == D[x]
    ensures Kids(E, h, nos, B, M)
    decreases h, 0
  {
    forall i | 0 <= i < FANOUT
      ensures Tree(E, h - 1, nos[i], KidBlocks(h, B, i), KidNodes(h, M, i))
    {
      ChunkIn(M, i, Full(h - 1));
      TreeFrame(D, E, h - 1, nos[i], KidBlocks(h, B, i), KidNodes(h, M, i));
    }
  }

  lemma TreeSize(D: seq<Block>, h: nat, no: nat, B: seq<nat>, N: seq<nat>)
    requires Tree(D, h, no, B, N)
    ensures |B| <= Cap(h) && |N| == Ind(h, |B|)
  {
  }

  lemma KidsNone(D: seq<Block>, h: nat)
    requires h > 0
    ensures Kids(D, h, Zeros(FANOUT), [], [])
  {
    forall i | 0 <= i < FANOUT
      ensures Tree(D, h - 1, 0, KidBlocks(h, [], i), KidNodes(h, [], i))
    {
      assert KidBlocks(h, [], i) == [];
      assert KidNodes(h, [], i) == [];
    }
  }

  /** The nodes of a subtree other than the q-th, when only nodes of the q-th changed. */
  lemma OtherKidSame(D: seq<Block>, E: seq<Block>, h: nat, q: nat, M: seq<nat>, M': seq<nat>, i: nat)
    requires h > 0 && i != q && KidNodes(h, M', i) == KidNodes(h, M, i) && Distinct(M) && |D| == |E|
    requires forall x :: x in M && x in M' && x < |D| && x !in KidNodes(h, M, q) ==> E[x] == D[x]
    ensures forall x :: x in KidNodes(h, M, i) && x < |D| ==> E[x] == D[x]
  {
    ChunkApart(M, i, q, Full(h - 1));
    forall x | x in KidNodes(h, M, i) && x < |D| ensures E[x] == D[x] {
      ChunkIn(M, i, Full(h - 1));
      ChunkIn(M', i, Full(h - 1));
    }
  }

  /** Replacing the q-th subtree, when every other chunk stays as it is. */
  lemma KidsReplace(D: seq<Block>, E: seq<Block>, h: nat, nos: seq<nat>, q: nat, kid: nat, B: seq<nat>, M: seq<nat>,
                    B': seq<nat>, M': seq<nat>)
    requires h > 0 && q < FANOUT && Kids(D, h, nos, B, M) && Distinct(M)
    requires |B'| <= Cap(h) && |M'| == Ind(h, |B'|) - (if B' == [] then 0 else 1)
    requires forall i :: 0 <= i < FANOUT && i != q ==> SameKid(h, B, M, B', M', i)
    requires Tree(E, h - 1, kid, KidBlocks(h, B', q), KidNodes(h, M', q))
    requires |D| == |E|
    requires forall x :: x in M && x in M' && x < |D| && x !in KidNodes(h, M, q) ==> E[x] == D[x]
    ensures Kids(E, h, nos[q := kid], B', M')
  {
    var nos' := nos[q := kid];
    forall i | 0 <= i < FANOUT ensures Tree(E, h - 1, nos'[i], KidBlocks(h, B', i), KidNodes(h, M', i)) {
      if i != q {
        assert SameKid(h, B, M, B', M', i);
        OtherKidSame(D, E, h, q, M, M', i);
        TreeFrame(D, E, h - 1, nos[i], KidBlocks(h, B, i), KidNodes(h, M, i));
      }
    }
  }

  /** Where the next data block of a node goes: subtree q, index r inside it. */
  ghost predicate At(h: nat, B: seq<nat>, M: seq<nat>, q: nat, r: nat)
    requires h > 0
  {
    |B| == Times(q, Cap(h - 1)) + r && r < Cap(h - 1) && q < FANOUT &&
    |M| == Times(q, Full(h - 1)) + Ind(h - 1, r)
  }

  lemma AtChunks(h: nat, B: seq<nat>, M: seq<nat>, q: nat, r: nat)
    requires h > 0 && At(h, B, M, q, r)
    ensures |KidBlocks(h, B, q)| == r < Cap(h - 1)
    ensures |KidNodes(h, M, q)| == Ind(h - 1, r)
  {
    IndAtMostFull(h - 1, r);
  }

  lemma AtKids(h: nat, B: seq<nat>, M: seq<nat>, n: nat) returns (q: nat, r: nat)
    requires h > 0 && |B| == n < Cap(h) && |M| == Ind(h, n) - (if B == [] then 0 else 1)
    ensures At(h, B, M, q, r)
    ensures q == n / Cap(h - 1) && r == n % Cap(h - 1)
    ensures h == 1 ==> q == n && r == 0
    ensures New(h, n) == (if n == 0 then 1 else 0) + New(h - 1, r)
  {
    q, r := DivCap(h - 1, n);
    QuotUnique(n, q, r, Cap(h - 1));
    if n > 0 { IndParts(h, n, q, r); }
  }

  /** Adding one data block, and the nodes it needs, changes one subtree. */
  lemma GrowKids(h: nat, B: seq<nat>, M: seq<nat>, q: nat, r: nat, b: nat, X: seq<nat>)
    requires h > 0 && At(h, B, M, q, r) && |X| == New(h - 1, r)
    ensures KidBlocks(h, B + [b], q) == KidBlocks(h, B, q) + [b]
    ensures KidNodes(h, M + X, q) == KidNodes(h, M, q) + X
    ensures forall i :: 0 <= i < FANOUT && i != q ==> SameKid(h, B, M, B + [b], M + X, i)
  {
    IndStep(h - 1, r);
    IndAtMostFull(h - 1, r + 1);
    forall i | 0 <= i < FANOUT && i != q ensures SameKid(h, B, M, B + [b], M + X, i) {
      ChunkGrow(B, [b], q, Cap(h - 1), i);
      ChunkGrow(M, X, q, Full(h - 1), i);
    }
    ChunkGrow(B, [b], q, Cap(h - 1), q);
    ChunkGrow(M, X, q, Full(h - 1), q);
  }

  lemma KidsAppend(D: seq<Block>, E: seq<Block>, h: nat, nos: seq<nat>, q: nat, r: nat, kid: nat, B: seq<nat>,
                   M: seq<nat>, b: nat, X: seq<nat>)
    requires h > 0 && Kids(D, h, nos, B, M) && Distinct(M) && At(h, B, M, q, r)
    requires |X| == New(h - 1, r)
    requires Tree(E, h - 1, kid, KidBlocks(h, B, q) + [b], KidNodes(h, M, q) + X)
    requires |D| == |E|
    requires forall x :: x in M && x < |D| && x !in KidNodes(h, M, q) ==> E[x] == D[x]
    ensures Kids(E, h, nos[q := kid], B + [b], M + X)
  {
    IndStep(h - 1, r);
    IndNext(h, |B|, q, r);
    TimesStep(q, FANOUT, Cap(h - 1));
    TimesIs(FANOUT, Cap(h - 1));
    GrowKids(h, B, M, q, r, b, X);
    KidsReplace(D, E, h, nos, q, kid, B, M, B + [b], M + X);
  }

  lemma KidsRemove(D: seq<Block>, E: seq<Block>, h: nat, nos: seq<nat>, q: nat, r: nat, kid: nat, B: seq<nat>,
                   M: seq<nat>, b: nat, X: seq<nat>)
    requires h > 0 && Kids(D, h, nos, B + [b], M + X) && Distinct(M + X) && At(h, B, M, q, r)
    requires |X| == New(h - 1, r) && B != []
    requires Tree(E, h - 1, kid, KidBlocks(h, B, q), KidNodes(h, M, q))
    requires |D| == |E|
    requires forall x :: x in M && x < |D| && x !in KidNodes(h, M + X, q) ==> E[x] == D[x]
    ensures Kids(E, h, nos[q := kid], B, M)
  {
    IndParts(h, |B|, q, r);
    GrowKids(h, B, M, q, r, b, X);
    assert forall i :: SameKid(h, B + [b], M + X, B, M, i) <==> SameKid(h, B, M, B + [b], M + X, i);
    KidsReplace(D, E, h, nos, q, kid, B + [b], M + X, B, M);
  }
}
