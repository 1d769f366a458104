/** read_file, write_file and truncate_file as operations on a byte sequence. */
module FileContents {
  import opened Layout
  import opened Radix
  import opened Device
  import opened PointerTree
  import opened INode
  import opened DataBlockIterator
  import opened FreeFile
  import opened InodeTable
  import opened Store
  import opened Editing

  // ---- Byte sequences ----

  /** Byte p of a file, zero beyond its end. */
  function ByteAt(s: seq<Byte>, p: nat): Byte { if p < |s| then s[p] else 0 }

  function Max(a: nat, b: nat): nat { if a <= b then b else a }

  /** data with b written at off, zeros filling any gap. */
  function Splice(data: seq<Byte>, off: nat, b: seq<Byte>): (r: seq<Byte>)
    ensures |r| == Max(|data|, off + |b|)
    ensures forall p :: 0 <= p < |r| ==> r[p] == if off <= p < off + |b| then b[p - off] else ByteAt(data, p)
  {
    seq(Max(|data|, off + |b|), p requires 0 <= p < Max(|data|, off + |b|) =>
      if off <= p < off + |b| then b[p - off] else ByteAt(data, p))
  }

  function BlockBytes(s: seq<Byte>, k: nat): (p: seq<Byte>)
    ensures |p| == BLOCK_SIZE
  {
    Page(s, k, BLOCK_SIZE, 0)
  }

  /** t with s copied in at position o. */
  function Patch(t: seq<Byte>, o: nat, s: seq<Byte>): seq<Byte>
    requires o + |s| <= |t|
  {
    t[..o] + s + t[o + |s|..]
  }

  lemma MulOrder(a: nat, b: nat, w: nat)
    ensures a < b ==> a * w + w <= b * w
  {
    TimesIs(a, w);
    TimesIs(b, w);
    TimesStep(a, b, w);
  }

  /** Copying the next m bytes of buf changes one block, by one patch. */
  lemma SpliceStep(data: seq<Byte>, off: nat, buf: seq<Byte>, w: nat, m: nat, kk: nat, o: nat, k: nat)
    requires w + m <= |buf| && off + w == kk * BLOCK_SIZE + o && o + m <= BLOCK_SIZE
    ensures var before, after := Splice(data, off, buf[..w]), Splice(data, off, buf[..w + m]);
      BlockBytes(after, k) == if k == kk then Patch(BlockBytes(before, k), o, buf[w..w + m]) else BlockBytes(before, k)
  {
    var before, after := Splice(data, off, buf[..w]), Splice(data, off, buf[..w + m]);
    MulOrder(k, kk, BLOCK_SIZE);
    MulOrder(kk, k, BLOCK_SIZE);
    forall j | 0 <= j < BLOCK_SIZE
      ensures BlockBytes(after, k)[j] ==
        (if k == kk then Patch(BlockBytes(before, k), o, buf[w..w + m]) else BlockBytes(before, k))[j]
    {
      var p := k * BLOCK_SIZE + j;
      assert BlockBytes(after, k)[j] == ByteAt(after, p) && BlockBytes(before, k)[j] == ByteAt(before, p);
      assert ByteAt(after, p) == if off + w <= p < off + w + m then buf[p - off] else ByteAt(before, p);
    }
  }

  /** A write of no bytes leaves every block as it is: blocks past the end are zero. */
  lemma SpliceNothing(data: seq<Byte>, off: nat, k: nat)
    ensures BlockBytes(Splice(data, off, []), k) == BlockBytes(data, k)
  {
    forall j | 0 <= j < BLOCK_SIZE ensures BlockBytes(Splice(data, off, []), k)[j] == BlockBytes(data, k)[j] {
    }
  }

  /** A new block holds zeros. */
  lemma ZeroBlock(data: seq<Byte>, k: nat)
    requires k >= CeilDiv(|data|, BLOCK_SIZE)
    ensures BlockBytes(data, k) == seq(BLOCK_SIZE, _ => 0)
  {
    CeilBound(|data|, k);
  }

  lemma CeilBound(n: nat, k: nat)
    ensures k >= CeilDiv(n, BLOCK_SIZE) <==> k * BLOCK_SIZE >= n
  {
  }

  // ---- Growing a file ----

  /** Blocks that growing a file from m to n data blocks takes off the free list. */
  function GrowthCost(m: nat, n: nat): (c: nat) {
    if m <= n then OverheadMonotone(m, n); n - m + Overhead(n) - Overhead(m) else 0
  }

  /** ... in closed form. */
  lemma GrowthClosed(m: nat, n: nat)
    requires m <= n
    ensures GrowthCost(m, n) == n - m + LevelSums(3, n) - LevelSums(3, m)
  {
    hide LevelSums, OverheadUpTo;
    OverheadClosed(3, m);
    OverheadClosed(3, n);
  }

  lemma OverheadMonotone(m: nat, n: nat)
    requires m <= n
    ensures Overhead(m) <= Overhead(n)
  {
    OverheadUpToMonotone(3, m, n);
  }

  lemma {:induction false} OverheadUpToMonotone(k: nat, m: nat, n: nat)
    requires m <= n
    ensures OverheadUpTo(k, m) <= OverheadUpTo(k, n)
  {
    hide Cut, Ind;
    if k > 0 {
      OverheadUpToMonotone(k - 1, m, n);
      CutMonotone(m, n, Lo(k), Lo(k + 1));
      LoMono(k, k + 1);
      IndMonotone(k, Cut(m, Lo(k), Lo(k + 1)), Cut(n, Lo(k), Lo(k + 1)));
    }
  }

  lemma CutMonotone(m: nat, n: nat, a: nat, b: nat)
    requires m <= n && a <= b
    ensures Cut(m, a, b) <= Cut(n, a, b) <= b - a
  {
  }

  lemma {:induction false} IndMonotone(h: nat, m: nat, n: nat)
    requires m <= n <= Cap(h)
    ensures Ind(h, m) <= Ind(h, n)
  {
    hide Ind, Cap;
    if m < n {
      IndMonotone(h, m, n - 1);
      IndStep(h, n - 1);
    }
  }

  /** File a has been grown to n blocks, the free list is down to F; the bytes are unchanged. */
  ghost predicate GrownTo(D: seq<Block>, E: seq<Block>, st: State, i: nat, rec: InodeRec, n: nat, a: Node,
          F: seq<nat>) {
    Edited(D, E, st, i, rec, a, F) && a.File? && st.table[i].File? && SameMeta(RecAt(D, i), rec) &&
    (var f := st.table[i];
     a.data == f.data && a.links == f.links && |f.blks| <= |a.blks| == n && f.blks <= a.blks && f.nodes <= a.nodes &&
     |F| + GrowthCost(|f.blks|, n) == |st.chain| && F == st.chain[GrowthCost(|f.blks|, n)..]) &&
    (forall k :: 0 <= k < |a.blks| ==> a.blks[k] < |E| && E[a.blks[k]] == Data(BlockBytes(a.data, k)))
  }

  lemma GrownStart(D: seq<Block>, st: State, i: nat)
    requires Stored(D, st) && i < |st.table| && st.table[i].File?
    ensures GrownTo(D, D, st, i, RecAt(D, i), |st.table[i].blks|, st.table[i], st.chain)
  {
    hide Tree, Kids, Linked, Holds, Stored, Overhead;
    EditStart(D, st, i);
  }

  /** Growing from m to n blocks uses the free list up with the very last append: its data
      block is still allocated, its indirect blocks are not. */
  predicate LastFails(m: nat, n: nat, free: nat) {
    m < n && GrowthCost(m, n - 1) + 1 < free <= GrowthCost(m, n)
  }

  lemma {:induction false} CostStep(m: nat, n: nat)
    requires m <= n < Lo(4)
    ensures GrowthCost(m, n + 1) == GrowthCost(m, n) + 1 + NewNodes(n)
  {
    hide Overhead, Lo;
    OverheadStep(n);
    OverheadMonotone(m, n);
  }

  lemma CostMonotone(m: nat, n: nat, k: nat)
    requires m <= n <= k
    ensures GrowthCost(m, n) + k - n <= GrowthCost(m, k)
  {
    hide Overhead;
    OverheadMonotone(m, n);
    OverheadMonotone(n, k);
  }

  /** The free list is used up before the block n. */
  lemma MallocFails(m: nat, n: nat, k: nat, free: nat)
    requires m <= n < k && GrowthCost(m, n) + 1 == free
    ensures GrowthCost(m, k) >= free && !LastFails(m, k, free)
  {
    hide GrowthCost;
    CostMonotone(m, n, n + 1);
    CostMonotone(m, n + 1, k);
    CostMonotone(m, n, k - 1);
  }

  /** ... or with the indirect blocks for block n. */
  lemma AppendFails(m: nat, n: nat, k: nat, free: nat)
    requires m <= n < k && n < Lo(4) && GrowthCost(m, n) + 1 < free <= GrowthCost(m, n) + 1 + NewNodes(n)
    ensures GrowthCost(m, k) >= free && (LastFails(m, k, free) <==> k == n + 1)
  {
    hide GrowthCost, Lo, NewNodes;
    CostStep(m, n);
    CostMonotone(m, n + 1, k);
    if k > n + 1 { CostMonotone(m, n + 1, k - 1); }
  }

  lemma GrownCost(D: seq<Block>, E: seq<Block>, st: State, i: nat, rec: InodeRec, n: nat, a: Node, F: seq<nat>)
    requires GrownTo(D, E, st, i, rec, n, a, F)
    ensures |F| + GrowthCost(|st.table[i].blks|, n) == |st.chain| && |F| >= 1 && Chain(E, F) && n == |a.blks|
    ensures n == |st.table[i].blks| ==> F == st.chain
    ensures |st.table[i].blks| <= n && a.File?
  {
    hide Tree, Kids, Linked, Holds, Stored, Overhead, Conserved;
    if n == |st.table[i].blks| { NoCost(n); }
  }

  lemma NoCost(n: nat)
    ensures GrowthCost(n, n) == 0
  {
  }

  lemma GrowStep(D: seq<Block>, E: seq<Block>, E2: seq<Block>, E3: seq<Block>, st: State, i: nat, rec: InodeRec,
                 rec2: InodeRec, n: nat, a: Node, F: seq<nat>, no: nat, X: seq<nat>, F2: seq<nat>)
    requires GrownTo(D, E, st, i, rec, n, a, F) && |F| > 1 && no == F[0] && n < Lo(4) && NewNodes(n) < |F[1..]|
    requires Chain(E2, F[1..]) && OnlyTouches(E, E2, [no], [])
    requires no < |E2| && E2[no] == Data(seq(BLOCK_SIZE, _ => 0)) && SameMeta(rec, rec2)
    requires Extended(E2, E3, rec2, a.blks, a.nodes, no, F[1..], X, F2)
    ensures GrownTo(D, E3, st, i, rec2, n + 1, Grown(a, no, X), F2)
  {
    hide Tree, Kids, Linked, Holds, Stored, Overhead, Conserved, BlockBytes, Edited, GrowthCost, NewNodes, Lo;
    GrownEdit(D, E, st, i, rec, n, a, F);
    EditGrow(D, E, E2, E3, st, i, rec, rec2, a, F, no, X, F2);
    CostStep(|st.table[i].blks|, n);
    ZeroBlock(a.data, n);
    assert F == [no] + X + F2;
    var f := st.table[i];
    assert st.chain[GrowthCost(|f.blks|, n)..][1 + |X|..] == st.chain[GrowthCost(|f.blks|, n + 1)..];
  }

  lemma GrownEdit(D: seq<Block>, E: seq<Block>, st: State, i: nat, rec: InodeRec, n: nat, a: Node, F: seq<nat>)
    requires GrownTo(D, E, st, i, rec, n, a, F)
    ensures Edited(D, E, st, i, rec, a, F) && i < |st.table| && n >= CeilDiv(|a.data|, BLOCK_SIZE)
  {
    hide Tree, Kids, Linked, Holds, Conserved, Chain;
    assert Is(D, RecAt(D, i), st.table[i]);
  }

  // ---- write_file ----

  /** The blocks hold a's bytes with the first w bytes of buf written at off. */
  ghost predicate WrittenTo(D: seq<Block>, E: seq<Block>, st: State, i: nat, rec: InodeRec, a: Node, F: seq<nat>,
                            off: nat, buf: seq<Byte>, w: nat)
  {
    Edited(D, E, st, i, rec, a, F) && a.File? && w <= |buf| &&
    forall k :: 0 <= k < |a.blks| ==>
      a.blks[k] < |E| && E[a.blks[k]] == Data(BlockBytes(Splice(a.data, off, buf[..w]), k))
  }

  lemma WrittenStart(D: seq<Block>, E: seq<Block>, st: State, i: nat, rec: InodeRec, n: nat, a: Node, F: seq<nat>,
                     off: nat, buf: seq<Byte>)
    requires GrownTo(D, E, st, i, rec, n, a, F)
    ensures WrittenTo(D, E, st, i, rec, a, F, off, buf, 0)
  {
    hide Edited, BlockBytes, Splice;
    forall k | 0 <= k < |a.blks|
      ensures E[a.blks[k]] == Data(BlockBytes(Splice(a.data, off, buf[..0]), k))
    {
      assert buf[..0] == [];
      SpliceNothing(a.data, off, k);
    }
  }

  lemma WrittenBlock(D: seq<Block>, E: seq<Block>, st: State, i: nat, rec: InodeRec, a: Node, F: seq<nat>, off: nat,
                     buf: seq<Byte>, w: nat, kk: nat)
    requires WrittenTo(D, E, st, i, rec, a, F, off, buf, w) && kk < |a.blks|
    ensures a.blks[kk] < |E| && E[a.blks[kk]] == Data(BlockBytes(Splice(a.data, off, buf[..w]), kk))
    ensures Holds(E, rec, a.blks, a.nodes)
  {
  }

  lemma WrittenStep(D: seq<Block>, E: seq<Block>, E2: seq<Block>, st: State, i: nat, rec: InodeRec, a: Node,
                    F: seq<nat>, off: nat, buf: seq<Byte>, w: nat, m: nat, kk: nat, o: nat)
    requires WrittenTo(D, E, st, i, rec, a, F, off, buf, w) && kk < |a.blks| && a.blks[kk] < |E|
    requires w + m <= |buf| && off + w == kk * BLOCK_SIZE + o && o + m <= BLOCK_SIZE
    requires E2 == E[a.blks[kk] := Data(Patch(BlockBytes(Splice(a.data, off, buf[..w]), kk), o, buf[w..w + m]))]
    ensures WrittenTo(D, E2, st, i, rec, a, F, off, buf, w + m)
  {
    hide Edited, BlockBytes, Splice, Patch;
    var b := E2[a.blks[kk]];
    EditData(D, E, E2, st, i, rec, a, F, a.blks[kk], b);
    BlksDistinct(D, E, st, i, rec, a, F);
    forall k | 0 <= k < |a.blks|
      ensures E2[a.blks[k]] == Data(BlockBytes(Splice(a.data, off, buf[..w + m]), k))
    {
      SpliceStep(a.data, off, buf, w, m, kk, o, k);
    }
  }

  /** The write as an abstract step: the bytes are spliced, and exactly the blocks that
      growing the file costs come off the free list. */
  ghost predicate WriteStep(st: State, i: nat, off: nat, buf: seq<Byte>, st': State) {
    i < |st.table| == |st'.table| && st.table[i].File? && st'.table[i].File? &&
    st'.table == st.table[i := st'.table[i]] &&
    var f, g := st.table[i], st'.table[i];
    g.data == Splice(f.data, off, buf) && g.links == f.links &&
    f.blks <= g.blks && f.nodes <= g.nodes && |g.blks| == CeilDiv(|g.data|, BLOCK_SIZE) &&
    var c := GrowthCost(|f.blks|, |g.blks|);
    c <= |st.chain| && st'.chain == st.chain[c..] && Blocks(g) == Blocks(f) + multiset(st.chain[..c])
  }

  lemma CeilMax(x: nat, y: nat)
    ensures CeilDiv(Max(x, y), BLOCK_SIZE) == Max(CeilDiv(x, BLOCK_SIZE), CeilDiv(y, BLOCK_SIZE))
  {
  }

  /** The file's new blocks are those taken off the free list. */
  lemma GrownBlocksFrom(D: seq<Block>, E: seq<Block>, st: State, i: nat, rec: InodeRec, n: nat, a: Node, F: seq<nat>)
    requires GrownTo(D, E, st, i, rec, n, a, F)
    ensures var c := GrowthCost(|st.table[i].blks|, n); Blocks(a) == Blocks(st.table[i]) + multiset(st.chain[..c])
  {
    hide Tree, Kids, Linked, Holds, Overhead, Blocks, Region, Chain, GrowthCost, BlockBytes;
    var c, f := GrowthCost(|st.table[i].blks|, n), st.table[i];
    var T, T2 := AllBlocks(st.table), AllBlocks(st.table[i := a]);
    SumUpdate(st.table, i, a, Blocks);
    SameRegion(D, E);
    assert st.chain == st.chain[..c] + F;
    forall z ensures Blocks(a)[z] == (Blocks(f) + multiset(st.chain[..c]))[z] {
      assert (T2 + Blocks(f))[z] == (T + Blocks(a))[z];
      assert (multiset(F) + T2)[z] == (multiset(st.chain) + T)[z];
    }
  }

  /** The record written back describes the new bytes. */
  lemma WriteFinish(D: seq<Block>, E1: seq<Block>, E: seq<Block>, E2: seq<Block>, st: State, i: nat, rec: InodeRec,
                    rec2: InodeRec, n: nat, a: Node, F: seq<nat>, off: nat, buf: seq<Byte>)
    requires GrownTo(D, E1, st, i, rec, n, a, F) && WrittenTo(D, E, st, i, rec, a, F, off, buf, |buf|)
    requires n == Max(|st.table[i].blks|, CeilDiv(off + |buf|, BLOCK_SIZE)) && |buf| > 0
    requires rec2 == rec.(size := Max(|a.data|, off + |buf|)) && InodeWritten(E, E2, i, rec2)
    ensures var a2 := a.(data := Splice(a.data, off, buf)); var st' := State(F, st.table[i := a2]);
      Stored(E2, st') && WriteStep(st, i, off, buf, st')
  {
    hide Tree, Kids, Linked, Holds, Conserved, RecAt, Overhead, Page;
    var a2 := a.(data := Splice(a.data, off, buf));
    assert buf[..|buf|] == buf;
    assert Is(D, RecAt(D, i), st.table[i]);
    CeilMax(|a.data|, off + |buf|);
    GrownBlocksFrom(D, E1, st, i, rec, n, a, F);
    EditRetype(D, E, st, i, rec, a, a2, F);
    EditStored(D, E, E2, st, i, rec, rec2, a2, F);
  }

  lemma GrownFile(a: Node, no: nat, X: seq<nat>)
    requires a.File?
    ensures Grown(a, no, X).File?
  {
  }

  lemma GrownSize(D: seq<Block>, E: seq<Block>, st: State, i: nat, rec: InodeRec, n: nat, a: Node, F: seq<nat>)
    requires GrownTo(D, E, st, i, rec, n, a, F)
    ensures a.File? && |a.blks| == n && i < |st.table| && st.table[i].File? && a.data == st.table[i].data
    ensures rec.size == |a.data| && SameMeta(RecAt(D, i), rec)
  {
    hide Tree, Kids, Linked, Holds, Conserved, Chain;
    assert Is(D, RecAt(D, i), st.table[i]);
  }

  lemma IndexInFile(offset: nat, size: nat, w: nat, n: nat, k: nat)
    requires w < size && n >= CeilDiv(offset + size, BLOCK_SIZE)
    requires k == (offset + w) / BLOCK_SIZE || k * BLOCK_SIZE == offset + w
    ensures k < n
  {
  }

  lemma WrittenTabled(D: seq<Block>, E: seq<Block>, st: State, i: nat, rec: InodeRec, a: Node, F: seq<nat>, off: nat,
                      buf: seq<Byte>, w: nat)
    requires WrittenTo(D, E, st, i, rec, a, F, off, buf, w)
    ensures Tabled(E) && i < InodeCount(E)
  {
    hide Tree, Kids, Linked, Holds, Conserved, Chain, Is;
    ListRecs(D, E);
  }

  lemma FileSize(D: seq<Block>, st: State, i: nat)
    requires Stored(D, st) && i < |st.table| && !st.table[i].Unused?
    ensures Tabled(D) && |st.table| == InodeCount(D)
    ensures Is(D, RecAt(D, i), st.table[i])
    ensures |st.table[i].blks| == Units(st.table[i]) && |st.table[i].blks| <= Lo(4)
    ensures Holds(D, RecAt(D, i), st.table[i].blks, st.table[i].nodes)
  {
    hide Tree, Kids, Linked, Conserved;
    assert Is(D, RecAt(D, i), st.table[i]);
  }

  /** The block just allocated is written before it joins the file. */
  lemma FirstWrite(E: seq<Block>, E1: seq<Block>, F: seq<nat>, no: nat, b: Block)
    requires Chain(E, F) && |F| > 1 && no == F[0] && Chain(E1, F[1..]) && OnlyTouches(E, E1, [], [])
    ensures no < |E1|
    ensures Chain(E1[no := b], F[1..]) && OnlyTouches(E, E1[no := b], [no], [])
  {
    ChainInRegion(E, F);
    assert no in F;
    assert no !in F[1..] by { DistinctParts([no], F[1..]); assert F == [no] + F[1..]; }
    hide Linked;
    ChainFrame(E1, E1[no := b], F[1..]);
  }

  lemma GrowReady(D: seq<Block>, E: seq<Block>, E1: seq<Block>, st: State, i: nat, rec: InodeRec, n: nat, a: Node,
                  F: seq<nat>, no: nat, b: Block)
    requires GrownTo(D, E, st, i, rec, n, a, F) && |F| > 1 && no == F[0]
    requires Chain(E1, F[1..]) && OnlyTouches(E, E1, [], [])
    ensures no < |E1| && Chain(E1[no := b], F[1..]) && OnlyTouches(E, E1[no := b], [no], [])
    ensures Holds(E1[no := b], rec, a.blks, a.nodes) && Separate(E1[no := b], a.nodes, F[1..])
  {
    hide Tree, Kids, Linked, Holds, Stored, Conserved, ListSame, OnlyInode, OnlyTouches, Separate;
    FirstWrite(E, E1, F, no, b);
    EditMalloc(D, E, E1[no := b], st, i, rec, a, F, no);
  }

  /** Device D has become E, with nothing but the sentinel on its free list F; the inode list is as it was. */
  ghost predicate UsedUp(D: seq<Block>, E: seq<Block>, F: seq<nat>) {
    |F| == 1 && Chain(E, F) && ListSame(D, E)
  }

  lemma GrownUsedUp(D: seq<Block>, E: seq<Block>, st: State, i: nat, rec: InodeRec, n: nat, a: Node, F: seq<nat>)
    requires GrownTo(D, E, st, i, rec, n, a, F) && |F| == 1
    ensures UsedUp(D, E, F)
  {
    hide Tree, Kids, Linked, Holds, Stored, Conserved, GrowthCost;
  }

  /** append_dblk has run out of blocks, and says nothing. */
  lemma GrowLost(D: seq<Block>, E: seq<Block>, E2: seq<Block>, E3: seq<Block>, st: State, i: nat, rec: InodeRec,
                 rec2: InodeRec, n: nat, a: Node, F: seq<nat>, no: nat, X: seq<nat>, F2: seq<nat>)
    requires GrownTo(D, E, st, i, rec, n, a, F) && |F| > 1 && no == F[0] && n < Lo(4) && NewNodes(n) >= |F[1..]|
    requires Chain(E2, F[1..]) && OnlyTouches(E, E2, [no], [])
    requires Extended(E2, E3, rec2, a.blks, a.nodes, no, F[1..], X, F2)
    ensures UsedUp(D, E3, F2) && NoHolds(E3, rec2, a.blks + [no])
  {
    hide Tree, Kids, Linked, Holds, Stored, Overhead, Conserved, BlockBytes, Edited, Lo, NoHolds, ListSame;
    GrownEdit(D, E, st, i, rec, n, a, F);
    EditSeparate(D, E, st, i, rec, a, F);
    ChainOfEdit(D, E, st, i, rec, a, F);
    ChainInRegion(E, F);
    assert F == [no] + X + F2;
    GrownFrame(E, E2, E3, a.blks, a.nodes, F, no, X, F2);
    assert forall x: nat :: Owns(a, x) <==> x in a.blks || x in a.nodes;
    EditMoveFrame(D, E, E3, st, i, rec, a, F);
  }

  lemma ChainOfEdit(D: seq<Block>, E: seq<Block>, st: State, i: nat, rec: InodeRec, a: Node, F: seq<nat>)
    requires Edited(D, E, st, i, rec, a, F)
    ensures Chain(E, F)
  {
  }

  lemma LostStays(m: nat, n: nat, k: nat, free: nat)
    requires m <= n < k && LastFails(m, n, free)
    ensures GrowthCost(m, k) >= free > 1 && !LastFails(m, k, free)
  {
    hide GrowthCost;
    CostMonotone(m, n, k);
    CostMonotone(m, n, k - 1);
  }

  lemma CostAtLeast(m: nat, n: nat)
    requires m <= n
    ensures GrowthCost(m, n) >= n - m
  {
    hide GrowthCost;
    NoCost(m);
    CostMonotone(m, m, n);
  }

  /** The first loop of write_file: one zeroed block at a time. With too few free blocks the
      free list is used up, and the status is ENOSPC unless the last append is where it
      happened. */
  method GrowFile(d: Disk, curBlks: nat, newBlks: nat, inode: Inode, inodeNum: nat, ghost st: State)
      returns (status: Status, ghost a: Node, ghost F: seq<nat>, ghost B: seq<nat>)
    requires Stored(d.dev, st) && inodeNum < |st.table| && st.table[inodeNum].File?
    requires curBlks == |st.table[inodeNum].blks| && newBlks <= Lo(4)
    requires Tabled(d.dev) && inodeNum < InodeCount(d.dev) && inode.Rec() == RecAt(d.dev, inodeNum)
    modifies d, inode
    ensures status ==
      if GrowthCost(curBlks, newBlks) < |st.chain| || LastFails(curBlks, newBlks, |st.chain|) then OK else ENOSPC
    ensures GrowthCost(curBlks, newBlks) < |st.chain| ==>
      GrownTo(old(d.dev), d.dev, st, inodeNum, inode.Rec(), Max(curBlks, newBlks), a, F)
    ensures GrowthCost(curBlks, newBlks) >= |st.chain| ==> UsedUp(old(d.dev), d.dev, F)
    ensures LastFails(curBlks, newBlks, |st.chain|) ==> |B| == newBlks && NoHolds(d.dev, inode.Rec(), B)
    ensures status != OK && |st.chain| == 1 ==> d.dev == old(d.dev)
  {
    hide Tree, Kids, Linked, Holds, Stored, Conserved, Chain, Separate, GrownTo, Overhead, Lo, Extended, NewNodes,
         RecAt, OnlyTouches, GrowthCost, LastFails, Tabled, InodeCount, Grown, UsedUp, NoHolds;
    ghost var D, free, lost := d.dev, |st.chain|, false;
    a, F, B := st.table[inodeNum], st.chain, [];
    GrownStart(D, st, inodeNum);
    Levels();
    NoCost(curBlks);
    status := OK;
    var i := curBlks;
    while i < newBlks
      invariant status == OK && curBlks <= i && (curBlks < i ==> i <= newBlks)
      invariant !lost ==> a.File? && GrownTo(D, d.dev, st, inodeNum, inode.Rec(), i, a, F)
      invariant lost ==> curBlks < i && LastFails(curBlks, i, free) && UsedUp(D, d.dev, F)
      invariant lost ==> |B| == i && NoHolds(d.dev, inode.Rec(), B)
      invariant i == curBlks ==> d.dev == D
    {
      ghost var E, rec := d.dev, inode.Rec();
      var no;
      if lost {
        UsedUpChain(D, E, F);
        LostStays(curBlks, i, newBlks, free);
      } else {
        GrownCost(D, E, st, inodeNum, rec, i, a, F);
        CostAtLeast(curBlks, i);
        if |F| == 1 {
          MallocFails(curBlks, i, newBlks, free);
          GrownUsedUp(D, E, st, inodeNum, rec, i, a, F);
        }
      }
      status, no := MallocBlk(d, F);
      if status != OK {
        return;
      }
      GrowReady(D, E, d.dev, st, inodeNum, rec, i, a, F, no, Data(seq(BLOCK_SIZE, _ => 0)));
      d.WriteBlk(no, Data(seq(BLOCK_SIZE, _ => 0)));
      ghost var E2 := d.dev;
      ghost var X, F2;
      no, X, F2 := AppendDblk(d, inode, i, no, a.blks, a.nodes, F[1..]);
      if NewNodes(i) < |F[1..]| {
        GrowStep(D, E, E2, d.dev, st, inodeNum, rec, inode.Rec(), i, a, F, no, X, F2);
        GrownFile(a, no, X);
        a := Grown(a, no, X);
      } else {
        AppendFails(curBlks, i, i + 1, free);
        GrowLost(D, E, E2, d.dev, st, inodeNum, rec, inode.Rec(), i, a, F, no, X, F2);
        lost, B := true, a.blks + [no];
      }
      F := F2;
      i := i + 1;
    }
    GrowEnd(D, d.dev, st, inodeNum, inode.Rec(), i, a, F, curBlks, newBlks, lost);
  }

  lemma UsedUpChain(D: seq<Block>, E: seq<Block>, F: seq<nat>)
    requires UsedUp(D, E, F)
    ensures |F| == 1 && Chain(E, F)
  {
  }

  lemma GrowEnd(D: seq<Block>, E: seq<Block>, st: State, i: nat, rec: InodeRec, n: nat, a: Node, F: seq<nat>, m: nat,
                k: nat, lost: bool)
    requires i < |st.table| && st.table[i].File? && m == |st.table[i].blks| && n == Max(m, k)
    requires !lost ==> GrownTo(D, E, st, i, rec, n, a, F)
    requires lost ==> m < n && LastFails(m, n, |st.chain|)
    ensures GrowthCost(m, k) < |st.chain| <==> !lost
    ensures LastFails(m, k, |st.chain|) <==> lost
  {
    hide Tree, Kids, Linked, Holds, Stored, Overhead, Conserved, GrownTo;
    if !lost {
      GrownCost(D, E, st, i, rec, n, a, F);
      NoCost(m);
    }
  }

  /** The second half of write_file: the bytes go into the blocks, which are all there. */
  method WriteBlocks(d: Disk, buf: seq<Byte>, offset: nat, inode: Inode, ghost D: seq<Block>, ghost st: State,
                     ghost i: nat, ghost a: Node, ghost F: seq<nat>)
    requires WrittenTo(D, d.dev, st, i, inode.Rec(), a, F, offset, buf, 0)
    requires a.File? && |buf| > 0 && CeilDiv(offset + |buf|, BLOCK_SIZE) <= |a.blks| <= Lo(4)
    modifies d
    ensures WrittenTo(D, d.dev, st, i, inode.Rec(), a, F, offset, buf, |buf|)
  {
    hide Tree, Kids, Linked, Holds, Stored, WrittenTo, Lo, BlockBytes, Splice, Patch, Safe;
    ghost var E1, rec := d.dev, inode.Rec();
    Levels();
    var curIndex := offset / BLOCK_SIZE;
    var itr := new DataBlockIterator(inode, curIndex);
    IndexInFile(offset, |buf|, 0, |a.blks|, curIndex);
    WrittenBlock(D, E1, st, i, rec, a, F, offset, buf, 0, curIndex);
    InsideSafe(|a.blks|, curIndex);
    var no := itr.Next(d, a.blks, a.nodes);
    var blk := d.ReadBlk(no);
    var offsetBytes := offset % BLOCK_SIZE;
    var bytesToWrite := if |buf| < BLOCK_SIZE - offsetBytes then |buf| else BLOCK_SIZE - offsetBytes;
    d.WriteBlk(no, Data(Patch(blk.bytes, offsetBytes, buf[..bytesToWrite])));
    WrittenStep(D, E1, d.dev, st, i, rec, a, F, offset, buf, 0, bytesToWrite, curIndex, offsetBytes);
    var written := bytesToWrite;
    while written < |buf|
      invariant inode.Rec() == rec
      invariant WrittenTo(D, d.dev, st, i, rec, a, F, offset, buf, written) && written <= |buf|
      invariant written < |buf| ==> itr.currentIndex * BLOCK_SIZE == offset + written
    {
      ghost var E := d.dev;
      ghost var kk := itr.currentIndex;
      IndexInFile(offset, |buf|, written, |a.blks|, kk);
      WrittenBlock(D, E, st, i, rec, a, F, offset, buf, written, kk);
      InsideSafe(|a.blks|, kk);
      no := itr.Next(d, a.blks, a.nodes);
      blk := d.ReadBlk(no);
      var remaining := |buf| - written;
      bytesToWrite := if remaining < BLOCK_SIZE then remaining else BLOCK_SIZE;
      d.WriteBlk(no, Data(Patch(blk.bytes, 0, buf[written..written + bytesToWrite])));
      WrittenStep(D, E, d.dev, st, i, rec, a, F, offset, buf, written, bytesToWrite, kk, 0);
      written := written + bytesToWrite;
    }
  }

  /** Writing size > 0 bytes at any offset, up to the largest file. Without room for all the
      blocks the free list is used up and the status is ENOSPC; the inode on disk is not
      touched. The one thing asked of the caller is that the room does not end with the
      last append, which fails silently and would send the second half into a tree that is
      not there. */
  method WriteFile(d: Disk, buf: seq<Byte>, offset: nat, inode: Inode, inodeNum: nat, ghost st: State)
      returns (status: Status, size: nat, ghost st': State, ghost F: seq<nat>)
    requires Stored(d.dev, st) && inodeNum < |st.table| && st.table[inodeNum].File?
    requires Tabled(d.dev) && inodeNum < InodeCount(d.dev) && inode.Rec() == RecAt(d.dev, inodeNum)
    requires |buf| > 0 && CeilDiv(offset + |buf|, BLOCK_SIZE) <= LEVEL_3_BLOCKS
    requires !LastFails(|st.table[inodeNum].blks|, CeilDiv(offset + |buf|, BLOCK_SIZE), |st.chain|)
    modifies d, inode
    ensures var cost := GrowthCost(|st.table[inodeNum].blks|, CeilDiv(offset + |buf|, BLOCK_SIZE));
      status == if cost < |st.chain| then OK else ENOSPC
    ensures status == OK ==> size == |buf| && Stored(d.dev, st') && WriteStep(st, inodeNum, offset, buf, st')
    ensures status != OK ==> UsedUp(old(d.dev), d.dev, F) && st' == st
    ensures status != OK && |st.chain| == 1 ==> d.dev == old(d.dev)
  {
    hide Tree, Kids, Linked, Holds, Filled, Stored, Edited, Conserved, Chain, Separate, GrownTo, WrittenTo, Overhead,
         Lo, Extended, NewNodes, WriteStep, BlockBytes, Splice, Patch, RecAt, OnlyTouches, InodeWritten, GrowthCost,
         Tabled, InodeCount, Grown;
    ghost var D := d.dev;
    FileSize(D, st, inodeNum);
    Levels();
    var curSize := inode.size;
    var curBlks := CeilDiv(curSize, BLOCK_SIZE);
    var newSize := offset + |buf|;
    var newBlks := CeilDiv(newSize, BLOCK_SIZE);
    ghost var a, B, n;
    st' := st;
    size := 0;
    n := Max(curBlks, newBlks);
    status, a, F, B := GrowFile(d, curBlks, newBlks, inode, inodeNum, st);
    if status != OK {
      return;
    }
    ghost var E1, rec := d.dev, inode.Rec();
    WrittenStart(D, E1, st, inodeNum, rec, n, a, F, offset, buf);
    GrownSize(D, E1, st, inodeNum, rec, n, a, F);
    WriteBlocks(d, buf, offset, inode, D, st, inodeNum, a, F);
    ghost var E2 := d.dev;
    if newSize > curSize {
      inode.size := newSize;
    }
    WrittenTabled(D, E2, st, inodeNum, rec, a, F, offset, buf, |buf|);
    WriteInode(d, inode.Rec(), inodeNum);
    WriteFinish(D, E1, E2, d.dev, st, inodeNum, rec, inode.Rec(), n, a, F, offset, buf);
    st' := State(F, st.table[inodeNum := a.(data := Splice(a.data, offset, buf))]);
    size := |buf|;
  }

  // ---- read_file ----

  lemma FileBlock(D: seq<Block>, st: State, i: nat, k: nat)
    requires Stored(D, st) && i < |st.table| && st.table[i].File? && k < |st.table[i].blks|
    ensures var a := st.table[i]; a.blks[k] < |D| && a.blks[k] != 0 && D[a.blks[k]] == Data(BlockBytes(a.data, k))
  {
    hide Tree, Kids, Linked, Holds;
    assert Is(D, RecAt(D, i), st.table[i]);
    var a := st.table[i];
    OwnSeparate(D, st, i);
    assert a.blks[k] in a.blks && a.blks[k] in DataBlks(a) + TreeNodes(a);
  }

  /** The blocks of a file hold zeros beyond its end, which is what a later write past the
      end relies on. */
  lemma ZeroTail(D: seq<Block>, st: State, i: nat, k: nat, j: nat)
    requires Stored(D, st) && i < |st.table| && st.table[i].File? && k < |st.table[i].blks|
    requires j < BLOCK_SIZE && k * BLOCK_SIZE + j >= |st.table[i].data|
    ensures k == |st.table[i].blks| - 1
    ensures var b := D[st.table[i].blks[k]]; b.Data? && |b.bytes| == BLOCK_SIZE && b.bytes[j] == 0
  {
    hide Tree, Kids, Linked, Holds, RecAt;
    FileBlock(D, st, i, k);
    FileSize(D, st, i);
  }

  lemma Aligned(k: nat, n: nat, off: nat)
    requires k * BLOCK_SIZE == off
    ensures k < n <==> off < n * BLOCK_SIZE
    ensures k < n ==> off + BLOCK_SIZE <= n * BLOCK_SIZE
  {
  }

  /** The range lies in the file's c blocks, or the first index past them that is asked for
      may be looked up. */
  predicate ReadSafe(c: nat, offset: nat, size: nat) {
    offset + size <= c * BLOCK_SIZE || Safe(c, Max(offset / BLOCK_SIZE, c))
  }

  /** Reading from a block boundary. The walk stops at the first 0. Bytes between the end of
      the file and the end of its last block read as zero. */
  method ReadFile(d: Disk, size: nat, offset: nat, inode: Inode, ghost i: nat, ghost st: State) returns (buf: seq<Byte>)
    requires Stored(d.dev, st) && i < |st.table| && st.table[i].File?
    requires Tabled(d.dev) && i < InodeCount(d.dev) && inode.Rec() == RecAt(d.dev, i)
    requires offset % BLOCK_SIZE == 0
    requires ReadSafe(|st.table[i].blks|, offset, size)
    ensures |buf| == Min(size, |st.table[i].blks| * BLOCK_SIZE - Min(offset, |st.table[i].blks| * BLOCK_SIZE))
    ensures forall p :: 0 <= p < |buf| ==> buf[p] == ByteAt(st.table[i].data, offset + p)
  {
    hide Tree, Kids, Linked, Holds, Stored, Filled, RecAt, Tabled, InodeCount, Lo, Page, Safe;
    ghost var a := st.table[i];
    FileSize(d.dev, st, i);
    Levels();
    var itr := new DataBlockIterator(inode, offset / BLOCK_SIZE);
    buf := [];
    while |buf| < size
      invariant |buf| <= size && (|buf| > 0 ==> offset + |buf| <= |a.blks| * BLOCK_SIZE)
      invariant |buf| < size ==> itr.currentIndex * BLOCK_SIZE == offset + |buf|
      invariant |buf| < size ==> offset / BLOCK_SIZE <= itr.currentIndex <= Max(offset / BLOCK_SIZE, |a.blks|)
      invariant forall p :: 0 <= p < |buf| ==> buf[p] == ByteAt(a.data, offset + p)
      decreases size - |buf|
    {
      ghost var k := itr.currentIndex;
      Aligned(k, |a.blks|, offset + |buf|);
      if k < |a.blks| {
        FileBlock(d.dev, st, i, k);
        InsideSafe(|a.blks|, k);
      }
      var no := itr.Next(d, a.blks, a.nodes);
      if no == 0 {
        return;
      }
      var blk := d.ReadBlk(no);
      var remaining := size - |buf|;
      BlockAt(a.data, k, offset + |buf|);
      if remaining > BLOCK_SIZE {
        buf := buf + blk.bytes;
      } else {
        buf := buf + blk.bytes[..remaining];
      }
    }
  }

  lemma BlockAt(data: seq<Byte>, k: nat, off: nat)
    requires k * BLOCK_SIZE == off
    ensures forall j :: 0 <= j < BLOCK_SIZE ==> BlockBytes(data, k)[j] == ByteAt(data, off + j)
  {
  }

  // ---- truncate_file ----

  /** Truncation as an abstract step: no bytes, no blocks; every block the file had goes to
      the front of the free list, once. */
  ghost predicate TruncateStep(st: State, i: nat, st': State) {
    i < |st.table| && st.table[i].File? &&
    st'.table == st.table[i := File([], [], [], st.table[i].links)] &&
    exists P: seq<nat> :: multiset(P) == Blocks(st.table[i]) && st'.chain == P + st.chain
  }

  lemma TruncateFinish(D: seq<Block>, E: seq<Block>, E2: seq<Block>, st: State, i: nat, rec: InodeRec, rec2: InodeRec,
                       P: seq<nat>)
    requires Stored(D, st) && i < |st.table| && st.table[i].File? && rec == RecAt(D, i)
    requires AllFreed(D, E, st.table[i].blks, st.table[i].nodes, P, st.chain)
    requires rec2 == rec.(direct := NO_INODE.direct, single := 0, double := 0, triple := 0, size := 0)
    requires InodeWritten(E, E2, i, rec2)
    ensures var st' := State(P + st.chain, st.table[i := File([], [], [], st.table[i].links)]);
      Stored(E2, st') && TruncateStep(st, i, st')
  {
    hide Tree, Kids, Linked, Holds, Conserved, Stored, RecAt, InodeWritten, Edited;
    var a2 := File([], [], [], st.table[i].links);
    EditStart(D, st, i);
    FileSize(D, st, i);
    EditEmpty(D, E, st, i, rec, st.table[i], a2, st.chain, P, rec2);
    EditStored(D, E, E2, st, i, rec2, rec2, a2, P + st.chain);
  }

  lemma FreedTabled(D: seq<Block>, E: seq<Block>, st: State, i: nat, P: seq<nat>)
    requires Stored(D, st) && i < |st.table| && !st.table[i].Unused?
    requires AllFreed(D, E, st.table[i].blks, st.table[i].nodes, P, st.chain)
    ensures Tabled(E) && i < InodeCount(E) && ListSame(D, E)
  {
    hide Tree, Kids, Linked, Holds, Conserved, Is;
    OwnSeparate(D, st, i);
    var a := st.table[i];
    forall x | x in P ensures InRegion(D, x) {
      InMultiset(P, a.blks, a.nodes, x);
      assert x in DataBlks(a) + TreeNodes(a);
    }
    ListRecs(D, E);
  }

  method TruncateFile(d: Disk, inodeNum: nat, ghost st: State) returns (status: Status, ghost st': State)
    requires Stored(d.dev, st) && inodeNum < |st.table| && st.table[inodeNum].File?
    modifies d
    ensures status == OK && Stored(d.dev, st') && TruncateStep(st, inodeNum, st')
  {
    hide Tree, Kids, Chain, Holds, Stored, Filled, RecAt, Tabled, InodeCount, Lo, AllFreed, InodeWritten, TruncateStep,
         Separate;
    ghost var D, a := d.dev, st.table[inodeNum];
    FileSize(D, st, inodeNum);
    FileOwn(D, st, inodeNum);
    var inode := ReadInode(d, inodeNum);
    var curFileBlks := inode.size / BLOCK_SIZE;
    if inode.size % BLOCK_SIZE != 0 {
      curFileBlks := curFileBlks + 1;
    }
    ghost var P := FreeByIndex(d, inode, curFileBlks, a.blks, a.nodes, st.chain);
    ghost var E := d.dev;
    FreedTabled(D, E, st, inodeNum, P);
    inode.direct, inode.single, inode.double, inode.triple := Zeros(DIRECT_BLOCKS), 0, 0, 0;
    inode.size := 0;
    WriteInode(d, inode.Rec(), inodeNum);
    TruncateFinish(D, E, d.dev, st, inodeNum, RecAt(D, inodeNum), inode.Rec(), P);
    return OK, State(P + st.chain, st.table[inodeNum := File([], [], [], a.links)]);
  }

  lemma FileOwn(D: seq<Block>, st: State, i: nat)
    requires Stored(D, st) && i < |st.table| && !st.table[i].Unused?
    ensures Chain(D, st.chain) && Separate(D, st.table[i].blks + st.table[i].nodes, st.chain)
  {
    OwnSeparate(D, st, i);
  }
}
