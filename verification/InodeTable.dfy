/** The inode list: sixteen records a block, right after the reserved block. */
module InodeTable {
  import opened Layout
  import opened Device
  import opened INode

  /** Block and slot of inode number i. */
  function InodeBlk(i: nat): nat { 1 + RESERVED_SPACE + i / INODES_PER_BLOCK }

  function InodeSlot(i: nat): nat { i % INODES_PER_BLOCK }

  ghost predicate Tabled(D: seq<Block>) {
    Geometry(D) && forall b :: D[0].sb.ilistStart <= b < D[0].sb.freeStart ==>
      D[b].Inodes? && |D[b].recs| == INODES_PER_BLOCK
  }

  ghost function InodeCount(D: seq<Block>): nat
    requires Geometry(D)
  {
    D[0].sb.ilistSize * INODES_PER_BLOCK
  }

  ghost function RecAt(D: seq<Block>, i: nat): InodeRec
    requires Tabled(D) && i < InodeCount(D)
  {
    SlotInList(D, i);
    D[InodeBlk(i)].recs[InodeSlot(i)]
  }

  lemma SlotInList(D: seq<Block>, i: nat)
    requires Geometry(D) && i < InodeCount(D)
    ensures D[0].sb.ilistStart <= InodeBlk(i) < D[0].sb.freeStart && InodeSlot(i) < INODES_PER_BLOCK
  {
  }

  /** Numbers and slots correspond one to one. */
  lemma SlotBijection(i: nat, j: nat)
    ensures (InodeBlk(i), InodeSlot(i)) == (InodeBlk(j), InodeSlot(j)) <==> i == j
  {
  }

  lemma SlotNumber(b: nat, s: nat)
    requires b >= 1 + RESERVED_SPACE && s < INODES_PER_BLOCK
    ensures var i := (b - (1 + RESERVED_SPACE)) * INODES_PER_BLOCK + s; InodeBlk(i) == b && InodeSlot(i) == s
  {
  }

  /** Block and slot as the code computes them, from byte offsets. */
  lemma ByteOffsets(i: nat)
    ensures 1 + RESERVED_SPACE + i * INODE_SIZE / BLOCK_SIZE == InodeBlk(i)
    ensures i * INODE_SIZE % BLOCK_SIZE / INODE_SIZE == InodeSlot(i)
  {
    var q, r := i / 16, i % 16;
    assert i * 256 == q * 4096 + r * 256;
  }

  method ReadInode(d: Disk, i: nat) returns (inode: Inode)
    requires Tabled(d.dev) && i < InodeCount(d.dev)
    ensures fresh(inode) && inode.Rec() == RecAt(d.dev, i)
  {
    SlotInList(d.dev, i);
    ByteOffsets(i);
    var blkNum := 1 + RESERVED_SPACE + i * INODE_SIZE / BLOCK_SIZE;
    var blk := d.ReadBlk(blkNum);
    var slot := i * INODE_SIZE % BLOCK_SIZE / INODE_SIZE;
    inode := new Inode(blk.recs[slot]);
  }

  /** Record i becomes rec, and nothing else on the device changes. */
  ghost predicate InodeWritten(D: seq<Block>, E: seq<Block>, i: nat, rec: InodeRec) {
    Tabled(D) && Tabled(E) && SameGeometry(D, E) && E[0] == D[0] && i < InodeCount(D) == InodeCount(E) &&
    (forall j :: 0 <= j < InodeCount(D) ==> RecAt(E, j) == if j == i then rec else RecAt(D, j)) &&
    (forall x :: 0 <= x < |D| && x != InodeBlk(i) ==> E[x] == D[x])
  }

  lemma InodeWrittenFrom(D: seq<Block>, E: seq<Block>, i: nat, rec: InodeRec)
    requires Tabled(D) && i < InodeCount(D) && InodeBlk(i) < |D|
    requires D[InodeBlk(i)].Inodes? && InodeSlot(i) < |D[InodeBlk(i)].recs|
    requires E == D[InodeBlk(i) := Inodes(D[InodeBlk(i)].recs[InodeSlot(i) := rec])]
    ensures InodeWritten(D, E, i, rec)
  {
    SlotInList(D, i);
    forall j | 0 <= j < InodeCount(D) ensures RecAt(E, j) == if j == i then rec else RecAt(D, j) {
      SlotInList(D, j);
      SlotBijection(i, j);
    }
  }

  method WriteInode(d: Disk, rec: InodeRec, i: nat)
    requires Tabled(d.dev) && i < InodeCount(d.dev)
    modifies d
    ensures InodeWritten(old(d.dev), d.dev, i, rec)
  {
    SlotInList(d.dev, i);
    ByteOffsets(i);
    var blkNum := 1 + RESERVED_SPACE + i * INODE_SIZE / BLOCK_SIZE;
    var blk := d.ReadBlk(blkNum);
    var slot := i * INODE_SIZE % BLOCK_SIZE / INODE_SIZE;
    d.WriteBlk(blkNum, Inodes(blk.recs[slot := rec]));
    InodeWrittenFrom(old(d.dev), d.dev, i, rec);
  }

  /** The least inode number that is free and not reserved, or EDQUOT if there is none. */
  method FindFreeInode(d: Disk) returns (status: Status, num: nat)
    requires Tabled(d.dev)
    ensures status == OK || status == EDQUOT
    ensures status == OK ==>
      && ROOT_DIR_INODE <= num < InodeCount(d.dev) && RecAt(d.dev, num).kind == FreeInode
      && forall j :: ROOT_DIR_INODE <= j < num ==> RecAt(d.dev, j).kind != FreeInode
    ensures status == EDQUOT ==>
      forall j :: ROOT_DIR_INODE <= j < InodeCount(d.dev) ==> RecAt(d.dev, j).kind != FreeInode
  {
    var super := d.ReadBlk(0);
    var sb := super.sb;
    var cur := sb.ilistStart;
    while cur < sb.ilistStart + sb.ilistSize
      invariant sb.ilistStart <= cur <= sb.freeStart
      invariant forall j :: ROOT_DIR_INODE <= j < InodeCount(d.dev) && j < (cur - sb.ilistStart) * INODES_PER_BLOCK ==>
        RecAt(d.dev, j).kind != FreeInode
    {
      var blk := d.ReadBlk(cur);
      for slot := 0 to INODES_PER_BLOCK
        invariant forall j ::
          ROOT_DIR_INODE <= j < InodeCount(d.dev) && j < (cur - sb.ilistStart) * INODES_PER_BLOCK + slot ==>
          RecAt(d.dev, j).kind != FreeInode
      {
        var n := (cur - sb.ilistStart) * INODES_PER_BLOCK + slot;
        SlotNumber(cur, slot);
        assert n < InodeCount(d.dev) && RecAt(d.dev, n) == blk.recs[slot];
        if blk.recs[slot].kind == FreeInode && n >= ROOT_DIR_INODE {
          return OK, n;
        }
      }
      cur := cur + 1;
    }
    return EDQUOT, 0;
  }
}
