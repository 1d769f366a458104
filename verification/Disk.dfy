/** The block device: a mutable sequence of blocks, and its free list. */
module Device {
  import opened Layout

  /** The device is reached only by whole-block reads and writes. */
  class Disk {
    var dev: seq<Block>

    constructor (contents: seq<Block>)
      ensures dev == contents
    {
      dev := contents;
    }

    method ReadBlk(no: nat) returns (b: Block)
      requires no < |dev|
      ensures b == dev[no]
    {
      b := dev[no];
    }

    method WriteBlk(no: nat, b: Block)
      requires no < |dev|
      modifies this
      ensures dev == old(dev)[no := b]
    {
      dev := dev[no := b];
    }
  }

  /** The superblock fields that nothing changes after formatting. */
  ghost predicate SameGeometry(D: seq<Block>, E: seq<Block>) {
    |D| == |E| > 0 && D[0].Super? && E[0].Super? &&
    D[0].sb.(head := 0, left := 0) == E[0].sb.(head := 0, left := 0)
  }

  /** mkfs's layout: superblock, reserved block, inode list, data region up to the end. */
  ghost predicate Geometry(D: seq<Block>) {
    |D| > 0 && D[0].Super? &&
    var sb := D[0].sb;
    sb.total == |D| && sb.ilistStart == 1 + RESERVED_SPACE && sb.ilistSize >= 1 &&
    sb.freeStart == sb.ilistStart + sb.ilistSize && sb.freeStart + sb.freeSize == |D|
  }

  ghost predicate InRegion(D: seq<Block>, no: nat)
    requires Geometry(D)
  {
    D[0].sb.freeStart <= no < |D|
  }

  ghost predicate Linked(D: seq<Block>, F: seq<nat>, i: nat)
    requires Geometry(D) && i < |F|
  {
    InRegion(D, F[i]) && D[F[i]] == FreeBlk(if i + 1 < |F| then F[i + 1] else 0)
  }

  /** F is the free list of D: the chain from the head, its last block a sentinel that
      the counter does not count. */
  ghost predicate Chain(D: seq<Block>, F: seq<nat>) {
    Geometry(D) && |F| >= 1 && Distinct(F) &&
    D[0].sb.head == F[0] && D[0].sb.left == |F| - 1 &&
    forall i :: 0 <= i < |F| ==> Linked(D, F, i)
  }

  /** Outside the superblock, D and E differ at most in blocks of N and G. */
  ghost predicate OnlyTouches(D: seq<Block>, E: seq<Block>, N: seq<nat>, G: seq<nat>) {
    SameGeometry(D, E) &&
    forall x :: 0 < x < |D| && x !in N && x !in G ==> E[x] == D[x]
  }

  lemma ChainPop(D: seq<Block>, E: seq<Block>, F: seq<nat>)
    requires Chain(D, F) && |F| > 1
    requires E == D[0 := Super(D[0].sb.(head := F[1], left := |F| - 2))]
    ensures Chain(E, F[1..])
  {
    var G := F[1..];
    forall i | 0 <= i < |G| ensures Linked(E, G, i) {
      assert Linked(D, F, i + 1);
    }
  }

  lemma ChainPush(D: seq<Block>, E: seq<Block>, no: nat, F: seq<nat>)
    requires Chain(D, F) && InRegion(D, no) && no !in F
    requires E == D[no := FreeBlk(D[0].sb.head)][0 := Super(D[0].sb.(head := no, left := |F|))]
    ensures Chain(E, [no] + F)
  {
    var G := [no] + F;
    forall i | 0 <= i < |G| ensures Linked(E, G, i) {
      if i > 0 { assert Linked(D, F, i - 1); }
    }
  }

  method MallocBlk(d: Disk, ghost F: seq<nat>) returns (status: Status, no: nat)
    requires Chain(d.dev, F)
    modifies d
    ensures status == if |F| > 1 then OK else ENOSPC
    ensures status == OK ==> no == F[0] && Chain(d.dev, F[1..]) && OnlyTouches(old(d.dev), d.dev, [], [])
    ensures status != OK ==> d.dev == old(d.dev)
  {
    assert Linked(d.dev, F, 0);
    var sb := d.ReadBlk(0);
    if sb.sb.left == 0 || sb.sb.head == 0 {
      return ENOSPC, 0;
    }
    var head := sb.sb.head;
    assert Linked(d.dev, F, 1);
    ghost var D := d.dev;
    var free := d.ReadBlk(head);
    status, no := EIO, 0;
    if free.next <= sb.sb.freeStart + sb.sb.freeSize {
      d.WriteBlk(0, Super(sb.sb.(head := free.next, left := sb.sb.left - 1)));
      status, no := OK, head;
      ChainPop(D, d.dev, F);
    }
  }

  method FreeBlock(d: Disk, no: nat, ghost F: seq<nat>)
    requires Chain(d.dev, F)
    requires InRegion(d.dev, no) && no !in F
    modifies d
    ensures Chain(d.dev, [no] + F) && OnlyTouches(old(d.dev), d.dev, [no], [])
  {
    var sb := d.ReadBlk(0);
    d.WriteBlk(no, FreeBlk(sb.sb.head));
    d.WriteBlk(0, Super(sb.sb.(head := no, left := sb.sb.left + 1)));
    ChainPush(old(d.dev), d.dev, no, F);
  }

  lemma ChainFrame(D: seq<Block>, E: seq<Block>, F: seq<nat>)
    requires Chain(D, F) && |D| == |E| && E[0] == D[0]
    requires forall x :: x in F && x < |D| ==> E[x] == D[x]
    ensures Chain(E, F)
  {
    forall i | 0 <= i < |F| ensures Linked(E, F, i) {
      assert Linked(D, F, i) && F[i] in F;
    }
  }

  /** A device has one free list only. */
  lemma {:induction false} ChainUnique(D: seq<Block>, F: seq<nat>, G: seq<nat>)
    requires Chain(D, F) && Chain(D, G)
    ensures F == G
  {
    forall i | 0 <= i < |F| ensures F[i] == G[i] { ChainAgrees(D, F, G, i); }
  }

  lemma {:induction false} ChainAgrees(D: seq<Block>, F: seq<nat>, G: seq<nat>, i: nat)
    requires Chain(D, F) && Chain(D, G) && i < |F|
    ensures F[i] == G[i]
  {
    if i > 0 {
      ChainAgrees(D, F, G, i - 1);
      assert Linked(D, F, i - 1) && Linked(D, G, i - 1);
    }
  }
}
