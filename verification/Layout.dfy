/**
 * The on-disk entities of uwufs. A block is a typed value: every block that the
 * code reads back was written whole, and is read through the type it was
 * written with.
 */
module Layout {

  const BLOCK_SIZE: nat := 4096
  const FANOUT: nat := 512            // block numbers in an indirect block
  const DIRECT_BLOCKS: nat := 10
  const ENTRIES_PER_BLOCK: nat := 16  // 256-byte directory entries
  const INODES_PER_BLOCK: nat := 16   // 256-byte inodes
  const INODE_SIZE: nat := 256
  const RESERVED_SPACE: nat := 1
  const ROOT_DIR_INODE: nat := 2
  const FILE_NAME_SIZE: nat := 248    // includes the terminator
  const LINK_COUNT_LIMIT: nat := 65536 // file_links_count is 16 bits wide

  newtype Byte = x: int | 0 <= x < 256

  datatype Status = OK | ENOSPC | EIO | ENOENT | EDQUOT | ENAMETOOLONG | EISDIR | ENOTDIR
                  | EEXIST | EINVAL | EPERM | ENOTEMPTY

  datatype Kind = FreeInode | Regular | Directory

  datatype InodeRec = InodeRec(direct: seq<nat>, single: nat, double: nat, triple: nat,
                               kind: Kind, size: nat, links: nat)

  datatype Entry = Entry(name: string, ino: nat)

  datatype SuperBlk = SuperBlk(total: nat, ilistStart: nat, ilistSize: nat,
                               freeStart: nat, freeSize: nat, head: nat, left: nat)

  datatype Block =
    | Super(sb: SuperBlk)
    | Inodes(recs: seq<InodeRec>)
    | Indirect(nos: seq<nat>)
    | Table(ents: seq<Entry>)
    | Data(bytes: seq<Byte>)
    | FreeBlk(next: nat)

  // What memset-to-zero leaves in an entry.
  const NO_ENTRY := Entry("", 0)

  function Zeros(n: nat): (z: seq<nat>)
    ensures |z| == n && forall i :: 0 <= i < n ==> z[i] == 0
  {
    seq(n, _ => 0)
  }

  const NO_INODE := InodeRec(Zeros(DIRECT_BLOCKS), 0, 0, 0, FreeInode, 0, 0)

  function Min(a: nat, b: nat): nat { if a <= b then a else b }

  /** The part of s that lies in positions [a, b). */
  function Part<T>(s: seq<T>, a: nat, b: nat): seq<T>
    requires a <= b
  {
    s[Min(a, |s|)..Min(b, |s|)]
  }

  /** i * w, as a sum: keeps the strides of the pointer tree out of nonlinear arithmetic. */
  function Times(i: nat, w: nat): nat
  {
    if i == 0 then 0 else Times(i - 1, w) + w
  }

  /** The i-th piece of s when s is cut every w positions. */
  function Chunk<T>(s: seq<T>, i: nat, w: nat): seq<T>
  {
    Part(s, Times(i, w), Times(i, w) + w)
  }

  /** Piece k of s, padded with pad to exactly w elements. */
  function Page<T>(s: seq<T>, k: nat, w: nat, pad: T): (p: seq<T>)
    ensures |p| == w
    ensures forall j :: 0 <= j < w ==> p[j] == if k * w + j < |s| then s[k * w + j] else pad
  {
    seq(w, j requires 0 <= j < w => if k * w + j < |s| then s[k * w + j] else pad)
  }

  function CeilDiv(n: nat, w: nat): nat
    requires w > 0
  {
    (n + w - 1) / w
  }

  ghost predicate Distinct<T>(s: seq<T>) {
    forall i, j :: 0 <= i < j < |s| ==> s[i] != s[j]
  }

  ghost predicate Apart<T>(s: seq<T>, t: seq<T>) {
    forall x :: x in s ==> x !in t
  }

  lemma DistinctConcat<T>(s: seq<T>, t: seq<T>)
    requires Distinct(s) && Distinct(t) && Apart(s, t)
    ensures Distinct(s + t)
  {
    var u := s + t;
    forall i, j | 0 <= i < j < |u| ensures u[i] != u[j] {
      if i < |s| <= j { assert s[i] in s && t[j - |s|] in t; }
    }
  }

  lemma DistinctParts<T>(s: seq<T>, t: seq<T>)
    requires Distinct(s + t)
    ensures Distinct(s) && Distinct(t) && Apart(s, t)
  {
    var u := s + t;
    assert forall i :: 0 <= i < |s| ==> u[i] == s[i];
    assert forall i :: 0 <= i < |t| ==> u[|s| + i] == t[i];
    forall x | x in s ensures x !in t {
      var i :| 0 <= i < |s| && s[i] == x;
      assert u[i] == x;
    }
  }

  lemma SameMembers<T>(s: seq<T>, t: seq<T>)
    requires multiset(s) == multiset(t)
    ensures forall x :: x in s ==> x in t
  {
    forall x | x in s ensures x in t { assert x in multiset(s); }
  }
}
