/** link_file and unlink_file: adding and removing a name given by a path. */
module NameOps {
  import opened Layout
  import opened Device
  import opened INode
  import opened InodeTable
  import opened Store
  import opened Directory
  import opened EntryRemoval
  import opened Namespace
  import opened Steps
  import opened Path
  import opened Lifecycle

  // ---- Paths and directories ----

  /** The path up to its last '/' does not lead to a regular file. */
  predicate ParentNotFile(T: seq<Node>, path: string) {
    NoSlash(path) || !FileOutcome(T, Resolve(T, Split(path).0))
  }

  ghost predicate CanGrow(T: seq<Node>, p: nat) {
    IsDir(T, p) ==> |T[p].ents| % ENTRIES_PER_BLOCK == 0 ==> |T[p].blks| < LEVEL_3_BLOCKS
  }

  /** What the callers that add the name path guarantee. */
  ghost predicate Addable(T: seq<Node>, path: string) {
    Followable(T, path) && ParentNotFile(T, path) &&
    forall p: nat :: Resolve(T, Split(path).0) == Found(p) ==> CanGrow(T, p)
  }

  lemma FollowableSplit(T: seq<Node>, path: string)
    requires Followable(T, path) && !NoSlash(path)
    ensures Followable(T, Split(path).0)
  {
    hide Split, Segments;
    SegmentsOfSplit(path);
    assert forall s :: s in Segments(Split(path).0) ==> s in Segments(path);
  }

  /** A name can be added when its path does not resolve. */
  lemma FreshName(T: seq<Node>, path: string, p: nat)
    requires Sound(T) && !NoSlash(path) && |Split(path).1| < FILE_NAME_SIZE
    requires Resolve(T, Split(path).0) == Found(p) && IsDir(T, p)
    ensures Fresh(T, p, Split(path).1) <==> Resolve(T, path).Failed?
  {
    hide Sound, Split, Walk;
    if Split(path).1 == "" { ResolveTrailing(T, path); } else { ResolveSplit(T, path); }
    BoundIs(T, p, Split(path).1);
  }

  /** What a path with a last component names, its parent directory binds. */
  lemma NamedIn(T: seq<Node>, path: string, i: nat) returns (p: nat)
    requires !NoSlash(path) && ParentNotFile(T, path) && Split(path).1 != "" && Resolve(T, path) == Found(i)
    ensures Resolve(T, Split(path).0) == Found(p) && IsDir(T, p) && Bound(T, p, Split(path).1) == Some(i)
    ensures |Split(path).1| < FILE_NAME_SIZE
  {
    hide Split, Walk, Bound;
    ResolveSplit(T, path);
    p := Resolve(T, Split(path).0).num;
  }

  lemma EntsSome(T: seq<Node>, p: nat)
    requires Sound(T) && IsDir(T, p)
    ensures T[p].ents != [] && GoodEnts(T[p].ents, p)
  {
    hide Names, SubDirs, Counted;
    SoundAt(T, p);
  }

  lemma SuperOf(D: seq<Block>, st: State)
    requires Stored(D, st)
    ensures |D| > 0 && D[0].Super? && D[0].sb.left == |st.chain| - 1
  {
  }

  /** The guards of create, link and mkdir leave room for a new block and its indirect blocks. */
  lemma GuardEnough(T: seq<Node>, p: nat, free: nat)
    requires CanGrow(T, p) && IsDir(T, p) && free > 4
    ensures |T[p].ents| % ENTRIES_PER_BLOCK == 0 ==> |T[p].blks| < Lo(4) && 1 + NewNodes(|T[p].blks|) < free
  {
    Levels();
  }

  // ---- link_file ----

  /** link(2), or with forceDirLink the first half of rename. */
  method LinkFile(d: Disk, oldPath: string, newPath: string, forceDirLink: bool, nlinksChange: int, ghost st: State)
      returns (status: Status, ghost i: nat, ghost q: nat, ghost st': State)
    requires Stored(d.dev, st) && Sound(st.table) && Followable(st.table, oldPath) && Addable(st.table, newPath)
    requires !forceDirLink ==> nlinksChange == 1
    requires forceDirLink && Resolve(st.table, oldPath).Found? ==>
      nlinksChange == DirLink(st.table, Resolve(st.table, oldPath).num) &&
      Resolve(st.table, Split(newPath).0) != Resolve(st.table, oldPath)
    modifies d
    ensures var (left, o, to) := (old(d.dev)[0].sb.left, Resolve(st.table, oldPath), Resolve(st.table, newPath));
      var isDir := o.Found? && IsDir(st.table, o.num);
      var may := o.Found? && (forceDirLink || !isDir);
      var fits := !NoSlash(newPath) && |Split(newPath).1| < FILE_NAME_SIZE;
      var inDir := Resolve(st.table, Split(newPath).0).Found?;
      var long := may && !NoSlash(newPath) && (fits ==> to == Failed(ENAMETOOLONG));
      var lost := may && (NoSlash(newPath) || (fits && to == Failed(ENOENT) && !inDir));
      && (status == ENOSPC <==> left <= 5)
      && (status == EISDIR <==> left > 5 && isDir && !forceDirLink)
      && (status == EEXIST <==> left > 5 && may && fits && to.Found?)
      && (status == OK <==> left > 5 && may && fits && to == Failed(ENOENT) && inDir)
      && (status == ENAMETOOLONG <==> left > 5 && (o == Failed(ENAMETOOLONG) || long))
      && (status == ENOENT <==> left > 5 && (o == Failed(ENOENT) || lost))
    ensures status in {OK, ENOSPC, EISDIR, EEXIST, ENAMETOOLONG, ENOENT}
    ensures status == OK ==>
      Resolve(st.table, oldPath) == Found(i) && Resolve(st.table, Split(newPath).0) == Found(q) && Stored(d.dev, st') &&
      Fresh(st.table, q, Split(newPath).1) &&
      if forceDirLink then AddStep(st, q, Entry(Split(newPath).1, i), DirLink(st.table, i), st')
      else LinkStep(st, q, Split(newPath).1, i, st')
    ensures status != OK ==> d.dev == old(d.dev) && st' == st
  {
    hide Stored, Sound, RecAt, InodeCount, Tabled, Segments, Bound, Split, Walk, AddStep, CanGrow, IndexOf,
         InodeWritten, NoSlash, LinkStep, Followable, Relinked, WrapLinks, GoodEnts, Fresh;
    ghost var D, T := d.dev, st.table;
    i, q, st' := 0, 0, st;
    SuperOf(D, st);
    SoundNavigable(T);
    var super := d.ReadBlk(0);
    if super.sb.left <= 5 {
      return ENOSPC, i, q, st;
    }
    var oldNum;
    status, oldNum := Namei(d, oldPath, st);
    if status != OK {
      ResolveFails(T, oldPath);
      return;
    }
    i := oldNum;
    StoredTable(D, st, i);
    var inode := ReadInode(d, oldNum);
    var isDir := inode.kind == Directory;
    if !forceDirLink && isDir {
      return EISDIR, i, q, st;
    }
    var parentPath, childPath;
    status, parentPath, childPath := SplitPathParentChild(newPath);
    if status != OK {
      return;
    }
    var num;
    status, num := Namei(d, newPath, st);
    if status == ENOENT {
      FollowableSplit(T, newPath);
      status, num := Namei(d, parentPath, st);
      if status != OK {
        return ENOENT, i, q, st;
      }
      q := num;
      FreshName(T, newPath, q);
      EntsSome(T, q);
      GuardEnough(T, q, |st.chain|);
      NotReserved(T, i);
      status, st' := AddDirectoryFileEntry(d, num, childPath, oldNum, if isDir then nlinksChange else 0, st);
      AddOthers(st, q, Entry(childPath, i), if isDir then nlinksChange else 0, st');
      SameRecord(D, st, d.dev, st', i);
      ghost var E, st1 := d.dev, st';
      if !forceDirLink {
        inode.links := WrapLinks(inode.links + nlinksChange);
      }
      FileLinksOf(D, st, i);
      WriteInode(d, inode.Rec(), oldNum);
      if !forceDirLink {
        RelinkedStored(E, d.dev, st1, i, 1);
        st' := State(st1.chain, st1.table[i := Relinked(st1.table[i], 1)]);
        LinkIsStep(st, q, childPath, i, st1);
      } else {
        RewrittenSame(E, d.dev, i);
      }
      return;
    } else if status != OK {
      ResolveFails(T, newPath);
      return;
    }
    status := EEXIST;
  }

  lemma LinkIsStep(st: State, q: nat, name: string, i: nat, st1: State)
    requires Fresh(st.table, q, name) && IsFile(st.table, i) && AddStep(st, q, Entry(name, i), 0, st1)
    requires i < |st1.table| && st1.table[i].File?
    ensures LinkStep(st, q, name, i, State(st1.chain, st1.table[i := Relinked(st1.table[i], 1)]))
  {
    hide AddStep, Relinked;
  }

  lemma NotReserved(T: seq<Node>, i: nat)
    requires Sound(T) && InUse(T, i)
    ensures i >= ROOT_DIR_INODE
  {
  }

  lemma AddOthers(st: State, p: nat, e: Entry, delta: int, st': State)
    requires AddStep(st, p, e, delta, st')
    ensures |st'.table| == |st.table| && forall x :: 0 <= x < |st.table| && x != p ==> st'.table[x] == st.table[x]
  {
  }

  lemma RemoveOthers(st: State, p: nat, k: nat, delta: int, st': State)
    requires RemoveStep(st, p, k, delta, st')
    ensures |st'.table| == |st.table| && forall x :: 0 <= x < |st.table| && x != p ==> st'.table[x] == st.table[x]
  {
  }

  lemma FileLinksOf(D: seq<Block>, st: State, i: nat)
    requires Stored(D, st) && InUse(st.table, i)
    ensures Tabled(D) && i < InodeCount(D) && RecAt(D, i).links == st.table[i].links
  {
    hide Chain, Holds, Conserved;
    assert Is(D, RecAt(D, i), st.table[i]);
  }

  // ---- unlink_file ----

  /** Remove the entry (last component of path, inodeNum) from the parent directory. */
  method UnlinkFile(d: Disk, path: string, inode: Inode, inodeNum: nat, nlinksChange: int, ghost st: State)
      returns (status: Status, ghost p: nat, ghost k: nat, ghost st': State)
    requires Stored(d.dev, st) && Navigable(st.table) && Followable(st.table, path) && ParentNotFile(st.table, path) &&
      inodeNum != 0
    requires forall x: nat :: IsDir(st.table, x) ==> st.table[x].ents != []
    modifies d, inode
    ensures status == OK ==>
      !NoSlash(path) && Resolve(st.table, Split(path).0) == Found(p) && IsDir(st.table, p) && k < |st.table[p].ents| &&
      st.table[p].ents[k] == Entry(Split(path).1, inodeNum) &&
      (forall j :: 0 <= j < k ==> st.table[p].ents[j] != Entry(Split(path).1, inodeNum)) &&
      Stored(d.dev, st') && RemoveStep(st, p, k, nlinksChange, st') &&
      inode.Rec() == old(inode.Rec()).(links := WrapLinks(old(inode.links) - 1))
    ensures status != OK ==> d.dev == old(d.dev) && st' == st && inode.Rec() == old(inode.Rec())
    ensures status ==
      if NoSlash(path) then ENOENT
      else if |Split(path).1| >= FILE_NAME_SIZE then ENAMETOOLONG
      else if Resolve(st.table, Split(path).0).Failed? then ENOENT
      else if Entry(Split(path).1, inodeNum) !in st.table[Resolve(st.table, Split(path).0).num].ents then ENOENT
      else OK
  {
    hide Stored, RecAt, InodeCount, Tabled, Segments, Bound, Split, Walk, RemoveStep, NoSlash;
    p, k, st' := 0, 0, st;
    var parentPath, childPath;
    status, parentPath, childPath := SplitPathParentChild(path);
    if status != OK {
      return;
    }
    FollowableSplit(st.table, path);
    var parentNum;
    status, parentNum := Namei(d, parentPath, st);
    if status != OK {
      return ENOENT, p, k, st;
    }
    p := parentNum;
    status, k, st' := UnlinkEntry(d, parentNum, childPath, inodeNum, nlinksChange, st);
    if status == OK {
      inode.links := WrapLinks(inode.links - 1);
    }
  }
}
