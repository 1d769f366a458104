/**
 * The operations FUSE calls. Each takes a device in order to one in order, by one step of the
 * state machine or, when it reports an error, by none (Served), with four exceptions that the
 * contracts delimit: a 16-bit link count that overflows, mkdir on a name in use, create on
 * an existing file, and a write that uses up the last free blocks without success.
 */
module Syscalls {
  import opened Layout
  import opened Device
  import opened PointerTree
  import opened INode
  import opened FreeFile
  import opened InodeTable
  import opened Store
  import opened Editing
  import opened Directory
  import opened EntryRemoval
  import opened FileContents
  import opened Namespace
  import opened Steps
  import opened Path
  import opened Lifecycle
  import opened NameOps
  import Runs

  // ---- Finding an unused inode number ----

  ghost predicate NoneUnused(T: seq<Node>) {
    forall j :: ROOT_DIR_INODE <= j < |T| ==> !T[j].Unused?
  }

  ghost predicate LeastUnused(T: seq<Node>, c: nat) {
    ROOT_DIR_INODE <= c < |T| && T[c].Unused? && forall j :: ROOT_DIR_INODE <= j < c ==> !T[j].Unused?
  }

  lemma Kinds(D: seq<Block>, st: State)
    requires Stored(D, st)
    ensures Tabled(D) && InodeCount(D) == |st.table|
    ensures forall i :: 0 <= i < |st.table| ==> (RecAt(D, i).kind == FreeInode <==> st.table[i].Unused?)
  {
    hide Chain, Holds, Conserved, RecAt;
    forall i | 0 <= i < |st.table| ensures RecAt(D, i).kind == FreeInode <==> st.table[i].Unused? {
      assert Is(D, RecAt(D, i), st.table[i]);
    }
  }

  method NewNumber(d: Disk, ghost st: State) returns (status: Status, c: nat)
    requires Stored(d.dev, st) && Sound(st.table)
    ensures status == if NoneUnused(st.table) then EDQUOT else OK
    ensures status == OK ==> LeastUnused(st.table, c) && st.table[c] == Unused([])
  {
    hide Stored, Sound, RecAt, InodeCount, Tabled;
    Kinds(d.dev, st);
    status, c := FindFreeInode(d);
    if status == OK { UnusedIsEmpty(st.table, c); }
  }

  lemma UnusedIsEmpty(T: seq<Node>, c: nat)
    requires Sound(T) && c < |T| && T[c].Unused?
    ensures T[c] == Unused([])
  {
    hide Names, SubDirs;
    SoundAt(T, c);
  }

  // ---- create ----

  /** The devices that a successful create of path can leave, over all contents of the record
      that the code does not initialise when there is something at path already. */
  ghost predicate MayLeave(D: seq<Block>, st: State, path: string, E: seq<Block>) {
    var o := Resolve(st.table, path);
    if o.Found? then exists rec: InodeRec :: InodeWritten(D, E, o.num, rec)
    else exists p: nat, c: nat, st': State :: Runs.Does(Runs.Create(p, Split(path).1, c), st, st') && Stored(E, st')
  }

  lemma MayOverwrite(D: seq<Block>, st: State, path: string, rec: InodeRec, E: seq<Block>)
    requires Resolve(st.table, path).Found? && InodeWritten(D, E, Resolve(st.table, path).num, rec)
    ensures MayLeave(D, st, path, E)
  {
    hide Walk, Segments, InodeWritten;
  }

  /** create leaves a device in order, whatever that record holds, if and only if there is
      nothing at path. */
  lemma CreateInOrder(D: seq<Block>, st: State, path: string)
    requires Stored(D, st) && Sound(st.table) && Followable(st.table, path)
    ensures (forall E: seq<Block> :: MayLeave(D, st, path, E) ==> InOrder(E)) <==> Resolve(st.table, path).Failed?
  {
    hide Stored, Sound, Runs.Does, Walk, Segments, InOrder, Split;
    if Resolve(st.table, path).Failed? {
      forall E: seq<Block> | MayLeave(D, st, path, E) ensures InOrder(E) {
        var p: nat, c: nat, st': State :| Runs.Does(Runs.Create(p, Split(path).1, c), st, st') && Stored(E, st');
        Runs.DoesKeeps(Runs.Create(p, Split(path).1, c), st, st');
        assert InOrder(E) by { StateInOrder(E, st'); }
      }
    } else {
      ResolveInUse(st.table, path);
      var E := Overwritten(D, st, Resolve(st.table, path).num);
      assert MayLeave(D, st, path, E);
    }
  }

  /** Inode c with a record that no device in order has. */
  lemma Overwritten(D: seq<Block>, st: State, c: nat) returns (E: seq<Block>)
    requires Stored(D, st) && Sound(st.table) && InUse(st.table, c)
    ensures (exists rec: InodeRec :: InodeWritten(D, E, c, rec)) && !InOrder(E)
  {
    hide Stored, Sound, InOrder, InodeWritten;
    StoredTable(D, st, c);
    SlotInList(D, c);
    var rec := RecAt(D, c).(links := 0);
    E := D[InodeBlk(c) := Inodes(D[InodeBlk(c)].recs[InodeSlot(c) := rec])];
    InodeWrittenFrom(D, E, c, rec);
    assert RecAt(E, c) == rec by { assert InodeWritten(D, E, c, rec); }
    ZeroLinks(E, c);
  }

  /** If there is something at path already, its inode is overwritten with a record that was
      never initialised: the device stays as it is exactly when that record happens to be
      the old one. */
  method CreateRegularFile(d: Disk, path: string, ghost st: State)
      returns (status: Status, ghost p: nat, ghost c: nat, ghost rec: InodeRec, ghost st': State)
    requires Stored(d.dev, st) && Sound(st.table) && Addable(st.table, path)
    modifies d
    ensures var (left, child, o) := (old(d.dev)[0].sb.left, Split(path).1, Resolve(st.table, path));
      var fits := !NoSlash(path) && |child| < FILE_NAME_SIZE;
      var (inDir, numbers) := (Resolve(st.table, Split(path).0).Found?, !NoneUnused(st.table));
      && (status == ENOSPC <==> left <= 5)
      && (status == OK <==> left > 5 && fits && (o.Found? || (o == Failed(ENOENT) && inDir && numbers)))
      && (status == EDQUOT <==> left > 5 && fits && o == Failed(ENOENT) && inDir && !numbers)
      && (status == ENAMETOOLONG <==> left > 5 && !NoSlash(path) && (fits ==> o == Failed(ENAMETOOLONG)))
      && (status == ENOENT <==> left > 5 && (NoSlash(path) || (fits && o == Failed(ENOENT) && !inDir)))
    ensures status in {OK, ENOSPC, EDQUOT, ENAMETOOLONG, ENOENT}
    ensures status == OK && Resolve(st.table, path).Failed? ==>
      Resolve(st.table, Split(path).0) == Found(p) && LeastUnused(st.table, c) &&
      Runs.Does(Runs.Create(p, Split(path).1, c), st, st')
    ensures status == OK && Resolve(st.table, path).Found? ==>
      Resolve(st.table, path) == Found(c) && InodeWritten(old(d.dev), d.dev, c, rec) &&
      (d.dev == old(d.dev) <==> rec == RecAt(old(d.dev), c))
    ensures status != OK ==> d.dev == old(d.dev) && st' == st
    ensures status == OK ==> MayLeave(old(d.dev), st, path, d.dev)
    ensures status != OK || Resolve(st.table, path).Failed? ==>
      Sound(st'.table) && Runs.Served(old(d.dev), st, d.dev, st')
  {
    hide Stored, Sound, RecAt, InodeCount, Tabled, Segments, Bound, Split, Walk, AddStep, CanGrow, IndexOf,
         InodeWritten, NoSlash, NoneUnused, LeastUnused, CreateStep;
    ghost var D, T := d.dev, st.table;
    p, c, rec, st' := 0, 0, NO_INODE, st;
    SuperOf(D, st);
    SoundNavigable(T);
    var super := d.ReadBlk(0);
    if super.sb.left <= 5 {
      return ENOSPC, p, c, rec, st;
    }
    var parentPath, childPath;
    status, parentPath, childPath := SplitPathParentChild(path);
    if status != OK {
      return;
    }
    var num;
    status, num := Namei(d, path, st);
    if status == OK {
      var garbage: InodeRec := *;
      StoredTable(D, st, num);
      WriteInode(d, garbage, num);
      if garbage == RecAt(D, num) { RewrittenSame(D, d.dev, num); } else { RewrittenOther(D, d.dev, num, garbage); }
      MayOverwrite(D, st, path, garbage, d.dev);
      return OK, p, num, garbage, st;
    }
    if status != ENOENT {
      ResolveFails(T, path);
      return;
    }
    FollowableSplit(T, path);
    var parentNum;
    status, parentNum := Namei(d, parentPath, st);
    if status != OK {
      return ENOENT, p, c, rec, st;
    }
    p := parentNum;
    var childNum;
    status, childNum := NewNumber(d, st);
    if status != OK {
      return;
    }
    c := childNum;
    UnusedNumber(T, c);
    FreshName(T, path, p);
    EntsSome(T, p);
    GuardEnough(T, p, |st.chain|);
    ghost var st1;
    status, st1 := AddDirectoryFileEntry(d, parentNum, childPath, childNum, 0, st);
    AddOthers(st, p, Entry(childPath, c), 0, st1);
    ghost var E := d.dev;
    Kinds(E, st1);
    WriteInode(d, NEW_FILE, childNum);
    NewFileStored(E, d.dev, st1, c);
    st' := State(st1.chain, st1.table[c := File([], [], [], 1)]);
    CreateIsStep(st, p, childPath, c, st1);
    CreateKeepsSound(st, p, childPath, c, st');
    assert Runs.Does(Runs.Create(p, childPath, c), st, st');
  }

  lemma RewrittenOther(D: seq<Block>, E: seq<Block>, i: nat, rec: InodeRec)
    requires InodeWritten(D, E, i, rec) && rec != RecAt(D, i)
    ensures E != D
  {
  }

  lemma UnusedNumber(T: seq<Node>, c: nat)
    requires LeastUnused(T, c)
    ensures ROOT_DIR_INODE <= c < |T| && T[c].Unused?
  {
  }

  lemma CreateIsStep(st: State, p: nat, name: string, c: nat, st1: State)
    requires Fresh(st.table, p, name) && ROOT_DIR_INODE <= c < |st.table| && st.table[c] == Unused([])
    requires AddStep(st, p, Entry(name, c), 0, st1) && c < |st1.table|
    ensures CreateStep(st, p, name, c, State(st1.chain, st1.table[c := File([], [], [], 1)]))
  {
    hide AddStep;
  }

  // ---- mkdir ----

  lemma TwoEntries(e0: Entry, e1: Entry, p1: seq<Entry>, p2: seq<Entry>)
    requires e0.ino != 0 && e1.ino != 0
    requires PutFirst(DirBlock([], 0), e0, p1) && PutFirst(p1, e1, p2)
    ensures p2 == DirBlock([e0, e1], 0)
  {
    PutInEmpty(e0, p1);
    AddNewBlock([], e0, 0);
    assert [] + [e0] == [e0] && p1 == DirBlock([e0], 0);
    AddInBlock([e0], e1, p2, 0);
    assert [e0] + [e1] == [e0, e1];
  }

  lemma OneNotFull(e0: Entry, p1: seq<Entry>)
    requires PutFirst(DirBlock([], 0), e0, p1)
    ensures |p1| == ENTRIES_PER_BLOCK && !NoSlotFree(p1)
  {
    PutInEmpty(e0, p1);
    assert p1[1].ino == 0;
  }

  method Mkdir(d: Disk, path: string, ghost st: State)
      returns (status: Status, ghost p: nat, ghost c: nat, ghost st': State)
    requires Stored(d.dev, st) && Sound(st.table) && Addable(st.table, path)
    modifies d
    ensures var (left, inDir) := (old(d.dev)[0].sb.left, Resolve(st.table, Split(path).0).Found?);
      var (fits, numbers) := (!NoSlash(path) && |Split(path).1| < FILE_NAME_SIZE, !NoneUnused(st.table));
      && (status == ENOSPC <==> left <= 7)
      && (status == OK <==> left > 7 && fits && inDir && numbers)
      && (status == EDQUOT <==> left > 7 && fits && inDir && !numbers)
      && (status == ENAMETOOLONG <==> left > 7 && !NoSlash(path) && !fits)
      && (status == ENOENT <==> left > 7 && (NoSlash(path) || (fits && !inDir)))
    ensures status in {OK, ENOSPC, EDQUOT, ENAMETOOLONG, ENOENT}
    ensures status == OK ==>
      Resolve(st.table, Split(path).0) == Found(p) && LeastUnused(st.table, c) &&
        MkdirStep(st, p, Split(path).1, c, st')
    ensures status != OK ==> d.dev == old(d.dev) && st' == st
    ensures Stored(d.dev, st')
    ensures Sound(st'.table) <==>
      (status == OK ==> Resolve(st.table, path).Failed? && st.table[p].links + 1 < LINK_COUNT_LIMIT)
    ensures InOrder(d.dev) <==> Sound(st'.table)
    ensures Sound(st'.table) ==> Runs.Served(old(d.dev), st, d.dev, st')
  {
    hide InOrder, Settled, Stored, Sound, RecAt, InodeCount, Tabled, Segments, Bound, Split, Walk, AddStep, CanGrow,
      IndexOf,
         InodeWritten, NoSlash, NoneUnused, LeastUnused, MkdirStep, DirBlock, PutFirst, NoSlotFree, Chain, Runs.Does;
    ghost var D, T := d.dev, st.table;
    p, c, st' := 0, 0, st;
    SuperOf(D, st);
    SoundNavigable(T);
    StateInOrder(D, st);
    var super := d.ReadBlk(0);
    if super.sb.left <= 7 {
      return ENOSPC, p, c, st;
    }
    var parentPath, childDir;
    status, parentPath, childDir := SplitPathParentChild(path);
    if status != OK {
      return;
    }
    FollowableSplit(T, path);
    var parentNum;
    status, parentNum := Namei(d, parentPath, st);
    if status != OK {
      return ENOENT, p, c, st;
    }
    p := parentNum;
    var childNum;
    status, childNum := NewNumber(d, st);
    if status != OK {
      return;
    }
    c := childNum;
    UnusedNumber(T, c);
    FreshName(T, path, p);
    EntsSome(T, p);
    NotReserved(T, p);
    GuardEnough(T, p, |st.chain| - 1);
    StoredChain(D, st);
    var b;
    status, b := MallocBlk(d, st.chain);
    if status != OK {
      return;
    }
    Reserved(D, d.dev, st, c);
    ghost var st0 := State(st.chain[1..], T[c := Unused([b])]);
    ghost var st1;
    status, st1 := AddDirectoryFileEntry(d, parentNum, childDir, childNum, 1, st0);
    AddOthers(st0, p, Entry(childDir, c), 1, st1);
    ghost var E := d.dev;
    BlockOf(E, st1, c, b);
    EmptyNotFull();
    var ents, ents2;
    status, ents := PutDirectoryFileEntry(DirBlock([], 0), ".", childNum);
    OneNotFull(Entry(".", c), ents);
    status, ents2 := PutDirectoryFileEntry(ents, "..", parentNum);
    TwoEntries(Entry(".", c), Entry("..", p), ents, ents2);
    d.WriteBlk(b, Table(ents2));
    BlockWritten(E, st1, c, b, ents2);
    ghost var E1 := d.dev;
    WriteInode(d, NewDirRec(b), childNum);
    NewDirStored(E, E1, d.dev, st1, c, p, b);
    st' := State(st1.chain, st1.table[c := NewDir(c, p, b)]);
    MkdirIsStep(st, p, childDir, c, st1);
    MkdirServed(st, p, childDir, c, d.dev, st');
  }

  lemma StoredChain(D: seq<Block>, st: State)
    requires Stored(D, st)
    ensures Chain(D, st.chain)
  {
  }

  lemma BlockWritten(D: seq<Block>, st: State, c: nat, b: nat, ents: seq<Entry>)
    requires Stored(D, st) && c < |st.table| && st.table[c] == Unused([b]) && b < |D|
    ensures var E := D[b := Table(ents)]; Tabled(E) && InodeCount(E) == |st.table|
  {
    hide Linked, Conserved, Is, Tabled;
    assert Owns(st.table[c], b);
    OneOwner(D, st, c, b);
    LateTabled(D, D[b := Table(ents)], b, Table(ents));
  }

  lemma MkdirServed(st: State, p: nat, name: string, c: nat, E: seq<Block>, st': State)
    requires Sound(st.table) && MkdirStep(st, p, name, c, st') && Stored(E, st')
    ensures IsDir(st.table, p)
    ensures Sound(st'.table) <==> Fresh(st.table, p, name) && st.table[p].links + 1 < LINK_COUNT_LIMIT
    ensures InOrder(E) <==> Sound(st'.table)
    ensures Sound(st'.table) ==> Runs.Does(Runs.Mkdir(p, name, c), st, st')
  {
    hide Sound, Stored, InOrder, Settled, AddStep, Fresh;
    MkdirKeepsSound(st, p, name, c, st');
    MkdirSettled(st, p, name, c, st');
    InOrderIsSound(E, st');
  }

  lemma MkdirIsStep(st: State, p: nat, name: string, c: nat, st1: State)
    requires IsDir(st.table, p) && |name| < FILE_NAME_SIZE && ROOT_DIR_INODE <= c < |st.table| &&
      st.table[c] == Unused([]) && |st.chain| > 1
    requires AddStep(State(st.chain[1..], st.table[c := Unused([st.chain[0]])]), p, Entry(name, c), 1, st1) &&
      c < |st1.table|
    ensures MkdirStep(st, p, name, c, State(st1.chain, st1.table[c := NewDir(c, p, st.chain[0])]))
  {
    hide AddStep;
  }

  // ---- link ----

  method Link(d: Disk, oldPath: string, newPath: string, ghost st: State)
      returns (status: Status, ghost i: nat, ghost q: nat, ghost st': State)
    requires Stored(d.dev, st) && Sound(st.table) && Followable(st.table, oldPath) && Addable(st.table, newPath)
    modifies d
    ensures var (left, o, to) := (old(d.dev)[0].sb.left, Resolve(st.table, oldPath), Resolve(st.table, newPath));
      var (isFile, isDir) := (o.Found? && IsFile(st.table, o.num), o.Found? && IsDir(st.table, o.num));
      var fits := !NoSlash(newPath) && |Split(newPath).1| < FILE_NAME_SIZE;
      var inDir := Resolve(st.table, Split(newPath).0).Found?;
      var long := isFile && !NoSlash(newPath) && (fits ==> to == Failed(ENAMETOOLONG));
      var lost := isFile && (NoSlash(newPath) || (fits && to == Failed(ENOENT) && !inDir));
      && (status == ENOSPC <==> left <= 5)
      && (status == EISDIR <==> left > 5 && isDir)
      && (status == EEXIST <==> left > 5 && isFile && fits && to.Found?)
      && (status == OK <==> left > 5 && isFile && fits && to == Failed(ENOENT) && inDir)
      && (status == ENAMETOOLONG <==> left > 5 && (o == Failed(ENAMETOOLONG) || long))
      && (status == ENOENT <==> left > 5 && (o == Failed(ENOENT) || lost))
    ensures status in {OK, ENOSPC, EISDIR, EEXIST, ENAMETOOLONG, ENOENT}
    ensures status == OK ==>
      Resolve(st.table, oldPath) == Found(i) && Resolve(st.table, Split(newPath).0) == Found(q) &&
      LinkStep(st, q, Split(newPath).1, i, st')
    ensures status != OK ==> d.dev == old(d.dev) && st' == st
    ensures Stored(d.dev, st')
    ensures Sound(st'.table) <==> (status == OK ==> st.table[i].links + 1 < LINK_COUNT_LIMIT)
    ensures InOrder(d.dev) <==> Sound(st'.table)
    ensures Sound(st'.table) ==> Runs.Served(old(d.dev), st, d.dev, st')
  {
    hide InOrder, Settled, LinkStep, Stored, Sound, Segments, Split, Walk, AddStep, CanGrow, IndexOf, NoSlash;
    StateInOrder(d.dev, st);
    SuperOf(d.dev, st);
    if Resolve(st.table, oldPath).Failed? { ResolveFails(st.table, oldPath); } else { ResolveInUse(st.table, oldPath); }
    if Resolve(st.table, newPath).Failed? { ResolveFails(st.table, newPath); }
    status, i, q, st' := LinkFile(d, oldPath, newPath, false, 1, st);
    if status == OK {
      LinkKeepsSound(st, q, Split(newPath).1, i, st');
      LinkSettled(st, q, Split(newPath).1, i, st');
      InOrderIsSound(d.dev, st');
      if Sound(st'.table) { assert Runs.Does(Runs.Link(q, Split(newPath).1, i), st, st'); }
    }
  }

  // ---- unlink ----

  lemma BoundEntry(T: seq<Node>, p: nat, name: string, i: nat)
    requires Bound(T, p, name) == Some(i)
    ensures IsDir(T, p) && Entry(name, i) in T[p].ents
    ensures Sound(T) && name == "." ==> i == p
  {
    hide Counted, Names, SubDirs;
    var k := IndexOf(T[p].ents, name);
    assert T[p].ents[k] == Entry(name, i);
    if Sound(T) { SoundAt(T, p); }
  }

  /** "." and ".." come first, and only first. */
  lemma OrdinaryEntry(T: seq<Node>, p: nat, k: nat)
    requires Sound(T) && IsDir(T, p) && k < |T[p].ents| && T[p].ents[k].name != "." && T[p].ents[k].name != ".."
    ensures k >= 2
  {
    hide Counted, Names, SubDirs;
    SoundAt(T, p);
  }

  lemma DirsNotEmpty(T: seq<Node>)
    requires Sound(T)
    ensures forall x: nat :: IsDir(T, x) ==> T[x].ents != []
  {
    forall x: nat | IsDir(T, x) ensures T[x].ents != [] { EntsSome(T, x); }
  }

  /** The inode in memory, which is the one on disk, gives up its blocks. */
  lemma ReadyToRemove(D: seq<Block>, st: State, i: nat, rec: InodeRec)
    requires Stored(D, st) && InUse(st.table, i) && Tabled(D) && i < InodeCount(D)
    requires rec == RecAt(D, i).(links := rec.links)
    ensures Chain(D, st.chain) && Separate(D, st.table[i].blks + st.table[i].nodes, st.chain)
    ensures Holds(D, rec, st.table[i].blks, st.table[i].nodes)
  {
    hide Chain, Tree, Conserved, Separate;
    FileOwn(D, st, i);
    assert Is(D, RecAt(D, i), st.table[i]);
    HoldsPointers(D, RecAt(D, i), rec, st.table[i].blks, st.table[i].nodes);
  }

  method FreeInodeAndBlocks(d: Disk, inode: Inode, num: nat, ghost st: State) returns (ghost st': State)
    requires Stored(d.dev, st) && InUse(st.table, num) && Tabled(d.dev) && num < InodeCount(d.dev)
    requires inode.Rec() == RecAt(d.dev, num).(links := inode.links)
    modifies d, inode
    ensures Stored(d.dev, st') && GoneStep(st, num, st')
  {
    hide Stored, RecAt, InodeCount, Tabled, Chain, Separate, Holds, AllFreed, InodeWritten, GoneStep;
    ghost var D, a := d.dev, st.table[num];
    ReadyToRemove(D, st, num, inode.Rec());
    ghost var P := RemoveFile(d, inode, a.blks, a.nodes, st.chain);
    ghost var E := d.dev;
    FreedTabled(D, E, st, num, P);
    WriteInode(d, inode.Rec(), num);
    GoneStored(D, E, d.dev, st, num, P, inode.Rec());
    st' := State(P + st.chain, st.table[num := Unused([])]);
  }

  method Unlink(d: Disk, path: string, ghost st: State)
      returns (status: Status, ghost p: nat, ghost k: nat, ghost st': State)
    requires Stored(d.dev, st) && Sound(st.table) && Followable(st.table, path) && ParentNotFile(st.table, path)
    requires Split(path).1 != ".."
    modifies d
    ensures var o := Resolve(st.table, path);
      && (status == OK <==> o.Found? && IsFile(st.table, o.num) && !NoSlash(path))
      && (status == EINVAL <==> o.Found? && IsDir(st.table, o.num))
      && (status == ENOENT <==> o.Failed? || (IsFile(st.table, o.num) && NoSlash(path)))
    ensures status in {OK, EINVAL, ENOENT}
    ensures status == OK ==>
      Resolve(st.table, Split(path).0) == Found(p) && IsDir(st.table, p) && k < |st.table[p].ents| &&
      Found(st.table[p].ents[k].ino) == Resolve(st.table, path) && st.table[p].ents[k].name == Split(path).1 &&
      Runs.Does(Runs.Unlink(p, k), st, st')
    ensures status != OK ==> d.dev == old(d.dev) && st' == st
    ensures Sound(st'.table) && Runs.Served(old(d.dev), st, d.dev, st')
  {
    hide Stored, Sound, RecAt, InodeCount, Tabled, Segments, Bound, Split, Walk, RemoveStep, GoneStep, InodeWritten,
         NoSlash, UnlinkStep;
    ghost var D, T := d.dev, st.table;
    p, k, st' := 0, 0, st;
    SoundNavigable(T);
    DirsNotEmpty(T);
    var num;
    status, num := Namei(d, path, st);
    if status != OK {
      return ENOENT, p, k, st;
    }
    StoredTable(D, st, num);
    var inode := ReadInode(d, num);
    if inode.kind == Directory {
      return EINVAL, p, k, st;
    }
    if !NoSlash(path) { UnlinkEntryExists(T, path, num); }
    NotReserved(T, num);
    ghost var st1;
    status, p, k, st1 := UnlinkFile(d, path, inode, num, 0, st);
    if status != OK {
      return ENOENT, p, k, st;
    }
    UnlinkOrdinary(T, path, num, p, k);
    RemoveOthers(st, p, k, 0, st1);
    ghost var E := d.dev;
    SameRecord(D, st, E, st1, num);
    FileLinksOf(D, st, num);
    if inode.links == 0 {
      st' := FreeInodeAndBlocks(d, inode, num, st1);
    } else {
      WriteInode(d, inode.Rec(), num);
      RelinkedStored(E, d.dev, st1, num, -1);
      st' := State(st1.chain, st1.table[num := Relinked(st1.table[num], -1)]);
    }
    UnlinkIsStep(st, p, k, st1, st');
    UnlinkKeepsSound(st, p, k, st');
    assert Runs.Does(Runs.Unlink(p, k), st, st');
  }

  /** The parent directory has the entry. */
  lemma UnlinkEntryExists(T: seq<Node>, path: string, i: nat)
    requires Sound(T) && ParentNotFile(T, path) && Resolve(T, path) == Found(i) && IsFile(T, i) && !NoSlash(path)
    ensures Split(path).1 != "" && Split(path).1 != "." && |Split(path).1| < FILE_NAME_SIZE
    ensures var o := Resolve(T, Split(path).0); o.Found? && IsDir(T, o.num) && Entry(Split(path).1, i) in T[o.num].ents
  {
    hide Sound, Split, Walk, Bound;
    if Split(path).1 == "" { ResolveTrailing(T, path); }
    var p := NamedIn(T, path, i);
    BoundEntry(T, p, Split(path).1, i);
  }

  lemma UnlinkOrdinary(T: seq<Node>, path: string, i: nat, p: nat, k: nat)
    requires Sound(T) && Split(path).1 != "." && Split(path).1 != ".."
    requires IsDir(T, p) && k < |T[p].ents| && T[p].ents[k] == Entry(Split(path).1, i)
    ensures k >= 2
  {
    hide Sound, Split;
    OrdinaryEntry(T, p, k);
  }

  lemma UnlinkIsStep(st: State, p: nat, k: nat, st1: State, st': State)
    requires IsDir(st.table, p) && 2 <= k < |st.table[p].ents| && IsFile(st.table, st.table[p].ents[k].ino)
    requires RemoveStep(st, p, k, 0, st1) && IsFile(st1.table, st.table[p].ents[k].ino)
    requires var c := st.table[p].ents[k].ino;
      if WrapLinks(st1.table[c].links - 1) == 0 then GoneStep(st1, c, st')
      else st' == State(st1.chain, st1.table[c := Relinked(st1.table[c], -1)])
    ensures UnlinkStep(st, p, k, st')
  {
    hide RemoveStep, GoneStep;
  }

  // ---- rmdir ----

  /** What is found is a directory with nothing but "." and "..". */
  ghost predicate EmptyDir(T: seq<Node>, o: Outcome) { o.Found? && IsDir(T, o.num) && |T[o.num].ents| == 2 }

  ghost predicate FullDir(T: seq<Node>, o: Outcome) { o.Found? && IsDir(T, o.num) && |T[o.num].ents| > 2 }

  method Rmdir(d: Disk, path: string, ghost st: State)
      returns (status: Status, ghost p: nat, ghost k: nat, ghost st': State)
    requires Stored(d.dev, st) && Sound(st.table)
    requires Followable(st.table, path) || (!NoSlash(path) && Split(path).1 == "..")
    modifies d
    ensures var (T, child, o) := (st.table, Split(path).1, Resolve(st.table, path));
      var (named, fits) := (!NoSlash(path) && child != "." && child != "..", |child| < FILE_NAME_SIZE);
      && (status == OK <==> named && fits && child != "" && EmptyDir(T, o))
      && (status == EINVAL <==> !NoSlash(path) && child == ".")
      && (status == EPERM <==> path == "/")
      && (status == ENOTEMPTY <==> !NoSlash(path) && (child == ".." || (named && fits && path != "/" && FullDir(T, o))))
      && (status == ENOTDIR <==> named && fits && FileOutcome(T, o))
      && (status == EIO <==> named && child == "" && path != "/" && EmptyDir(T, o))
      && (status == ENAMETOOLONG <==> named && (fits ==> o == Failed(ENAMETOOLONG)))
      && (status == ENOENT <==> NoSlash(path) || (named && fits && o == Failed(ENOENT)))
    ensures status in {OK, EINVAL, EPERM, ENOTEMPTY, ENOTDIR, EIO, ENAMETOOLONG, ENOENT}
    ensures status == OK ==> Resolve(st.table, path) != Found(ROOT_DIR_INODE)
    ensures status == OK ==>
      Resolve(st.table, Split(path).0) == Found(p) && IsDir(st.table, p) && k < |st.table[p].ents| &&
      Found(st.table[p].ents[k].ino) == Resolve(st.table, path) && st.table[p].ents[k].name == Split(path).1 &&
      Runs.Does(Runs.Rmdir(p, k), st, st')
    ensures status != OK ==> d.dev == old(d.dev) && st' == st
    ensures Sound(st'.table) && Runs.Served(old(d.dev), st, d.dev, st')
  {
    hide Stored, Sound, RecAt, InodeCount, Tabled, Segments, Bound, Split, Walk, RemoveStep, GoneStep, InodeWritten,
         NoSlash, Runs.Does, SwapRemove, Followable;
    ghost var D, T := d.dev, st.table;
    p, k, st' := 0, 0, st;
    SoundNavigable(T);
    DirsNotEmpty(T);
    SplitRoot(path);
    var parentPath, childPath;
    status, parentPath, childPath := SplitPathParentChild(path);
    if status != OK {
      return;
    }
    if childPath == "." {
      return EINVAL, p, k, st;
    }
    if childPath == ".." {
      return ENOTEMPTY, p, k, st;
    }
    if parentPath == "" && childPath == "" {
      RootResolves(T);
      return EPERM, p, k, st;
    }
    var num;
    status, num := Namei(d, path, st);
    if status != OK {
      ResolveFails(T, path);
      return;
    }
    StoredTable(D, st, num);
    var inode := ReadInode(d, num);
    if inode.kind != Directory {
      return ENOTDIR, p, k, st;
    }
    var empty := IsDirectoryEmpty(d, inode, num, st);
    if !empty {
      return ENOTEMPTY, p, k, st;
    }
    EntsSome(T, num);
    FileLinksOf(D, st, num);
    EmptyHasTwoLinks(T, num);
    if inode.links != 2 {
      return ENOTEMPTY, p, k, st;
    }
    DirParent(T, path);
    RmdirEntry(T, path, num);
    NotReserved(T, num);
    ghost var st1;
    status, p, k, st1 := UnlinkFile(d, path, inode, num, -1, st);
    if status != OK {
      return EIO, p, k, st;
    }
    UnlinkOrdinary(T, path, num, p, k);
    RmdirTarget(T, p, k);
    RemoveOthers(st, p, k, -1, st1);
    SameRecord(D, st, d.dev, st1, num);
    st' := FreeInodeAndBlocks(d, inode, num, st1);
    RmdirIsStep(st, p, k, st1, st');
    Runs.DoesKeeps(Runs.Rmdir(p, k), st, st');
  }

  lemma RmdirTarget(T: seq<Node>, p: nat, k: nat)
    requires Sound(T) && IsDir(T, p) && 2 <= k < |T[p].ents|
    ensures T[p].ents[k].name != "" && T[p].ents[k].ino != ROOT_DIR_INODE
  {
    hide Names, SubDirs, Counted;
    TargetInUse(T, p, k);
    SoundAt(T, p);
  }

  lemma RootResolves(T: seq<Node>)
    ensures Resolve(T, "/") == Found(ROOT_DIR_INODE)
  {
    assert "/"[1..] == "" && Segments("") == [];
  }

  /** The parent has the entry, unless the path ends in '/'. */
  lemma RmdirEntry(T: seq<Node>, path: string, i: nat)
    requires Sound(T) && ParentNotFile(T, path) && Resolve(T, path) == Found(i) && IsDir(T, i) && !NoSlash(path)
    ensures var o := Resolve(T, Split(path).0);
      o.Found? && IsDir(T, o.num) && (Entry(Split(path).1, i) in T[o.num].ents <==> Split(path).1 != "")
  {
    hide Sound, Split, Walk, Bound;
    if Split(path).1 == "" {
      ResolveTrailing(T, path);
      EntsSome(T, i);
    } else {
      var p := NamedIn(T, path, i);
      BoundEntry(T, p, Split(path).1, i);
    }
  }

  lemma RmdirIsStep(st: State, p: nat, k: nat, st1: State, st': State)
    requires IsDir(st.table, p) && 2 <= k < |st.table[p].ents|
    requires var c := st.table[p].ents[k].ino;
      IsDir(st.table, c) && |st.table[c].ents| <= 2 && RemoveStep(st, p, k, -1, st1) && GoneStep(st1, c, st')
    ensures Runs.Does(Runs.Rmdir(p, k), st, st')
  {
    hide RemoveStep, GoneStep;
  }

  // ---- rename ----

  /** Adding a name leaves every earlier binding, and every walk among inodes in use. */
  lemma AddKeepsPaths(st: State, q: nat, e: Entry, delta: int, st1: State)
    requires Sound(st.table) && AddStep(st, q, e, delta, st1) && Fresh(st.table, q, e.name) && InUse(st.table, e.ino)
    ensures Extends(st.table, st1.table) && Navigable(st1.table) && (DotsInUse(st.table) ==> DotsInUse(st1.table))
    ensures forall x: nat :: IsDir(st1.table, x) ==> st1.table[x].ents != []
  {
    hide AddStep, Sound, IndexOf, Bound;
    var T := st.table;
    EntsSome(T, q);
    SoundNavigable(T);
    DirsNotEmpty(T);
    AddGains(st, q, e, delta, st1);
    AddOthers(st, q, e, delta, st1);
    BoundIs(T, q, e.name);
    Runs.FreshNotDots(T, q, e.name);
    forall d, name
      ensures Bound(st1.table, d, name) == if d == q && name == e.name then Some(e.ino) else Bound(T, d, name)
    {
      Runs.AddBinds(T, q, e, st1.table, d, name);
    }
  }

  /** ... so the old path can still be followed to its parent. */
  lemma OldPathStays(st: State, q: nat, e: Entry, delta: int, st1: State, path: string, p: nat)
    requires Sound(st.table) && AddStep(st, q, e, delta, st1) && Fresh(st.table, q, e.name) && InUse(st.table, e.ino)
    requires Followable(st.table, path) && Resolve(st.table, Split(path).0) == Found(p) && IsDir(st.table, p)
    ensures Navigable(st1.table) && Followable(st1.table, path) && ParentNotFile(st1.table, path)
    ensures Resolve(st1.table, Split(path).0) == Found(p)
    ensures forall x: nat :: IsDir(st1.table, x) ==> st1.table[x].ents != []
  {
    hide Sound, AddStep, Fresh, Split, Segments, Walk, Bound, IndexOf, Navigable, DotsInUse;
    AddKeepsPaths(st, q, e, delta, st1);
    WalkExtends(st.table, st1.table, ROOT_DIR_INODE, Segments(Split(path).0));
  }

  /** A directory that changes parents finds room in the new parent's link count. */
  ghost predicate CountRoom(T: seq<Node>, oldPath: string, newPath: string) {
    var (moved, source, target) := (Resolve(T, oldPath), Resolve(T, Split(oldPath).0), Resolve(T, Split(newPath).0));
    moved.Found? && IsDir(T, moved.num) && target.Found? && IsDir(T, target.num) && target != source ==>
      T[target.num].links + 1 < LINK_COUNT_LIMIT
  }

  /** Renaming without replacing (RENAME_NOREPLACE). A directory is not moved directly into
      itself, and the old path names something in a directory. */
  method Rename(d: Disk, oldPath: string, newPath: string, ghost st: State)
      returns (status: Status, ghost p: nat, ghost k: nat, ghost q: nat, ghost st': State)
    requires Stored(d.dev, st) && Sound(st.table)
    requires Followable(st.table, oldPath) && ParentNotFile(st.table, oldPath) && Addable(st.table, newPath)
    requires !NoSlash(oldPath) && Split(oldPath).1 !in {"", ".", ".."}
    requires Resolve(st.table, oldPath).Found? ==> Resolve(st.table, Split(newPath).0) != Resolve(st.table, oldPath)
    modifies d
    ensures var (left, o, to) := (old(d.dev)[0].sb.left, Resolve(st.table, oldPath), Resolve(st.table, newPath));
      var fits := !NoSlash(newPath) && |Split(newPath).1| < FILE_NAME_SIZE;
      var (absent, inDir) := (o.Found? && to == Failed(ENOENT), Resolve(st.table, Split(newPath).0).Found?);
      var long := absent && left > 5 && !NoSlash(newPath) && !fits;
      && (status == EEXIST <==> o.Found? && to.Found?)
      && (status == ENOSPC <==> absent && left <= 5)
      && (status == OK <==> absent && left > 5 && fits && inDir)
      && (status == ENAMETOOLONG <==> long || (o.Found? && to == Failed(ENAMETOOLONG)))
      && (status == ENOENT <==> o.Failed? || (absent && left > 5 && (NoSlash(newPath) || (fits && !inDir))))
    ensures status in {OK, EEXIST, ENOSPC, ENAMETOOLONG, ENOENT}
    ensures status == OK ==>
      Resolve(st.table, Split(oldPath).0) == Found(p) && Resolve(st.table, Split(newPath).0) == Found(q) &&
      IsDir(st.table, p) && k < |st.table[p].ents| && st.table[p].ents[k].name == Split(oldPath).1 &&
      Found(st.table[p].ents[k].ino) == Resolve(st.table, oldPath) &&
      RenameStep(st, p, k, q, Split(newPath).1, st')
    ensures status != OK ==> d.dev == old(d.dev) && st' == st
    ensures Stored(d.dev, st')
    ensures Sound(st'.table) <==> (status == OK ==> CountRoom(st.table, oldPath, newPath))
    ensures InOrder(d.dev) <==> Sound(st'.table)
    ensures Sound(st'.table) ==> Runs.Served(old(d.dev), st, d.dev, st')
  {
    hide InOrder, Settled, Stored, Sound, RecAt, InodeCount, Tabled, Segments, Bound, Split, Walk, RemoveStep, AddStep,
      InodeWritten,
         NoSlash, RenameStep, CanGrow, IndexOf, Runs.Does, SwapRemove, Followable, GoodEnts, Fresh, WrapLinks,
         DotsInUse, Navigable;
    ghost var D, T := d.dev, st.table;
    p, k, q, st' := 0, 0, 0, st;
    SoundNavigable(T);
    SuperOf(D, st);
    StateInOrder(D, st);
    var num, other;
    status, num := Namei(d, oldPath, st);
    if status != OK {
      return ENOENT, p, k, q, st;
    }
    status, other := Namei(d, newPath, st);
    if status == OK {
      return EEXIST, p, k, q, st;
    }
    if status != ENOENT {
      ResolveFails(T, newPath);
      return;
    }
    StoredTable(D, st, num);
    var inode := ReadInode(d, num);
    var delta := if inode.kind == Directory then 1 else 0;
    ghost var i, st1;
    status, i, q, st1 := LinkFile(d, oldPath, newPath, true, delta, st);
    if status != OK {
      return;
    }
    NotReserved(T, num);
    p := NamedIn(T, oldPath, num);
    BoundEntry(T, p, Split(oldPath).1, num);
    ghost var e := Entry(Split(newPath).1, num);
    OldPathStays(st, q, e, delta, st1, oldPath, p);
    OldEntryStays(st, q, e, delta, st1, p, Entry(Split(oldPath).1, num));
    status, p, k, st' := UnlinkFile(d, oldPath, inode, num, -delta, st1);
    FirstEntry(T[p].ents, st1.table[p].ents, Entry(Split(oldPath).1, num), k);
    UnlinkOrdinary(T, oldPath, num, p, k);
    RenameIsStep(st, p, k, q, Split(newPath).1, st1, st');
    RenameServed(st, p, k, q, Split(newPath).1, d.dev, st');
  }

  lemma OldEntryStays(st: State, q: nat, e: Entry, delta: int, st1: State, p: nat, f: Entry)
    requires AddStep(st, q, e, delta, st1) && IsDir(st.table, p) && f in st.table[p].ents
    ensures IsDir(st1.table, p) && st.table[p].ents <= st1.table[p].ents && f in st1.table[p].ents
  {
    if p == q { assert st1.table[p].ents == st.table[p].ents + [e]; }
    assert st.table[p].ents <= st1.table[p].ents;
  }

  lemma FirstEntry(ents: seq<Entry>, more: seq<Entry>, e: Entry, k: nat)
    requires ents <= more && e in ents && k < |more| && more[k] == e && forall j :: 0 <= j < k ==> more[j] != e
    ensures k < |ents| && ents[k] == e
  {
    var j :| 0 <= j < |ents| && ents[j] == e;
    assert more[j] == e;
  }

  lemma RenameServed(st: State, p: nat, k: nat, q: nat, name: string, E: seq<Block>, st': State)
    requires Sound(st.table) && RenameStep(st, p, k, q, name, st') && Stored(E, st')
    ensures var i := st.table[p].ents[k].ino;
      Sound(st'.table) <==> (IsDir(st.table, i) && p != q ==> st.table[q].links + 1 < LINK_COUNT_LIMIT)
    ensures InOrder(E) <==> Sound(st'.table)
    ensures Sound(st'.table) ==> Runs.Does(Runs.Rename(p, k, q, name), st, st')
  {
    hide Sound, Stored, InOrder, Settled, AddStep, RemoveStep, IndexOf;
    RenameKeepsSound(st, p, k, q, name, st');
    RenameSettled(st, p, k, q, name, st');
    InOrderIsSound(E, st');
  }

  lemma RenameIsStep(st: State, p: nat, k: nat, q: nat, name: string, st1: State, st': State)
    requires IsDir(st.table, p) && 2 <= k < |st.table[p].ents| && Fresh(st.table, q, name) &&
      q != st.table[p].ents[k].ino
    requires var i := st.table[p].ents[k].ino;
      AddStep(st, q, Entry(name, i), DirLink(st.table, i), st1) && RemoveStep(st1, p, k, -DirLink(st.table, i), st')
    ensures RenameStep(st, p, k, q, name, st')
  {
    hide AddStep, RemoveStep;
  }

  // ---- Contents ----

  /** What write(2) may be asked: the file keeps within the largest size, and the free blocks
      do not end with the very last append. */
  predicate Writable(T: seq<Node>, i: nat, off: nat, n: nat, free: nat) {
    IsFile(T, i) ==>
      CeilDiv(off + n, BLOCK_SIZE) <= LEVEL_3_BLOCKS && !LastFails(|T[i].blks|, CeilDiv(off + n, BLOCK_SIZE), free)
  }

  /** After ENOSPC the device is in order if and only if there was no free block to begin with;
      then it has not changed. */
  method Write(d: Disk, path: string, buf: seq<Byte>, offset: nat, ghost st: State)
      returns (status: Status, size: nat, ghost st': State)
    requires Stored(d.dev, st) && Sound(st.table) && Followable(st.table, path) && |buf| > 0
    requires forall i: nat :: Resolve(st.table, path) == Found(i) ==> Writable(st.table, i, offset, |buf|, |st.chain|)
    modifies d
    ensures var (left, o) := (old(d.dev)[0].sb.left, Resolve(st.table, path));
      var isFile := o.Found? && IsFile(st.table, o.num);
      var cost := if isFile then GrowthCost(|st.table[o.num].blks|, CeilDiv(offset + |buf|, BLOCK_SIZE)) else 0;
      && (status == ENOENT <==> o.Failed?)
      && (status == EINVAL <==> o.Found? && IsDir(st.table, o.num))
      && (status == ENOSPC <==> isFile && cost > left)
      && (status == OK <==> isFile && cost <= left)
    ensures status in {OK, ENOENT, EINVAL, ENOSPC}
    ensures status == OK ==>
      size == |buf| && Runs.Does(Runs.Write(Resolve(st.table, path).num, offset, buf), st, st')
    ensures status != OK && (status == ENOSPC ==> |st.chain| == 1) ==> d.dev == old(d.dev)
    ensures (status == ENOSPC ==> |st.chain| == 1) ==> Runs.Served(old(d.dev), st, d.dev, st')
    ensures status != OK ==> st' == st
    ensures status == ENOSPC ==> (InOrder(d.dev) <==> |st.chain| == 1)
    ensures Sound(st'.table)
  {
    hide Stored, Sound, RecAt, InodeCount, Tabled, Walk, Segments, WriteStep, GrowthCost, LastFails, UsedUp, InOrder;
    SoundNavigable(st.table);
    SuperOf(d.dev, st);
    size, st' := 0, st;
    var num;
    status, num := Namei(d, path, st);
    if status != OK {
      return ENOENT, 0, st;
    }
    ghost var D := d.dev;
    StoredTable(D, st, num);
    var inode := ReadInode(d, num);
    if inode.kind != Regular {
      return EINVAL, 0, st;
    }
    ghost var F;
    status, size, st', F := WriteFile(d, buf, offset, inode, num, st);
    if status == OK {
      WriteKeepsSound(st, num, offset, buf, st');
    } else {
      BlocksLost(D, st, d.dev, F);
    }
  }

  method Read(d: Disk, path: string, size: nat, offset: nat, ghost st: State) returns (status: Status, buf: seq<Byte>)
    requires Stored(d.dev, st) && Sound(st.table) && Followable(st.table, path) && offset % BLOCK_SIZE == 0
    requires forall i: nat :: Resolve(st.table, path) == Found(i) && IsFile(st.table, i) ==>
      ReadSafe(|st.table[i].blks|, offset, size)
    ensures var o := Resolve(st.table, path);
      status == if o.Failed? then ENOENT else if IsDir(st.table, o.num) then EISDIR else OK
    ensures status == OK ==> IsFile(st.table, Resolve(st.table, path).num)
    ensures status == OK ==>
      var f := st.table[Resolve(st.table, path).num];
      |buf| == Min(size, |f.blks| * BLOCK_SIZE - Min(offset, |f.blks| * BLOCK_SIZE)) &&
      forall p :: 0 <= p < |buf| ==> buf[p] == ByteAt(f.data, offset + p)
  {
    hide Stored, Sound, RecAt, InodeCount, Tabled, Walk, Segments;
    SoundNavigable(st.table);
    var num;
    status, num := Namei(d, path, st);
    if status != OK {
      return ENOENT, [];
    }
    StoredTable(d.dev, st, num);
    var inode := ReadInode(d, num);
    if inode.kind != Regular {
      return EISDIR, [];
    }
    buf := ReadFile(d, size, offset, inode, num, st);
  }

  /** open(2); only a regular file is opened for truncation. */
  method Open(d: Disk, path: string, truncate: bool, ghost st: State) returns (status: Status, ghost st': State)
    requires Stored(d.dev, st) && Sound(st.table) && Followable(st.table, path)
    requires truncate ==> FileOutcome(st.table, Resolve(st.table, path)) || Resolve(st.table, path).Failed?
    modifies d
    ensures status == if Resolve(st.table, path).Failed? then ENOENT else OK
    ensures if status == OK && truncate then Runs.Does(Runs.Truncate(Resolve(st.table, path).num), st, st')
      else d.dev == old(d.dev) && st' == st
    ensures Sound(st'.table) && Runs.Served(old(d.dev), st, d.dev, st')
  {
    hide Stored, Sound, Walk, Segments, TruncateStep;
    SoundNavigable(st.table);
    st' := st;
    var num;
    status, num := Namei(d, path, st);
    if status != OK {
      return ENOENT, st;
    }
    if truncate {
      status, st' := TruncateFile(d, num, st);
      TruncateKeepsSound(st, num, st');
    }
  }
}
