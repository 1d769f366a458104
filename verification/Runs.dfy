/** Whole runs of operations, and what one operation does to the names. */
module Runs {
  import opened Layout
  import opened Device
  import opened InodeTable
  import opened Store
  import opened Directory
  import opened EntryRemoval
  import opened FileContents
  import opened Namespace
  import opened Steps

  // ---- Runs ----

  datatype Op =
    | Create(p: nat, name: string, c: nat)
    | Mkdir(p: nat, name: string, c: nat)
    | Link(p: nat, name: string, i: nat)
    | Unlink(p: nat, k: nat)
    | Rmdir(p: nat, k: nat)
    | Rename(p: nat, k: nat, q: nat, name: string)
    | Write(i: nat, off: nat, buf: seq<Byte>)
    | Truncate(i: nat)

  /** op leads from st to st', no 16-bit link count overflowing. */
  ghost predicate Does(op: Op, st: State, st': State) {
    match op
    case Create(p, name, c) => CreateStep(st, p, name, c, st')
    case Mkdir(p, name, c) =>
      MkdirStep(st, p, name, c, st') && Fresh(st.table, p, name) && st.table[p].links + 1 < LINK_COUNT_LIMIT
    case Link(p, name, i) => LinkStep(st, p, name, i, st') && st.table[i].links + 1 < LINK_COUNT_LIMIT
    case Unlink(p, k) => UnlinkStep(st, p, k, st')
    case Rmdir(p, k) => RmdirStep(st, p, k, st')
    case Rename(p, k, q, name) => RenameStep(st, p, k, q, name, st') &&
      (IsDir(st.table, st.table[p].ents[k].ino) && p != q ==> st.table[q].links + 1 < LINK_COUNT_LIMIT)
    case Write(i, off, buf) => WriteStep(st, i, off, buf, st')
    case Truncate(i) => TruncateStep(st, i, st')
  }

  /** What a system call does to a device: one operation, or nothing. */
  ghost predicate Served(D: seq<Block>, st: State, E: seq<Block>, st': State) {
    Stored(E, st') && ((E == D && st' == st) || exists op :: Does(op, st, st'))
  }

  lemma DoesKeeps(op: Op, st: State, st': State)
    requires Sound(st.table) && Does(op, st, st')
    ensures Sound(st'.table) && AllOwned(st') == AllOwned(st)
  {
    hide Sound, AllOwned, CreateStep, MkdirStep, LinkStep, UnlinkStep, RmdirStep, RenameStep, WriteStep, TruncateStep;
    match op
    case Create(p, name, c) =>
      CreateKeepsSound(st, p, name, c, st');
      CreateKeepsBlocks(st, p, name, c, st');
    case Mkdir(p, name, c) =>
      MkdirKeepsSound(st, p, name, c, st');
      MkdirKeepsBlocks(st, p, name, c, st');
    case Link(p, name, i) =>
      LinkKeepsSound(st, p, name, i, st');
      LinkKeepsBlocks(st, p, name, i, st');
    case Unlink(p, k) =>
      UnlinkKeepsSound(st, p, k, st');
      UnlinkKeepsBlocks(st, p, k, st');
    case Rmdir(p, k) =>
      RmdirKeepsSound(st, p, k, st');
      RmdirKeepsBlocks(st, p, k, st');
    case Rename(p, k, q, name) =>
      RenameKeepsSound(st, p, k, q, name, st');
      RenameKeepsBlocks(st, p, k, q, name, st');
    case Write(i, off, buf) =>
      WriteKeepsSound(st, i, off, buf, st');
      WriteKeepsBlocks(st, i, off, buf, st');
    case Truncate(i) =>
      TruncateKeepsSound(st, i, st');
      TruncateKeepsBlocks(st, i, st');
  }

  ghost predicate Run(ops: seq<Op>, states: seq<State>) {
    |states| == |ops| + 1 && forall t :: 0 <= t < |ops| ==> Does(ops[t], states[t], states[t + 1])
  }

  /** Every run from a sound state stays sound, and neither loses nor duplicates a block. */
  lemma {:induction false} RunKeeps(ops: seq<Op>, states: seq<State>, t: nat)
    requires Run(ops, states) && Sound(states[0].table) && t <= |ops|
    ensures Sound(states[t].table) && AllOwned(states[t]) == AllOwned(states[0])
  {
    hide Sound, AllOwned, Does;
    if t > 0 {
      RunKeeps(ops, states, t - 1);
      assert Does(ops[t - 1], states[t - 1], states[t]);
      DoesKeeps(ops[t - 1], states[t - 1], states[t]);
    }
  }

  lemma {:induction false} SumFinds(table: seq<Node>, f: Node -> multiset<nat>, x: nat) returns (i: nat)
    requires Sum(table, f)[x] > 0
    ensures i < |table| && f(table[i])[x] > 0
  {
    var n := |table| - 1;
    if f(table[n])[x] > 0 { i := n; } else { i := SumFinds(table[..n], f, x); }
  }

  /** After any run that starts on a device in order, every block of the data region is on
      the free list once, or belongs to one inode once, and never both. */
  lemma RunAccounts(D: seq<Block>, ops: seq<Op>, states: seq<State>, t: nat, x: nat)
    requires Run(ops, states) && Stored(D, states[0]) && Sound(states[0].table) && t <= |ops|
    requires Geometry(D) && InRegion(D, x)
    ensures var st := states[t];
      && (x in st.chain <==> forall i: nat :: i < |st.table| ==> !Owns(st.table[i], x))
      && (forall i: nat, j: nat :: i < j < |st.table| ==> !(Owns(st.table[i], x) && Owns(st.table[j], x)))
      && multiset(st.chain)[x] <= 1 && forall i: nat :: i < |st.table| ==> Blocks(st.table[i])[x] <= 1
  {
    hide Sound, Does, Blocks, Is, Linked, RecAt, Tabled, Region;
    RunKeeps(ops, states, t);
    RegionOnce(D, x);
    var st := states[t];
    assert (multiset(st.chain) + AllBlocks(st.table))[x] == 1;
    forall i: nat | i < |st.table| ensures Owns(st.table[i], x) ==> x !in st.chain
      ensures Blocks(st.table[i])[x] <= 1
    {
      SumHas(st.table, i, Blocks, x);
      OwnsCount(st.table[i], x);
    }
    forall i: nat, j: nat | i < j < |st.table| ensures !(Owns(st.table[i], x) && Owns(st.table[j], x)) {
      SumHasTwo(st.table, i, j, Blocks, x);
      OwnsCount(st.table[i], x);
      OwnsCount(st.table[j], x);
    }
    if x !in st.chain {
      var i := SumFinds(st.table, Blocks, x);
      OwnsCount(st.table[i], x);
    }
  }

  // ---- Bindings ----

  ghost predicate NoNameTwice(ents: seq<Entry>) {
    forall j, k :: 0 <= j < k < |ents| ==> ents[j].name != ents[k].name
  }

  lemma IndexOfNamed(ents: seq<Entry>, k: nat, name: string)
    requires NoNameTwice(ents) && k < |ents| && ents[k].name == name
    ensures IndexOf(ents, name) == k
  {
    var j := IndexOf(ents, name);
    assert j <= k;
  }

  lemma IndexOfAdded(ents: seq<Entry>, e: Entry, name: string)
    requires IndexOf(ents, e.name) == |ents|
    ensures IndexOf(ents + [e], name) ==
      if name == e.name then |ents|
      else if IndexOf(ents, name) < |ents| then IndexOf(ents, name)
      else |ents| + 1
  {
    var es := ents + [e];
    var j := IndexOf(es, name);
    var i := IndexOf(ents, name);
    if i < |ents| { assert es[i].name == name; }
    if j < |ents| { assert es[j] == ents[j]; }
    if name == e.name { assert es[|ents|].name == name; }
  }

  lemma RemovedBinds(ents: seq<Entry>, k: nat, name: string)
    requires NoNameTwice(ents) && k < |ents|
    ensures var after := SwapRemove(ents, k); var j := IndexOf(after, name); var i := IndexOf(ents, name);
      if name == ents[k].name then j == |after|
      else (j < |after| <==> i < |ents|) && (j < |after| ==> after[j] == ents[i])
  {
    var after, n := SwapRemove(ents, k), |ents| - 1;
    assert forall q :: 0 <= q < n ==> after[q] == if q == k then ents[n] else ents[q];
    var j, i := IndexOf(after, name), IndexOf(ents, name);
    if j < n {
      IndexOfNamed(ents, if j == k then n else j, name);
    }
    if i < |ents| && name != ents[k].name {
      assert after[if i == n then k else i].name == name;
    }
  }

  /** A new entry binds its name, and changes no other binding. */
  lemma AddBinds(table: seq<Node>, p: nat, e: Entry, table': seq<Node>, d: nat, name: string)
    requires Gains(table, p, e, table') && IndexOf(table[p].ents, e.name) == |table[p].ents|
    ensures Bound(table', d, name) == if d == p && name == e.name then Some(e.ino) else Bound(table, d, name)
  {
    hide IndexOf;
    if d == p { IndexOfAdded(table[p].ents, e, name); }
  }

  /** Removing an entry unbinds its name, and changes no other binding. */
  lemma RemoveUnbinds(table: seq<Node>, p: nat, k: nat, table': seq<Node>, d: nat, name: string)
    requires Loses(table, p, k, table') && NoNameTwice(table[p].ents)
    ensures Bound(table', d, name) == if d == p && name == table[p].ents[k].name then None else Bound(table, d, name)
  {
    hide IndexOf, SwapRemove;
    if d == p { RemovedBinds(table[p].ents, k, name); }
  }

  /** The files of a state and their bytes. */
  function Bytes(table: seq<Node>, i: nat): Option<seq<Byte>> {
    if IsFile(table, i) then Some(table[i].data) else None
  }

  /** What an operation does to the names. */
  ghost function BoundAfter(op: Op, T: seq<Node>, d: nat, n: string): Option<nat> {
    match op
    case Create(p, name, c) => if d == p && n == name then Some(c) else Bound(T, d, n)
    case Mkdir(p, name, c) =>
      if d == p && n == name then Some(c)
      else if d == c && n == "." then Some(c)
      else if d == c && n == ".." then Some(p)
      else Bound(T, d, n)
    case Link(p, name, i) => if d == p && n == name then Some(i) else Bound(T, d, n)
    case Unlink(p, k) => if IsEntry(T, p, k) && d == p && n == T[p].ents[k].name then None else Bound(T, d, n)
    case Rmdir(p, k) =>
      if IsEntry(T, p, k) && (d == T[p].ents[k].ino || (d == p && n == T[p].ents[k].name)) then None else Bound(T, d, n)
    case Rename(p, k, q, name) =>
      if !IsEntry(T, p, k) then Bound(T, d, n)
      else if d == q && n == name then Some(T[p].ents[k].ino)
      else if d == p && n == T[p].ents[k].name then None
      else Bound(T, d, n)
    case Write(_, _, _) => Bound(T, d, n)
    case Truncate(_) => Bound(T, d, n)
  }

  ghost predicate IsEntry(T: seq<Node>, p: nat, k: nat) { IsDir(T, p) && k < |T[p].ents| }

  /** What an operation does to the contents. */
  ghost function BytesAfter(op: Op, T: seq<Node>, i: nat): Option<seq<Byte>> {
    match op
    case Create(_, _, c) => if i == c then Some([]) else Bytes(T, i)
    case Unlink(p, k) =>
      if IsEntry(T, p, k) && i == T[p].ents[k].ino && IsFile(T, i) && T[i].links == 1 then None else Bytes(T, i)
    case Write(f, off, buf) => if i == f && IsFile(T, f) then Some(Splice(T[f].data, off, buf)) else Bytes(T, i)
    case Truncate(f) => if i == f then Some([]) else Bytes(T, i)
    case _ => Bytes(T, i)
  }

  /** What the operation promises its caller: names and bytes change so, and not otherwise. */
  ghost predicate Refined(op: Op, T: seq<Node>, T': seq<Node>, d: nat, n: string, i: nat) {
    Bound(T', d, n) == BoundAfter(op, T, d, n) && Bytes(T', i) == BytesAfter(op, T, i)
  }

  lemma OrdinaryDirs(T: seq<Node>, p: nat)
    requires Sound(T) && IsDir(T, p)
    ensures |T[p].ents| >= 2 && NoNameTwice(T[p].ents)
  {
    hide Names, SubDirs;
    SoundAt(T, p);
  }

  lemma FileLinks(T: seq<Node>, i: nat)
    requires Sound(T) && IsFile(T, i)
    ensures 0 < T[i].links < LINK_COUNT_LIMIT
  {
    hide Names, SubDirs;
    SoundAt(T, i);
  }

  lemma CreateRefines(st: State, p: nat, name: string, c: nat, st': State, d: nat, n: string, i: nat)
    requires Sound(st.table) && CreateStep(st, p, name, c, st')
    ensures Refined(Create(p, name, c), st.table, st'.table, d, n, i)
  {
    hide AddStep, Sound, IndexOf;
    var e := Entry(name, c);
    var st1: State :| AddStep(st, p, e, 0, st1) && c < |st1.table| &&
      st' == State(st1.chain, st1.table[c := File([], [], [], 1)]);
    OrdinaryDirs(st.table, p);
    AddGains(st, p, e, 0, st1);
    AddBinds(st.table, p, e, st1.table, d, n);
  }

  lemma MkdirRefines(st: State, p: nat, name: string, c: nat, st': State, d: nat, n: string, i: nat)
    requires Sound(st.table) && MkdirStep(st, p, name, c, st') && Fresh(st.table, p, name)
    ensures Refined(Mkdir(p, name, c), st.table, st'.table, d, n, i)
  {
    hide AddStep, Sound, IndexOf;
    var e, b := Entry(name, c), st.chain[0];
    var st0 := State(st.chain[1..], st.table[c := Unused([b])]);
    var st1: State :| AddStep(st0, p, e, 1, st1) && c < |st1.table| &&
      st' == State(st1.chain, st1.table[c := NewDir(c, p, b)]);
    OrdinaryDirs(st.table, p);
    AddGains(st0, p, e, 1, st1);
    AddBinds(st0.table, p, e, st1.table, d, n);
    NewDirBinds(c, p, n);
  }

  lemma NewDirBinds(c: nat, p: nat, n: string)
    ensures IndexOf([Entry(".", c), Entry("..", p)], n) == if n == "." then 0 else if n == ".." then 1 else 2
  {
    var es := [Entry(".", c), Entry("..", p)];
    assert es[1..] == [Entry("..", p)] && es[1..][1..] == [];
  }

  lemma LinkRefines(st: State, p: nat, name: string, f: nat, st': State, d: nat, n: string, i: nat)
    requires Sound(st.table) && LinkStep(st, p, name, f, st')
    ensures Refined(Link(p, name, f), st.table, st'.table, d, n, i)
  {
    hide AddStep, Sound, IndexOf;
    var e := Entry(name, f);
    var st1: State :| AddStep(st, p, e, 0, st1) && f < |st1.table| && st1.table[f].File? &&
      st' == State(st1.chain, st1.table[f := Relinked(st1.table[f], 1)]);
    OrdinaryDirs(st.table, p);
    AddGains(st, p, e, 0, st1);
    AddBinds(st.table, p, e, st1.table, d, n);
  }

  lemma UnlinkRefines(st: State, p: nat, k: nat, st': State, d: nat, n: string, i: nat)
    requires Sound(st.table) && UnlinkStep(st, p, k, st')
    ensures Refined(Unlink(p, k), st.table, st'.table, d, n, i)
  {
    hide RemoveStep, IndexOf, SwapRemove, Blocks, Sound;
    var c := st.table[p].ents[k].ino;
    var st1: State :| RemoveStep(st, p, k, 0, st1) && IsFile(st1.table, c) &&
      if WrapLinks(st1.table[c].links - 1) == 0 then GoneStep(st1, c, st')
      else st' == State(st1.chain, st1.table[c := Relinked(st1.table[c], -1)]);
    FileLinks(st.table, c);
    OrdinaryDirs(st.table, p);
    RemoveLoses(st, p, k, 0, st1);
    RemoveUnbinds(st.table, p, k, st1.table, d, n);
  }

  lemma RmdirRefines(st: State, p: nat, k: nat, st': State, d: nat, n: string, i: nat)
    requires Sound(st.table) && RmdirStep(st, p, k, st')
    ensures Refined(Rmdir(p, k), st.table, st'.table, d, n, i)
  {
    hide RemoveStep, IndexOf, SwapRemove, Blocks, Sound;
    var c := st.table[p].ents[k].ino;
    var st1: State :| RemoveStep(st, p, k, -1, st1) && GoneStep(st1, c, st');
    OrdinaryDirs(st.table, p);
    RemoveLoses(st, p, k, -1, st1);
    RemoveUnbinds(st.table, p, k, st1.table, d, n);
  }

  /** rename moves one binding; every other binding and every file stays. */
  lemma RenameRefines(st: State, p: nat, k: nat, q: nat, name: string, st': State, d: nat, n: string, i: nat)
    requires Sound(st.table) && RenameStep(st, p, k, q, name, st')
    ensures Refined(Rename(p, k, q, name), st.table, st'.table, d, n, i)
    ensures var e := st.table[p].ents[k];
      !(p == q && name == e.name) && Bound(st.table, p, e.name) == Some(e.ino) && Bound(st.table, q, name) == None
  {
    hide AddStep, RemoveStep, Counted, Names, SubDirs, SwapRemove, IndexOf;
    var T, e0 := st.table, st.table[p].ents[k];
    var e, delta := Entry(name, e0.ino), DirLink(T, e0.ino);
    var st1: State :| AddStep(st, q, e, delta, st1) && RemoveStep(st1, p, k, -delta, st');
    SoundAt(T, p);
    SoundAt(T, q);
    AddGains(st, q, e, delta, st1);
    RemoveLoses(st1, p, k, -delta, st');
    GoodAdd(T[q].ents, q, e);
    IndexOfNamed(T[p].ents, k, e0.name);
    AddBinds(T, q, e, st1.table, d, n);
    RemoveUnbinds(st1.table, p, k, st'.table, d, n);
  }

  /** Names and bytes behave as two maps that each operation changes in one place. */
  lemma DoesRefines(op: Op, st: State, st': State, d: nat, n: string, i: nat)
    requires Sound(st.table) && Does(op, st, st')
    ensures Refined(op, st.table, st'.table, d, n, i)
  {
    hide Sound, CreateStep, MkdirStep, LinkStep, UnlinkStep, RmdirStep, RenameStep, Splice, Blocks;
    match op
    case Create(p, name, c) => CreateRefines(st, p, name, c, st', d, n, i);
    case Mkdir(p, name, c) => MkdirRefines(st, p, name, c, st', d, n, i);
    case Link(p, name, f) => LinkRefines(st, p, name, f, st', d, n, i);
    case Unlink(p, k) => UnlinkRefines(st, p, k, st', d, n, i);
    case Rmdir(p, k) => RmdirRefines(st, p, k, st', d, n, i);
    case Rename(p, k, q, name) => RenameRefines(st, p, k, q, name, st', d, n, i);
    case Write(f, off, buf) =>
    case Truncate(f) =>
  }

  // ---- ".." ----

  /** A directory named d/name has d as its "..". */
  ghost predicate ParentOf(T: seq<Node>, d: nat, name: string) {
    var b := Bound(T, d, name);
    name != "." && name != ".." && b.Some? && IsDir(T, b.value) ==> Bound(T, b.value, "..") == Some(d)
  }

  ghost predicate ParentsRight(T: seq<Node>) { forall d, name :: ParentOf(T, d, name) }

  /** Directories are what "." is bound in. */
  lemma DotBound(T: seq<Node>, d: nat)
    requires Sound(T)
    ensures Bound(T, d, ".").Some? <==> IsDir(T, d)
    ensures IsDir(T, d) ==> Bound(T, d, "..").Some?
  {
    hide Counted, Names, SubDirs;
    if IsDir(T, d) {
      SoundAt(T, d);
      assert T[d].ents[0].name == "." && T[d].ents[1].name == "..";
    }
  }

  lemma FreshNotDots(T: seq<Node>, p: nat, name: string)
    requires Sound(T) && Fresh(T, p, name)
    ensures name != "." && name != ".."
  {
    hide Sound, IndexOf;
    DotBound(T, p);
  }

  lemma EntryNotDots(T: seq<Node>, p: nat, k: nat)
    requires Sound(T) && IsEntry(T, p, k) && k >= 2
    ensures T[p].ents[k].name != "." && T[p].ents[k].name != ".."
    ensures Bound(T, p, T[p].ents[k].name) == Some(T[p].ents[k].ino)
  {
    hide Counted, Names, SubDirs, IndexOf;
    SoundAt(T, p);
    IndexOfNamed(T[p].ents, k, T[p].ents[k].name);
    assert T[p].ents[0].name == "." && T[p].ents[1].name == "..";
  }

  ghost predicate BoundsMatch(op: Op, T: seq<Node>, T': seq<Node>) {
    forall d, n :: Bound(T', d, n) == BoundAfter(op, T, d, n)
  }

  lemma DoesMatches(op: Op, st: State, st': State)
    requires Sound(st.table) && Does(op, st, st')
    ensures BoundsMatch(op, st.table, st'.table) && Sound(st'.table)
    ensures forall x :: IsDir(st.table, x) <==> Bound(st.table, x, ".").Some?
    ensures forall x :: IsDir(st'.table, x) <==> Bound(st'.table, x, ".").Some?
  {
    hide Sound, Does, Bound, BoundAfter, AllOwned;
    DoesKeeps(op, st, st');
    forall d, n ensures Bound(st'.table, d, n) == BoundAfter(op, st.table, d, n) { DoesRefines(op, st, st', d, n, 0); }
    forall x ensures IsDir(st.table, x) <==> Bound(st.table, x, ".").Some? { DotBound(st.table, x); }
    forall x ensures IsDir(st'.table, x) <==> Bound(st'.table, x, ".").Some? { DotBound(st'.table, x); }
  }

  /** An operation that moves a directory to another parent. */
  ghost predicate MovesDirectory(op: Op, T: seq<Node>) {
    op.Rename? && IsEntry(T, op.p, op.k) && op.p != op.q && IsDir(T, T[op.p].ents[op.k].ino)
  }

  /** An operation leaves "." and ".." alone, and takes an inode number that nothing names. */
  ghost predicate SparesDots(op: Op, T: seq<Node>) {
    match op
    case Create(p, name, c) => name != "." && name != ".." && !IsDir(T, c) && p != c
    case Mkdir(p, name, c) =>
      name != "." && name != ".." && !IsDir(T, c) && p != c && forall d, n :: n != ".." ==> Bound(T, d, n) != Some(c)
    case Link(p, name, i) => name != "." && name != ".." && !IsDir(T, i)
    case Unlink(p, k) => IsEntry(T, p, k) && T[p].ents[k].name != "." && T[p].ents[k].name != ".."
    case Rmdir(p, k) => IsEntry(T, p, k) && T[p].ents[k].name != "." && T[p].ents[k].name != ".."
    case Rename(p, k, q, name) =>
      name != "." && name != ".." && IsEntry(T, p, k) && T[p].ents[k].name != "." && T[p].ents[k].name != ".." &&
      Bound(T, p, T[p].ents[k].name) == Some(T[p].ents[k].ino)
    case _ => true
  }

  lemma DoesSparesDots(op: Op, st: State, st': State)
    requires Sound(st.table) && Does(op, st, st')
    ensures SparesDots(op, st.table)
  {
    hide Sound, AddStep, RemoveStep, GoneStep, Bound, Fresh, WriteStep, TruncateStep;
    var T := st.table;
    match op
    case Create(p, name, c) => FreshNotDots(T, p, name); FreshDir(T, p, name);
    case Mkdir(p, name, c) =>
      FreshNotDots(T, p, name);
      FreshDir(T, p, name);
      forall d, n | n != ".." ensures Bound(T, d, n) != Some(c) { UnusedUnbound(T, d, n, c); }
    case Link(p, name, i) => FreshNotDots(T, p, name);
    case Unlink(p, k) => EntryNotDots(T, p, k);
    case Rmdir(p, k) => EntryNotDots(T, p, k);
    case Rename(p, k, q, name) =>
      FreshNotDots(T, q, name);
      EntryNotDots(T, p, k);
    case _ =>
  }

  lemma FreshDir(T: seq<Node>, p: nat, name: string)
    requires Fresh(T, p, name)
    ensures IsDir(T, p)
  {
  }

  lemma UnusedUnbound(T: seq<Node>, d: nat, n: string, c: nat)
    requires Sound(T) && c < |T| && T[c].Unused? && n != ".."
    ensures Bound(T, d, n) != Some(c)
  {
    hide Counted, Names, SubDirs, IndexOf;
    if Bound(T, d, n) == Some(c) {
      SoundAt(T, d);
      var k := IndexOf(T[d].ents, n);
      if k >= 2 { TargetInUse(T, d, k); }
    }
  }

  lemma ParentKept(op: Op, T: seq<Node>, T': seq<Node>, d: nat, name: string)
    requires BoundsMatch(op, T, T') && SparesDots(op, T) && ParentsRight(T) && !MovesDirectory(op, T)
    requires forall x :: IsDir(T, x) <==> Bound(T, x, ".").Some?
    requires forall x :: IsDir(T', x) <==> Bound(T', x, ".").Some?
    ensures ParentOf(T', d, name)
  {
    hide Bound;
    var b := Bound(T', d, name);
    assert b == BoundAfter(op, T, d, name);
    if name != "." && name != ".." && b.Some? && IsDir(T', b.value) {
      var v := b.value;
      assert Bound(T', v, ".") == BoundAfter(op, T, v, ".") && Bound(T', v, "..") == BoundAfter(op, T, v, "..");
      assert ParentOf(T, d, name);
      if op.Rename? { assert ParentOf(T, op.p, T[op.p].ents[op.k].name); }
    }
  }

  /** Every operation keeps ".." right, except rename of a directory to another parent: the
      moved directory's ".." stays where it was. */
  lemma ParentsKept(op: Op, st: State, st': State)
    requires Sound(st.table) && Does(op, st, st') && ParentsRight(st.table)
    ensures ParentsRight(st'.table) <==> !MovesDirectory(op, st.table)
  {
    hide Sound, Does, Bound, IsDir, BoundAfter;
    var T, T' := st.table, st'.table;
    DoesMatches(op, st, st');
    DoesSparesDots(op, st, st');
    if MovesDirectory(op, T) {
      MovedParentWrong(op, T, T');
    } else {
      forall d, name ensures ParentOf(T', d, name) { ParentKept(op, T, T', d, name); }
    }
  }

  lemma MovedParentWrong(op: Op, T: seq<Node>, T': seq<Node>)
    requires BoundsMatch(op, T, T') && SparesDots(op, T) && ParentsRight(T) && MovesDirectory(op, T)
    requires forall x :: IsDir(T, x) <==> Bound(T, x, ".").Some?
    requires forall x :: IsDir(T', x) <==> Bound(T', x, ".").Some?
    ensures !ParentOf(T', op.q, op.name)
  {
    hide Bound;
    var i := T[op.p].ents[op.k].ino;
    assert ParentOf(T, op.p, T[op.p].ents[op.k].name);
    assert Bound(T', op.q, op.name) == BoundAfter(op, T, op.q, op.name);
    assert Bound(T', i, ".") == BoundAfter(op, T, i, ".") && Bound(T', i, "..") == BoundAfter(op, T, i, "..");
  }

  /** The root is its own parent, and stays so. */
  lemma RootDotKept(op: Op, st: State, st': State)
    requires Sound(st.table) && Does(op, st, st') && Bound(st.table, ROOT_DIR_INODE, "..") == Some(ROOT_DIR_INODE)
    ensures Bound(st'.table, ROOT_DIR_INODE, "..") == Some(ROOT_DIR_INODE)
  {
    hide Sound, Bound, Counted, Names, SubDirs, AddStep, RemoveStep, GoneStep, Fresh, WriteStep, TruncateStep, IndexOf;
    DoesMatches(op, st, st');
    DoesSparesDots(op, st, st');
    RootIsDir(st.table);
    if op.Rmdir? { TargetInUse(st.table, op.p, op.k); }
    assert Bound(st'.table, ROOT_DIR_INODE, "..") == BoundAfter(op, st.table, ROOT_DIR_INODE, "..");
  }

  lemma RootIsDir(T: seq<Node>)
    requires Sound(T)
    ensures IsDir(T, ROOT_DIR_INODE)
  {
  }
}
