/**
 * The operations as steps of a state machine, and what every run of them keeps: sound
 * link counts, and each block owned once.
 */
module Steps {
  import opened Layout
  import opened INode
  import opened Store
  import opened Directory
  import opened EntryRemoval
  import opened FileContents
  import opened Namespace

  /** Directory p can take an entry called name. */
  ghost predicate Fresh(table: seq<Node>, p: nat, name: string) {
    IsDir(table, p) && name != "" && |name| < FILE_NAME_SIZE && IndexOf(table[p].ents, name) == |table[p].ents|
  }

  predicate IsFile(table: seq<Node>, i: nat) { i < |table| && table[i].File? }

  /** How the link count of a directory changes when it gains inode i. */
  function DirLink(table: seq<Node>, i: nat): int { if IsDir(table, i) then 1 else 0 }

  // ---- The steps ----

  /** create: the unused number c becomes an empty file, named in p. */
  ghost predicate CreateStep(st: State, p: nat, name: string, c: nat, st': State) {
    Fresh(st.table, p, name) && ROOT_DIR_INODE <= c < |st.table| && st.table[c] == Unused([]) &&
    exists st1: State :: AddStep(st, p, Entry(name, c), 0, st1) && c < |st1.table| &&
      st' == State(st1.chain, st1.table[c := File([], [], [], 1)])
  }

  /** What mkdir makes of the unused number c. */
  function NewDir(c: nat, p: nat, b: nat): Node {
    Dir([b], [], [Entry(".", c), Entry("..", p)], 2)
  }

  /** mkdir: the unused number c becomes a directory with one block, named in p. The name is
      not looked up: it may be there already. */
  ghost predicate MkdirStep(st: State, p: nat, name: string, c: nat, st': State) {
    IsDir(st.table, p) && |name| < FILE_NAME_SIZE && ROOT_DIR_INODE <= c < |st.table| && st.table[c] == Unused([]) &&
      |st.chain| > 1 &&
    var b := st.chain[0];
    exists st1: State ::
      AddStep(State(st.chain[1..], st.table[c := Unused([b])]), p, Entry(name, c), 1, st1) && c < |st1.table| &&
      st' == State(st1.chain, st1.table[c := NewDir(c, p, b)])
  }

  /** A file whose link count changed. */
  function Relinked(a: Node, delta: int): Node
    requires a.File?
  {
    File(a.blks, a.nodes, a.data, WrapLinks(a.links + delta))
  }

  /** link: file i gets another name, in p. */
  ghost predicate LinkStep(st: State, p: nat, name: string, i: nat, st': State) {
    Fresh(st.table, p, name) && IsFile(st.table, i) &&
    exists st1: State :: AddStep(st, p, Entry(name, i), 0, st1) && i < |st1.table| && st1.table[i].File? &&
      st' == State(st1.chain, st1.table[i := Relinked(st1.table[i], 1)])
  }

  /** Inode i is no more: its number is free, its blocks are at the front of the free list. */
  ghost predicate GoneStep(st: State, i: nat, st': State) {
    i < |st.table| && !st.table[i].Unused? && st'.table == st.table[i := Unused([])] &&
    exists P: seq<nat> :: multiset(P) == Blocks(st.table[i]) && st'.chain == P + st.chain
  }

  /** unlink: entry k of p, which names a file, goes, and with its last name the file. */
  ghost predicate UnlinkStep(st: State, p: nat, k: nat, st': State) {
    IsDir(st.table, p) && 2 <= k < |st.table[p].ents| &&
    var c := st.table[p].ents[k].ino;
    IsFile(st.table, c) &&
    exists st1: State :: RemoveStep(st, p, k, 0, st1) && IsFile(st1.table, c) &&
      if WrapLinks(st1.table[c].links - 1) == 0 then GoneStep(st1, c, st')
      else st' == State(st1.chain, st1.table[c := Relinked(st1.table[c], -1)])
  }

  /** rmdir: entry k of p, which names an empty directory, goes, and so does the directory. */
  ghost predicate RmdirStep(st: State, p: nat, k: nat, st': State) {
    IsDir(st.table, p) && 2 <= k < |st.table[p].ents| &&
    var c := st.table[p].ents[k].ino;
    IsDir(st.table, c) && |st.table[c].ents| <= 2 &&
    exists st1: State :: RemoveStep(st, p, k, -1, st1) && GoneStep(st1, c, st')
  }

  /** rename: what entry k of p names becomes name in q. The ".." of a directory that moves stays. */
  ghost predicate RenameStep(st: State, p: nat, k: nat, q: nat, name: string, st': State) {
    IsDir(st.table, p) && 2 <= k < |st.table[p].ents| && Fresh(st.table, q, name) &&
    var i := st.table[p].ents[k].ino;
    q != i &&
    exists st1: State :: AddStep(st, q, Entry(name, i), DirLink(st.table, i), st1) &&
      RemoveStep(st1, p, k, -DirLink(st.table, i), st')
  }

  // ---- Entries ----

  lemma GoodAdd(ents: seq<Entry>, i: nat, e: Entry)
    requires GoodEnts(ents, i) && e.name != "" && |e.name| < FILE_NAME_SIZE && IndexOf(ents, e.name) == |ents|
    ensures GoodEnts(ents + [e], i)
  {
  }

  lemma TakenName(ents: seq<Entry>, i: nat, e: Entry)
    requires e.name == "" || IndexOf(ents, e.name) < |ents|
    ensures !GoodEnts(ents + [e], i)
  {
    var es := ents + [e];
    var k := IndexOf(ents, e.name);
    if k < |ents| { assert es[k].name == es[|ents|].name; }
    assert es[|ents|] == e;
  }

  lemma GoodRemove(ents: seq<Entry>, i: nat, k: nat)
    requires GoodEnts(ents, i) && 2 <= k < |ents|
    ensures GoodEnts(SwapRemove(ents, k), i)
  {
    var after := SwapRemove(ents, k);
    forall q | 0 <= q < |after| ensures after[q] == if q == k then ents[|ents| - 1] else ents[q] {
    }
  }

  // ---- What the two directory steps do to the table ----

  lemma AddGains(st: State, p: nat, e: Entry, delta: int, st': State)
    requires AddStep(st, p, e, delta, st') && |st.table[p].ents| >= 2
    ensures Gains(st.table, p, e, st'.table) && st'.table[p].links == WrapLinks(st.table[p].links + delta)
  {
  }

  lemma RemoveLoses(st: State, p: nat, k: nat, delta: int, st': State)
    requires RemoveStep(st, p, k, delta, st') && 2 <= k
    ensures Loses(st.table, p, k, st'.table) && st'.table[p].links == WrapLinks(st.table[p].links + delta)
  {
  }

  // ---- Soundness is kept ----

  /** What a sound table says about each inode. */
  lemma SoundAt(table: seq<Node>, i: nat)
    requires Sound(table) && i < |table|
    ensures Counted(table[i], i, Names(table, i), SubDirs(table, i))
    ensures table[i].Dir? ==> GoodEnts(table[i].ents, i)
    ensures i < ROOT_DIR_INODE ==> table[i].Unused?
  {
  }

  lemma CreateKeepsSound(st: State, p: nat, name: string, c: nat, st': State)
    requires Sound(st.table) && CreateStep(st, p, name, c, st')
    ensures Sound(st'.table)
  {
    hide Names, SubDirs, AddStep, GoodEnts, IndexOf;
    var e, a := Entry(name, c), File([], [], [], 1);
    var st1: State :| AddStep(st, p, e, 0, st1) && c < |st1.table| && st' == State(st1.chain, st1.table[c := a]);
    var T := st.table;
    SoundAt(T, p);
    SoundAt(T, c);
    assert |T[p].ents| >= 2 by { assert GoodEnts(T[p].ents, p); }
    AddGains(st, p, e, 0, st1);
    GainsEffect(T, p, e, st1.table);
    BecomesEffect(st1.table, c, a, st'.table);
    GoodAdd(T[p].ents, p, e);
  }

  /** The parent's link count is 16 bits wide and the name is not looked up: mkdir is sound
      exactly when the count has room and the name is free. */
  lemma MkdirKeepsSound(st: State, p: nat, name: string, c: nat, st': State)
    requires Sound(st.table) && MkdirStep(st, p, name, c, st')
    ensures Sound(st'.table) <==> Fresh(st.table, p, name) && st.table[p].links + 1 < LINK_COUNT_LIMIT
  {
    hide Names, SubDirs, AddStep, GoodEnts, IndexOf;
    var e, b := Entry(name, c), st.chain[0];
    var st0 := State(st.chain[1..], st.table[c := Unused([b])]);
    var st1: State :| AddStep(st0, p, e, 1, st1) && c < |st1.table| &&
      st' == State(st1.chain, st1.table[c := NewDir(c, p, b)]);
    var T := st.table;
    var T1 := T[c := NewDir(c, p, b)];
    SoundAt(T, p);
    SoundAt(T, c);
    assert |T[p].ents| >= 2 by { assert GoodEnts(T[p].ents, p); }
    AddGains(st0, p, e, 1, st1);
    BecomesEffect(T, c, NewDir(c, p, b), T1);
    assert Gains(T1, p, e, st'.table);
    GainsEffect(T1, p, e, st'.table);
    if Fresh(T, p, name) { GoodAdd(T[p].ents, p, e); } else { TakenName(T[p].ents, p, e); }
    GoodNew(c, p);
    NoSubDirs(T, c);
    if st.table[p].links + 1 >= LINK_COUNT_LIMIT {
      assert !Counted(st'.table[p], p, Names(st'.table, p), SubDirs(st'.table, p));
    }
  }

  lemma NoSubDirs(table: seq<Node>, i: nat)
    requires i < |table| && Ordinary(table[i]) == []
    ensures SubDirs(table, i) == 0
  {
    assert Targets(Ordinary(table[i])) == [];
  }

  lemma GoodNew(c: nat, p: nat)
    ensures GoodEnts([Entry(".", c), Entry("..", p)], c)
  {
  }

  /** So is a file's: link is sound exactly when the count has room. */
  lemma LinkKeepsSound(st: State, p: nat, name: string, i: nat, st': State)
    requires Sound(st.table) && LinkStep(st, p, name, i, st')
    ensures Sound(st'.table) <==> st.table[i].links + 1 < LINK_COUNT_LIMIT
  {
    hide Names, SubDirs, AddStep, GoodEnts, IndexOf;
    var e := Entry(name, i);
    var st1: State :| AddStep(st, p, e, 0, st1) && i < |st1.table| && st1.table[i].File? &&
      st' == State(st1.chain, st1.table[i := Relinked(st1.table[i], 1)]);
    var T := st.table;
    SoundAt(T, p);
    SoundAt(T, i);
    assert |T[p].ents| >= 2 by { assert GoodEnts(T[p].ents, p); }
    AddGains(st, p, e, 0, st1);
    GainsEffect(T, p, e, st1.table);
    BecomesEffect(st1.table, i, Relinked(st1.table[i], 1), st'.table);
    GoodAdd(T[p].ents, p, e);
    if T[i].links + 1 >= LINK_COUNT_LIMIT {
      assert !Counted(st'.table[i], i, Names(st'.table, i), SubDirs(st'.table, i));
    }
  }

  lemma UnlinkKeepsSound(st: State, p: nat, k: nat, st': State)
    requires Sound(st.table) && UnlinkStep(st, p, k, st')
    ensures Sound(st'.table)
  {
    hide Names, SubDirs, RemoveStep, GoodEnts, Blocks, SwapRemove;
    var T, c := st.table, st.table[p].ents[k].ino;
    var st1: State :| RemoveStep(st, p, k, 0, st1) && IsFile(st1.table, c) &&
      if WrapLinks(st1.table[c].links - 1) == 0 then GoneStep(st1, c, st')
      else st' == State(st1.chain, st1.table[c := Relinked(st1.table[c], -1)]);
    SoundAt(T, p);
    SoundAt(T, c);
    RemoveLoses(st, p, k, 0, st1);
    GoodRemove(T[p].ents, p, k);
    UnnamedSound(T, st1.table, st'.table, p, k);
  }

  /** A file with one name less and its count one lower, or gone with the last. */
  lemma UnnamedSound(T: seq<Node>, T1: seq<Node>, T2: seq<Node>, p: nat, k: nat)
    requires Sound(T) && Loses(T, p, k, T1) && T1[p].links == T[p].links && GoodEnts(T1[p].ents, p)
    requires IsFile(T, T[p].ents[k].ino) && IsFile(T1, T[p].ents[k].ino) && |T2| == |T1|
    requires var c := T[p].ents[k].ino;
      T1[c] == T[c] && T2 == T1[c := T2[c]] && T2[c] == if T[c].links == 1 then Unused([]) else Relinked(T[c], -1)
    ensures Sound(T2)
  {
    hide Names, SubDirs, GoodEnts, SwapRemove;
    var c := T[p].ents[k].ino;
    SoundAt(T, c);
    LosesEffect(T, p, k, T1);
    BecomesEffect(T1, c, T2[c], T2);
  }

  lemma RmdirKeepsSound(st: State, p: nat, k: nat, st': State)
    requires Sound(st.table) && RmdirStep(st, p, k, st')
    ensures Sound(st'.table)
  {
    hide Names, SubDirs, RemoveStep, GoodEnts, Blocks;
    var T, c := st.table, st.table[p].ents[k].ino;
    var st1: State :| RemoveStep(st, p, k, -1, st1) && GoneStep(st1, c, st');
    SoundAt(T, p);
    SoundAt(T, c);
    TargetInUse(T, p, k);
    RemoveLoses(st, p, k, -1, st1);
    LosesEffect(T, p, k, st1.table);
    BecomesEffect(st1.table, c, Unused([]), st'.table);
    GoodRemove(T[p].ents, p, k);
  }

  /** A name moves from entry k of p to q. */
  ghost predicate Renamed(T: seq<Node>, T1: seq<Node>, T2: seq<Node>, p: nat, k: nat, q: nat, e: Entry) {
    Gains(T, q, e, T1) && Loses(T1, p, k, T2) && k < |T[p].ents| && T[p].ents[k].ino == e.ino &&
    T1[q].links == WrapLinks(T[q].links + DirLink(T, e.ino)) &&
    T2[p].links == WrapLinks(T1[p].links - DirLink(T, e.ino)) &&
    GoodEnts(T1[q].ents, q) && GoodEnts(T2[p].ents, p)
  }

  lemma RenameEffect(T: seq<Node>, T1: seq<Node>, T2: seq<Node>, p: nat, k: nat, q: nat, e: Entry)
    requires Renamed(T, T1, T2, p, k, q, e)
    ensures forall x :: Names(T2, x) == Names(T, x)
    ensures forall x :: IsDir(T2, x) <==> IsDir(T, x)
    ensures forall d :: 0 <= d < |T| ==>
      SubDirs(T2, d) + (if d == p then DirLink(T, e.ino) else 0) ==
      SubDirs(T, d) + if d == q then DirLink(T, e.ino) else 0
  {
    hide Names, SubDirs, GoodEnts;
    GainsEffect(T, q, e, T1);
    assert T1[p].ents[k] == T[p].ents[k];
    LosesEffect(T1, p, k, T2);
  }

  lemma RenamedLinks(T: seq<Node>, T1: seq<Node>, T2: seq<Node>, p: nat, k: nat, q: nat, e: Entry)
    requires Sound(T) && Renamed(T, T1, T2, p, k, q, e)
    ensures |T2| == |T| && IsDir(T, p) && IsDir(T, q)
    ensures forall d :: 0 <= d < |T| && d != p && d != q ==> T2[d] == T[d]
    ensures forall d :: 0 <= d < |T| && T2[d].Dir? && (d == p || d == q) ==> GoodEnts(T2[d].ents, d)
    ensures T2[p].Dir? && T2[q].Dir?
    ensures T2[q].links == if p == q then T[q].links else WrapLinks(T[q].links + DirLink(T, e.ino))
    ensures T2[p].links == if p == q then T[p].links else T[p].links - DirLink(T, e.ino)
  {
    hide Names, GoodEnts, SwapRemove, SubDirs;
    SoundAt(T, p);
    SoundAt(T, q);
    RenameEffect(T, T1, T2, p, k, q, e);
  }

  lemma MovedSound(T: seq<Node>, T1: seq<Node>, T2: seq<Node>, p: nat, k: nat, q: nat, e: Entry)
    requires Sound(T) && Renamed(T, T1, T2, p, k, q, e)
    ensures q < |T| && T[q].Dir?
    ensures Sound(T2) <==> (IsDir(T, e.ino) && p != q ==> T[q].links + 1 < LINK_COUNT_LIMIT)
  {
    hide Names, SubDirs, GoodEnts, SwapRemove, Renamed;
    RenamedLinks(T, T1, T2, p, k, q, e);
    RenameEffect(T, T1, T2, p, k, q, e);
    SoundAt(T, p);
    SoundAt(T, q);
    if IsDir(T, e.ino) && p != q && T[q].links + 1 >= LINK_COUNT_LIMIT {
      assert !Counted(T2[q], q, Names(T2, q), SubDirs(T2, q));
    }
  }

  /** rename is sound exactly when a directory that changes parents finds room in the new one's count. */
  lemma RenameKeepsSound(st: State, p: nat, k: nat, q: nat, name: string, st': State)
    requires Sound(st.table) && RenameStep(st, p, k, q, name, st')
    ensures var i := st.table[p].ents[k].ino;
      Sound(st'.table) <==> (IsDir(st.table, i) && p != q ==> st.table[q].links + 1 < LINK_COUNT_LIMIT)
  {
    hide Names, SubDirs, AddStep, RemoveStep, GoodEnts, IndexOf;
    var T, i := st.table, st.table[p].ents[k].ino;
    var e, delta := Entry(name, i), DirLink(T, i);
    var st1: State :| AddStep(st, q, e, delta, st1) && RemoveStep(st1, p, k, -delta, st');
    SoundAt(T, p);
    SoundAt(T, q);
    assert |T[q].ents| >= 2 by { assert GoodEnts(T[q].ents, q); }
    AddGains(st, q, e, delta, st1);
    RemoveLoses(st1, p, k, -delta, st');
    GoodAdd(T[q].ents, q, e);
    GoodRemove(st1.table[p].ents, p, k);
    hide IsDir, Gains, Loses, SwapRemove, CountDirs, Counted;
    RenameEffect(T, st1.table, st'.table, p, k, q, e);
    MovedSound(T, st1.table, st'.table, p, k, q, e);
  }

  lemma WriteKeepsSound(st: State, i: nat, off: nat, buf: seq<Byte>, st': State)
    requires Sound(st.table) && WriteStep(st, i, off, buf, st')
    ensures Sound(st'.table)
  {
    hide Names, SubDirs, GoodEnts, Splice, GrowthCost;
    SoundAt(st.table, i);
    BecomesEffect(st.table, i, st'.table[i], st'.table);
  }

  lemma TruncateKeepsSound(st: State, i: nat, st': State)
    requires Sound(st.table) && TruncateStep(st, i, st')
    ensures Sound(st'.table)
  {
    hide Names, SubDirs, GoodEnts, Blocks;
    SoundAt(st.table, i);
    BecomesEffect(st.table, i, st'.table[i], st'.table);
  }

  // ---- Blocks are kept ----

  /** All blocks of the data region, as the state accounts for them. */
  function AllOwned(st: State): multiset<nat> { multiset(st.chain) + AllBlocks(st.table) }

  lemma MoveKeepsBlocks(F: seq<nat>, table: seq<Node>, i: nat, F': seq<nat>, a: Node)
    requires i < |table| && multiset(F') + Blocks(a) == multiset(F) + Blocks(table[i])
    ensures AllOwned(State(F', table[i := a])) == AllOwned(State(F, table))
  {
    hide Blocks;
    SumUpdate(table, i, a, Blocks);
    Cancel(multiset(F'), AllBlocks(table[i := a]), Blocks(table[i]), AllBlocks(table), Blocks(a), multiset(F));
  }

  lemma AddKeepsBlocks(st: State, p: nat, e: Entry, delta: int, st': State)
    requires AddStep(st, p, e, delta, st')
    ensures AllOwned(st') == AllOwned(st) && |st'.table| == |st.table|
    ensures forall x :: 0 <= x < |st.table| && x != p ==> st'.table[x] == st.table[x]
  {
    hide AllOwned, NewNodes, Lo;
    var a, F := st.table[p], st.chain;
    if |a.ents| % ENTRIES_PER_BLOCK != 0 {
      MoveKeepsBlocks(F, st.table, p, F, st'.table[p]);
    } else {
      var c := 1 + NewNodes(|a.blks|);
      assert F == [F[0]] + F[1..c] + F[c..];
      MoveKeepsBlocks(F, st.table, p, F[c..], st'.table[p]);
    }
  }

  lemma ShrunkBlocks(B: seq<nat>, n: nat, N: seq<nat>, c: nat, F: seq<nat>)
    requires n == |B| - 1 && c <= |N|
    ensures multiset([B[n]] + (N[c..] + F)) + (multiset(B[..n]) + multiset(N[..c])) ==
      multiset(F) + (multiset(B) + multiset(N))
  {
    assert B == B[..n] + [B[n]] && N == N[..c] + N[c..];
  }

  lemma BlocksOf(B: seq<nat>, N: seq<nat>, ents: seq<Entry>, links: nat)
    ensures Blocks(Dir(B, N, ents, links)) == multiset(B) + multiset(N)
  {
  }

  /** A directory gives its last block and some nodes to the free list. */
  lemma ShrinkKeepsBlocks(F: seq<nat>, table: seq<Node>, p: nat, n: nat, c: nat, ents: seq<Entry>, links: nat)
    requires p < |table| && table[p].Dir? && n == |table[p].blks| - 1 && c <= |table[p].nodes|
    ensures var a := table[p];
      AllOwned(State([a.blks[n]] + (a.nodes[c..] + F), table[p := Dir(a.blks[..n], a.nodes[..c], ents, links)])) ==
        AllOwned(State(F, table))
  {
    hide *;
    var a := table[p];
    BlocksOf(a.blks, a.nodes, a.ents, a.links);
    BlocksOf(a.blks[..n], a.nodes[..c], ents, links);
    ShrunkBlocks(a.blks, n, a.nodes, c, F);
    MoveKeepsBlocks(F, table, p, [a.blks[n]] + (a.nodes[c..] + F), Dir(a.blks[..n], a.nodes[..c], ents, links));
  }

  lemma RemoveKeepsBlocks(st: State, p: nat, k: nat, delta: int, st': State)
    requires RemoveStep(st, p, k, delta, st')
    ensures AllOwned(st') == AllOwned(st) && |st'.table| == |st.table|
    ensures forall x :: 0 <= x < |st.table| && x != p ==> st'.table[x] == st.table[x]
  {
    hide AllOwned, NewNodes, Lo, SwapRemove, Blocks, WrapLinks;
    var a := st.table[p];
    if (|a.ents| - 1) % ENTRIES_PER_BLOCK != 0 {
      BlocksOf(a.blks, a.nodes, a.ents, a.links);
      BlocksOf(a.blks, a.nodes, SwapRemove(a.ents, k), st'.table[p].links);
      MoveKeepsBlocks(st.chain, st.table, p, st.chain, st'.table[p]);
    } else {
      ShrinkKeepsBlocks(st.chain, st.table, p, |a.blks| - 1, |a.nodes| - NewNodes(|a.blks| - 1), SwapRemove(a.ents, k),
                        st'.table[p].links);
    }
  }

  lemma GoneKeepsBlocks(st: State, i: nat, st': State)
    requires GoneStep(st, i, st')
    ensures AllOwned(st') == AllOwned(st)
  {
    hide AllOwned, Blocks;
    var P: seq<nat> :| multiset(P) == Blocks(st.table[i]) && st'.chain == P + st.chain;
    assert Blocks(Unused([])) == multiset{} by { NoBlocks(); }
    MoveKeepsBlocks(st.chain, st.table, i, P + st.chain, Unused([]));
  }

  lemma NoBlocks()
    ensures Blocks(Unused([])) == multiset{}
  {
  }

  lemma CreateKeepsBlocks(st: State, p: nat, name: string, c: nat, st': State)
    requires CreateStep(st, p, name, c, st')
    ensures AllOwned(st') == AllOwned(st)
  {
    hide AllOwned, AddStep;
    var e, a := Entry(name, c), File([], [], [], 1);
    var st1: State :| AddStep(st, p, e, 0, st1) && c < |st1.table| && st' == State(st1.chain, st1.table[c := a]);
    AddKeepsBlocks(st, p, e, 0, st1);
    MoveKeepsBlocks(st1.chain, st1.table, c, st1.chain, a);
  }

  lemma MkdirKeepsBlocks(st: State, p: nat, name: string, c: nat, st': State)
    requires MkdirStep(st, p, name, c, st')
    ensures AllOwned(st') == AllOwned(st)
  {
    hide AllOwned, AddStep;
    var e, b := Entry(name, c), st.chain[0];
    var st0 := State(st.chain[1..], st.table[c := Unused([b])]);
    var st1: State :| AddStep(st0, p, e, 1, st1) && c < |st1.table| &&
      st' == State(st1.chain, st1.table[c := NewDir(c, p, b)]);
    assert st.chain == [b] + st.chain[1..];
    MoveKeepsBlocks(st.chain, st.table, c, st.chain[1..], Unused([b]));
    AddKeepsBlocks(st0, p, e, 1, st1);
    MoveKeepsBlocks(st1.chain, st1.table, c, st1.chain, NewDir(c, p, b));
  }

  lemma LinkKeepsBlocks(st: State, p: nat, name: string, i: nat, st': State)
    requires LinkStep(st, p, name, i, st')
    ensures AllOwned(st') == AllOwned(st)
  {
    hide AllOwned, AddStep;
    var e := Entry(name, i);
    var st1: State :| AddStep(st, p, e, 0, st1) && i < |st1.table| && st1.table[i].File? &&
      st' == State(st1.chain, st1.table[i := Relinked(st1.table[i], 1)]);
    AddKeepsBlocks(st, p, e, 0, st1);
    MoveKeepsBlocks(st1.chain, st1.table, i, st1.chain, Relinked(st1.table[i], 1));
  }

  lemma UnlinkKeepsBlocks(st: State, p: nat, k: nat, st': State)
    requires UnlinkStep(st, p, k, st')
    ensures AllOwned(st') == AllOwned(st)
  {
    hide AllOwned, RemoveStep, GoneStep;
    var c := st.table[p].ents[k].ino;
    var st1: State :| RemoveStep(st, p, k, 0, st1) && IsFile(st1.table, c) &&
      if WrapLinks(st1.table[c].links - 1) == 0 then GoneStep(st1, c, st')
      else st' == State(st1.chain, st1.table[c := Relinked(st1.table[c], -1)]);
    RemoveKeepsBlocks(st, p, k, 0, st1);
    if WrapLinks(st1.table[c].links - 1) == 0 {
      GoneKeepsBlocks(st1, c, st');
    } else {
      MoveKeepsBlocks(st1.chain, st1.table, c, st1.chain, Relinked(st1.table[c], -1));
    }
  }

  lemma RmdirKeepsBlocks(st: State, p: nat, k: nat, st': State)
    requires RmdirStep(st, p, k, st')
    ensures AllOwned(st') == AllOwned(st)
  {
    hide AllOwned, RemoveStep, GoneStep;
    var c := st.table[p].ents[k].ino;
    var st1: State :| RemoveStep(st, p, k, -1, st1) && GoneStep(st1, c, st');
    RemoveKeepsBlocks(st, p, k, -1, st1);
    GoneKeepsBlocks(st1, c, st');
  }

  lemma RenameKeepsBlocks(st: State, p: nat, k: nat, q: nat, name: string, st': State)
    requires RenameStep(st, p, k, q, name, st')
    ensures AllOwned(st') == AllOwned(st)
  {
    hide AllOwned, AddStep, RemoveStep;
    var i := st.table[p].ents[k].ino;
    var e, delta := Entry(name, i), DirLink(st.table, i);
    var st1: State :| AddStep(st, q, e, delta, st1) && RemoveStep(st1, p, k, -delta, st');
    AddKeepsBlocks(st, q, e, delta, st1);
    RemoveKeepsBlocks(st1, p, k, -delta, st');
  }

  lemma WriteKeepsBlocks(st: State, i: nat, off: nat, buf: seq<Byte>, st': State)
    requires WriteStep(st, i, off, buf, st')
    ensures AllOwned(st') == AllOwned(st)
  {
    hide AllOwned, Blocks, Splice, GrowthCost;
    var c := GrowthCost(|st.table[i].blks|, |st'.table[i].blks|);
    assert st.chain == st.chain[..c] + st.chain[c..];
    MoveKeepsBlocks(st.chain, st.table, i, st'.chain, st'.table[i]);
  }

  lemma TruncateKeepsBlocks(st: State, i: nat, st': State)
    requires TruncateStep(st, i, st')
    ensures AllOwned(st') == AllOwned(st)
  {
    hide AllOwned;
    var P: seq<nat> :| multiset(P) == Blocks(st.table[i]) && st'.chain == P + st.chain;
    MoveKeepsBlocks(st.chain, st.table, i, P + st.chain, st'.table[i]);
  }

  // ---- What steps do ----

  lemma AddEffect(st: State, p: nat, e: Entry, delta: int, st1: State)
    requires AddStep(st, p, e, delta, st1)
    ensures |st1.table| == |st.table| && IsDir(st1.table, p) && st1.table[p].ents == st.table[p].ents + [e]
    ensures st1.table[p].links == WrapLinks(st.table[p].links + delta)
    ensures forall x :: 0 <= x < |st.table| && x != p ==> st1.table[x] == st.table[x]
    ensures |st1.chain| + 4 >= |st.chain| >= |st1.chain|
    ensures |st.table[p].ents| % ENTRIES_PER_BLOCK != 0 ==> st1.chain == st.chain
  {
  }

  lemma CreateEffect(st: State, p: nat, name: string, c: nat, st': State)
    requires CreateStep(st, p, name, c, st')
    ensures |st'.table| == |st.table| && p != c && IsDir(st'.table, p)
    ensures st'.table[p].ents == st.table[p].ents + [Entry(name, c)] && st'.table[c] == File([], [], [], 1)
    ensures forall x :: 0 <= x < |st.table| && x != p && x != c ==> st'.table[x] == st.table[x]
    ensures |st'.chain| + 4 >= |st.chain|
    ensures |st.table[p].ents| % ENTRIES_PER_BLOCK != 0 ==> st'.chain == st.chain
  {
    hide AddStep, IndexOf;
    var st1: State :| AddStep(st, p, Entry(name, c), 0, st1) && c < |st1.table| &&
      st' == State(st1.chain, st1.table[c := File([], [], [], 1)]);
    AddEffect(st, p, Entry(name, c), 0, st1);
  }

  lemma MkdirEffect(st: State, p: nat, name: string, c: nat, st': State)
    requires MkdirStep(st, p, name, c, st')
    ensures |st'.table| == |st.table| && p != c && IsDir(st'.table, p)
    ensures st'.table[p].ents == st.table[p].ents + [Entry(name, c)]
    ensures st'.table[p].links == WrapLinks(st.table[p].links + 1)
    ensures IsDir(st'.table, c) && st'.table[c].ents == [Entry(".", c), Entry("..", p)] && st'.table[c].links == 2
    ensures forall x :: 0 <= x < |st.table| && x != p && x != c ==> st'.table[x] == st.table[x]
    ensures |st'.chain| + 5 >= |st.chain|
  {
    hide AddStep, IndexOf;
    var b := st.chain[0];
    var st0 := State(st.chain[1..], st.table[c := Unused([b])]);
    var st1: State :| AddStep(st0, p, Entry(name, c), 1, st1) && c < |st1.table| &&
      st' == State(st1.chain, st1.table[c := NewDir(c, p, b)]);
    AddEffect(st0, p, Entry(name, c), 1, st1);
  }

  lemma LinkEffect(st: State, p: nat, name: string, i: nat, st': State)
    requires LinkStep(st, p, name, i, st')
    ensures |st'.table| == |st.table| && p != i && IsDir(st'.table, p)
    ensures st'.table[p].ents == st.table[p].ents + [Entry(name, i)]
    ensures st.table[i].File? && st'.table[i] == Relinked(st.table[i], 1)
    ensures forall x :: 0 <= x < |st.table| && x != p && x != i ==> st'.table[x] == st.table[x]
    ensures |st'.chain| + 4 >= |st.chain|
  {
    hide AddStep, IndexOf;
    var st1: State :| AddStep(st, p, Entry(name, i), 0, st1) && i < |st1.table| && st1.table[i].File? &&
      st' == State(st1.chain, st1.table[i := Relinked(st1.table[i], 1)]);
    AddEffect(st, p, Entry(name, i), 0, st1);
  }

  lemma RenameEffects(st: State, p: nat, k: nat, q: nat, name: string, st': State)
    requires RenameStep(st, p, k, q, name, st')
    ensures |st'.table| == |st.table| && IsDir(st.table, q) && IsDir(st'.table, q) && IsDir(st'.table, p)
    ensures forall x :: 0 <= x < |st.table| && x != p && x != q ==> st'.table[x] == st.table[x]
    ensures p != q ==>
      st'.table[q].links == WrapLinks(st.table[q].links + DirLink(st.table, st.table[p].ents[k].ino))
  {
    hide AddStep, IndexOf, AllOwned, SwapRemove;
    var e := Entry(name, st.table[p].ents[k].ino);
    var delta := DirLink(st.table, e.ino);
    var st1: State :| AddStep(st, q, e, delta, st1) && RemoveStep(st1, p, k, -delta, st');
    AddEffect(st, q, e, delta, st1);
    RemoveKeepsBlocks(st1, p, k, -delta, st');
  }

  /** No inode number has blocks set aside for it. */
  ghost predicate Settled(T: seq<Node>) { forall i :: 0 <= i < |T| && T[i].Unused? ==> T[i] == Unused([]) }

  lemma SoundSettled(T: seq<Node>)
    requires Sound(T)
    ensures Settled(T)
  {
    hide Names, SubDirs;
    forall i | 0 <= i < |T| && T[i].Unused? ensures T[i] == Unused([]) { SoundAt(T, i); }
  }

  lemma MkdirSettled(st: State, p: nat, name: string, c: nat, st': State)
    requires Sound(st.table) && MkdirStep(st, p, name, c, st')
    ensures Settled(st'.table)
  {
    hide Sound, MkdirStep;
    SoundSettled(st.table);
    MkdirEffect(st, p, name, c, st');
  }

  lemma LinkSettled(st: State, p: nat, name: string, i: nat, st': State)
    requires Sound(st.table) && LinkStep(st, p, name, i, st')
    ensures Settled(st'.table)
  {
    hide Sound, LinkStep;
    SoundSettled(st.table);
    LinkEffect(st, p, name, i, st');
  }

  lemma RenameSettled(st: State, p: nat, k: nat, q: nat, name: string, st': State)
    requires Sound(st.table) && RenameStep(st, p, k, q, name, st')
    ensures Settled(st'.table)
  {
    hide Sound, RenameStep;
    SoundSettled(st.table);
    RenameEffects(st, p, k, q, name, st');
  }
}
