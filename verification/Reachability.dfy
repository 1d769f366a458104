/**
 * The directories form a tree: every inode in use can be reached from the root, a directory
 * in exactly one way.
 */
module Reachability {
  import opened Layout
  import opened Store
  import opened Directory
  import opened EntryRemoval
  import opened FileContents
  import opened Namespace
  import opened Steps
  import opened Runs

  /** An ordinary entry of inode d names inode x. */
  predicate Edge(T: seq<Node>, d: nat, x: nat) { d < |T| && NamedBy(T[d])[x] > 0 }

  /** r is a way down from the root. */
  ghost predicate Route(T: seq<Node>, r: seq<nat>) {
    r != [] && r[0] == ROOT_DIR_INODE && forall k :: 0 <= k < |r| - 1 ==> Edge(T, r[k], r[k + 1])
  }

  ghost predicate Leads(T: seq<Node>, r: seq<nat>, x: nat) { Route(T, r) && r[|r| - 1] == x }

  ghost predicate Reachable(T: seq<Node>, x: nat) { exists r: seq<nat> :: Leads(T, r, x) }

  /** Every inode in use can be reached. */
  ghost predicate Rooted(T: seq<Node>) { forall x: nat :: InUse(T, x) ==> Reachable(T, x) }

  /** q is i, or in a directory below it. */
  ghost predicate Below(T: seq<Node>, i: nat, q: nat) { exists r: seq<nat> :: Leads(T, r, q) && i in r }

  // ---- Edges ----

  lemma EdgeDir(T: seq<Node>, d: nat, x: nat)
    requires Edge(T, d, x)
    ensures IsDir(T, d) && Names(T, x) >= 1
  {
    assert Targets([]) == [];
    SumHas(T, d, NamedBy, x);
  }

  lemma EdgeOf(T: seq<Node>, d: nat, k: nat)
    requires IsDir(T, d) && 2 <= k < |T[d].ents|
    ensures Edge(T, d, T[d].ents[k].ino)
  {
    var t := Targets(Ordinary(T[d]));
    assert t[k - 2] == T[d].ents[k].ino && t[k - 2] in multiset(t);
  }

  lemma NamedSome(T: seq<Node>, x: nat) returns (d: nat)
    requires Names(T, x) > 0
    ensures Edge(T, d, x)
  {
    d := SumFinds(T, NamedBy, x);
  }

  /** What is named once is named in one directory only. */
  lemma OneParent(T: seq<Node>, d: nat, e: nat, x: nat)
    requires Edge(T, d, x) && Edge(T, e, x) && Names(T, x) <= 1
    ensures d == e
  {
    hide NamedBy;
    if d < e { SumHasTwo(T, d, e, NamedBy, x); } else if e < d { SumHasTwo(T, e, d, NamedBy, x); }
  }

  function NamedCount(T: seq<Node>, d: nat, x: nat): nat { if d < |T| then NamedBy(T[d])[x] else 0 }

  lemma GainsEdges(T: seq<Node>, p: nat, e: Entry, T': seq<Node>)
    requires Gains(T, p, e, T')
    ensures forall d: nat, x: nat :: NamedCount(T', d, x) == NamedCount(T, d, x) + if d == p && x == e.ino then 1 else 0
  {
    var t := Targets(Ordinary(T[p]));
    assert Targets(Ordinary(T'[p])) == t + [e.ino];
    assert multiset(t + [e.ino]) == multiset(t) + multiset{e.ino};
  }

  lemma LosesEdges(T: seq<Node>, p: nat, k: nat, T': seq<Node>)
    requires Loses(T, p, k, T')
    ensures var c := T[p].ents[k].ino;
      forall d: nat, x: nat :: NamedCount(T', d, x) + (if d == p && x == c then 1 else 0) == NamedCount(T, d, x)
  {
    hide SwapRemove, CountDirs;
    SwapRemoveTail(T[p].ents, k);
    CountSwapRemove(T[p].ents[2..], k - 2, T);
    var c := T[p].ents[k].ino;
    forall x: nat ensures NamedCount(T', p, x) + (if x == c then 1 else 0) == NamedCount(T, p, x) {
      assert (NamedBy(T'[p]) + multiset{c})[x] == NamedBy(T[p])[x];
    }
  }

  /** An inode without ordinary entries becomes another one without any. */
  lemma SwapEdges(T: seq<Node>, c: nat, a: Node)
    requires c < |T| && Ordinary(T[c]) == [] && Ordinary(a) == []
    ensures forall d: nat, x: nat :: NamedCount(T[c := a], d, x) == NamedCount(T, d, x)
  {
  }

  lemma EdgeCount(T: seq<Node>)
    ensures forall d: nat, x: nat :: Edge(T, d, x) <==> NamedCount(T, d, x) > 0
  {
  }

  // ---- Routes ----

  /** Edges to other inodes than c are still there. */
  ghost predicate KeepsEdges(T: seq<Node>, T': seq<Node>, c: nat) {
    forall d: nat, x: nat :: Edge(T, d, x) && x != c ==> Edge(T', d, x)
  }

  lemma RouteKept(T: seq<Node>, T': seq<Node>, c: nat, r: seq<nat>)
    requires Route(T, r) && KeepsEdges(T, T', c) && forall k :: 1 <= k < |r| ==> r[k] != c
    ensures Route(T', r)
  {
    hide Edge;
    forall k | 0 <= k < |r| - 1 ensures Edge(T', r[k], r[k + 1]) {
      assert Edge(T, r[k], r[k + 1]);
    }
  }

  lemma RouteOn(T: seq<Node>, r: seq<nat>, d: nat, x: nat)
    requires Leads(T, r, d) && Edge(T, d, x)
    ensures Leads(T, r + [x], x)
  {
    hide Edge;
    var s := r + [x];
    forall k | 0 <= k < |s| - 1 ensures Edge(T, s[k], s[k + 1]) {
      if k < |r| - 1 { assert Edge(T, r[k], r[k + 1]); }
    }
  }

  lemma ReachOn(T: seq<Node>, d: nat, x: nat)
    requires Reachable(T, d) && Edge(T, d, x)
    ensures Reachable(T, x)
  {
    hide Edge, Leads;
    var r :| Leads(T, r, d);
    RouteOn(T, r, d, x);
  }

  /** An inode without ordinary entries is only ever at the end of a route. */
  lemma LeafLast(T: seq<Node>, r: seq<nat>, x: nat, c: nat)
    requires Leads(T, r, x) && x != c && c < |T| && Ordinary(T[c]) == []
    ensures c !in r
  {
    assert Targets([]) == [];
    forall k | 0 <= k < |r| - 1 ensures r[k] != c { assert Edge(T, r[k], r[k + 1]); }
  }

  lemma ReachKept(T: seq<Node>, T': seq<Node>, c: nat, x: nat)
    requires Reachable(T, x) && KeepsEdges(T, T', c) && x != c && c < |T| && Ordinary(T[c]) == []
    ensures Reachable(T', x)
  {
    hide Edge, Ordinary, KeepsEdges;
    var r :| Leads(T, r, x);
    LeafLast(T, r, x, c);
    RouteKept(T, T', c, r);
    assert Leads(T', r, x);
  }

  /** There is one way to a directory. */
  lemma {:induction false} OneRoute(T: seq<Node>, r: seq<nat>, s: seq<nat>, x: nat)
    requires Sound(T) && IsDir(T, x) && Leads(T, r, x) && Leads(T, s, x)
    ensures r == s
    decreases |r|
  {
    hide Sound, Edge, Names;
    DirNames(T, x);
    var m, n := |r| - 1, |s| - 1;
    if m > 0 { LastStep(T, r, x); }
    if n > 0 { LastStep(T, s, x); }
    if m > 0 && n > 0 {
      OneParent(T, r[m - 1], s[n - 1], x);
      OneRoute(T, r[..m], s[..n], r[m - 1]);
      assert r == r[..m] + [x] && s == s[..n] + [x];
    }
  }

  lemma DirNames(T: seq<Node>, x: nat)
    requires Sound(T) && IsDir(T, x)
    ensures Names(T, x) == if x == ROOT_DIR_INODE then 0 else 1
  {
    hide Names, SubDirs;
    SoundAt(T, x);
  }

  lemma LastStep(T: seq<Node>, r: seq<nat>, x: nat)
    requires Leads(T, r, x) && |r| > 1
    ensures Leads(T, r[..|r| - 1], r[|r| - 2]) && Edge(T, r[|r| - 2], x) && IsDir(T, r[|r| - 2]) && Names(T, x) >= 1
  {
    var s := r[..|r| - 1];
    assert Edge(T, r[|r| - 2], r[|r| - 1]);
    EdgeDir(T, r[|r| - 2], x);
    forall k | 0 <= k < |s| - 1 ensures Edge(T, s[k], s[k + 1]) { assert Edge(T, r[k], r[k + 1]); }
  }

  /** The directories form a tree: to each there is exactly one route. */
  lemma DirectoryTree(T: seq<Node>, x: nat) returns (r: seq<nat>)
    requires Sound(T) && Rooted(T) && IsDir(T, x)
    ensures Leads(T, r, x) && forall s: seq<nat> :: Leads(T, s, x) ==> s == r
  {
    hide Sound, Leads;
    assert InUse(T, x);
    r :| Leads(T, r, x);
    forall s: seq<nat> | Leads(T, s, x) ensures s == r { OneRoute(T, s, r, x); }
  }

  // ---- What operations keep ----

  /** A number c comes into use, or gets one more name, in directory p. */
  lemma AddRooted(T: seq<Node>, T': seq<Node>, p: nat, c: nat)
    requires Rooted(T) && InUse(T, p) && |T'| == |T| && forall x: nat :: x != c && InUse(T', x) ==> InUse(T, x)
    requires forall d: nat, x: nat :: Edge(T, d, x) ==> Edge(T', d, x)
    requires Edge(T', p, c)
    ensures Rooted(T')
  {
    hide Edge, InUse;
    forall x: nat | InUse(T, x) ensures Reachable(T', x) {
      var r :| Leads(T, r, x);
      forall k | 0 <= k < |r| - 1 ensures Edge(T', r[k], r[k + 1]) { assert Edge(T, r[k], r[k + 1]); }
      assert Leads(T', r, x);
    }
    ReachOn(T', p, c);
  }

  /** Inode c, which has no entries itself, loses a name. */
  lemma DropRooted(T: seq<Node>, T': seq<Node>, c: nat)
    requires Rooted(T) && c < |T| && Ordinary(T[c]) == [] && KeepsEdges(T, T', c)
    requires forall x: nat :: InUse(T', x) ==> InUse(T, x)
    requires InUse(T', c) ==> exists d: nat :: Edge(T', d, c) && d != c && InUse(T, d)
    ensures Rooted(T')
  {
    hide Edge, InUse, KeepsEdges;
    forall x: nat | InUse(T', x) ensures Reachable(T', x) {
      if x != c {
        ReachKept(T, T', c, x);
      } else {
        var d: nat :| Edge(T', d, c) && d != c && InUse(T, d);
        ReachKept(T, T', c, d);
        ReachOn(T', d, c);
      }
    }
  }

  /** The only edge that goes is one to i, and there is a new one from q. */
  ghost predicate EdgesMoved(T: seq<Node>, T': seq<Node>, i: nat, q: nat) {
    KeepsEdges(T, T', i) && KeepsEdges(T', T, i) && Edge(T', q, i)
  }

  /** What follows the last i on a route. */
  lemma {:induction false} AfterLast(T: seq<Node>, T': seq<Node>, i: nat, r: seq<nat>, x: nat)
    requires Leads(T, r, x) && i in r && KeepsEdges(T, T', i) && Reachable(T', i)
    ensures Reachable(T', x)
    decreases |r|
  {
    hide Edge, KeepsEdges;
    var n := |r| - 1;
    if x != i {
      assert n > 0;
      assert i in r[..n] by { assert r == r[..n] + [x]; }
      assert Edge(T, r[n - 1], r[n]);
      assert Leads(T, r[..n], r[n - 1]) by {
        forall k | 0 <= k < n - 1 ensures Edge(T, r[..n][k], r[..n][k + 1]) { assert Edge(T, r[k], r[k + 1]); }
      }
      AfterLast(T, T', i, r[..n], r[n - 1]);
      assert Edge(T', r[n - 1], x) by { assert KeepsEdges(T, T', i); KeptEdge(T, T', i, r[n - 1], x); }
      ReachOn(T', r[n - 1], x);
    }
  }

  lemma KeptEdge(T: seq<Node>, T': seq<Node>, c: nat, d: nat, x: nat)
    requires KeepsEdges(T, T', c) && Edge(T, d, x) && x != c
    ensures Edge(T', d, x)
  {
  }

  /** Moving i to q keeps everything reachable if q is not below i. */
  lemma MoveRooted(T: seq<Node>, T': seq<Node>, i: nat, q: nat)
    requires Rooted(T) && EdgesMoved(T, T', i, q) && InUse(T, q) && !Below(T, i, q)
    requires forall x: nat :: InUse(T', x) ==> InUse(T, x)
    ensures Rooted(T')
  {
    hide Edge, InUse, KeepsEdges;
    var s :| Leads(T, s, q);
    assert i !in s;
    RouteKept(T, T', i, s);
    assert Leads(T', s, q);
    ReachOn(T', q, i);
    forall x: nat | InUse(T', x) ensures Reachable(T', x) {
      var r :| Leads(T, r, x);
      if i in r {
        AfterLast(T, T', i, r, x);
      } else {
        RouteKept(T, T', i, r);
        assert Leads(T', r, x);
      }
    }
  }

  /** The first i on a route, with what comes before it. */
  lemma {:induction false} FirstOn(T: seq<Node>, r: seq<nat>, i: nat) returns (s: seq<nat>)
    requires Route(T, r) && i in r && i != ROOT_DIR_INODE
    ensures s != [] && i !in s && Route(T, s) && Edge(T, s[|s| - 1], i)
    decreases |r|
  {
    hide Edge;
    var n := |r| - 1;
    var t := r[..n];
    assert r == t + [r[n]];
    if n > 0 {
      assert Edge(T, r[n - 1], r[n]);
      forall k | 0 <= k < |t| - 1 ensures Edge(T, t[k], t[k + 1]) { assert Edge(T, r[k], r[k + 1]); }
    }
    if i in t { s := FirstOn(T, t, i); } else { s := t; }
  }

  /** If q is below i, moving i there cuts both off. */
  lemma MoveCutsOff(T: seq<Node>, T': seq<Node>, i: nat, q: nat)
    requires Sound(T) && IsDir(T, q) && Below(T, i, q) && EdgesMoved(T, T', i, q)
    requires i != ROOT_DIR_INODE && Names(T', i) <= 1
    ensures !Reachable(T', i)
  {
    hide Edge, KeepsEdges, Sound, Names;
    var b :| Leads(T, b, q) && i in b;
    forall r: seq<nat> ensures !Leads(T', r, i) {
      if Leads(T', r, i) {
        var s := FirstOn(T', r, i);
        OneParent(T', s[|s| - 1], q, i);
        RouteKept(T', T, i, s);
        OneRoute(T, s, b, q);
        assert false;
      }
    }
  }

  // ---- ... one by one ----

  lemma CreateRooted(st: State, p: nat, name: string, c: nat, st': State)
    requires Sound(st.table) && Rooted(st.table) && CreateStep(st, p, name, c, st')
    ensures Rooted(st'.table)
  {
    hide Sound, Rooted, AddStep, IndexOf, NamedCount, Edge;
    var e, a := Entry(name, c), File([], [], [], 1);
    var st1: State :| AddStep(st, p, e, 0, st1) && c < |st1.table| && st' == State(st1.chain, st1.table[c := a]);
    OrdinaryDirs(st.table, p);
    AddGains(st, p, e, 0, st1);
    GainsEdges(st.table, p, e, st1.table);
    SwapEdges(st1.table, c, a);
    EdgeCount(st.table);
    EdgeCount(st'.table);
    AddRooted(st.table, st'.table, p, c);
  }

  lemma MkdirRooted(st: State, p: nat, name: string, c: nat, st': State)
    requires Sound(st.table) && Rooted(st.table) && MkdirStep(st, p, name, c, st')
    ensures Rooted(st'.table)
  {
    hide Sound, Rooted, AddStep, IndexOf, NamedCount, Edge;
    var e, b := Entry(name, c), st.chain[0];
    var st0 := State(st.chain[1..], st.table[c := Unused([b])]);
    var st1: State :| AddStep(st0, p, e, 1, st1) && c < |st1.table| &&
      st' == State(st1.chain, st1.table[c := NewDir(c, p, b)]);
    OrdinaryDirs(st.table, p);
    SwapEdges(st.table, c, Unused([b]));
    AddGains(st0, p, e, 1, st1);
    GainsEdges(st0.table, p, e, st1.table);
    SwapEdges(st1.table, c, NewDir(c, p, b));
    EdgeCount(st.table);
    EdgeCount(st'.table);
    AddRooted(st.table, st'.table, p, c);
  }

  lemma LinkRooted(st: State, p: nat, name: string, i: nat, st': State)
    requires Sound(st.table) && Rooted(st.table) && LinkStep(st, p, name, i, st')
    ensures Rooted(st'.table)
  {
    hide Sound, Rooted, AddStep, IndexOf, NamedCount, Edge;
    var e := Entry(name, i);
    var st1: State :| AddStep(st, p, e, 0, st1) && i < |st1.table| && st1.table[i].File? &&
      st' == State(st1.chain, st1.table[i := Relinked(st1.table[i], 1)]);
    OrdinaryDirs(st.table, p);
    AddGains(st, p, e, 0, st1);
    GainsEdges(st.table, p, e, st1.table);
    SwapEdges(st1.table, i, Relinked(st1.table[i], 1));
    EdgeCount(st.table);
    EdgeCount(st'.table);
    AddRooted(st.table, st'.table, p, i);
  }

  lemma UnlinkRooted(st: State, p: nat, k: nat, st': State)
    requires Sound(st.table) && Rooted(st.table) && UnlinkStep(st, p, k, st')
    ensures Rooted(st'.table)
  {
    hide Sound, Rooted, RemoveStep, SwapRemove, NamedCount, Edge, Blocks, Names;
    var T, T', c := st.table, st'.table, st.table[p].ents[k].ino;
    UnlinkKeepsSound(st, p, k, st');
    var st1: State :| RemoveStep(st, p, k, 0, st1) && IsFile(st1.table, c) &&
      if WrapLinks(st1.table[c].links - 1) == 0 then GoneStep(st1, c, st')
      else st' == State(st1.chain, st1.table[c := Relinked(st1.table[c], -1)]);
    RemoveLoses(st, p, k, 0, st1);
    LosesEdges(T, p, k, st1.table);
    SwapEdges(st1.table, c, T'[c]);
    EdgeCount(T);
    EdgeCount(T');
    if InUse(T', c) {
      FileNamed(T', c);
      var d := NamedSome(T', c);
      EdgeDir(T', d, c);
    }
    DropRooted(T, T', c);
  }

  lemma FileNamed(T: seq<Node>, c: nat)
    requires Sound(T) && IsFile(T, c)
    ensures Names(T, c) > 0
  {
    hide Names, SubDirs;
    SoundAt(T, c);
  }

  lemma RmdirRooted(st: State, p: nat, k: nat, st': State)
    requires Sound(st.table) && Rooted(st.table) && RmdirStep(st, p, k, st')
    ensures Rooted(st'.table)
  {
    hide Sound, Rooted, RemoveStep, SwapRemove, NamedCount, Edge, Blocks;
    var T, T', c := st.table, st'.table, st.table[p].ents[k].ino;
    var st1: State :| RemoveStep(st, p, k, -1, st1) && GoneStep(st1, c, st');
    RemoveLoses(st, p, k, -1, st1);
    LosesEdges(T, p, k, st1.table);
    SwapEdges(st1.table, c, Unused([]));
    EdgeCount(T);
    EdgeCount(T');
    DropRooted(T, T', c);
  }

  lemma SameRooted(T: seq<Node>, T': seq<Node>, i: nat)
    requires Rooted(T) && IsFile(T, i) && IsFile(T', i) && T' == T[i := T'[i]]
    ensures Rooted(T')
  {
    hide Edge, NamedCount;
    SwapEdges(T, i, T'[i]);
    EdgeCount(T);
    EdgeCount(T');
    forall x: nat | InUse(T', x) ensures Reachable(T', x) {
      assert InUse(T, x);
      var r :| Leads(T, r, x);
      forall k | 0 <= k < |r| - 1 ensures Edge(T', r[k], r[k + 1]) { assert Edge(T, r[k], r[k + 1]); }
      assert Leads(T', r, x);
    }
  }

  lemma RenameEdges(st: State, p: nat, k: nat, q: nat, name: string, st': State)
    requires Sound(st.table) && RenameStep(st, p, k, q, name, st')
    ensures var i := st.table[p].ents[k].ino;
      EdgesMoved(st.table, st'.table, i, q) && Names(st'.table, i) == Names(st.table, i)
    ensures |st'.table| == |st.table| && forall x: nat :: InUse(st'.table, x) <==> InUse(st.table, x)
  {
    hide AddStep, RemoveStep, SwapRemove, NamedCount, Edge, Sound, IndexOf, Names;
    var T, i := st.table, st.table[p].ents[k].ino;
    var e, delta := Entry(name, i), DirLink(T, i);
    var st1: State :| AddStep(st, q, e, delta, st1) && RemoveStep(st1, p, k, -delta, st');
    OrdinaryDirs(T, q);
    AddGains(st, q, e, delta, st1);
    RemoveLoses(st1, p, k, -delta, st');
    assert st1.table[p].ents[k] == T[p].ents[k];
    GainsEdges(T, q, e, st1.table);
    LosesEdges(st1.table, p, k, st'.table);
    GainsEffect(T, q, e, st1.table);
    LosesEffect(st1.table, p, k, st'.table);
    EdgeCount(T);
    EdgeCount(st'.table);
    EdgeOf(T, p, k);
  }

  /** rename keeps the tree exactly when the new directory is not below what moves. */
  lemma RenameRooted(st: State, p: nat, k: nat, q: nat, name: string, st': State)
    requires Sound(st.table) && Rooted(st.table) && RenameStep(st, p, k, q, name, st')
    ensures Rooted(st'.table) <==> !Below(st.table, st.table[p].ents[k].ino, q)
  {
    hide Sound, AddStep, RemoveStep, Edge, KeepsEdges, Names, Leads, Reachable;
    var T, T', i := st.table, st'.table, st.table[p].ents[k].ino;
    RenameEdges(st, p, k, q, name, st');
    TargetInUse(T, p, k);
    if Below(T, i, q) {
      MovedIsDir(T, i, q);
      DirNames(T, i);
      MoveCutsOff(T, T', i, q);
      assert InUse(T', i);
    } else {
      MoveRooted(T, T', i, q);
    }
  }

  lemma MovedIsDir(T: seq<Node>, i: nat, q: nat)
    requires Below(T, i, q) && q != i && i < |T|
    ensures IsDir(T, i)
  {
    var b :| Leads(T, b, q) && i in b;
    if !IsDir(T, i) {
      LeafLast(T, b, q, i);
      assert false;
    }
  }

  // ---- Runs ----

  /** A rename that moves something below itself. */
  ghost predicate Detaches(op: Op, T: seq<Node>) {
    op.Rename? && IsEntry(T, op.p, op.k) && Below(T, T[op.p].ents[op.k].ino, op.q)
  }

  /** Every operation keeps the tree, except a rename of something into a directory below it. */
  lemma DoesRooted(op: Op, st: State, st': State)
    requires Sound(st.table) && Rooted(st.table) && Does(op, st, st')
    ensures Rooted(st'.table) <==> !Detaches(op, st.table)
  {
    hide Sound, Rooted, CreateStep, MkdirStep, LinkStep, UnlinkStep, RmdirStep, Below, Blocks, Splice, GrowthCost;
    match op
    case Create(p, name, c) => CreateRooted(st, p, name, c, st');
    case Mkdir(p, name, c) => MkdirRooted(st, p, name, c, st');
    case Link(p, name, i) => LinkRooted(st, p, name, i, st');
    case Unlink(p, k) => UnlinkRooted(st, p, k, st');
    case Rmdir(p, k) => RmdirRooted(st, p, k, st');
    case Rename(p, k, q, name) => RenameRooted(st, p, k, q, name, st');
    case Write(i, off, buf) => SameRooted(st.table, st'.table, i);
    case Truncate(i) => SameRooted(st.table, st'.table, i);
  }

  /** A run whose renames move nothing below itself keeps the tree. */
  lemma {:induction false} RunRooted(ops: seq<Op>, states: seq<State>, t: nat)
    requires Run(ops, states) && Sound(states[0].table) && Rooted(states[0].table) && t <= |ops|
    requires forall u :: 0 <= u < |ops| ==> !Detaches(ops[u], states[u].table)
    ensures Rooted(states[t].table)
  {
    hide Sound, Rooted, Does, Detaches;
    if t > 0 {
      RunRooted(ops, states, t - 1);
      RunKeeps(ops, states, t - 1);
      assert Does(ops[t - 1], states[t - 1], states[t]);
      DoesRooted(ops[t - 1], states[t - 1], states[t]);
    }
  }
}
