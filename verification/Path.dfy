/** Paths: how a string becomes components, and how namei walks them. */
module Path {
  import opened Layout
  import opened Device
  import opened INode
  import opened InodeTable
  import opened Store
  import opened Directory
  import opened Namespace
  import opened Steps

  // ---- Strings ----

  /** Where the first '/' of p is; |p| if there is none. */
  function FirstSlash(p: string): (k: nat)
    ensures k <= |p| && (k < |p| ==> p[k] == '/')
    ensures forall j :: 0 <= j < k ==> p[j] != '/'
  {
    if p == [] || p[0] == '/' then 0
    else
      var k := FirstSlash(p[1..]);
      assert forall j :: 0 < j < k + 1 ==> p[j] == p[1..][j - 1];
      k + 1
  }

  /** The tokens that strtok_r finds, '/' being the delimiter. */
  function Segments(p: string): seq<string>
    decreases |p|
  {
    if p == [] then []
    else if p[0] == '/' then Segments(p[1..])
    else [p[..FirstSlash(p)]] + Segments(p[FirstSlash(p)..])
  }

  predicate NoSlash(c: string) { '/' !in c }

  lemma {:induction false} SegmentsAfterSlash(a: string, b: string)
    ensures Segments(a + "/" + b) == Segments(a) + Segments(b)
    decreases |a|
  {
    var p := a + "/" + b;
    if a == [] {
      assert p[1..] == b;
    } else if a[0] == '/' {
      SegmentsAfterSlash(a[1..], b);
      assert p[1..] == a[1..] + "/" + b;
    } else {
      var k := FirstSlash(a);
      FirstSlashIs(p, k);
      assert p[..k] == a[..k];
      assert p[k..] == a[k..] + "/" + b;
      SegmentsAfterSlash(a[k..], b);
    }
  }

  lemma FirstSlashIs(p: string, k: nat)
    requires k < |p| && p[k] == '/' && forall j :: 0 <= j < k ==> p[j] != '/'
    ensures FirstSlash(p) == k
  {
  }

  lemma SegmentsOfOne(c: string)
    requires NoSlash(c)
    ensures Segments(c) == if c == "" then [] else [c]
  {
    if c != "" {
      assert FirstSlash(c) == |c|;
      assert c[|c|..] == [] && c[..|c|] == c;
    }
  }

  /** No component is empty or contains a '/'. */
  lemma {:induction false} SegmentsClean(p: string)
    ensures forall s :: s in Segments(p) ==> s != "" && NoSlash(s)
    decreases |p|
  {
    if p == [] {
    } else if p[0] == '/' {
      SegmentsClean(p[1..]);
    } else {
      SegmentsClean(p[FirstSlash(p)..]);
    }
  }

  /** What strrchr(path, '/') cuts a path into; a path without a '/' is all child. */
  function Split(path: string): (pc: (string, string))
    ensures NoSlash(pc.1)
    ensures if NoSlash(path) then pc.1 == path else path == pc.0 + "/" + pc.1
  {
    if path == [] then ("", "")
    else
      var (last, init) := (path[|path| - 1], path[..|path| - 1]);
      assert path == init + [last];
      if last == '/' then (init, "")
      else
        var (parent, child) := Split(init);
        assert parent + "/" + (child + [last]) == (parent + "/" + child) + [last];
        (parent, child + [last])
  }

  lemma SlashLast(p: string, c: string)
    requires NoSlash(c)
    ensures var s := p + "/" + c; s[|p|] == '/' && forall j :: |p| < j < |s| ==> s[j] != '/'
  {
    var s := p + "/" + c;
    forall j | |p| < j < |s| ensures s[j] in c { assert s[j] == c[j - |p| - 1]; }
  }

  /** A string is cut at its last '/' in one way only. */
  lemma CutOnce(p: string, c: string, q: string, e: string)
    requires NoSlash(c) && NoSlash(e) && p + "/" + c == q + "/" + e
    ensures p == q && c == e
  {
    var s := p + "/" + c;
    SlashLast(p, c);
    SlashLast(q, e);
    assert |p| == |q|;
    assert s[..|p|] == p && s[..|q|] == q && s[|p| + 1..] == c && s[|q| + 1..] == e;
  }

  lemma SplitIs(parent: string, child: string)
    requires NoSlash(child)
    ensures Split(parent + "/" + child) == (parent, child)
  {
    hide Split;
    var path := parent + "/" + child;
    assert path[|parent|] == '/' && path[|parent|] in path;
    CutOnce(parent, child, Split(path).0, Split(path).1);
  }

  lemma SplitRoot(path: string)
    ensures path == "/" <==> !NoSlash(path) && Split(path) == ("", "")
  {
    hide Split;
    if path == "/" {
      assert path == "" + "/" + "" && path[0] in path;
      SplitIs("", "");
    }
  }

  method SplitPathParentChild(path: string) returns (status: Status, parent: string, child: string)
    ensures status == if NoSlash(path) then ENOENT else if |Split(path).1| >= FILE_NAME_SIZE then ENAMETOOLONG else OK
    ensures !NoSlash(path) ==> (parent, child) == Split(path)
  {
    var i := |path|;
    while i > 0 && path[i - 1] != '/'
      invariant 0 <= i <= |path| && NoSlash(path[i..])
    {
      assert path[i - 1..] == [path[i - 1]] + path[i..];
      i := i - 1;
    }
    child := path[i..];
    if i == 0 {
      assert path[0..] == path;
      return ENOENT, "", child;
    }
    parent := path[..i - 1];
    assert path == parent + "/" + child && path[i - 1] in path;
    SplitIs(parent, child);
    status := if |child| >= FILE_NAME_SIZE then ENAMETOOLONG else OK;
  }

  lemma SegmentsOfSplit(path: string)
    requires !NoSlash(path)
    ensures var (parent, child) := Split(path); Segments(path) == Segments(parent) + if child == "" then [] else [child]
  {
    var (parent, child) := Split(path);
    SegmentsAfterSlash(parent, child);
    SegmentsOfOne(child);
  }

  // ---- Walking ----

  datatype Outcome = Found(num: nat) | Failed(status: Status)

  /** namei from inode cur. A regular file absorbs one last component. */
  function Walk(T: seq<Node>, cur: nat, segs: seq<string>): Outcome
    decreases |segs|
  {
    if segs == [] then Found(cur)
    else if |segs[0]| >= FILE_NAME_SIZE then Failed(ENAMETOOLONG)
    else if IsDir(T, cur) then
      match Bound(T, cur, segs[0])
      case None => Failed(ENOENT)
      case Some(next) => Walk(T, next, segs[1..])
    else if |segs| > 1 then Failed(ENOENT)
    else Found(cur)
  }

  /** A lookup fails for a missing name, or for a component that is too long. */
  lemma {:induction false} WalkFails(T: seq<Node>, cur: nat, segs: seq<string>)
    requires Walk(T, cur, segs).Failed?
    ensures Walk(T, cur, segs).status == ENOENT ||
      (Walk(T, cur, segs).status == ENAMETOOLONG && exists s :: s in segs && |s| >= FILE_NAME_SIZE)
    decreases |segs|
  {
    hide Bound;
    assert segs[0] in segs && forall s :: s in segs[1..] ==> s in segs;
    if |segs[0]| < FILE_NAME_SIZE && IsDir(T, cur) && Bound(T, cur, segs[0]).Some? {
      WalkFails(T, Bound(T, cur, segs[0]).value, segs[1..]);
    }
  }

  function Resolve(T: seq<Node>, path: string): Outcome { Walk(T, ROOT_DIR_INODE, Segments(path)) }

  lemma ResolveFails(T: seq<Node>, path: string)
    requires Resolve(T, path).Failed?
    ensures Resolve(T, path).status in {ENOENT, ENAMETOOLONG}
  {
    hide Walk, Segments;
    WalkFails(T, ROOT_DIR_INODE, Segments(path));
  }

  /** Looking up one component where an earlier lookup led. */
  function Child(T: seq<Node>, o: Outcome, c: string): Outcome {
    if o.Failed? then o
    else if |c| >= FILE_NAME_SIZE then Failed(ENAMETOOLONG)
    else match Bound(T, o.num, c)
      case None => Failed(ENOENT)
      case Some(next) => Found(next)
  }

  /** Component after component, each looked up in a directory: what a path should mean. */
  function {:induction false} Strict(T: seq<Node>, cur: nat, segs: seq<string>): Outcome {
    if segs == [] then Found(cur)
    else Child(T, Strict(T, cur, segs[..|segs| - 1]), segs[|segs| - 1])
  }

  lemma {:induction false} StrictFirst(T: seq<Node>, cur: nat, segs: seq<string>)
    requires segs != []
    ensures Strict(T, cur, segs) ==
      match Child(T, Found(cur), segs[0])
      case Failed(e) => Failed(e)
      case Found(next) => Strict(T, next, segs[1..])
  {
    var n := |segs| - 1;
    assert segs[..1] == [segs[0]] && Strict(T, cur, segs[..1][..0]) == Found(cur);
    if n > 0 {
      StrictFirst(T, cur, segs[..n]);
      assert segs[..n][1..] == segs[1..][..n - 1];
    }
  }

  predicate FileOutcome(T: seq<Node>, o: Outcome) { o.Found? && !IsDir(T, o.num) }

  /** The path goes one component beyond something that is not a directory. */
  predicate Overshoots(T: seq<Node>, cur: nat, segs: seq<string>) {
    segs != [] && |segs[|segs| - 1]| < FILE_NAME_SIZE && FileOutcome(T, Strict(T, cur, segs[..|segs| - 1]))
  }

  /** namei gives a path its meaning unless it goes exactly one short component beyond a
      file: then the file is found instead of ENOENT. */
  lemma {:induction false} WalkIsStrict(T: seq<Node>, cur: nat, segs: seq<string>)
    ensures Walk(T, cur, segs) == Strict(T, cur, segs) <==> !Overshoots(T, cur, segs)
    ensures Overshoots(T, cur, segs) ==> Walk(T, cur, segs) == Strict(T, cur, segs[..|segs| - 1])
    decreases |segs|
  {
    if segs != [] {
      StrictFirst(T, cur, segs);
      var n := |segs| - 1;
      if n > 0 {
        StrictFirst(T, cur, segs[..n]);
        assert segs[1..][..n - 1] == segs[..n][1..];
      }
      if Child(T, Found(cur), segs[0]).Found? {
        WalkIsStrict(T, Child(T, Found(cur), segs[0]).num, segs[1..]);
      }
    }
  }

  /** Resolution is compositional: unless the parent is a file, a path means its last
      component looked up in what its parent path means. */
  lemma ResolveSplit(T: seq<Node>, path: string)
    requires !NoSlash(path) && Split(path).1 != ""
    requires !FileOutcome(T, Resolve(T, Split(path).0))
    ensures Resolve(T, path) == Child(T, Resolve(T, Split(path).0), Split(path).1)
  {
    hide Split, Walk, Child;
    SegmentsOfSplit(path);
    var (parent, child) := Split(path);
    var s := Segments(parent);
    assert Segments(path)[..|s|] == s;
    WalkIsStrict(T, ROOT_DIR_INODE, s);
    WalkIsStrict(T, ROOT_DIR_INODE, Segments(path));
  }

  /** A trailing '/' means nothing. */
  lemma ResolveTrailing(T: seq<Node>, path: string)
    requires !NoSlash(path) && Split(path).1 == ""
    ensures Resolve(T, path) == Resolve(T, Split(path).0)
  {
    hide Split, Walk, Segments;
    SegmentsOfSplit(path);
    assert Segments(Split(path).0) + [] == Segments(Split(path).0);
  }

  /** What is found is a directory only if the parent path led to one. */
  lemma DirParent(T: seq<Node>, path: string)
    requires !NoSlash(path) && Resolve(T, path).Found? && IsDir(T, Resolve(T, path).num)
    ensures !FileOutcome(T, Resolve(T, Split(path).0))
  {
    hide Split, Walk, Segments;
    SegmentsOfSplit(path);
    var (parent, child) := Split(path);
    var s := Segments(parent);
    if child == "" {
      ResolveTrailing(T, path);
    } else {
      assert Segments(path)[..|s|] == s;
      WalkIsStrict(T, ROOT_DIR_INODE, s);
      WalkIsStrict(T, ROOT_DIR_INODE, Segments(path));
    }
  }

  /** Every binding of T is one of T'. */
  ghost predicate Extends(T: seq<Node>, T': seq<Node>) {
    (forall x :: IsDir(T', x) <==> IsDir(T, x)) &&
    forall d, name :: Bound(T, d, name).Some? ==> Bound(T', d, name) == Bound(T, d, name)
  }

  /** New names do not change where old paths lead. */
  lemma {:induction false} WalkExtends(T: seq<Node>, T': seq<Node>, cur: nat, segs: seq<string>)
    requires Extends(T, T') && Walk(T, cur, segs).Found?
    ensures Walk(T', cur, segs) == Walk(T, cur, segs)
    decreases |segs|
  {
    hide Bound;
    if segs != [] && IsDir(T, cur) {
      WalkExtends(T, T', Bound(T, cur, segs[0]).value, segs[1..]);
    }
  }

  // ---- namei ----

  predicate NoDotDot(path: string) { ".." !in Segments(path) }

  /** Every ".." names an inode in use. */
  ghost predicate DotsInUse(T: seq<Node>) {
    forall d: nat :: Bound(T, d, "..").Some? ==> InUse(T, Bound(T, d, "..").value)
  }

  /** The path has no ".." or it may be followed: after a directory has changed parents its ".."
      may name anything. */
  ghost predicate Followable(T: seq<Node>, path: string) { NoDotDot(path) || DotsInUse(T) }

  /** Walks without ".." stay among inodes in use. */
  ghost predicate Navigable(T: seq<Node>) {
    IsDir(T, ROOT_DIR_INODE) && forall d, name :: name != ".." && Bound(T, d, name).Some? ==>
      InUse(T, Bound(T, d, name).value)
  }

  lemma SoundNavigable(T: seq<Node>)
    requires Sound(T)
    ensures Navigable(T)
  {
    hide Names, SubDirs, Counted, IndexOf;
    forall d, name | name != ".." && Bound(T, d, name).Some? ensures InUse(T, Bound(T, d, name).value) {
      BoundInUse(T, d, name);
    }
  }

  /** An entry other than ".." names an inode in use. */
  lemma BoundInUse(T: seq<Node>, d: nat, name: string)
    requires Sound(T) && IsDir(T, d) && name != ".." && Bound(T, d, name).Some?
    ensures InUse(T, Bound(T, d, name).value)
  {
    hide Names, SubDirs, Counted, IndexOf;
    SoundAt(T, d);
    var k := IndexOf(T[d].ents, name);
    if k >= 2 { TargetInUse(T, d, k); }
  }

  lemma StoredTable(D: seq<Block>, st: State, i: nat)
    requires Stored(D, st) && InUse(st.table, i)
    ensures Tabled(D) && i < InodeCount(D)
    ensures RecAt(D, i).kind == if st.table[i].Dir? then Directory else Regular
  {
    hide Holds, Chain, Conserved;
    assert Is(D, RecAt(D, i), st.table[i]);
  }

  lemma BoundIs(T: seq<Node>, d: nat, name: string)
    requires IsDir(T, d)
    ensures var k := IndexOf(T[d].ents, name);
      Bound(T, d, name) == if k < |T[d].ents| then Some(T[d].ents[k].ino) else None
  {
  }

  lemma {:induction false} WalkInUse(T: seq<Node>, cur: nat, segs: seq<string>)
    requires Navigable(T) && InUse(T, cur) && Walk(T, cur, segs).Found? && (".." !in segs || DotsInUse(T))
    ensures InUse(T, Walk(T, cur, segs).num)
    decreases |segs|
  {
    hide Bound;
    if segs != [] && IsDir(T, cur) {
      assert segs[0] in segs && forall s :: s in segs[1..] ==> s in segs;
      var next := Bound(T, cur, segs[0]).value;
      assert InUse(T, next);
      WalkInUse(T, next, segs[1..]);
    }
  }

  /** What a path leads to is in use. */
  lemma ResolveInUse(T: seq<Node>, path: string)
    requires Sound(T) && Followable(T, path) && Resolve(T, path).Found?
    ensures InUse(T, Resolve(T, path).num)
  {
    hide Sound, Walk, Segments;
    SoundNavigable(T);
    WalkInUse(T, ROOT_DIR_INODE, Segments(path));
  }

  method Namei(d: Disk, path: string, ghost st: State) returns (status: Status, num: nat)
    requires Stored(d.dev, st) && Navigable(st.table) && Followable(st.table, path)
    ensures Resolve(st.table, path) == if status == OK then Found(num) else Failed(status)
    ensures status == OK ==> InUse(st.table, num)
  {
    hide Stored, RecAt, InodeCount, Segments, Bound;
    ghost var T := st.table;
    StoredTable(d.dev, st, ROOT_DIR_INODE);
    num := ROOT_DIR_INODE;
    var inode := ReadInode(d, num);
    var segs := Segments(path);
    SegmentsClean(path);
    var i := 0;
    while i < |segs|
      invariant i <= |segs| && InUse(T, num) && Walk(T, ROOT_DIR_INODE, segs) == Walk(T, num, segs[i..])
      invariant Tabled(d.dev) && num < InodeCount(d.dev) && inode.Rec() == RecAt(d.dev, num)
    {
      StoredTable(d.dev, st, num);
      assert segs[i] in segs && segs[i..][0] == segs[i] && segs[i..][1..] == segs[i + 1..];
      if |segs[i]| >= FILE_NAME_SIZE {
        return ENAMETOOLONG, num;
      }
      if inode.kind == Regular {
        if i + 1 < |segs| {
          return ENOENT, num;
        }
        break;
      }
      BoundIs(T, num, segs[i]);
      var next;
      status, next := NextInodeInPath(d, segs[i], inode, num, st);
      if status == ENOENT {
        return ENOENT, num;
      }
      num := next;
      StoredTable(d.dev, st, num);
      inode := ReadInode(d, num);
      i := i + 1;
    }
    status := OK;
  }
}
