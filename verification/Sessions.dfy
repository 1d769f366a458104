/**
 * Devices in use: what holds from formatting on, through any number of system calls that were
 * served: no link count overflowed, mkdir and create met no name in use, and no write ran out
 * of blocks that it had begun to take.
 */
module Sessions {
  import opened Layout
  import opened Device
  import opened Store
  import opened Namespace
  import opened Steps
  import opened Directory
  import opened Mkfs
  import opened Path
  import opened Reachability
  import Runs

  /** Each device is what a system call made of the one before. The contracts of Syscalls promise
      Served for a device in order whenever the device that they leave is in order too, create
      on an existing file apart. */
  ghost predicate Session(devs: seq<seq<Block>>, states: seq<State>) {
    |devs| == |states| >= 1 && forall t :: 0 <= t < |devs| - 1 ==> Called(devs, states, t)
  }

  ghost predicate Called(devs: seq<seq<Block>>, states: seq<State>, t: nat)
    requires t + 1 < |devs| == |states|
  {
    Stored(devs[t], states[t]) && Sound(states[t].table) ==> Runs.Served(devs[t], states[t], devs[t + 1], states[t + 1])
  }

  /** The devices stay in order, and no block is lost or gained. */
  lemma {:induction false} SessionKeeps(devs: seq<seq<Block>>, states: seq<State>, t: nat)
    requires Session(devs, states) && Stored(devs[0], states[0]) && Sound(states[0].table) && t < |devs|
    ensures Stored(devs[t], states[t]) && Sound(states[t].table) && AllOwned(states[t]) == AllOwned(states[0])
  {
    hide Stored, Sound, AllOwned, Runs.Does;
    if t > 0 {
      SessionKeeps(devs, states, t - 1);
      assert Called(devs, states, t - 1);
      if !(devs[t] == devs[t - 1] && states[t] == states[t - 1]) {
        var op: Runs.Op :| Runs.Does(op, states[t - 1], states[t]);
        Runs.DoesKeeps(op, states[t - 1], states[t]);
      }
    }
  }

  lemma RegionOwned(D: seq<Block>, st: State)
    requires Stored(D, st)
    ensures Geometry(D) && |AllOwned(st)| == D[0].sb.freeSize
    ensures D[0].sb.left + 1 + CountAll(st.table) == D[0].sb.freeSize
  {
    hide Is, Linked;
    RangeCounts(D[0].sb.freeStart, |D|, 0);
    SpaceAccounted(D, st);
  }

  /** If inode i has block x, it is in the data region, not free, and in no other inode. */
  ghost predicate Alone(D: seq<Block>, st: State, i: nat, x: nat)
    requires i < |st.table|
  {
    Owns(st.table[i], x) ==>
      Geometry(D) && InRegion(D, x) && x !in st.chain && Blocks(st.table[i])[x] == 1 &&
      forall j :: 0 <= j < |st.table| && j != i ==> !Owns(st.table[j], x)
  }

  /** From formatting on, through any calls that were served: the device stores the state that
      follows from them (this is what Served says of one call), link counts are right, the free counter, the
      sentinel and the owned blocks make up the whole data region, and each block of it is
      free once or owned once. */
  lemma FromFormatting(devs: seq<seq<Block>>, states: seq<State>, total: nat, ilistSize: nat, t: nat)
    requires Session(devs, states) && t < |devs|
    requires ilistSize >= 1 && 2 + ilistSize < total && states[0] == EmptyFs(total, ilistSize) &&
      Stored(devs[0], states[0])
    ensures Geometry(devs[0]) && Stored(devs[t], states[t]) && Sound(states[t].table) && Geometry(devs[t])
    ensures devs[t][0].sb.left + 1 + CountAll(states[t].table) == devs[0][0].sb.freeSize
    ensures forall i: nat, x: nat :: i < |states[t].table| ==> Alone(devs[t], states[t], i, x)
  {
    hide Stored, Sound, AllOwned, Alone;
    RootOnlySound(|states[0].table|, 2 + ilistSize);
    SessionKeeps(devs, states, t);
    RegionOwned(devs[0], states[0]);
    RegionOwned(devs[t], states[t]);
    forall i: nat, x: nat | i < |states[t].table| ensures Alone(devs[t], states[t], i, x) {
      OwnedAlone(devs[t], states[t], i, x);
    }
  }

  lemma OwnedAlone(D: seq<Block>, st: State, i: nat, x: nat)
    requires Stored(D, st) && i < |st.table|
    ensures Alone(D, st, i, x)
  {
    hide Is, Linked, Conserved, Owns;
    if Owns(st.table[i], x) { OneOwner(D, st, i, x); }
  }

  /** ... and as long as no rename moves a directory below itself, everything in use can be
      reached from the root. */
  lemma {:induction false} TreeFromFormatting(devs: seq<seq<Block>>, states: seq<State>, total: nat, ilistSize: nat,
          t: nat)
    requires Session(devs, states) && t < |devs|
    requires ilistSize >= 1 && 2 + ilistSize < total && states[0] == EmptyFs(total, ilistSize) &&
      Stored(devs[0], states[0])
    requires forall u, op :: 0 <= u < |states| - 1 && Runs.Does(op, states[u], states[u + 1]) ==>
      !Detaches(op, states[u].table)
    ensures Rooted(states[t].table)
  {
    hide Stored, Sound, Rooted, Runs.Does, Detaches;
    if t == 0 {
      RootOnlyRooted(|states[0].table|, 2 + ilistSize);
    } else {
      TreeFromFormatting(devs, states, total, ilistSize, t - 1);
      FromFormatting(devs, states, total, ilistSize, t - 1);
      assert Called(devs, states, t - 1);
      if !(devs[t] == devs[t - 1] && states[t] == states[t - 1]) {
        var op: Runs.Op :| Runs.Does(op, states[t - 1], states[t]);
        assert !Detaches(op, states[t - 1].table);
        DoesRooted(op, states[t - 1], states[t]);
      }
    }
  }

  lemma RootOnlyRooted(n: nat, b: nat)
    requires n > ROOT_DIR_INODE
    ensures Rooted(RootOnly(n, b))
  {
    var T := RootOnly(n, b);
    assert Leads(T, [ROOT_DIR_INODE], ROOT_DIR_INODE);
  }

  // ---- ".." ----

  /** Every ".." names the parent, the root's the root. */
  ghost predicate DotsRight(T: seq<Node>) {
    Runs.ParentsRight(T) && Bound(T, ROOT_DIR_INODE, "..") == Some(ROOT_DIR_INODE)
  }

  /** Where ".." is right it may be followed. */
  lemma DotsFollow(T: seq<Node>)
    requires Sound(T) && DotsRight(T)
    ensures DotsInUse(T)
  {
    hide Sound, Bound, Names, Edge, Runs.ParentsRight;
    forall d: nat | Bound(T, d, "..").Some? ensures InUse(T, Bound(T, d, "..").value) {
      BoundDir(T, d, "..");
      if d == ROOT_DIR_INODE {
        Runs.RootIsDir(T);
      } else {
        DirNames(T, d);
        var e := NamedSome(T, d);
        var name := EdgeName(T, e, d);
        assert Runs.ParentOf(T, e, name) by { ParentAt(T, e, name); }
      }
    }
  }

  lemma BoundDir(T: seq<Node>, d: nat, name: string)
    requires Bound(T, d, name).Some?
    ensures IsDir(T, d)
  {
  }

  lemma ParentAt(T: seq<Node>, d: nat, name: string)
    requires Runs.ParentsRight(T)
    ensures Runs.ParentOf(T, d, name)
  {
  }

  /** The name behind an edge. */
  lemma EdgeName(T: seq<Node>, d: nat, x: nat) returns (name: string)
    requires Sound(T) && Edge(T, d, x)
    ensures IsDir(T, d) && name != "." && name != ".." && Bound(T, d, name) == Some(x)
  {
    hide Sound, Bound, Names;
    EdgeDir(T, d, x);
    var t := Targets(Ordinary(T[d]));
    assert x in t;
    var k :| 0 <= k < |t| && t[k] == x;
    Runs.OrdinaryDirs(T, d);
    Runs.EntryNotDots(T, d, k + 2);
    name := T[d].ents[k + 2].name;
  }

  /** From formatting on, as long as no directory changes parents, paths with ".." may be
      followed too. */
  lemma {:induction false} DotsFromFormatting(devs: seq<seq<Block>>, states: seq<State>, total: nat, ilistSize: nat,
          t: nat)
    requires Session(devs, states) && t < |devs|
    requires ilistSize >= 1 && 2 + ilistSize < total && states[0] == EmptyFs(total, ilistSize) &&
      Stored(devs[0], states[0])
    requires forall u, op :: 0 <= u < |states| - 1 && Runs.Does(op, states[u], states[u + 1]) ==>
      !Runs.MovesDirectory(op, states[u].table)
    ensures DotsRight(states[t].table) && DotsInUse(states[t].table)
  {
    hide Stored, Sound, Runs.ParentsRight, Runs.Does, Runs.MovesDirectory, Bound, DotsInUse;
    FromFormatting(devs, states, total, ilistSize, t);
    if t == 0 {
      RootOnlyDots(|states[0].table|, 2 + ilistSize);
    } else {
      DotsFromFormatting(devs, states, total, ilistSize, t - 1);
      FromFormatting(devs, states, total, ilistSize, t - 1);
      assert Called(devs, states, t - 1);
      if !(devs[t] == devs[t - 1] && states[t] == states[t - 1]) {
        var op: Runs.Op :| Runs.Does(op, states[t - 1], states[t]);
        assert !Runs.MovesDirectory(op, states[t - 1].table);
        Runs.ParentsKept(op, states[t - 1], states[t]);
        Runs.RootDotKept(op, states[t - 1], states[t]);
      }
    }
    DotsFollow(states[t].table);
  }

  lemma RootOnlyDots(n: nat, b: nat)
    requires n > ROOT_DIR_INODE
    ensures DotsRight(RootOnly(n, b))
  {
    hide IndexOf;
    var T := RootOnly(n, b);
    forall d, name ensures Bound(T, d, name) ==
      if d == 2 && name == "." then Some(2) else if d == 2 && name == ".." then Some(2) else None
    {
      Runs.NewDirBinds(2, 2, name);
    }
  }
}
