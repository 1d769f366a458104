/** Operations that undo others: rmdir mkdir, unlink create and link. The state afterwards is the
    one before, down to the order of the free list. */
module Undo {
  import opened Layout
  import opened INode
  import opened Store
  import opened Directory
  import opened EntryRemoval
  import opened Namespace
  import opened Steps

  /** Entry e is added to directory p, inode c becomes X, and the entry is removed. */
  lemma AddThenRemove(st: State, p: nat, e: Entry, delta: int, s: State, c: nat, X: Node, k: nat, u: State)
    requires AddStep(st, p, e, delta, s) && c < |s.table| && c != p && k == |st.table[p].ents|
    requires RemoveStep(State(s.chain, s.table[c := X]), p, k, -delta, u)
    requires 0 <= st.table[p].links + delta < LINK_COUNT_LIMIT && st.table[p].links < LINK_COUNT_LIMIT
    ensures u == State(st.chain, st.table[c := X])
  {
    hide NewNodes, Lo;
    var a, b := st.table[p], s.table[p];
    assert SwapRemove(b.ents, k) == a.ents;
    assert WrapLinks(b.links - delta) == a.links;
    if |a.ents| % ENTRIES_PER_BLOCK != 0 {
      assert u.chain == st.chain && u.table[p] == a;
    } else {
      var n := 1 + NewNodes(|a.blks|);
      assert |b.blks| - 1 == |a.blks| && b.blks[..|a.blks|] == a.blks;
      assert |b.nodes| - NewNodes(|a.blks|) == |a.nodes| && b.nodes[..|a.nodes|] == a.nodes;
      assert b.nodes[|a.nodes|..] == st.chain[1..n];
      assert [st.chain[0]] + (st.chain[1..n] + st.chain[n..]) == st.chain;
    }
    assert u.table == st.table[c := X];
  }

  lemma OneBlock(P: seq<nat>, b: nat)
    requires multiset(P) == multiset{b}
    ensures P == [b]
  {
    assert |multiset(P)| == 1 && P[0] in multiset(P);
  }

  lemma GoneFrom(st: State, c: nat, st': State, B: seq<nat>)
    requires GoneStep(st, c, st') && Blocks(st.table[c]) == multiset(B) && |B| <= 1
    ensures st' == State(B + st.chain, st.table[c := Unused([])])
  {
    hide Blocks;
    var P: seq<nat> :| multiset(P) == multiset(B) && st'.chain == P + st.chain;
    if B == [] {
      assert |multiset(P)| == 0;
    } else {
      assert B == [B[0]];
      OneBlock(P, B[0]);
    }
  }

  /** mkdir and rmdir of the new directory. */
  lemma RmdirUndoesMkdir(st: State, p: nat, name: string, c: nat, st1: State, k: nat, st2: State)
    requires MkdirStep(st, p, name, c, st1) && Fresh(st.table, p, name) && st.table[p].links + 1 < LINK_COUNT_LIMIT
    requires RmdirStep(st1, p, k, st2) && st1.table[p].ents[k].name == name
    ensures st2 == st
  {
    hide AddStep, RemoveStep, GoneStep, Fresh, IndexOf, Blocks;
    var e, b := Entry(name, c), st.chain[0];
    var st0 := State(st.chain[1..], st.table[c := Unused([b])]);
    var s: State :| AddStep(st0, p, e, 1, s) && c < |s.table| && st1 == State(s.chain, s.table[c := NewDir(c, p, b)]);
    NewestEntry(st0, p, e, 1, s, st.table, k);
    var u: State :| RemoveStep(st1, p, k, -1, u) && GoneStep(u, c, st2);
    AddThenRemove(st0, p, e, 1, s, c, NewDir(c, p, b), k, u);
    assert Blocks(NewDir(c, p, b)) == multiset([b]) by { NewDirBlocks(c, p, b); }
    GoneFrom(u, c, st2, [b]);
    assert [b] + st.chain[1..] == st.chain;
    assert st0.table[c := NewDir(c, p, b)][c := Unused([])] == st.table;
  }

  lemma NewDirBlocks(c: nat, p: nat, b: nat)
    ensures Blocks(NewDir(c, p, b)) == multiset([b])
  {
  }

  lemma NewFileBlocks()
    ensures Blocks(File([], [], [], 1)) == multiset([])
  {
  }

  /** The entry just added is the only one with its name. */
  lemma NewestEntry(st: State, p: nat, e: Entry, delta: int, s: State, T: seq<Node>, k: nat)
    requires AddStep(st, p, e, delta, s) && Fresh(T, p, e.name)
    requires st.table[p] == T[p] && k < |s.table[p].ents| && s.table[p].ents[k].name == e.name
    ensures k == |T[p].ents| && s.table[p].ents[k] == e && T[p].links >= 0
  {
    var es := T[p].ents;
    AddEffect(st, p, e, delta, s);
    assert forall j :: 0 <= j < |es| ==> s.table[p].ents[j].name == es[j].name != e.name;
  }

  /** create and unlink of the new file. */
  lemma UnlinkUndoesCreate(st: State, p: nat, name: string, c: nat, st1: State, k: nat, st2: State)
    requires CreateStep(st, p, name, c, st1) && st.table[p].links < LINK_COUNT_LIMIT
    requires UnlinkStep(st1, p, k, st2) && st1.table[p].ents[k].name == name
    ensures st2 == st
  {
    hide AddStep, RemoveStep, GoneStep, Fresh, IndexOf, Blocks;
    var e, a := Entry(name, c), File([], [], [], 1);
    var s: State :| AddStep(st, p, e, 0, s) && c < |s.table| && st1 == State(s.chain, s.table[c := a]);
    NewestEntry(st, p, e, 0, s, st.table, k);
    var u: State :| RemoveStep(st1, p, k, 0, u) && IsFile(u.table, c) &&
      if WrapLinks(u.table[c].links - 1) == 0 then GoneStep(u, c, st2)
      else st2 == State(u.chain, u.table[c := Relinked(u.table[c], -1)]);
    AddThenRemove(st, p, e, 0, s, c, a, k, u);
    assert Blocks(a) == multiset([]) by { NewFileBlocks(); }
    GoneFrom(u, c, st2, []);
    assert [] + st.chain == st.chain && st.table[c := a][c := Unused([])] == st.table;
  }

  /** link and unlink of the new name. */
  lemma UnlinkUndoesLink(st: State, p: nat, name: string, i: nat, st1: State, k: nat, st2: State)
    requires LinkStep(st, p, name, i, st1) && st.table[p].links < LINK_COUNT_LIMIT
    requires 0 < st.table[i].links < LINK_COUNT_LIMIT - 1
    requires UnlinkStep(st1, p, k, st2) && st1.table[p].ents[k].name == name
    ensures st2 == st
  {
    hide AddStep, RemoveStep, GoneStep, Fresh, IndexOf, SwapRemove, Relinked, WrapLinks;
    var e, a := Entry(name, i), Relinked(st.table[i], 1);
    var s: State :| AddStep(st, p, e, 0, s) && i < |s.table| && s.table[i].File? &&
      st1 == State(s.chain, s.table[i := Relinked(s.table[i], 1)]);
    AddEffect(st, p, e, 0, s);
    NewestEntry(st, p, e, 0, s, st.table, k);
    var u: State :| RemoveStep(st1, p, k, 0, u) && IsFile(u.table, i) &&
      if WrapLinks(u.table[i].links - 1) == 0 then GoneStep(u, i, st2)
      else st2 == State(u.chain, u.table[i := Relinked(u.table[i], -1)]);
    AddThenRemove(st, p, e, 0, s, i, a, k, u);
    RelinkedBack(st, i, u, st2);
  }

  lemma RelinkedBack(st: State, i: nat, u: State, st2: State)
    requires IsFile(st.table, i) && 0 < st.table[i].links < st.table[i].links + 1 < LINK_COUNT_LIMIT
    requires u == State(st.chain, st.table[i := Relinked(st.table[i], 1)])
    requires if WrapLinks(u.table[i].links - 1) == 0 then GoneStep(u, i, st2)
      else st2 == State(u.chain, u.table[i := Relinked(u.table[i], -1)])
    ensures st2 == st
  {
    hide GoneStep;
    assert Relinked(u.table[i], -1) == st.table[i];
    assert st.table[i := Relinked(st.table[i], 1)][i := st.table[i]] == st.table;
  }
}
