/**
 * The namespace as a state machine. A state is sound when every link count is the number
 * of entries it stands for, entries name inodes in use, and an inode number is free
 * exactly when nothing names it.
 */
module Namespace {
  import opened Layout
  import opened Store
  import opened Directory
  import opened EntryRemoval

  // ---- Who names whom ----

  /** The inode numbers in a list of entries. */
  function Targets(es: seq<Entry>): (t: seq<nat>)
    ensures |t| == |es| && forall k :: 0 <= k < |es| ==> t[k] == es[k].ino
  {
    seq(|es|, k requires 0 <= k < |es| => es[k].ino)
  }

  /** The ordinary entries: all but "." and "..". */
  function Ordinary(a: Node): seq<Entry> {
    if a.Dir? && |a.ents| >= 2 then a.ents[2..] else []
  }

  function NamedBy(a: Node): multiset<nat> { multiset(Targets(Ordinary(a))) }

  /** How many ordinary entries, anywhere, name inode i. */
  function Names(table: seq<Node>, i: nat): nat { Sum(table, NamedBy)[i] }

  predicate InUse(table: seq<Node>, i: nat) { i < |table| && !table[i].Unused? }

  predicate IsDir(table: seq<Node>, i: nat) { i < |table| && table[i].Dir? }

  /** How many of the targets are directories. */
  function {:induction false} CountDirs(t: seq<nat>, table: seq<Node>): nat {
    if t == [] then 0
    else CountDirs(t[..|t| - 1], table) + if IsDir(table, t[|t| - 1]) then 1 else 0
  }

  function SubDirs(table: seq<Node>, i: nat): nat
    requires i < |table|
  {
    CountDirs(Targets(Ordinary(table[i])), table)
  }

  lemma {:induction false} CountConcat(s: seq<nat>, t: seq<nat>, table: seq<Node>)
    ensures CountDirs(s + t, table) == CountDirs(s, table) + CountDirs(t, table)
  {
    if t == [] {
      assert s + t == s;
    } else {
      assert (s + t)[..|s + t| - 1] == s + t[..|t| - 1];
      CountConcat(s, t[..|t| - 1], table);
    }
  }

  lemma CountOne(x: nat, table: seq<Node>)
    ensures CountDirs([x], table) == if IsDir(table, x) then 1 else 0
  {
    assert [x][..0] == [];
  }

  /** Only the kind of the targets matters. */
  lemma {:induction false} CountSame(t: seq<nat>, table: seq<Node>, table': seq<Node>)
    requires forall x :: x in t ==> (IsDir(table, x) <==> IsDir(table', x))
    ensures CountDirs(t, table) == CountDirs(t, table')
  {
    if t != [] {
      assert t[|t| - 1] in t;
      assert forall x :: x in t[..|t| - 1] ==> x in t;
      CountSame(t[..|t| - 1], table, table');
    }
  }

  /** x gives way to l, which was last. */
  lemma CountSwap(a: seq<nat>, x: seq<nat>, c: seq<nat>, l: seq<nat>, table: seq<Node>)
    ensures CountDirs((a + l) + c, table) + CountDirs(x, table) == CountDirs(((a + x) + c) + l, table)
  {
    hide *;
    CountConcat(a, l, table);
    CountConcat(a + l, c, table);
    CountConcat(a, x, table);
    CountConcat(a + x, c, table);
    CountConcat((a + x) + c, l, table);
  }

  lemma TargetsSwap(es: seq<Entry>, k: nat)
    requires k < |es| - 1
    ensures var t, n := Targets(es), |es| - 1;
      && t == ((t[..k] + [t[k]]) + t[k + 1..n]) + [t[n]]
      && Targets(SwapRemove(es, k)) == (t[..k] + [t[n]]) + t[k + 1..n]
  {
  }

  lemma TargetsLast(es: seq<Entry>)
    requires es != []
    ensures var t, n := Targets(es), |es| - 1; t == t[..n] + [t[n]] && Targets(SwapRemove(es, n)) == t[..n]
  {
  }

  lemma CountSwapRemove(es: seq<Entry>, k: nat, table: seq<Node>)
    requires k < |es|
    ensures CountDirs(Targets(SwapRemove(es, k)), table) + CountDirs([es[k].ino], table) ==
      CountDirs(Targets(es), table)
    ensures multiset(Targets(SwapRemove(es, k))) + multiset{es[k].ino} == multiset(Targets(es))
  {
    hide CountDirs, SwapRemove;
    var t, n := Targets(es), |es| - 1;
    if k == n {
      TargetsLast(es);
      CountConcat(t[..n], [t[n]], table);
    } else {
      TargetsSwap(es, k);
      CountSwap(t[..k], [t[k]], t[k + 1..n], [t[n]], table);
    }
  }

  datatype Option<T> = None | Some(value: T)

  /** The namespace as a map: what name means in directory d. */
  function Bound(table: seq<Node>, d: nat, name: string): Option<nat> {
    if IsDir(table, d) && IndexOf(table[d].ents, name) < |table[d].ents|
    then Some(table[d].ents[IndexOf(table[d].ents, name)].ino) else None
  }

  // ---- Soundness ----

  /** A directory's entries: itself, then "..", then ordinary ones, no name twice. */
  ghost predicate GoodEnts(ents: seq<Entry>, i: nat) {
    |ents| >= 2 && ents[0] == Entry(".", i) && ents[1].name == ".." &&
    (forall j, k :: 0 <= j < k < |ents| ==> ents[j].name != ents[k].name) &&
    (forall k :: 0 <= k < |ents| ==> ents[k].name != "" && |ents[k].name| < FILE_NAME_SIZE)
  }

  /** The link count an inode should have when names entries name it and it has subs subdirectories. */
  ghost predicate Counted(a: Node, i: nat, names: nat, subs: nat) {
    match a
    case Unused(blks) => blks == [] && names == 0
    case File(_, _, _, links) => links == names && 0 < links < LINK_COUNT_LIMIT
    case Dir(_, _, _, links) =>
      links == 2 + subs && links < LINK_COUNT_LIMIT && names == if i == ROOT_DIR_INODE then 0 else 1
  }

  ghost predicate Sound(table: seq<Node>) {
    |table| > ROOT_DIR_INODE && table[ROOT_DIR_INODE].Dir? &&
    (forall i :: 0 <= i < ROOT_DIR_INODE ==> table[i].Unused?) &&
    (forall i :: 0 <= i < |table| && table[i].Dir? ==> GoodEnts(table[i].ents, i)) &&
    (forall i :: 0 <= i < |table| ==> Counted(table[i], i, Names(table, i), SubDirs(table, i))) &&
    (forall x: nat :: x >= |table| ==> Names(table, x) == 0)
  }

  /** An inode number other than the root's is free exactly when no ordinary entry names it. */
  lemma FreeIffUnnamed(table: seq<Node>, i: nat)
    requires Sound(table) && i < |table| && i != ROOT_DIR_INODE
    ensures table[i].Unused? <==> Names(table, i) == 0
  {
    hide Names, SubDirs;
    assert Counted(table[i], i, Names(table, i), SubDirs(table, i));
  }

  /** Every ordinary entry names an inode in use, and never the root. */
  lemma TargetInUse(table: seq<Node>, d: nat, k: nat)
    requires Sound(table) && d < |table| && table[d].Dir? && 2 <= k < |table[d].ents|
    ensures var c := table[d].ents[k].ino; c < |table| && !table[c].Unused? && c > ROOT_DIR_INODE
  {
    hide Names, SubDirs;
    TargetNamed(table, d, k);
    var c := table[d].ents[k].ino;
    if c < |table| { assert Counted(table[c], c, Names(table, c), SubDirs(table, c)); }
  }

  /** A directory that is_directory_empty accepts has link count 2: rmdir's second check never fails. */
  lemma EmptyHasTwoLinks(table: seq<Node>, i: nat)
    requires Sound(table) && i < |table| && table[i].Dir? && |table[i].ents| <= 2
    ensures table[i].links == 2
  {
    assert Counted(table[i], i, Names(table, i), SubDirs(table, i));
    assert Targets(Ordinary(table[i])) == [];
  }

  // ---- The three ways in which a step changes the table ----

  lemma NamesUpdate(table: seq<Node>, i: nat, a: Node, x: nat)
    requires i < |table|
    ensures Names(table[i := a], x) + NamedBy(table[i])[x] == Names(table, x) + NamedBy(a)[x]
  {
    SumUpdate(table, i, a, NamedBy);
    assert (Sum(table[i := a], NamedBy) + NamedBy(table[i]))[x] == (Sum(table, NamedBy) + NamedBy(a))[x];
  }

  /** Directory p gains entry e. */
  ghost predicate Gains(table: seq<Node>, p: nat, e: Entry, table': seq<Node>) {
    p < |table| && table[p].Dir? && |table[p].ents| >= 2 && |table'| == |table| &&
    table'[p].Dir? && table'[p].ents == table[p].ents + [e] && table' == table[p := table'[p]]
  }

  lemma GainsEffect(table: seq<Node>, p: nat, e: Entry, table': seq<Node>)
    requires Gains(table, p, e, table')
    ensures forall x :: Names(table', x) == Names(table, x) + if x == e.ino then 1 else 0
    ensures forall x :: IsDir(table', x) <==> IsDir(table, x)
    ensures forall d :: 0 <= d < |table| ==>
      SubDirs(table', d) == SubDirs(table, d) + if d == p && IsDir(table, e.ino) then 1 else 0
  {
    hide Names, CountDirs;
    var t := Targets(Ordinary(table[p]));
    assert Targets(Ordinary(table'[p])) == t + [e.ino];
    forall x ensures Names(table', x) == Names(table, x) + if x == e.ino then 1 else 0 {
      NamesUpdate(table, p, table'[p], x);
      assert multiset(t + [e.ino]) == multiset(t) + multiset{e.ino};
    }
    forall d | 0 <= d < |table|
      ensures SubDirs(table', d) == SubDirs(table, d) + if d == p && IsDir(table, e.ino) then 1 else 0
    {
      CountSame(Targets(Ordinary(table[d])), table, table');
      if d == p {
        CountConcat(t, [e.ino], table');
        CountOne(e.ino, table');
      }
    }
  }

  /** Directory p loses its ordinary entry k. */
  ghost predicate Loses(table: seq<Node>, p: nat, k: nat, table': seq<Node>) {
    p < |table| && table[p].Dir? && 2 <= k < |table[p].ents| && |table'| == |table| &&
    table'[p].Dir? && table'[p].ents == SwapRemove(table[p].ents, k) && table' == table[p := table'[p]]
  }

  lemma LosesEffect(table: seq<Node>, p: nat, k: nat, table': seq<Node>)
    requires Loses(table, p, k, table')
    ensures var c := table[p].ents[k].ino;
      && (forall x :: Names(table', x) + (if x == c then 1 else 0) == Names(table, x))
      && (forall d :: 0 <= d < |table| ==>
        SubDirs(table', d) + (if d == p && IsDir(table, c) then 1 else 0) == SubDirs(table, d))
    ensures forall x :: IsDir(table', x) <==> IsDir(table, x)
  {
    hide SwapRemove, CountDirs, Names;
    var es, c := table[p].ents[2..], table[p].ents[k].ino;
    SwapRemoveTail(table[p].ents, k);
    CountSwapRemove(es, k - 2, table);
    CountOne(c, table);
    forall x ensures Names(table', x) + (if x == c then 1 else 0) == Names(table, x) {
      NamesUpdate(table, p, table'[p], x);
      assert (multiset(Targets(SwapRemove(es, k - 2))) + multiset{c})[x] == multiset(Targets(es))[x];
    }
    forall d | 0 <= d < |table|
      ensures SubDirs(table', d) + (if d == p && IsDir(table, c) then 1 else 0) == SubDirs(table, d)
    {
      CountSame(Targets(Ordinary(table'[d])), table, table');
    }
  }

  lemma SwapRemoveTail(ents: seq<Entry>, k: nat)
    requires 2 <= k < |ents|
    ensures |SwapRemove(ents, k)| == |ents| - 1 >= 2 && SwapRemove(ents, k)[2..] == SwapRemove(ents[2..], k - 2)
    ensures SwapRemove(ents, k)[..2] == ents[..2]
  {
  }

  /** Inode i, which has no ordinary entries, becomes another one without any. */
  ghost predicate Becomes(table: seq<Node>, i: nat, a: Node, table': seq<Node>) {
    i < |table| && table' == table[i := a] && Ordinary(table[i]) == [] && Ordinary(a) == []
  }

  lemma BecomesEffect(table: seq<Node>, i: nat, a: Node, table': seq<Node>)
    requires Becomes(table, i, a, table')
    ensures forall x :: Names(table', x) == Names(table, x)
    ensures (table[i].Dir? == a.Dir? || Names(table, i) == 0) ==>
      forall d :: 0 <= d < |table| ==> SubDirs(table', d) == SubDirs(table, d)
  {
    forall x ensures Names(table', x) == Names(table, x) { NamesUpdate(table, i, a, x); }
    if table[i].Dir? == a.Dir? || Names(table, i) == 0 {
      forall d | 0 <= d < |table| ensures SubDirs(table', d) == SubDirs(table, d) {
        if Names(table, i) == 0 { Unnamed(table, i, d); }
        CountSame(Targets(Ordinary(table[d])), table, table');
        assert Targets(Ordinary(table'[d])) == Targets(Ordinary(table[d]));
      }
    }
  }

  /** What nothing names is no target. */
  lemma Unnamed(table: seq<Node>, i: nat, d: nat)
    requires d < |table| && Names(table, i) == 0
    ensures i !in Targets(Ordinary(table[d]))
  {
    SumHas(table, d, NamedBy, i);
    assert multiset(Targets(Ordinary(table[d])))[i] == 0;
  }

  lemma TargetNamed(table: seq<Node>, d: nat, k: nat)
    requires d < |table| && table[d].Dir? && 2 <= k < |table[d].ents|
    ensures Names(table, table[d].ents[k].ino) >= 1
  {
    var c := table[d].ents[k].ino;
    var t := Targets(Ordinary(table[d]));
    assert t[k - 2] == c && c in multiset(t);
    SumHas(table, d, NamedBy, c);
  }

}
