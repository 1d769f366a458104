/**
 * Arithmetic of trees with FANOUT children per node. A tree of height h covers
 * Cap(h) data blocks, needs Full(h) nodes when full and Ind(h, n) nodes when it
 * holds n blocks. Height 0 is a data block itself. Nothing here depends on the
 * value of FANOUT.
 */
module Radix {
  import opened Layout

  function Cap(h: nat): (c: nat)
    ensures c >= 1
  {
    if h == 0 then 1 else FANOUT * Cap(h - 1)
  }

  /** Quotient and remainder by repeated subtraction: n / c and n % c, see QuotRem. */
  function Quot(n: nat, c: nat): nat
    requires c > 0
  {
    if n < c then 0 else 1 + Quot(n - c, c)
  }

  function Rem(n: nat, c: nat): nat
    requires c > 0
  {
    if n < c then n else Rem(n - c, c)
  }

  function Full(h: nat): nat {
    if h == 0 then 0 else 1 + FANOUT * Full(h - 1)
  }

  /** Nodes of a tree of height h that holds n data blocks in its first n slots. */
  function Ind(h: nat, n: nat): nat {
    if h == 0 || n == 0 then 0
    else 1 + Times(Quot(n, Cap(h - 1)), Full(h - 1)) + Ind(h - 1, Rem(n, Cap(h - 1)))
  }

  /** Nodes that appending at index n allocates: one at each level whose remaining index is 0. */
  function New(h: nat, n: nat): (k: nat)
    ensures k <= h
  {
    if h == 0 then 0 else (if n == 0 then 1 else 0) + New(h - 1, Rem(n, Cap(h - 1)))
  }

  /** How much of [0, n) lies in [a, b). */
  function Cut(n: nat, a: nat, b: nat): nat
    requires a <= b
  {
    Min(b, n) - Min(a, n)
  }

  lemma {:induction false} TimesIs(i: nat, w: nat)
    ensures Times(i, w) == i * w
  {
    if i > 0 {
      TimesIs(i - 1, w);
      assert i * w == (i - 1) * w + w;
    }
  }

  lemma {:induction false} TimesStep(q: nat, i: nat, w: nat)
    ensures q < i ==> Times(q, w) + w <= Times(i, w)
    ensures q <= i ==> Times(q, w) <= Times(i, w)
  {
    if q < i { TimesStep(q, i - 1, w); }
  }

  lemma {:induction false} QuotUnique(n: nat, q: nat, r: nat, c: nat)
    requires c > 0 && n == Times(q, c) + r && r < c
    ensures Quot(n, c) == q && Rem(n, c) == r
  {
    if q > 0 { QuotUnique(n - c, q - 1, r, c); }
  }

  lemma {:induction false} QuotRem(n: nat, c: nat)
    requires c > 0
    ensures Quot(n, c) == n / c && Rem(n, c) == n % c
  {
    var q, r := n / c, n % c;
    TimesIs(q, c);
    QuotUnique(n, q, r, c);
  }

  lemma DivTimes(n: nat, c: nat)
    requires c > 0
    ensures n == Times(n / c, c) + n % c && n % c < c
  {
    TimesIs(n / c, c);
  }

  lemma CapTimes(h: nat)
    ensures Cap(h + 1) == Times(FANOUT, Cap(h)) && Full(h + 1) == 1 + Times(FANOUT, Full(h))
  {
    TimesIs(FANOUT, Cap(h));
    TimesIs(FANOUT, Full(h));
  }

  lemma DivCap(h: nat, n: nat) returns (q: nat, r: nat)
    requires n < Cap(h + 1)
    ensures n == Times(q, Cap(h)) + r && r < Cap(h) && q < FANOUT
    ensures q == n / Cap(h) && r == n % Cap(h)
  {
    hide Cap, Times;
    q, r := n / Cap(h), n % Cap(h);
    DivTimes(n, Cap(h));
    CapTimes(h);
    TimesStep(FANOUT, q, Cap(h));
  }

  lemma IndParts(h: nat, n: nat, q: nat, r: nat)
    requires h > 0 && n > 0 && n == Times(q, Cap(h - 1)) + r && r < Cap(h - 1)
    ensures Ind(h, n) == 1 + Times(q, Full(h - 1)) + Ind(h - 1, r)
    ensures New(h, n) == New(h - 1, r)
  {
    QuotUnique(n, q, r, Cap(h - 1));
  }

  lemma {:induction false} IndAtMostFull(h: nat, n: nat)
    requires n <= Cap(h)
    ensures Ind(h, n) <= Full(h)
    ensures n == Cap(h) ==> Ind(h, n) == Full(h)
  {
    if h > 0 && n > 0 {
      if n == Cap(h) {
        TimesIs(FANOUT, Cap(h - 1));
        TimesIs(FANOUT, Full(h - 1));
        IndParts(h, n, FANOUT, 0);
      } else {
        var q, r := DivCap(h - 1, n);
        TimesIs(FANOUT, Full(h - 1));
        IndParts(h, n, q, r);
        IndAtMostFull(h - 1, r);
        TimesStep(q, FANOUT, Full(h - 1));
      }
    }
  }

  lemma {:induction false} IndFirst(h: nat)
    ensures Ind(h, 1) == New(h, 0) == h
  {
    if h == 1 {
      IndParts(1, 1, 1, 0);
    } else if h > 1 {
      IndParts(h, 1, 0, 1);
      IndFirst(h - 1);
    }
  }

  /** One append costs exactly New nodes. */
  lemma {:induction false} IndStep(h: nat, n: nat)
    requires n < Cap(h)
    ensures Ind(h, n + 1) == Ind(h, n) + New(h, n)
  {
    if n == 0 {
      IndFirst(h);
    } else if h > 0 {
      var q, r := DivCap(h - 1, n);
      IndStep(h - 1, r);
      IndParts(h, n, q, r);
      IndNext(h, n, q, r);
    }
  }

  lemma IndNext(h: nat, n: nat, q: nat, r: nat)
    requires h > 0 && n == Times(q, Cap(h - 1)) + r && r < Cap(h - 1)
    ensures Ind(h, n + 1) == 1 + Times(q, Full(h - 1)) + Ind(h - 1, r + 1)
  {
    if r + 1 < Cap(h - 1) {
      IndParts(h, n + 1, q, r + 1);
    } else {
      IndAtMostFull(h - 1, r + 1);
      IndParts(h, n + 1, q + 1, 0);
    }
  }

  // ---- The closed form ----

  /** One node of height j for every Cap(j) data blocks or part of it. */
  function LevelSum(h: nat, n: nat): nat {
    if h == 0 then 0 else LevelSum(h - 1, n) + CeilDiv(n, Cap(h))
  }

  lemma {:induction false} TimesAdd(q: nat, m: nat, c: nat)
    ensures Times(q + m, c) == Times(q, c) + Times(m, c)
  {
    if m > 0 { TimesAdd(q, m - 1, c); }
  }

  lemma CeilAdd(n: nat, m: nat, c: nat)
    requires c > 0
    ensures CeilDiv(n + Times(m, c), c) == CeilDiv(n, c) + m
  {
    var a := n + c - 1;
    DivTimes(a, c);
    TimesAdd(a / c, m, c);
    QuotUnique(a + Times(m, c), a / c + m, a % c, c);
    QuotRem(a + Times(m, c), c);
  }

  lemma CeilSmall(n: nat, c: nat)
    requires n <= c && c > 0
    ensures CeilDiv(n, c) == if n == 0 then 0 else 1
  {
    if n > 0 {
      assert Times(1, c) == Times(0, c) + c;
      QuotUnique(n + c - 1, 1, n - 1, c);
    } else {
      QuotUnique(c - 1, 0, c - 1, c);
    }
    QuotRem(n + c - 1, c);
  }

  lemma {:induction false} CapMultiple(j: nat, h: nat) returns (m: nat)
    requires j <= h
    ensures Cap(h) == Times(m, Cap(j))
  {
    if j == h {
      m := 1;
      TimesIs(1, Cap(j));
    } else {
      var k := CapMultiple(j, h - 1);
      m := FANOUT * k;
      TimesIs(k, Cap(j));
      TimesIs(m, Cap(j));
      Assoc(FANOUT, k, Cap(j));
    }
  }

  lemma Assoc(a: nat, b: nat, c: nat)
    ensures a * (b * c) == a * b * c
  {
  }

  lemma {:induction false} LevelSumAdd(k: nat, h: nat, n: nat)
    requires k <= h
    ensures LevelSum(k, n + Cap(h)) == LevelSum(k, n) + LevelSum(k, Cap(h))
  {
    hide Cap, Times, CeilDiv;
    if k > 0 {
      LevelSumAdd(k - 1, h, n);
      var m := CapMultiple(k, h);
      CeilAdd(n, m, Cap(k));
      CeilAdd(0, m, Cap(k));
      CeilSmall(0, Cap(k));
    }
  }

  lemma {:induction false} LevelSumTimes(k: nat, h: nat, q: nat, r: nat)
    requires k <= h
    ensures LevelSum(k, Times(q, Cap(h)) + r) == Times(q, LevelSum(k, Cap(h))) + LevelSum(k, r)
  {
    hide Cap, LevelSum;
    if q > 0 {
      LevelSumTimes(k, h, q - 1, r);
      LevelSumAdd(k, h, Times(q - 1, Cap(h)) + r);
    }
  }

  lemma {:induction false} LevelSumZero(h: nat)
    ensures LevelSum(h, 0) == 0
  {
    hide Cap, CeilDiv;
    if h > 0 {
      LevelSumZero(h - 1);
      CeilSmall(0, Cap(h));
    }
  }

  lemma {:induction false} LevelSumFull(h: nat)
    ensures LevelSum(h, Cap(h)) == Full(h)
  {
    hide Cap, CeilDiv, Times;
    if h > 0 {
      LevelSumFull(h - 1);
      CapTimes(h - 1);
      LevelSumTimes(h - 1, h - 1, FANOUT, 0);
      LevelSumZero(h - 1);
      CeilSmall(Cap(h), Cap(h));
    }
  }

  /** The number of indirect blocks in closed form: the sum over the levels j of n / 512^j,
      rounded up. */
  lemma {:induction false} IndClosed(h: nat, n: nat)
    requires n <= Cap(h)
    ensures Ind(h, n) == LevelSum(h, n)
  {
    hide Cap, CeilDiv, Times, Ind;
    if n == 0 {
      LevelSumZero(h);
      IndNone(h);
    } else if h > 0 {
      var c := Cap(h - 1);
      var q, r := n / c, n % c;
      DivTimes(n, c);
      IndParts(h, n, q, r);
      IndClosed(h - 1, r);
      LevelSumTimes(h - 1, h - 1, q, r);
      LevelSumFull(h - 1);
      CeilSmall(n, Cap(h));
    } else {
      IndNone(0);
    }
  }

  lemma IndNone(h: nat)
    ensures Ind(h, 0) == 0 && forall n :: Ind(0, n) == 0
  {
  }
}
