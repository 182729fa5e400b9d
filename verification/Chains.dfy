/**
 Rotation chains. `replacedBy` gives each token at most one successor, so a chain is followed
 by iterating a partial function; `Hop(t, a, n)` is the n-th successor of `a`.
 */
module Chains {
  import opened Types

  function Next(t: Table, a: Id): Option<Id> {
    if a in t then t[a].replacedBy else None
  }

  function Hop(t: Table, a: Id, n: nat): Option<Id>
    decreases n
  {
    if n == 0 then Some(a)
    else match Next(t, a)
      case None => None
      case Some(b) => Hop(t, b, n - 1)
  }

  ghost predicate Reaches(t: Table, a: Id, b: Id) {
    exists n: nat :: Hop(t, a, n) == Some(b)
  }

  /** Two tokens belong to one chain when one was rotated, in any number of steps, into the other. */
  ghost predicate SameChain(t: Table, a: Id, b: Id) {
    Reaches(t, a, b) || Reaches(t, b, a)
  }

  /** The rows the recursive query starting at `a` collects. */
  ghost function Closure(t: Table, a: Id): set<Id> {
    set x | x in t && Reaches(t, a, x)
  }

  ghost predicate HasPred(t: Table, b: Id) {
    exists a :: a in t && Next(t, a) == Some(b)
  }

  /** No token is replaced by, or replaces, another. */
  ghost predicate Isolated(t: Table, a: Id) {
    Next(t, a).None? && !HasPred(t, a)
  }

  // ----- the shape of the link graph -----

  ghost predicate TargetsExist(t: Table) {
    forall a :: a in t && Next(t, a).Some? ==> Next(t, a).value in t
  }

  ghost predicate InDegreeAtMostOne(t: Table) {
    forall a, b :: a in t && b in t && Next(t, a).Some? && Next(t, a) == Next(t, b) ==> a == b
  }

  ghost predicate Acyclic(t: Table) {
    forall a: Id, n: nat :: n > 0 ==> Hop(t, a, n) != Some(a)
  }

  /** The links form disjoint finite lines. */
  ghost predicate Linear(t: Table) {
    TargetsExist(t) && InDegreeAtMostOne(t) && Acyclic(t)
  }

  // ----- hops -----

  lemma {:induction false} HopAdd(t: Table, a: Id, m: nat, n: nat)
    requires Hop(t, a, m).Some?
    ensures Hop(t, a, m + n) == Hop(t, Hop(t, a, m).value, n)
    decreases m
  {
    if m > 0 {
      HopAdd(t, Next(t, a).value, m - 1, n);
    }
  }

  lemma {:induction false} HopPrefix(t: Table, a: Id, m: nat, n: nat)
    requires m <= n && Hop(t, a, n).Some?
    ensures Hop(t, a, m).Some?
    decreases m
  {
    if m > 0 {
      HopPrefix(t, Next(t, a).value, m - 1, n - 1);
    }
  }

  lemma HopLast(t: Table, a: Id, n: nat)
    requires Hop(t, a, n + 1).Some?
    ensures Hop(t, a, n).Some? && Next(t, Hop(t, a, n).value) == Hop(t, a, n + 1)
  {
    HopPrefix(t, a, n, n + 1);
    HopAdd(t, a, n, 1);
    var x := Hop(t, a, n).value;
    assert Hop(t, x, 1) == Next(t, x) by {
      if Next(t, x).Some? { assert Hop(t, Next(t, x).value, 0) == Next(t, x); }
    }
  }

  lemma {:induction false} HopStaysInTable(t: Table, a: Id, n: nat)
    requires TargetsExist(t) && a in t && Hop(t, a, n).Some?
    ensures Hop(t, a, n).value in t
    decreases n
  {
    if n > 0 {
      HopStaysInTable(t, Next(t, a).value, n - 1);
    }
  }

  lemma {:induction false} HopSameLinks(t: Table, t': Table, a: Id, n: nat)
    requires forall x :: Next(t, x) == Next(t', x)
    ensures Hop(t, a, n) == Hop(t', a, n)
    decreases n
  {
    if n > 0 && Next(t, a).Some? {
      HopSameLinks(t, t', Next(t, a).value, n - 1);
    }
  }

  /** Walking a line never meets a token twice. */
  lemma HopsDistinct(t: Table, a: Id, i: nat, j: nat)
    requires Acyclic(t) && i < j && Hop(t, a, j).Some?
    ensures Hop(t, a, i) != Hop(t, a, j)
  {
    HopPrefix(t, a, i, j);
    HopAdd(t, a, i, j - i);
  }

  lemma ReachesTransitive(t: Table, a: Id, b: Id, c: Id)
    requires Reaches(t, a, b) && Reaches(t, b, c)
    ensures Reaches(t, a, c)
  {
    var m: nat :| Hop(t, a, m) == Some(b);
    var n: nat :| Hop(t, b, n) == Some(c);
    HopAdd(t, a, m, n);
  }

  /** Two tokens with a common descendant: the farther one is rotated into the nearer one. */
  lemma {:induction false} Backtrack(t: Table, a: Id, m: nat, c: Id, n: nat)
    requires InDegreeAtMostOne(t) && m <= n
    requires Hop(t, a, m).Some? && Hop(t, a, m) == Hop(t, c, n)
    ensures Hop(t, c, n - m) == Some(a)
    decreases m
  {
    if m > 0 {
      HopLast(t, a, m - 1);
      HopLast(t, c, n - 1);
      Backtrack(t, a, m - 1, c, n - 1);
    }
  }

  /** Chains are linear and disjoint: belonging to one chain is an equivalence relation. */
  lemma ChainsPartition(t: Table, a: Id, b: Id, c: Id)
    requires InDegreeAtMostOne(t)
    ensures SameChain(t, a, a)
    ensures SameChain(t, a, b) ==> SameChain(t, b, a)
    ensures SameChain(t, a, b) && SameChain(t, b, c) ==> SameChain(t, a, c)
  {
    assert Hop(t, a, 0) == Some(a);
    if SameChain(t, a, b) && SameChain(t, b, c) {
      if Reaches(t, a, b) && Reaches(t, b, c) {
        ReachesTransitive(t, a, b, c);
      } else if Reaches(t, c, b) && Reaches(t, b, a) {
        ReachesTransitive(t, c, b, a);
      } else if Reaches(t, a, b) {
        var m: nat :| Hop(t, a, m) == Some(b);
        var n: nat :| Hop(t, c, n) == Some(b);
        if m <= n { Backtrack(t, a, m, c, n); } else { Backtrack(t, c, n, a, m); }
      } else {
        var m: nat :| Hop(t, b, m) == Some(a);
        var n: nat :| Hop(t, b, n) == Some(c);
        if m <= n { HopAdd(t, b, m, n - m); } else { HopAdd(t, b, n, m - n); }
      }
    }
  }

  /** Chains stay within the table. */
  lemma ChainInTable(t: Table, a: Id, x: Id)
    requires TargetsExist(t) && a in t && SameChain(t, a, x)
    ensures x in t
  {
    if Reaches(t, a, x) {
      var n: nat :| Hop(t, a, n) == Some(x);
      HopStaysInTable(t, a, n);
    } else {
      var n: nat :| Hop(t, x, n) == Some(a);
      assert n > 0 ==> Next(t, x).Some?;
    }
  }

  // ----- how the store's writes change the shape -----

  /** Writes that leave every link alone, adding at most rows without a successor, keep the shape. */
  lemma SameLinksKeepLinear(t: Table, t': Table)
    requires Linear(t) && t.Keys <= t'.Keys
    requires forall x :: Next(t, x) == Next(t', x)
    ensures Linear(t')
  {
    forall a: Id, n: nat | n > 0 ensures Hop(t', a, n) != Some(a) {
      HopSameLinks(t, t', a, n);
    }
    forall a | a in t' && Next(t', a).Some? ensures Next(t', a).value in t' {
      assert Next(t, a).Some?;
      assert a in t;
    }
    forall a, b | a in t' && b in t' && Next(t', a).Some? && Next(t', a) == Next(t', b) ensures a == b {
      assert Next(t, a).Some? && Next(t, a) == Next(t, b);
      assert a in t && b in t;
    }
  }

  /** `t'` is `t` with the one new link `old -> new`. */
  ghost predicate AddsLink(t: Table, t': Table, prev: Id, succ: Id) {
    t.Keys == t'.Keys && prev in t && succ in t && prev != succ
    && Next(t, prev).None? && Isolated(t, succ)
    && Next(t', prev) == Some(succ)
    && forall x :: x != prev ==> Next(t', x) == Next(t, x)
  }

  /** A link to an isolated token adds one hop at the end of one chain and changes no other walk. */
  lemma {:induction false} HopsAfterLink(t: Table, t': Table, prev: Id, succ: Id, a: Id, n: nat)
    requires AddsLink(t, t', prev, succ)
    ensures Hop(t', a, n) ==
      if Hop(t, a, n).Some? then Hop(t, a, n)
      else if n > 0 && Hop(t, a, n - 1) == Some(prev) then Some(succ)
      else None
    decreases n
  {
    if n == 0 {
    } else if a == prev {
      assert Next(t', succ).None?;
      if n > 1 {
        assert Hop(t', succ, n - 1).None?;
        assert Hop(t, prev, n - 1).None?;
      } else {
        assert Hop(t', succ, 0) == Some(succ);
        assert Hop(t, prev, 0) == Some(prev);
      }
    } else if Next(t, a).Some? {
      HopsAfterLink(t, t', prev, succ, Next(t, a).value, n - 1);
      if n == 1 { assert Hop(t, a, 0) == Some(a); }
    } else if n == 1 {
      assert Hop(t, a, 0) == Some(a);
    } else {
      assert Hop(t, a, n - 1).None?;
    }
  }

  lemma LinkKeepsLinear(t: Table, t': Table, prev: Id, succ: Id)
    requires Linear(t) && AddsLink(t, t', prev, succ)
    ensures Linear(t')
  {
    forall a: Id, n: nat | n > 0 ensures Hop(t', a, n) != Some(a) {
      HopsAfterLink(t, t', prev, succ, a, n);
    }
    forall a, b | a in t' && b in t' && Next(t', a).Some? && Next(t', a) == Next(t', b) ensures a == b {
      assert forall x :: x in t ==> Next(t, x) != Some(succ);
    }
  }

  /**
   The store alone does not keep the shape: two guarded replacements of existing, never replaced
   rows close a cycle, on which the forward walk never ends.
   */
  lemma StoreAloneAllowsCycle(t: Table, t1: Table, t2: Table, a: Id, b: Id)
    requires Linear(t) && a in t && b in t && a != b && Isolated(t, a) && Isolated(t, b)
    requires t1 == t[a := t[a].(replacedBy := Some(b))]
    requires t2 == t1[b := t1[b].(replacedBy := Some(a))]
    ensures Linear(t1) && Next(t1, b).None?
    ensures !Acyclic(t2) && forall n: nat :: Hop(t2, a, n).Some?
  {
    assert AddsLink(t, t1, a, b);
    LinkKeepsLinear(t, t1, a, b);
    assert Hop(t2, a, 2) == Some(a) by {
      assert Hop(t2, a, 0) == Some(a);
      assert Hop(t2, b, 1) == Hop(t2, a, 0);
    }
    forall n: nat ensures Hop(t2, a, n).Some? { TwoCycleWalk(t2, a, b, n); }
  }

  lemma {:induction false} TwoCycleWalk(t: Table, a: Id, b: Id, n: nat)
    requires Next(t, a) == Some(b) && Next(t, b) == Some(a)
    ensures Hop(t, a, n).Some?
    decreases n
  {
    if n > 0 { TwoCycleWalk(t, b, a, n - 1); }
  }
}
