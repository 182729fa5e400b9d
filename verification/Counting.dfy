/** Counting rotation chains: a user's chains have as many first tokens as last ones. */
module Counting {
  import opened Types
  import opened Chains
  import opened Tables

  /** An injective map has as many values as keys; any map has no more. */
  lemma {:induction false} ValuesCount<K, V>(m: map<K, V>)
    ensures |m.Values| <= |m.Keys|
    ensures (forall a, b :: a in m && b in m && m[a] == m[b] ==> a == b) ==> |m.Values| == |m.Keys|
    decreases |m|
  {
    if m == map[] {
      assert m.Values == {};
    } else {
      var k :| k in m;
      var rest := m - {k};
      assert m.Keys == rest.Keys + {k};
      ValuesCount(rest);
      assert m.Values == rest.Values + {m[k]};
    }
  }

  ghost function RowsOf(t: Table, user: Id): set<Id> {
    set id | id in t && t[id].userId == user
  }

  ghost function HeadsOf(t: Table, user: Id): set<Id> {
    set id | id in t && t[id].userId == user && !HasPred(t, id)
  }

  ghost function TailsOf(t: Table, user: Id): set<Id> {
    set id | id in t && t[id].userId == user && Next(t, id).None?
  }

  ghost function LinksOf(t: Table, user: Id): map<Id, Id> {
    map id | id in RowsOf(t, user) && Next(t, id).Some? :: Next(t, id).value
  }

  /** The links of a user lead from the tokens that are not last to the tokens that are not first. */
  lemma LinksJoin(t: Table, user: Id)
    requires LinksKeepOwner(t)
    ensures LinksOf(t, user).Keys == RowsOf(t, user) - TailsOf(t, user)
    ensures LinksOf(t, user).Values == RowsOf(t, user) - HeadsOf(t, user)
  {
    var links := LinksOf(t, user);
    forall b | b in RowsOf(t, user) - HeadsOf(t, user) ensures b in links.Values {
      var a :| a in t && Next(t, a) == Some(b);
      assert SameOwner(t, a, b);
      assert a in links && links[a] == b;
    }
    forall b | b in links.Values ensures b in RowsOf(t, user) - HeadsOf(t, user) {
      var a :| a in links && links[a] == b;
      assert SameOwner(t, a, b);
    }
  }

  /** The links pair the replaced tokens one to one with the tokens that replaced them. */
  lemma HeadsEqualTails(t: Table, user: Id)
    requires LinksKeepOwner(t) && InDegreeAtMostOne(t)
    ensures |HeadsOf(t, user)| == |TailsOf(t, user)|
  {
    var rows, heads, tails := RowsOf(t, user), HeadsOf(t, user), TailsOf(t, user);
    LinksJoin(t, user);
    ValuesCount(LinksOf(t, user));
    hide LinksOf, LinksKeepOwner, InDegreeAtMostOne;
    assert |rows - tails| == |rows| - |tails|;
    assert |rows - heads| == |rows| - |heads|;
  }
}
