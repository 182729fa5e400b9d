/**
 The in-memory store: three maps updated in place, a linked walk, a bulk loop and an exchange
 sort. Each method is proved against the statement the SQL store issues. Loops over a map visit
 its keys in an arbitrary order.
 */
module Fake {
  import opened Types
  import opened Sequences
  import opened Chains
  import opened Tables
  import opened Accounts

  // ----- specifications of the loops -----

  /** The tokens the first `n` steps of a walk from `a` visit. */
  ghost function Visited(t: Table, a: Id, n: nat): set<Id> {
    set i: nat | i < n && Hop(t, a, i).Some? :: Hop(t, a, i).value
  }

  lemma VisitedGrows(t: Table, a: Id, n: nat, x: Id)
    requires Hop(t, a, n) == Some(x)
    ensures Visited(t, a, n + 1) == Visited(t, a, n) + {x}
  {
  }

  lemma VisitedIsNew(t: Table, a: Id, n: nat, x: Id)
    requires Acyclic(t) && Hop(t, a, n) == Some(x)
    ensures x !in Visited(t, a, n)
  {
    forall i: nat | i < n ensures Hop(t, a, i) != Some(x) { HopsDistinct(t, a, i, n); }
  }

  /** A walk that ends has visited what the recursive query collects. */
  lemma WalkIsClosure(t: Table, a: Id, n: nat, x: Id, now: Time)
    requires Hop(t, a, n) == Some(x) && (x in t ==> Next(t, x).None?)
    ensures RevokeRows(t, Visited(t, a, n + 1), now) == RevokeRows(t, Closure(t, a), now)
  {
    forall y | y in t ensures y in Visited(t, a, n + 1) <==> y in Closure(t, a) {
      if m: nat :| Hop(t, a, m) == Some(y) {
        if m > n {
          HopAdd(t, a, n, m - n);
        }
        assert m < n + 1;
      }
    }
  }

  /** The list the store returns for a user: exactly the active tokens, each once, newest first. */
  ghost predicate IsSessionList(t: Table, user: Id, now: Time, out: seq<RefreshToken>) {
    && (forall i :: 0 <= i < |out| ==> out[i].id in t && t[out[i].id] == out[i])
    && (forall id :: id in t ==>
          (t[id] in out <==> t[id].userId == user && t[id].revokedAt == None && t[id].replacedBy == None
                             && now < t[id].expiresAt))
    && (forall i, j :: 0 <= i < j < |out| ==> out[i].id != out[j].id)
    && NewestFirst(out)
  }

  predicate NewestFirst(s: seq<RefreshToken>) {
    forall i, j :: 0 <= i < j < |s| ==> s[i].issuedAt >= s[j].issuedAt
  }

  // ----- the exchange sort -----

  method Swap(a: array<RefreshToken>, i: nat, j: nat)
    requires i < j < a.Length
    modifies a
    ensures a[i] == old(a[j]) && a[j] == old(a[i])
    ensures forall k :: 0 <= k < a.Length && k != i && k != j ==> a[k] == old(a[k])
    ensures multiset(a[..]) == multiset(old(a[..]))
  {
    a[i], a[j] := a[j], a[i];
  }

  /** Sort in place, newest first, by exchanging out-of-order pairs. */
  method SortNewestFirst(a: array<RefreshToken>)
    modifies a
    ensures NewestFirst(a[..])
    ensures multiset(a[..]) == multiset(old(a[..]))
  {
    for i := 0 to a.Length
      invariant forall p, q :: 0 <= p < i && p < q < a.Length ==> a[p].issuedAt >= a[q].issuedAt
      invariant multiset(a[..]) == multiset(old(a[..]))
    {
      for j := i + 1 to a.Length
        invariant forall p, q :: 0 <= p < i && p < q < a.Length ==> a[p].issuedAt >= a[q].issuedAt
        invariant forall q :: i <= q < j ==> a[i].issuedAt >= a[q].issuedAt
        invariant multiset(a[..]) == multiset(old(a[..]))
      {
        if a[j].issuedAt > a[i].issuedAt {
          Swap(a, i, j);
        }
      }
    }
  }

  lemma {:induction false} PermutationKeepsElements(s: seq<RefreshToken>, r: seq<RefreshToken>)
    requires multiset(s) == multiset(r)
    ensures |s| == |r| && forall x :: x in s <==> x in r
  {
    assert |multiset(s)| == |multiset(r)|;
    forall x: RefreshToken ensures x in s <==> x in r {
      assert x in s <==> x in multiset(s);
      assert x in r <==> x in multiset(r);
    }
  }

  lemma PermutationKeepsDistinct(s: seq<RefreshToken>, r: seq<RefreshToken>)
    requires multiset(s) == multiset(r) && forall i, j :: 0 <= i < j < |s| ==> s[i].id != s[j].id
    ensures forall i, j :: 0 <= i < j < |r| ==> r[i].id != r[j].id
  {
    PermutationKeepsElements(s, r);
    forall i, j | 0 <= i < j < |r| ensures r[i].id != r[j].id {
      assert r[i] in s && r[j] in s;
      if r[i] == r[j] {
        RepeatedTwice(r, i, j);
        OnceInMultiset(s, r[i]);
      }
    }
  }

  lemma {:induction false} OnceInMultiset(s: seq<RefreshToken>, x: RefreshToken)
    requires forall i, j :: 0 <= i < j < |s| ==> s[i].id != s[j].id
    ensures multiset(s)[x] <= 1
  {
    if s != [] {
      var n := |s| - 1;
      assert s == s[..n] + [s[n]];
      OnceInMultiset(s[..n], x);
      if x == s[n] { assert x !in s[..n] && x !in multiset(s[..n]); }
    }
  }

  class Store {
    const fold: string -> string
    var users: map<Id, User>
    var creds: map<Id, Credential>
    var tokens: Table

    constructor (fold: string -> string)
      ensures this.fold == fold && Contents() == EMPTY
    {
      this.fold := fold;
      users, creds, tokens := map[], map[], map[];
    }

    ghost function Contents(): Db
      reads this
    {
      Db(users, creds, tokens)
    }

    // ----- users and credentials -----

    /** The row with this name up to case; which of several would be returned is left open, but names are unique. */
    method GetUserByUsername(name: string) returns (r: Option<User>)
      ensures r.Some? ==> exists id :: HasName(fold, users, id, name) && users[id] == r.value
      ensures r.None? ==> forall id :: !HasName(fold, users, id, name)
      ensures (forall a, b :: HasName(fold, users, a, name) && HasName(fold, users, b, name) ==> a == b) ==>
                  r == UserByName(fold, users, name)
    {
      var rest := users.Keys;
      while rest != {}
        invariant rest <= users.Keys
        invariant forall id :: id in users && id !in rest ==> !HasName(fold, users, id, name)
        decreases rest
      {
        var id :| id in rest;
        if fold(users[id].username) == fold(name) {
          assert HasName(fold, users, id, name);
          return Some(users[id]);
        }
        rest := rest - {id};
      }
      return None;
    }

    method CreateUser(username: string, name: string, role: Role, id: Id) returns (r: Option<User>)
      requires id !in users
      modifies this`users
      ensures r.None? <==> exists x :: HasName(fold, old(users), x, username)
      ensures r.None? ==> users == old(users)
      ensures r.Some? ==> r.value == User(id, username, name, None, role, Active) && users == old(users)[id := r.value]
    {
      var found := GetUserByUsername(username);
      if found.Some? {
        return None;
      }
      var u := NewUser(id, username, name, role);
      users := users[id := u];
      return Some(u);
    }

    method UpdateUser(id: Id, displayName: Option<string>, email: Option<string>, role: Option<Role>,
                      status: Option<Status>)
      returns (r: Option<User>)
      modifies this`users
      ensures r.Some? <==> id in old(users)
      ensures r.None? ==> users == old(users)
      ensures r.Some? ==> users == old(users)[id := r.value]
      ensures r.Some? ==> var u := old(users)[id];
        && r.value.id == u.id && r.value.username == u.username
        && r.value.displayName == (if displayName.Some? then displayName.value else u.displayName)
        && r.value.email == (if email.Some? then email else u.email)
        && r.value.role == (if role.Some? then role.value else u.role)
        && r.value.status == (if status.Some? then status.value else u.status)
    {
      if id !in users {
        return None;
      }
      var u := users[id];
      if displayName.Some? { u := u.(displayName := displayName.value); }
      if email.Some? { u := u.(email := email); }
      if role.Some? { u := u.(role := role.value); }
      if status.Some? { u := u.(status := status.value); }
      users := users[id := u];
      return Some(u);
    }

    method SetCredential(id: Id, passwordHash: string, mustChange: bool)
      modifies this`creds
      ensures creds == old(creds)[id := Credential(passwordHash, mustChange)]
    {
      creds := creds[id := Credential(passwordHash, mustChange)];
    }

    // ----- refresh tokens -----

    method CreateRefreshToken(tok: RefreshToken)
      modifies this`tokens
      ensures tokens == Insert(old(tokens), tok)
    {
      tokens := tokens[tok.id := tok];
    }

    method GetRefreshTokenByHash(hash: Hash) returns (r: Option<RefreshToken>)
      ensures r.Some? ==> exists id :: HasHash(tokens, id, hash) && tokens[id] == r.value
      ensures r.None? ==> forall id :: !HasHash(tokens, id, hash)
      ensures HashesDistinct(tokens) ==> r == TokenByHash(tokens, hash)
    {
      var rest := tokens.Keys;
      while rest != {}
        invariant rest <= tokens.Keys
        invariant forall id :: id in tokens && id !in rest ==> !HasHash(tokens, id, hash)
        decreases rest
      {
        var id :| id in rest;
        if tokens[id].hash == hash {
          assert HasHash(tokens, id, hash);
          return Some(tokens[id]);
        }
        rest := rest - {id};
      }
      return None;
    }

    method ReplaceRefreshToken(oldId: Id, newId: Id, now: Time) returns (ok: bool)
      modifies this`tokens
      ensures ok <==> Replaceable(old(tokens), oldId)
      ensures tokens == Link(old(tokens), oldId, newId, now)
    {
      if oldId !in tokens || tokens[oldId].replacedBy.Some? {
        return false;
      }
      var t := tokens[oldId];
      t := t.(revokedAt := Some(now));
      t := t.(replacedBy := Some(newId));
      tokens := tokens[oldId := t];
      return true;
    }

    method RevokeRefreshToken(id: Id, now: Time) returns (ok: bool)
      modifies this`tokens
      ensures ok <==> id in old(tokens) && old(tokens)[id].revokedAt.None?
      ensures tokens == RevokeRows(old(tokens), {id}, now)
    {
      if id !in tokens || tokens[id].revokedAt.Some? {
        assert tokens == RevokeRows(tokens, {id}, now);
        return false;
      }
      tokens := tokens[id := tokens[id].(revokedAt := Some(now))];
      return true;
    }

    /**
     Walk the successors of `id`, revoking what is not revoked yet. On a cyclic table the loop
     would not end; every table the service builds is acyclic.
     */
    method RevokeRefreshTokenChain(id: Id, now: Time)
      requires Acyclic(tokens) && RowsKeyed(tokens)
      modifies this`tokens
      ensures tokens == RevokeRows(old(tokens), Closure(old(tokens), id), now)
    {
      ghost var t := tokens;
      ghost var n := 0;
      var cur := id;
      assert tokens == RevokeRows(t, Visited(t, id, 0), now);
      while cur in tokens
        invariant Hop(t, id, n) == Some(cur)
        invariant tokens == RevokeRows(t, Visited(t, id, n), now)
        decreases t.Keys - Visited(t, id, n)
      {
        VisitedGrows(t, id, n, cur);
        VisitedIsNew(t, id, n, cur);
        var row := tokens[cur];
        if row.revokedAt.None? {
          row := row.(revokedAt := Some(now));
          tokens := tokens[row.id := row];
        }
        assert tokens == RevokeRows(t, Visited(t, id, n + 1), now);
        if row.replacedBy.None? {
          WalkIsClosure(t, id, n, cur, now);
          return;
        }
        HopAdd(t, id, n, 1);
        cur := row.replacedBy.value;
        n := n + 1;
      }
      VisitedGrows(t, id, n, cur);
      WalkIsClosure(t, id, n, cur, now);
    }

    method RevokeUserRefreshTokens(user: Id, except: Option<Id>, now: Time)
      modifies this`tokens
      ensures tokens == RevokeRows(old(tokens), UserRows(old(tokens), user, except), now)
    {
      ghost var t := tokens;
      ghost var rows := UserRows(t, user, except);
      var rest := tokens.Keys;
      assert tokens == RevokeRows(t, rows - rest, now);
      while rest != {}
        invariant rest <= t.Keys
        invariant tokens == RevokeRows(t, rows - rest, now)
        decreases rest
      {
        var id :| id in rest;
        ghost var before := rest;
        rest := rest - {id};
        var row := tokens[id];
        if row.userId == user && row.revokedAt.None? && Some(id) != except {
          tokens := tokens[id := row.(revokedAt := Some(now))];
        }
        assert forall x :: x in rows - rest <==> x in rows - before || (x == id && x in rows);
        assert tokens == RevokeRows(t, rows - rest, now);
      }
      assert rows - {} == rows;
    }

    method ListUserSessions(user: Id, now: Time) returns (out: seq<RefreshToken>)
      requires RowsKeyed(tokens)
      ensures IsSessionList(tokens, user, now, out)
    {
      var found: seq<RefreshToken> := [];
      var rest := tokens.Keys;
      while rest != {}
        invariant rest <= tokens.Keys
        invariant forall i :: 0 <= i < |found| ==>
                      found[i].id in SessionRows(tokens, user, now) - rest && tokens[found[i].id] == found[i]
        invariant forall id :: id in SessionRows(tokens, user, now) - rest ==> tokens[id] in found
        invariant forall i, j :: 0 <= i < j < |found| ==> found[i].id != found[j].id
        decreases rest
      {
        var id :| id in rest;
        rest := rest - {id};
        if tokens[id].userId == user && tokens[id].IsActive(now) {
          found := found + [tokens[id]];
        }
      }
      out := Sorted(found);
      PermutationKeepsElements(found, out);
      PermutationKeepsDistinct(found, out);
      assert forall i :: 0 <= i < |out| ==> out[i] in found;
    }
  }

  method Sorted(s: seq<RefreshToken>) returns (r: seq<RefreshToken>)
    ensures NewestFirst(r) && multiset(r) == multiset(s)
  {
    var a := new RefreshToken[|s|](i requires 0 <= i < |s| => s[i]);
    assert a[..] == s;
    SortNewestFirst(a);
    r := a[..];
  }
}
