/**
 The refresh-token table: the store's statements as set-based updates, what every table the
 service can build satisfies, and what each statement does to it.
 */
module Tables {
  import opened Types
  import opened Chains

  // ----- the statements -----

  /** UPDATE ... SET revoked_at = now WHERE id IN ids AND revoked_at IS NULL. */
  function RevokeRows(t: Table, ids: set<Id>, now: Time): Table {
    map id | id in t :: if id in ids && t[id].revokedAt.None? then t[id].(revokedAt := Some(now)) else t[id]
  }

  /** The rows bulk revocation selects: one user's, optionally sparing one. */
  function UserRows(t: Table, user: Id, except: Option<Id>): set<Id> {
    set id | id in t && t[id].userId == user && Some(id) != except
  }

  /** The guard of a rotation: the row exists and has no successor yet. */
  predicate Replaceable(t: Table, id: Id) {
    id in t && t[id].replacedBy.None?
  }

  /** UPDATE ... SET revoked_at = now, replaced_by = newId WHERE id = oldId AND replaced_by IS NULL. */
  function Link(t: Table, oldId: Id, newId: Id, now: Time): Table {
    if Replaceable(t, oldId) then t[oldId := t[oldId].(revokedAt := Some(now), replacedBy := Some(newId))] else t
  }

  function Insert(t: Table, tok: RefreshToken): Table {
    t[tok.id := tok]
  }

  /** The row a new session stores; an empty device name is stored as absent. */
  function NewToken(id: Id, user: Id, hash: Hash, device: string, now: Time, ttl: Time): RefreshToken {
    RefreshToken(id, user, hash, if device == "" then None else Some(device), now, now + ttl, None, None)
  }

  /** The device name a rotation carries over. */
  function DeviceOf(tok: RefreshToken): string {
    if tok.device.Some? then tok.device.value else ""
  }

  ghost predicate FreshToken(t: Table, id: Id, hash: Hash) {
    id !in t && forall x :: x in t ==> t[x].hash != hash
  }

  // ----- what holds of every table -----

  ghost predicate RowsKeyed(t: Table) {
    forall id :: id in t ==> t[id].id == id && t[id].device != Some("")
  }

  ghost predicate HashesDistinct(t: Table) {
    forall a, b :: a in t && b in t && t[a].hash == t[b].hash ==> a == b
  }

  ghost predicate ReplacedIsRevoked(t: Table) {
    forall id :: id in t && t[id].replacedBy.Some? ==> t[id].revokedAt.Some?
  }

  ghost predicate SameOwner(t: Table, a: Id, b: Id) {
    a in t && b in t && t[a].userId == t[b].userId && t[a].device == t[b].device
  }

  ghost predicate LinksKeepOwner(t: Table) {
    forall a :: a in t && Next(t, a).Some? ==> SameOwner(t, a, Next(t, a).value)
  }

  ghost predicate Sound(t: Table) {
    Linear(t) && RowsKeyed(t) && HashesDistinct(t) && ReplacedIsRevoked(t) && LinksKeepOwner(t)
  }

  predicate Revoked(t: Table, id: Id) {
    id in t && t[id].revokedAt.Some?
  }

  /** No token of the chain of `a` is unrevoked. */
  ghost predicate ChainDead(t: Table, a: Id) {
    forall x :: x in t && SameChain(t, a, x) ==> Revoked(t, x)
  }

  // ----- each statement keeps it -----

  lemma RevokeKeepsLinks(t: Table, ids: set<Id>, now: Time)
    ensures RevokeRows(t, ids, now).Keys == t.Keys
    ensures forall x :: Next(RevokeRows(t, ids, now), x) == Next(t, x)
  {
  }

  lemma RevokeKeepsSound(t: Table, ids: set<Id>, now: Time)
    requires Sound(t)
    ensures Sound(RevokeRows(t, ids, now))
  {
    var t' := RevokeRows(t, ids, now);
    RevokeKeepsLinks(t, ids, now);
    SameLinksKeepLinear(t, t');
    forall a | a in t' && Next(t', a).Some? ensures SameOwner(t', a, Next(t', a).value) {
      assert SameOwner(t, a, Next(t, a).value);
    }
  }

  lemma InsertKeepsSound(t: Table, id: Id, user: Id, hash: Hash, device: string, now: Time, ttl: Time)
    requires Sound(t) && FreshToken(t, id, hash)
    ensures var t' := Insert(t, NewToken(id, user, hash, device, now, ttl));
            Sound(t') && Isolated(t', id) && forall x :: Next(t', x) == Next(t, x)
  {
    var t' := Insert(t, NewToken(id, user, hash, device, now, ttl));
    assert t'.Keys == t.Keys + {id};
    assert forall x :: Next(t', x) == Next(t, x);
    SameLinksKeepLinear(t, t');
    forall a | a in t' && Next(t', a).Some? ensures SameOwner(t', a, Next(t', a).value) {
      assert a in t && SameOwner(t, a, Next(t, a).value);
    }
  }

  lemma LinkKeepsSound(t: Table, oldId: Id, newId: Id, now: Time)
    requires Sound(t) && Replaceable(t, oldId) && oldId != newId
    requires newId in t && Isolated(t, newId) && SameOwner(t, oldId, newId)
    ensures Sound(Link(t, oldId, newId, now))
    ensures AddsLink(t, Link(t, oldId, newId, now), oldId, newId)
  {
    var t' := Link(t, oldId, newId, now);
    assert AddsLink(t, t', oldId, newId);
    LinkKeepsLinear(t, t', oldId, newId);
    forall a | a in t' && Next(t', a).Some? ensures SameOwner(t', a, Next(t', a).value) {
      assert a != oldId ==> SameOwner(t, a, Next(t, a).value);
    }
  }

  // ----- consequences for whole chains -----

  lemma {:induction false} OwnerAlongHops(t: Table, a: Id, n: nat)
    requires LinksKeepOwner(t) && a in t && Hop(t, a, n).Some?
    ensures SameOwner(t, a, Hop(t, a, n).value)
    decreases n
  {
    if n > 0 {
      assert SameOwner(t, a, Next(t, a).value);
      OwnerAlongHops(t, Next(t, a).value, n - 1);
    }
  }

  /** All tokens of a chain share one user and one device name. */
  lemma ChainsHomogeneous(t: Table, a: Id, b: Id)
    requires Sound(t) && a in t && b in t && SameChain(t, a, b)
    ensures t[a].userId == t[b].userId && t[a].device == t[b].device
  {
    if Reaches(t, a, b) {
      var n: nat :| Hop(t, a, n) == Some(b);
      OwnerAlongHops(t, a, n);
    } else {
      var n: nat :| Hop(t, b, n) == Some(a);
      OwnerAlongHops(t, b, n);
    }
  }

  /** Every strict ancestor of a token was replaced, hence is revoked. */
  lemma AncestorsRevoked(t: Table, a: Id, x: Id)
    requires ReplacedIsRevoked(t) && Reaches(t, x, a) && x != a
    ensures Revoked(t, x)
  {
  }

  /** A token without successor is the last of its chain. */
  lemma TailReachesOnlyItself(t: Table, a: Id, x: Id)
    requires Next(t, a).None? && Reaches(t, a, x)
    ensures x == a
  {
  }

  /**
   The forward-only walk kills the whole chain: after it, no token of the chain is unrevoked,
   ancestors included; and a revoked token without successor means the chain was dead already.
   */
  lemma ForwardWalkKillsChain(t: Table, a: Id, now: Time)
    requires Sound(t) && Revoked(t, a)
    ensures ChainDead(RevokeRows(t, Closure(t, a), now), a)
    ensures Next(t, a).None? ==> ChainDead(t, a)
  {
    var t' := RevokeRows(t, Closure(t, a), now);
    RevokeKeepsLinks(t, Closure(t, a), now);
    forall x | x in t && SameChain(t', a, x) ensures Revoked(t', x) {
      SameChainSameLinks(t, t', a, x);
      if x != a && Reaches(t, x, a) { AncestorsRevoked(t, a, x); }
    }
    if Next(t, a).None? {
      forall x | x in t && SameChain(t, a, x) ensures Revoked(t, x) {
        if Reaches(t, a, x) { TailReachesOnlyItself(t, a, x); } else { AncestorsRevoked(t, a, x); }
      }
    }
  }

  lemma SameChainSameLinks(t: Table, t': Table, a: Id, x: Id)
    requires forall y :: Next(t, y) == Next(t', y)
    ensures Reaches(t, a, x) <==> Reaches(t', a, x)
    ensures SameChain(t, a, x) <==> SameChain(t', a, x)
  {
    forall y: Id, n: nat ensures Hop(t, y, n) == Hop(t', y, n) { HopSameLinks(t, t', y, n); }
  }

  /** Chain revocation touches rows of one user only, and repeating it changes nothing. */
  lemma ChainRevocationIsLocalAndIdempotent(t: Table, a: Id, now: Time, later: Time)
    requires Sound(t) && a in t
    ensures var t' := RevokeRows(t, Closure(t, a), now);
            && (forall x :: x in t && t[x].userId != t[a].userId ==> t'[x] == t[x])
            && RevokeRows(t', Closure(t', a), later) == t'
  {
    var t' := RevokeRows(t, Closure(t, a), now);
    RevokeKeepsLinks(t, Closure(t, a), now);
    forall x | x in t && t[x].userId != t[a].userId ensures x !in Closure(t, a) {
      if SameChain(t, a, x) { ChainsHomogeneous(t, a, x); }
    }
    forall x | x in t ensures x in Closure(t', a) <==> x in Closure(t, a) {
      SameChainSameLinks(t, t', a, x);
    }
    assert RevokeRows(t', Closure(t', a), later) == t';
  }
}
