/** Every step of the protocol keeps its invariant. */
module ProtocolInvariant {
  import opened Types
  import opened Chains
  import opened Tables
  import opened Protocol

  lemma CallFacts(s: Sys, c: CallId)
    requires CallsOk(s) && c in s.calls
    ensures c in s.used && c !in s.grants && PhaseOk(s, s.calls[c])
  {
  }

  lemma UnusedFacts(s: Sys, c: CallId)
    requires CallsOk(s) && GrantsOk(s) && c !in s.used
    ensures c !in s.calls && c !in s.grants
  {
  }

  // ----- writes that add rows or revocations and touch no link -----

  ghost predicate Grows(t: Table, t': Table) {
    && (forall x :: x in t ==> x in t')
    && (forall x :: Next(t', x) == Next(t, x))
    && (forall x :: x in t ==> t'[x].userId == t[x].userId && t'[x].device == t[x].device)
    && (forall x :: Revoked(t, x) ==> Revoked(t', x))
  }

  lemma GrowsKeepsPreds(t: Table, t': Table)
    requires Grows(t, t')
    ensures forall x :: HasPred(t', x) <==> HasPred(t, x)
    ensures forall x :: Isolated(t', x) <==> Isolated(t, x)
  {
  }

  lemma GrowsKeepsCalls(s: Sys, t': Table)
    requires CallsOk(s) && Grows(s.tokens, t')
    ensures CallsOk(s.(tokens := t'))
  {
  }

  lemma GrowsKeepsHistory(s: Sys, t': Table)
    requires LostOk(s) && GrantsOk(s) && Grows(s.tokens, t')
    ensures LostOk(s.(tokens := t')) && GrantsOk(s.(tokens := t'))
  {
  }

  lemma GrowsKeepsHeads(s: Sys, t': Table, id: Id)
    requires HeadsAccounted(s) && Grows(s.tokens, t') && id in s.tokens && !HasPred(t', id)
    ensures Accounted(s.(tokens := t'), id)
  {
  }

  lemma RevokeGrows(t: Table, ids: set<Id>, now: Time)
    ensures Grows(t, RevokeRows(t, ids, now))
  {
  }

  lemma RevocationKeepsInv(s: Sys, ids: set<Id>, now: Time)
    requires Inv(s)
    ensures Inv(s.(tokens := RevokeRows(s.tokens, ids, now)))
  {
    var t' := RevokeRows(s.tokens, ids, now);
    RevokeKeepsSound(s.tokens, ids, now);
    RevokeGrows(s.tokens, ids, now);
    GrowsKeepsCalls(s, t');
    GrowsKeepsHistory(s, t');
    forall id | id in t' && !HasPred(t', id) ensures Accounted(s.(tokens := t'), id) {
      GrowsKeepsHeads(s, t', id);
    }
  }

  // ----- steps that move one call to another phase -----

  /** `s'` differs from `s` only in call `c`. */
  ghost predicate MovesCall(s: Sys, s': Sys, c: CallId) {
    && s' == s.(calls := s'.calls, used := s'.used)
    && c in s'.used && c !in s.grants
    && (forall d :: d in s.used ==> d in s'.used)
    && (forall d :: d != c ==> (d in s'.calls <==> d in s.calls))
    && (forall d :: d != c && d in s.calls ==> s'.calls[d] == s.calls[d])
    && (c in s'.calls ==> PhaseOk(s, s'.calls[c]))
  }

  lemma MoveKeepsCalls(s: Sys, s': Sys, c: CallId)
    requires CallsOk(s) && MovesCall(s, s', c)
    ensures CallsOk(s')
  {
  }

  lemma MoveKeepsHistory(s: Sys, s': Sys, c: CallId)
    requires LostOk(s) && GrantsOk(s) && MovesCall(s, s', c)
    ensures LostOk(s') && GrantsOk(s')
  {
  }

  /** The call keeps the new token it holds, pending or linked, if any. */
  ghost predicate KeepsNewId(s: Sys, s': Sys, c: CallId) {
    && (c in s'.calls && NewIdOf(s'.calls[c]).Some? ==> c in s.calls && NewIdOf(s.calls[c]) == NewIdOf(s'.calls[c]))
    && (c in s.calls && Pending(s.calls[c]) ==>
           c in s'.calls && Pending(s'.calls[c]) && s'.calls[c].newId == s.calls[c].newId)
  }

  lemma MoveKeepsHeads(s: Sys, s': Sys, c: CallId)
    requires HeadsAccounted(s) && MovesCall(s, s', c) && KeepsNewId(s, s', c)
    ensures HeadsAccounted(s')
  {
  }

  lemma MoveKeepsInv(s: Sys, s': Sys, c: CallId)
    requires Inv(s) && MovesCall(s, s', c) && KeepsNewId(s, s', c)
    ensures Inv(s')
  {
    MoveKeepsCalls(s, s', c);
    MoveKeepsHistory(s, s', c);
    MoveKeepsHeads(s, s', c);
  }

  // ----- inserting a row -----

  lemma InsertGrows(t: Table, tok: RefreshToken)
    requires tok.id !in t && tok.replacedBy.None?
    ensures Grows(t, Insert(t, tok))
  {
  }

  lemma CreatedPhaseOk(ttl: Time, s: Sys, c: CallId, id: Id, hash: Hash, now: Time)
    requires Inv(s) && Enabled(s, Create(c, id, hash, now))
    ensures var s' := Apply(ttl, s, Create(c, id, hash, now));
            && Sound(s'.tokens) && Grows(s.tokens, s'.tokens)
            && MovesCall(s.(tokens := s'.tokens), s', c)
  {
    var s' := Apply(ttl, s, Create(c, id, hash, now));
    var tok := s.calls[c].tok;
    var s1 := s.(tokens := s'.tokens);
    InsertKeepsSound(s.tokens, id, tok.userId, hash, DeviceOf(tok), now, ttl);
    InsertGrows(s.tokens, NewToken(id, tok.userId, hash, DeviceOf(tok), now, ttl));
    FreshIsUnknown(s, id);
    assert Snapshot(s, tok) by { assert PhaseOk(s, s.calls[c]); }
    assert forall x :: HandedOut(s1, x) <==> HandedOut(s, x);
    assert PhaseOk(s1, s'.calls[c]);
  }

  lemma CreateHeads(ttl: Time, s: Sys, c: CallId, id: Id, hash: Hash, now: Time)
    requires HeadsAccounted(s) && Enabled(s, Create(c, id, hash, now))
    requires Grows(s.tokens, Apply(ttl, s, Create(c, id, hash, now)).tokens)
    ensures HeadsAccounted(Apply(ttl, s, Create(c, id, hash, now)))
  {
    var s' := Apply(ttl, s, Create(c, id, hash, now));
    assert c in s'.calls && Pending(s'.calls[c]) && s'.calls[c].newId == id;
    forall x | x in s'.tokens && !HasPred(s'.tokens, x) ensures Accounted(s', x) {
      if x != id {
        GrowsKeepsPreds(s.tokens, s'.tokens);
        assert Accounted(s, x);
        if d :| d in s.calls && Pending(s.calls[d]) && s.calls[d].newId == x {
          assert d in s'.calls && Pending(s'.calls[d]) && s'.calls[d].newId == x;
        }
      }
    }
  }

  lemma CreateKeepsInv(ttl: Time, s: Sys, c: CallId, id: Id, hash: Hash, now: Time)
    requires Inv(s) && Enabled(s, Create(c, id, hash, now))
    ensures Inv(Apply(ttl, s, Create(c, id, hash, now)))
  {
    hide Sound, CallsOk, LostOk, GrantsOk, HeadsAccounted;
    var s' := Apply(ttl, s, Create(c, id, hash, now));
    var s1 := s.(tokens := s'.tokens);
    CreatedPhaseOk(ttl, s, c, id, hash, now);
    GrowsKeepsCalls(s, s'.tokens);
    GrowsKeepsHistory(s, s'.tokens);
    MoveKeepsCalls(s1, s', c);
    MoveKeepsHistory(s1, s', c);
    CreateHeads(ttl, s, c, id, hash, now);
    FreshIsUnknown(s, id);
    assert OwnersExist(s') by { CallFacts(s, c); }
  }

  /** An id outside the table is in no history and held by no call. */
  lemma FreshIsUnknown(s: Sys, id: Id)
    requires CallsOk(s) && LostOk(s) && GrantsOk(s) && id !in s.tokens
    ensures id !in s.lost && !HandedOut(s, id)
    ensures forall d :: d in s.calls ==> NewIdOf(s.calls[d]) != Some(id)
  {
  }

  // ----- granting a session -----

  /** What a grant to call `c` of a token nobody holds needs and keeps. */
  lemma GrantKeepsInv(s: Sys, s': Sys, c: CallId, g: Grant)
    requires CallsOk(s) && NewIdsDistinct(s) && LostOk(s) && GrantsOk(s)
    requires c in s.calls && s' == s.(calls := s.calls - {c}, grants := s.grants[c := g])
    requires GrantOk(s, g) && !HandedOut(s, g.token) && g.token !in s.lost
    requires forall d :: d in s.calls && d != c ==> NewIdOf(s.calls[d]) != Some(g.token)
    ensures CallsOk(s') && NewIdsDistinct(s') && LostOk(s') && GrantsOk(s')
  {
    forall id | HandedOut(s', id) ensures HandedOut(s, id) || id == g.token {
      var d :| d in s'.grants && s'.grants[d].token == id;
      assert d != c ==> d in s.grants;
    }
    forall id | HandedOut(s, id) ensures HandedOut(s', id) {
      var d :| d in s.grants && s.grants[d].token == id;
      assert d in s'.grants && s'.grants[d] == s.grants[d];
    }
    forall d | d in s'.calls ensures d in s'.used && d !in s'.grants && PhaseOk(s', s'.calls[d]) {
      assert PhaseOk(s, s.calls[d]);
    }
    GrantKeepsGrants(s, s', c, g);
  }

  lemma GrantKeepsGrants(s: Sys, s': Sys, c: CallId, g: Grant)
    requires GrantsOk(s) && c in s.used && c !in s.grants
    requires s' == s.(calls := s.calls - {c}, grants := s.grants[c := g])
    requires GrantOk(s, g) && !HandedOut(s, g.token)
    ensures GrantsOk(s')
  {
  }

  lemma ReturnKeepsInv(ttl: Time, s: Sys, c: CallId)
    requires Inv(s) && Enabled(s, Return(c))
    ensures Inv(Apply(ttl, s, Return(c)))
  {
    hide Sound, CallsOk, LostOk, GrantsOk;
    var s' := Apply(ttl, s, Return(c));
    CallFacts(s, c);
    GrantKeepsInv(s, s', c, s'.grants[c]);
    forall id | id in s'.tokens && !HasPred(s'.tokens, id) ensures Accounted(s', id) {
      assert Accounted(s, id);
      HistoryOnlyGrows(s, s', c, id);
    }
  }

  /** A grant to a call with nothing pending leaves every accounted token accounted for. */
  lemma HistoryOnlyGrows(s: Sys, s': Sys, c: CallId, id: Id)
    requires Accounted(s, id) && s'.lost == s.lost && c !in s.grants
    requires c in s.calls && !Pending(s.calls[c])
    requires s'.calls == s.calls - {c} && s'.grants.Keys == s.grants.Keys + {c}
    requires forall d :: d in s.grants ==> s'.grants[d] == s.grants[d]
    ensures Accounted(s', id)
  {
    if d :| d in s.calls && Pending(s.calls[d]) && s.calls[d].newId == id {
      assert d in s'.calls && Pending(s'.calls[d]) && s'.calls[d].newId == id;
    } else if d :| d in s.grants && s.grants[d].presented.None? && s.grants[d].token == id {
      assert d in s'.grants && s'.grants[d].presented.None? && s'.grants[d].token == id;
    }
  }

  lemma LoginCreateKeepsInv(ttl: Time, s: Sys, c: CallId, id: Id, hash: Hash, device: string, now: Time)
    requires Inv(s) && Enabled(s, LoginCreate(c, id, hash, device, now))
    ensures Inv(Apply(ttl, s, LoginCreate(c, id, hash, device, now)))
  {
    hide Sound, CallsOk, LostOk, GrantsOk, HeadsAccounted;
    var s' := Apply(ttl, s, LoginCreate(c, id, hash, device, now));
    var s1 := s.(tokens := s'.tokens);
    var user := s.calls[c].user;
    InsertKeepsSound(s.tokens, id, user, hash, device, now, ttl);
    InsertGrows(s.tokens, NewToken(id, user, hash, device, now, ttl));
    GrowsKeepsCalls(s, s'.tokens);
    GrowsKeepsHistory(s, s'.tokens);
    FreshIsUnknown(s, id);
    CallFacts(s, c);
    assert !HandedOut(s1, id);
    assert GrantOk(s1, s'.grants[c]);
    GrantKeepsInv(s1, s', c, s'.grants[c]);
    LoginHeads(s, s', c, id);
    assert OwnersExist(s') by { CallFacts(s, c); }
  }

  lemma LoginHeads(s: Sys, s': Sys, c: CallId, id: Id)
    requires HeadsAccounted(s) && Grows(s.tokens, s'.tokens) && s'.tokens.Keys == s.tokens.Keys + {id}
    requires c in s.calls && !Pending(s.calls[c]) && c !in s.grants && s'.lost == s.lost
    requires c in s'.grants && s'.grants[c].presented.None? && s'.grants[c].token == id
    requires s'.calls == s.calls - {c} && s'.grants == s.grants[c := s'.grants[c]]
    ensures HeadsAccounted(s')
  {
    GrowsKeepsPreds(s.tokens, s'.tokens);
    forall x | x in s'.tokens && !HasPred(s'.tokens, x) ensures Accounted(s', x) {
      if x != id {
        assert Accounted(s, x);
        HistoryOnlyGrows(s, s', c, x);
      }
    }
  }

  // ----- the replace step and its loser -----

  lemma PredsAfterLink(t: Table, t': Table, prev: Id, succ: Id)
    requires AddsLink(t, t', prev, succ)
    ensures forall x :: HasPred(t', x) <==> HasPred(t, x) || x == succ
    ensures forall x :: x != prev && x != succ && Isolated(t, x) ==> Isolated(t', x)
  {
  }

  ghost predicate LinkStep(s: Sys, s': Sys, c: CallId) {
    && c in s.calls && s.calls[c].Created?
    && var tok, newId := s.calls[c].tok, s.calls[c].newId;
    && s' == s.(tokens := s'.tokens, calls := s.calls[c := Linked(tok, newId)])
    && AddsLink(s.tokens, s'.tokens, tok.id, newId)
    && (forall x :: x in s.tokens ==>
           s'.tokens[x].userId == s.tokens[x].userId && s'.tokens[x].device == s.tokens[x].device)
    && (forall x :: Revoked(s.tokens, x) ==> Revoked(s'.tokens, x))
    && HandedOut(s, tok.id) && !HandedOut(s, newId)
  }

  lemma LinkKeepsCalls(s: Sys, s': Sys, c: CallId)
    requires CallsOk(s) && NewIdsDistinct(s) && LinkStep(s, s', c)
    ensures CallsOk(s')
  {
    PredsAfterLink(s.tokens, s'.tokens, s.calls[c].tok.id, s.calls[c].newId);
    assert forall id :: HandedOut(s', id) <==> HandedOut(s, id);
    forall d | d in s'.calls ensures PhaseOk(s', s'.calls[d]) {
      assert PhaseOk(s, s.calls[d]);
      assert d != c ==> NewIdOf(s.calls[d]) != NewIdOf(s.calls[c]);
    }
  }

  lemma LinkKeepsHistory(s: Sys, s': Sys, c: CallId)
    requires LostOk(s) && GrantsOk(s) && LinkStep(s, s', c) && s.calls[c].newId !in s.lost
    ensures LostOk(s') && GrantsOk(s')
  {
  }

  lemma LinkKeepsHeads(s: Sys, s': Sys, c: CallId)
    requires HeadsAccounted(s) && LinkStep(s, s', c)
    ensures HeadsAccounted(s')
  {
    PredsAfterLink(s.tokens, s'.tokens, s.calls[c].tok.id, s.calls[c].newId);
    forall id | id in s'.tokens && !HasPred(s'.tokens, id) ensures Accounted(s', id) {
      assert Accounted(s, id);
      if d :| d in s.calls && Pending(s.calls[d]) && s.calls[d].newId == id {
        assert d in s'.calls && Pending(s'.calls[d]) && s'.calls[d].newId == id;
      }
    }
  }

  lemma ReplaceKeepsInv(ttl: Time, s: Sys, c: CallId, now: Time)
    requires Inv(s) && Enabled(s, Replace(c, now))
    ensures Inv(Apply(ttl, s, Replace(c, now)))
  {
    hide Sound, CallsOk, LostOk, GrantsOk, HeadsAccounted;
    var s' := Apply(ttl, s, Replace(c, now));
    var tok, newId := s.calls[c].tok, s.calls[c].newId;
    CallFacts(s, c);
    if Replaceable(s.tokens, tok.id) {
      LinkKeepsSound(s.tokens, tok.id, newId, now);
      LinkKeepsCalls(s, s', c);
      LinkKeepsHistory(s, s', c);
      LinkKeepsHeads(s, s', c);
    } else {
      MoveKeepsInv(s, s', c);
    }
  }

  lemma RevokeLoserKeepsInv(ttl: Time, s: Sys, c: CallId, now: Time)
    requires Inv(s) && Enabled(s, RevokeLoser(c, now))
    ensures Inv(Apply(ttl, s, RevokeLoser(c, now)))
  {
    var s' := Apply(ttl, s, RevokeLoser(c, now));
    var newId := s.calls[c].newId;
    var s1 := s.(tokens := s'.tokens);
    RevocationKeepsInv(s, {newId}, now);
    assert PhaseOk(s1, s1.calls[c]);
    LoserKeepsCalls(s1, s', c);
    LoserKeepsHeads(s1, s', c);
    assert GrantsOk(s') by {
      forall d | d in s'.grants ensures GrantOk(s', s'.grants[d]) { assert GrantOk(s1, s1.grants[d]); }
    }
  }

  ghost predicate LoserStep(s: Sys, s': Sys, c: CallId) {
    && c in s.calls && s.calls[c].Lost?
    && s' == s.(calls := s.calls - {c}, lost := s.lost + {s.calls[c].newId})
  }

  lemma LoserKeepsCalls(s: Sys, s': Sys, c: CallId)
    requires CallsOk(s) && NewIdsDistinct(s) && LostOk(s) && LoserStep(s, s', c)
    requires Revoked(s.tokens, s.calls[c].newId)
    ensures CallsOk(s') && NewIdsDistinct(s') && LostOk(s')
  {
    assert forall id :: HandedOut(s', id) <==> HandedOut(s, id);
    assert PhaseOk(s, s.calls[c]);
    forall d | d in s'.calls ensures PhaseOk(s', s'.calls[d]) {
      assert PhaseOk(s, s.calls[d]);
      assert NewIdOf(s.calls[d]) != NewIdOf(s.calls[c]);
    }
  }

  lemma LoserKeepsHeads(s: Sys, s': Sys, c: CallId)
    requires HeadsAccounted(s) && LoserStep(s, s', c)
    ensures HeadsAccounted(s')
  {
    forall id | id in s'.tokens && !HasPred(s'.tokens, id) ensures Accounted(s', id) {
      assert Accounted(s, id);
      if d :| d in s.calls && Pending(s.calls[d]) && s.calls[d].newId == id {
        assert d != c ==> d in s'.calls && Pending(s'.calls[d]) && s'.calls[d].newId == id;
      }
    }
  }

  // ----- all steps -----

  lemma UsersKeepInv(s: Sys, users': map<Id, Status>)
    requires Inv(s) && forall u :: u in s.users ==> u in users'
    ensures Inv(s.(users := users'))
  {
    var s' := s.(users := users');
    assert forall id :: HandedOut(s', id) <==> HandedOut(s, id);
    forall c | c in s'.calls ensures PhaseOk(s', s'.calls[c]) { assert PhaseOk(s, s.calls[c]); }
    forall c | c in s'.grants ensures GrantOk(s', s'.grants[c]) { assert GrantOk(s, s.grants[c]); }
    forall id | id in s'.tokens && !HasPred(s'.tokens, id) ensures Accounted(s', id) { assert Accounted(s, id); }
  }

  lemma EndKeepsInv(s: Sys, c: CallId)
    requires Inv(s) && c in s.calls && !Pending(s.calls[c])
    ensures Inv(s.(calls := s.calls - {c}))
  {
    MoveKeepsInv(s, s.(calls := s.calls - {c}), c);
  }

  lemma PresentKeepsInv(ttl: Time, s: Sys, c: CallId, id: Id, now: Time)
    requires Inv(s) && Enabled(s, Present(c, id, now))
    ensures Inv(Apply(ttl, s, Present(c, id, now)))
  {
    hide CallsOk, LostOk, GrantsOk, HeadsAccounted;
    assert Snapshot(s, s.tokens[id]) by { assert RowsKeyed(s.tokens); }
    UnusedFacts(s, c);
    MoveKeepsInv(s, Apply(ttl, s, Present(c, id, now)), c);
  }

  /** Every step of every call keeps the invariant. */
  lemma StepKeepsInv(ttl: Time, s: Sys, step: Step)
    requires Inv(s) && Enabled(s, step)
    ensures Inv(Apply(ttl, s, step))
  {
    hide Sound, CallsOk, LostOk, GrantsOk, HeadsAccounted, OwnersExist, NewIdsDistinct, RevokeRows, Closure;
    match step
    case Present(c, id, now) => PresentKeepsInv(ttl, s, c, id, now);
    case CheckUser(c) => CallFacts(s, c); MoveKeepsInv(s, Apply(ttl, s, step), c);
    case RevokeBarred(c, now) =>
      EndKeepsInv(s, c);
      RevocationKeepsInv(s.(calls := s.calls - {c}), {s.calls[c].tok.id}, now);
    case RevokeChain(c, now) =>
      EndKeepsInv(s, c);
      RevocationKeepsInv(s.(calls := s.calls - {c}), Closure(s.tokens, s.calls[c].tok.id), now);
    case Create(c, id, hash, now) => CreateKeepsInv(ttl, s, c, id, hash, now);
    case Replace(c, now) => ReplaceKeepsInv(ttl, s, c, now);
    case RevokeLoser(c, now) => RevokeLoserKeepsInv(ttl, s, c, now);
    case Return(c) => ReturnKeepsInv(ttl, s, c);
    case LoginRead(c, user) => UnusedFacts(s, c); MoveKeepsInv(s, Apply(ttl, s, step), c);
    case LoginCreate(c, id, hash, device, now) => LoginCreateKeepsInv(ttl, s, c, id, hash, device, now);
    case Revoke(id, now) => RevocationKeepsInv(s, {id}, now);
    case RevokeUser(user, except, now) => RevocationKeepsInv(s, UserRows(s.tokens, user, except), now);
    case SetStatus(user, status) => UsersKeepInv(s, s.users[user := status]);
    case AddUser(user) => UsersKeepInv(s, s.users[user := Active]);
  }

  lemma {:induction false} RunKeepsInv(ttl: Time, ss: seq<Sys>, steps: seq<Step>, i: nat)
    requires IsPath(ttl, ss, steps) && Inv(ss[0]) && i < |ss|
    ensures Inv(ss[i])
    decreases i
  {
    if i > 0 {
      RunKeepsInv(ttl, ss, steps, i - 1);
      StepKeepsInv(ttl, ss[i - 1], steps[i - 1]);
    }
  }

  /** Every reachable state satisfies the invariant. */
  lemma ReachableInv(ttl: Time, ss: seq<Sys>, steps: seq<Step>, i: nat)
    requires IsRun(ttl, ss, steps) && i < |ss|
    ensures Inv(ss[i])
  {
    assert Acyclic(INITIAL.tokens);
    RunKeepsInv(ttl, ss, steps, i);
  }
}
