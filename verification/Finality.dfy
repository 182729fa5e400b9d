/**
 Is revocation final when calls interleave? A `Refresh` that read its token before the revocation
 can still link a live successor, because the replace guard looks at `replaced_by` only. This
 module states exactly when a dead chain can come back to life.
 */
module Finality {
  import opened Types
  import opened Chains
  import opened Tables
  import opened Protocol
  import opened ProtocolInvariant
  import opened ProtocolTiming

  /** The call read the last token of the chain of `a` before its revocation and may yet link a live token to it. */
  ghost predicate MayRevive(s: Sys, a: Id, p: Phase) {
    && (p.Looked? || p.Admitted? || (p.Created? && !Revoked(s.tokens, p.newId)))
    && Next(s.tokens, p.tok.id).None?
    && SameChain(s.tokens, a, p.tok.id)
  }

  ghost predicate Revivable(s: Sys, a: Id) {
    exists c :: c in s.calls && MayRevive(s, a, s.calls[c])
  }

  /** Dead, and no call in flight can change that. */
  ghost predicate Final(s: Sys, a: Id) {
    a in s.tokens && ChainDead(s.tokens, a) && !Revivable(s, a)
  }

  // ----- without such a call, dead is final -----

  /** Chains read the links only; a table with the same links and more rows and revocations has the same chains. */
  lemma GrowsKeepsChain(t: Table, t': Table, a: Id)
    requires Sound(t) && Grows(t, t') && a in t && ChainDead(t, a)
    ensures ChainDead(t', a)
    ensures forall x :: SameChain(t', a, x) <==> SameChain(t, a, x)
  {
    forall x: Id ensures SameChain(t', a, x) <==> SameChain(t, a, x) {
      SameChainSameLinks(t, t', a, x);
    }
    forall x | x in t' && SameChain(t', a, x) ensures Revoked(t', x) {
      ChainInTable(t, a, x);
    }
  }

  /** A call that could revive the chain after the step could do so before it. */
  lemma MayReviveBackwards(s: Sys, s': Sys, a: Id, p: Phase, p': Phase)
    requires Sound(s.tokens) && Grows(s.tokens, s'.tokens) && a in s.tokens && ChainDead(s.tokens, a)
    requires MayRevive(s', a, p') && (p == p' || ((p.Looked? || p.Admitted?) && p.tok == p'.tok))
    ensures MayRevive(s, a, p)
  {
    GrowsKeepsChain(s.tokens, s'.tokens, a);
  }

  lemma ReachesAfterLink(t: Table, t': Table, prev: Id, succ: Id, a: Id, x: Id)
    requires AddsLink(t, t', prev, succ)
    ensures Reaches(t', a, x) <==> Reaches(t, a, x) || (x == succ && Reaches(t, a, prev))
  {
    if Reaches(t', a, x) {
      var n: nat :| Hop(t', a, n) == Some(x);
      HopsAfterLink(t, t', prev, succ, a, n);
    }
    if Reaches(t, a, x) {
      var n: nat :| Hop(t, a, n) == Some(x);
      HopsAfterLink(t, t', prev, succ, a, n);
    }
    if x == succ && Reaches(t, a, prev) {
      var n: nat :| Hop(t, a, n) == Some(prev);
      HopAdd(t, a, n, 1);
      assert Hop(t, prev, 1).None?;
      HopsAfterLink(t, t', prev, succ, a, n + 1);
    }
  }

  /** The new link extends the chain of `prev` by `succ` and leaves every other chain alone. */
  lemma ChainAfterLink(t: Table, t': Table, prev: Id, succ: Id, a: Id, x: Id)
    requires AddsLink(t, t', prev, succ) && a != succ
    ensures SameChain(t', a, x) <==> SameChain(t, a, x) || (x == succ && SameChain(t, a, prev))
  {
    ReachesAfterLink(t, t', prev, succ, a, x);
    ReachesAfterLink(t, t', prev, succ, x, a);
    if Reaches(t, prev, a) { TailReachesOnlyItself(t, prev, a); assert Hop(t, a, 0) == Some(a); }
    if Reaches(t, succ, a) { TailReachesOnlyItself(t, succ, a); }
  }

  /** The chain of the newly linked token: its new ancestors, all replaced, and the token itself. */
  lemma ChainOfNewTail(t: Table, t': Table, prev: Id, succ: Id, x: Id)
    requires AddsLink(t, t', prev, succ)
    ensures SameChain(t', succ, x) <==> x == succ || Reaches(t, x, prev)
    ensures Reaches(t, x, prev) ==> Next(t', x).Some?
  {
    ReachesAfterLink(t, t', prev, succ, succ, x);
    ReachesAfterLink(t, t', prev, succ, x, succ);
    assert Hop(t, succ, 0) == Some(succ);
    if Reaches(t, succ, x) { TailReachesOnlyItself(t, succ, x); }
    if Reaches(t, succ, prev) { TailReachesOnlyItself(t, succ, prev); }
    if n: nat :| Hop(t, x, n) == Some(succ) {
      if n > 0 { HopLast(t, x, n - 1); }
    }
  }

  /** Linking a token revoked while it was pending brings no chain to life. */
  lemma RevokedTailDead(t: Table, t': Table, prev: Id, succ: Id)
    requires AddsLink(t, t', prev, succ) && ReplacedIsRevoked(t') && Revoked(t', succ)
    ensures ChainDead(t', succ)
    ensures forall x :: SameChain(t', succ, x) && Next(t', x).None? ==> x == succ
  {
    hide SameChain, Reaches;
    forall x: Id ensures SameChain(t', succ, x) ==> x == succ || Next(t', x).Some? {
      ChainOfNewTail(t, t', prev, succ, x);
    }
  }

  lemma RevokedPendingKeepsFinal(ttl: Time, s: Sys, c: CallId, now: Time)
    requires Inv(s) && Enabled(s, Replace(c, now)) && Replaceable(s.tokens, s.calls[c].tok.id)
    requires Final(s, s.calls[c].newId)
    ensures Final(Apply(ttl, s, Replace(c, now)), s.calls[c].newId)
  {
    hide Sound, GrantsOk, LostOk, HeadsAccounted, NewIdsDistinct, CallsOk, SameChain;
    var s' := Apply(ttl, s, Replace(c, now));
    var tok, newId := s.calls[c].tok, s.calls[c].newId;
    CallFacts(s, c);
    LinkKeepsSound(s.tokens, tok.id, newId, now);
    SoundRetires(s'.tokens);
    SelfInChain(s.tokens, newId);
    hide ChainDead, ReplacedIsRevoked;
    RevokedTailDead(s.tokens, s'.tokens, tok.id, newId);
    forall d | d in s'.calls ensures !MayRevive(s', newId, s'.calls[d]) {
      CallFacts(s, d);
    }
  }

  lemma SoundRetires(t: Table)
    requires Sound(t)
    ensures ReplacedIsRevoked(t)
  {
  }

  lemma SelfInChain(t: Table, a: Id)
    requires a in t && ChainDead(t, a)
    ensures Revoked(t, a)
  {
    assert Hop(t, a, 0) == Some(a);
  }

  lemma ReplaceKeepsFinal(ttl: Time, s: Sys, c: CallId, now: Time, a: Id)
    requires Inv(s) && Enabled(s, Replace(c, now)) && Final(s, a)
    ensures Final(Apply(ttl, s, Replace(c, now)), a)
  {
    hide Sound, GrantsOk, LostOk, HeadsAccounted, NewIdsDistinct, SameChain;
    var s' := Apply(ttl, s, Replace(c, now));
    var tok, newId := s.calls[c].tok, s.calls[c].newId;
    CallFacts(s, c);
    if Replaceable(s.tokens, tok.id) && a == newId {
      RevokedPendingKeepsFinal(ttl, s, c, now);
    } else if Replaceable(s.tokens, tok.id) {
      LinkKeepsSound(s.tokens, tok.id, newId, now);
      forall x: Id
        ensures SameChain(s'.tokens, a, x) <==>
                SameChain(s.tokens, a, x) || (x == newId && SameChain(s.tokens, a, tok.id))
      {
        ChainAfterLink(s.tokens, s'.tokens, tok.id, newId, a, x);
      }
      assert SameChain(s.tokens, a, tok.id) ==> Revoked(s.tokens, newId) by {
        assert !MayRevive(s, a, s.calls[c]);
      }
      forall d | d in s'.calls ensures !MayRevive(s', a, s'.calls[d]) {
        CallFacts(s, d);
        assert !MayRevive(s, a, s.calls[d]);
      }
    } else {
      forall d | d in s'.calls ensures !MayRevive(s', a, s'.calls[d]) {
        assert d != c ==> !MayRevive(s, a, s.calls[d]);
      }
    }
  }

  /** `s'` has the calls of `s`, some of them over, and at most the given call one phase further. */
  ghost predicate Advances(s: Sys, s': Sys, caller: Option<CallId>) {
    && Grows(s.tokens, s'.tokens)
    && (forall d :: d in s'.calls && Some(d) != caller ==> d in s.calls && s'.calls[d] == s.calls[d])
  }

  lemma AdvanceKeepsFinal(s: Sys, s': Sys, a: Id, caller: Option<CallId>)
    requires Sound(s.tokens) && Final(s, a) && Advances(s, s', caller)
    requires forall c :: caller == Some(c) && c in s'.calls ==> !MayRevive(s', a, s'.calls[c])
    ensures Final(s', a)
  {
    hide Sound, SameChain, MayRevive;
    GrowsKeepsChain(s.tokens, s'.tokens, a);
    forall d | d in s'.calls ensures !MayRevive(s', a, s'.calls[d]) {
      if Some(d) != caller && MayRevive(s', a, s'.calls[d]) {
        MayReviveBackwards(s, s', a, s.calls[d], s'.calls[d]);
      }
    }
  }

  lemma StepAdvances(ttl: Time, s: Sys, step: Step)
    requires CallsOk(s) && Enabled(s, step) && !step.Replace?
    ensures Advances(s, Apply(ttl, s, step), CallerOf(step))
  {
    hide CallsOk;
    match step
    case Create(c, id, hash, now) =>
      InsertGrows(s.tokens, NewToken(id, s.calls[c].tok.userId, hash, DeviceOf(s.calls[c].tok), now, ttl));
    case LoginCreate(c, id, hash, device, now) =>
      CallFacts(s, c);
      InsertGrows(s.tokens, NewToken(id, s.calls[c].user, hash, device, now, ttl));
    case RevokeBarred(c, now) => RevokeGrows(s.tokens, {s.calls[c].tok.id}, now);
    case RevokeChain(c, now) => RevokeGrows(s.tokens, Closure(s.tokens, s.calls[c].tok.id), now);
    case RevokeLoser(c, now) => RevokeGrows(s.tokens, {s.calls[c].newId}, now);
    case Revoke(id, now) => RevokeGrows(s.tokens, {id}, now);
    case RevokeUser(user, except, now) => RevokeGrows(s.tokens, UserRows(s.tokens, user, except), now);
    case Return(c) => CallFacts(s, c);
    case _ =>
  }

  /** The moved call reads only an active token, which a dead chain does not have, or goes on with what it held. */
  lemma MovedCallRevivesNothing(ttl: Time, s: Sys, step: Step, a: Id)
    requires Sound(s.tokens) && Enabled(s, step) && Final(s, a) && !step.Replace?
    requires Advances(s, Apply(ttl, s, step), CallerOf(step))
    ensures var s' := Apply(ttl, s, step);
            forall c :: CallerOf(step) == Some(c) && c in s'.calls ==> !MayRevive(s', a, s'.calls[c])
  {
    hide Linear, SameChain, Grows, RevokeRows, Closure, UserRows, NewToken;
    var s' := Apply(ttl, s, step);
    if CallerOf(step).Some? && !step.Present? {
      var c := step.c;
      if c in s'.calls && MayRevive(s', a, s'.calls[c]) && c in s.calls {
        MayReviveBackwards(s, s', a, s.calls[c], s'.calls[c]);
      }
    }
  }

  /** Every step keeps a final chain final. */
  lemma StepKeepsFinal(ttl: Time, s: Sys, step: Step, a: Id)
    requires Inv(s) && Enabled(s, step) && Final(s, a)
    ensures Final(Apply(ttl, s, step), a)
  {
    hide Sound, GrantsOk, LostOk, HeadsAccounted, CallsOk, NewIdsDistinct, Final, Advances, Apply, MayRevive;
    if step.Replace? {
      ReplaceKeepsFinal(ttl, s, step.c, step.now, a);
    } else {
      StepAdvances(ttl, s, step);
      MovedCallRevivesNothing(ttl, s, step, a);
      AdvanceKeepsFinal(s, Apply(ttl, s, step), a, CallerOf(step));
    }
  }

  // ----- with such a call, some continuation brings the chain back -----

  lemma FreshExists(t: Table) returns (id: Id, hash: Hash)
    ensures FreshToken(t, id, hash)
  {
    id := AboveAll(t.Keys);
    var hashes := set x | x in t :: t[x].hash;
    hash := AboveAll(hashes);
    assert forall x :: x in t ==> t[x].hash in hashes;
  }

  lemma {:induction false} AboveAll(xs: set<nat>) returns (n: nat)
    ensures forall x :: x in xs ==> x < n
    decreases xs
  {
    if xs == {} {
      n := 0;
    } else {
      var y :| y in xs;
      var m := AboveAll(xs - {y});
      n := if m <= y then y + 1 else m;
      assert forall x :: x in xs ==> x == y || x in xs - {y};
    }
  }

  /** A continuation of `s`, as its states and steps, after which the chain of `a` has an unrevoked token. */
  ghost predicate Revives(ttl: Time, s: Sys, a: Id, ss: seq<Sys>, steps: seq<Step>) {
    IsPath(ttl, ss, steps) && ss[0] == s && !ChainDead(ss[|steps|].tokens, a)
  }

  lemma RevivesPrepend(ttl: Time, s: Sys, step: Step, a: Id, ss: seq<Sys>, steps: seq<Step>)
    requires Enabled(s, step) && Revives(ttl, Apply(ttl, s, step), a, ss, steps)
    ensures Revives(ttl, s, a, [s] + ss, [step] + steps)
  {
  }

  lemma ReviveByLinking(ttl: Time, s: Sys, a: Id, c: CallId) returns (ss: seq<Sys>, steps: seq<Step>)
    requires Inv(s) && c in s.calls && s.calls[c].Created? && MayRevive(s, a, s.calls[c])
    ensures Revives(ttl, s, a, ss, steps)
  {
    hide Sound, GrantsOk, LostOk, HeadsAccounted, CallsOk, NewIdsDistinct;
    var tok, newId := s.calls[c].tok, s.calls[c].newId;
    var s' := Apply(ttl, s, Replace(c, 0));
    ss, steps := [s, s'], [Replace(c, 0)];
    CallFacts(s, c);
    LinkKeepsSound(s.tokens, tok.id, newId, 0);
    ChainAfterLink(s.tokens, s'.tokens, tok.id, newId, a, newId);
    assert newId in s'.tokens && !Revoked(s'.tokens, newId);
  }

  lemma ReviveByCreating(ttl: Time, s: Sys, a: Id, c: CallId) returns (ss: seq<Sys>, steps: seq<Step>)
    requires Inv(s) && c in s.calls && s.calls[c].Admitted? && MayRevive(s, a, s.calls[c])
    ensures Revives(ttl, s, a, ss, steps)
  {
    hide Sound, GrantsOk, LostOk, HeadsAccounted, CallsOk, NewIdsDistinct, Revives, SameChain;
    var id, hash := FreshExists(s.tokens);
    var step := Create(c, id, hash, 0);
    var s' := Apply(ttl, s, step);
    StepKeepsInv(ttl, s, step);
    CallFacts(s, c);
    InsertGrows(s.tokens, NewToken(id, s.calls[c].tok.userId, hash, DeviceOf(s.calls[c].tok), 0, ttl));
    SameChainSameLinks(s.tokens, s'.tokens, a, s.calls[c].tok.id);
    ss, steps := ReviveByLinking(ttl, s', a, c);
    RevivesPrepend(ttl, s, step, a, ss, steps);
    ss, steps := [s] + ss, [step] + steps;
  }

  /** The user may be re-enabled, after which the call passes its user check. */
  lemma ReviveByAdmitting(ttl: Time, s: Sys, a: Id, c: CallId) returns (ss: seq<Sys>, steps: seq<Step>)
    requires Inv(s) && c in s.calls && s.calls[c].Looked? && MayRevive(s, a, s.calls[c])
    ensures Revives(ttl, s, a, ss, steps)
  {
    hide Sound, GrantsOk, LostOk, HeadsAccounted, CallsOk, NewIdsDistinct, Revives, SameChain;
    var tok := s.calls[c].tok;
    CallFacts(s, c);
    var s1 := Apply(ttl, s, SetStatus(tok.userId, Active));
    var s2 := Apply(ttl, s1, CheckUser(c));
    StepKeepsInv(ttl, s, SetStatus(tok.userId, Active));
    StepKeepsInv(ttl, s1, CheckUser(c));
    ss, steps := ReviveByCreating(ttl, s2, a, c);
    RevivesPrepend(ttl, s1, CheckUser(c), a, ss, steps);
    RevivesPrepend(ttl, s, SetStatus(tok.userId, Active), a, [s1] + ss, [CheckUser(c)] + steps);
    ss, steps := [s] + ([s1] + ss), [SetStatus(tok.userId, Active)] + ([CheckUser(c)] + steps);
  }

  lemma {:induction false} FinalPersists(ttl: Time, ss: seq<Sys>, steps: seq<Step>, i: nat, a: Id)
    requires IsPath(ttl, ss, steps) && Inv(ss[0]) && Final(ss[0], a) && i < |ss|
    ensures Final(ss[i], a)
    decreases i
  {
    hide Apply, Final, Inv;
    if i > 0 {
      FinalPersists(ttl, ss, steps, i - 1, a);
      RunKeepsInv(ttl, ss, steps, i - 1);
      StepKeepsFinal(ttl, ss[i - 1], steps[i - 1], a);
    }
  }

  /**
   Exactly when revocation is final: a chain whose tokens are all revoked
   gets an unrevoked token in some continuation if and only if some call in flight read its last
   token before the revocation and can still link a live successor.
   */
  lemma RevocationFinalIffNotHeld(ttl: Time, s: Sys, a: Id)
    requires Inv(s) && a in s.tokens && ChainDead(s.tokens, a)
    ensures Revivable(s, a) <==> exists ss: seq<Sys>, steps: seq<Step> :: Revives(ttl, s, a, ss, steps)
  {
    if Revivable(s, a) {
      var c :| c in s.calls && MayRevive(s, a, s.calls[c]);
      var ss, steps;
      if s.calls[c].Looked? {
        ss, steps := ReviveByAdmitting(ttl, s, a, c);
      } else if s.calls[c].Admitted? {
        ss, steps := ReviveByCreating(ttl, s, a, c);
      } else {
        ss, steps := ReviveByLinking(ttl, s, a, c);
      }
    } else {
      forall ss: seq<Sys>, steps: seq<Step> | Revives(ttl, s, a, ss, steps) ensures false {
        FinalPersists(ttl, ss, steps, |steps|, a);
      }
    }
  }

  // ----- a concrete race -----

  /**
   Finality fails on a concrete run: a client logs in and refreshes, and logs out after the
   refresh has looked its token up. All its tokens are revoked, yet the refresh goes on (`more`)
   and leaves the chain with an unrevoked token.
   */
  lemma LogoutRace() returns (ss: seq<Sys>, steps: seq<Step>, more: seq<Sys>, moreSteps: seq<Step>)
    ensures IsRun(1, ss, steps) && |steps| == 5 && steps[4] == Revoke(1, 0)
    ensures ChainDead(ss[5].tokens, 1) && Revivable(ss[5], 1)
    ensures Revives(1, ss[5], 1, more, moreSteps)
  {
    var clocks;
    ss, steps, clocks := LoginAtZero(1, 0);
    assert HandedOut(LoggedInAt(1), 1) by { assert LoggedInAt(1).grants[1].token == 1; }
    var s4 := Apply(1, LoggedInAt(1), Present(2, 1, 0));
    var s5 := Apply(1, s4, Revoke(1, 0));
    PathAppend(1, ss, steps, Present(2, 1, 0));
    PathAppend(1, ss + [s4], steps + [Present(2, 1, 0)], Revoke(1, 0));
    ss, steps := ss + [s4] + [s5], steps + [Present(2, 1, 0)] + [Revoke(1, 0)];
    RaceIsOpen(s4, s5);
    ReachableInv(1, ss, steps, 5);
    more, moreSteps := ReviveByAdmitting(1, s5, 1, 2);
  }

  lemma RaceIsOpen(s4: Sys, s5: Sys)
    requires Enabled(LoggedInAt(1), Present(2, 1, 0))
    requires s4 == Apply(1, LoggedInAt(1), Present(2, 1, 0)) && s5 == Apply(1, s4, Revoke(1, 0))
    ensures ChainDead(s5.tokens, 1) && Revivable(s5, 1)
    ensures 2 in s5.calls && s5.calls[2].Looked? && MayRevive(s5, 1, s5.calls[2])
  {
    var tok := LoggedInAt(1).tokens[1];
    assert s5.tokens == map[1 := tok.(revokedAt := Some(0))];
    assert Hop(s5.tokens, 1, 0) == Some(1);
    assert 2 in s5.calls && s5.calls[2] == Looked(tok, 0) && MayRevive(s5, 1, s5.calls[2]);
  }
}
