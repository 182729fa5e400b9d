/** What the protocol guarantees under every interleaving. */
module ProtocolTheorems {
  import opened Types
  import opened Chains
  import opened Tables
  import opened Counting
  import opened Protocol
  import opened ProtocolInvariant

  // ----- chain shape -----

  /**
   In every reachable state the links form disjoint acyclic lines of existing tokens, replaced
   tokens are revoked, and a chain stays with one user and one device.
   */
  lemma ChainShape(ttl: Time, ss: seq<Sys>, steps: seq<Step>, i: nat, a: Id, b: Id, c: Id)
    requires IsRun(ttl, ss, steps) && i < |ss|
    ensures Linear(ss[i].tokens) && ReplacedIsRevoked(ss[i].tokens)
    ensures SameChain(ss[i].tokens, a, b) && SameChain(ss[i].tokens, b, c) ==> SameChain(ss[i].tokens, a, c)
    ensures a in ss[i].tokens && b in ss[i].tokens && SameChain(ss[i].tokens, a, b) ==>
              ss[i].tokens[a].userId == ss[i].tokens[b].userId && ss[i].tokens[a].device == ss[i].tokens[b].device
  {
    var t := ss[i].tokens;
    ReachableInv(ttl, ss, steps, i);
    ChainsPartition(t, a, b, c);
    if a in t && b in t && SameChain(t, a, b) { ChainsHomogeneous(t, a, b); }
  }

  // ----- single winner -----

  lemma {:induction false} HistoryPersists(ttl: Time, ss: seq<Sys>, steps: seq<Step>, i: nat, j: nat)
    requires IsPath(ttl, ss, steps) && Inv(ss[0]) && i <= j < |ss|
    ensures forall c :: c in ss[i].grants ==> c in ss[j].grants && ss[j].grants[c] == ss[i].grants[c]
    ensures ss[i].lost <= ss[j].lost && ss[i].used <= ss[j].used
    decreases j - i
  {
    hide Apply, Sound, CallsOk, LostOk, GrantsOk, HeadsAccounted;
    if i < j {
      RunKeepsInv(ttl, ss, steps, j - 1);
      HistoryPersists(ttl, ss, steps, i, j - 1);
      StepKeepsHistory(ttl, ss[j - 1], steps[j - 1]);
    }
  }

  lemma StepKeepsHistory(ttl: Time, s: Sys, step: Step)
    requires CallsOk(s) && Enabled(s, step)
    ensures var s' := Apply(ttl, s, step);
            && (forall c :: c in s.grants ==> c in s'.grants && s'.grants[c] == s.grants[c])
            && s.lost <= s'.lost && s.used <= s'.used
  {
    hide RevokeRows, Closure, NewToken, Link, UserRows;
  }

  /** Over any run, at most one refresh presenting a given token returns a session. */
  lemma SingleWinner(ttl: Time, ss: seq<Sys>, steps: seq<Step>, i: nat, j: nat, c: CallId, d: CallId)
    requires IsRun(ttl, ss, steps) && i <= j < |ss| && c in ss[i].grants && d in ss[j].grants
    requires ss[i].grants[c].presented.Some? && ss[i].grants[c].presented == ss[j].grants[d].presented
    ensures c == d
  {
    ReachableInv(ttl, ss, steps, 0);
    ReachableInv(ttl, ss, steps, j);
    HistoryPersists(ttl, ss, steps, i, j);
    var s := ss[j];
    assert GrantOk(s, s.grants[c]) && GrantOk(s, s.grants[d]);
  }

  /** The call lost the replace step: it still has to revoke `newId`, or did so and is over. */
  ghost predicate Losing(s: Sys, c: CallId, newId: Id) {
    && c in s.used && c !in s.grants
    && (c in s.calls ==> s.calls[c].Lost? && s.calls[c].newId == newId)
    && (c !in s.calls ==> newId in s.lost)
  }

  lemma StepKeepsLosing(ttl: Time, s: Sys, step: Step, c: CallId, newId: Id)
    requires CallsOk(s) && Enabled(s, step) && Losing(s, c, newId)
    ensures Losing(Apply(ttl, s, step), c, newId)
  {
    hide RevokeRows, Closure, NewToken, Link, UserRows;
  }

  lemma {:induction false} LosingPersists(ttl: Time, ss: seq<Sys>, steps: seq<Step>, i: nat, j: nat,
                                          c: CallId, newId: Id)
    requires IsRun(ttl, ss, steps) && i <= j < |ss| && Losing(ss[i], c, newId)
    ensures Losing(ss[j], c, newId)
    decreases j - i
  {
    hide Apply, Losing, Sound, CallsOk, LostOk, GrantsOk, HeadsAccounted;
    if i < j {
      LosingPersists(ttl, ss, steps, i, j - 1, c, newId);
      ReachableInv(ttl, ss, steps, j - 1);
      StepKeepsLosing(ttl, ss[j - 1], steps[j - 1], c, newId);
    }
  }

  /**
   From the moment a call loses the race it never returns a session, its new token is in no chain
   and with no client, and once the call has ended that token is revoked.
   */
  lemma LoserNeverLinked(ttl: Time, ss: seq<Sys>, steps: seq<Step>, i: nat, j: nat, c: CallId)
    requires IsRun(ttl, ss, steps) && i <= j < |ss| && c in ss[i].calls && ss[i].calls[c].Lost?
    ensures var n := ss[i].calls[c].newId;
            && Isolated(ss[j].tokens, n) && !HandedOut(ss[j], n)
            && c !in ss[j].grants
            && (c !in ss[j].calls ==> Revoked(ss[j].tokens, n))
  {
    ReachableInv(ttl, ss, steps, i);
    LosingPersists(ttl, ss, steps, i, j, c, ss[i].calls[c].newId);
    ReachableInv(ttl, ss, steps, j);
    if c in ss[j].calls { assert PhaseOk(ss[j], ss[j].calls[c]); }
  }

  // ----- conservation -----

  ghost function LiveTokens(s: Sys, user: Id): set<Id> {
    set id | id in s.tokens && s.tokens[id].userId == user && s.tokens[id].revokedAt.None?
  }

  ghost function LoginsOf(s: Sys, user: Id): set<CallId> {
    set c | c in s.grants && s.grants[c].presented.None? && s.grants[c].user == user
  }

  ghost function PendingOf(s: Sys, user: Id): set<CallId> {
    set c | c in s.calls && Pending(s.calls[c]) && s.calls[c].tok.userId == user
  }

  ghost function LostOf(s: Sys, user: Id): set<Id> {
    set id | id in s.lost && id in s.tokens && s.tokens[id].userId == user
  }

  ghost function LoginTokens(s: Sys, user: Id): map<CallId, Id> {
    map c | c in LoginsOf(s, user) :: s.grants[c].token
  }

  ghost function PendingTokens(s: Sys, user: Id): map<CallId, Id> {
    map c | c in PendingOf(s, user) :: s.calls[c].newId
  }

  /** Chains that did not lose a race start at a login or at a token still awaiting its link. */
  lemma HeadCovered(s: Sys, user: Id, id: Id)
    requires CallsOk(s) && GrantsOk(s) && Accounted(s, id)
    requires id in s.tokens && s.tokens[id].userId == user && id !in s.lost
    ensures id in LoginTokens(s, user).Values + PendingTokens(s, user).Values
  {
    if c :| c in s.grants && s.grants[c].presented.None? && s.grants[c].token == id {
      assert GrantOk(s, s.grants[c]);
      assert c in LoginTokens(s, user) && LoginTokens(s, user)[c] == id;
    } else {
      var c :| c in s.calls && Pending(s.calls[c]) && s.calls[c].newId == id;
      assert PhaseOk(s, s.calls[c]);
      assert c in PendingTokens(s, user) && PendingTokens(s, user)[c] == id;
    }
  }

  lemma HeadsCovered(s: Sys, user: Id)
    requires CallsOk(s) && GrantsOk(s) && HeadsAccounted(s)
    ensures |HeadsOf(s.tokens, user) - LostOf(s, user)| <= |LoginsOf(s, user)| + |PendingOf(s, user)|
  {
    hide CallsOk, GrantsOk, LoginTokens, PendingTokens;
    var heads := HeadsOf(s.tokens, user) - LostOf(s, user);
    forall id | id in heads ensures id in LoginTokens(s, user).Values + PendingTokens(s, user).Values {
      HeadCovered(s, user, id);
    }
    SubsetCount(heads, LoginTokens(s, user).Values, PendingTokens(s, user).Values);
    TokensCount(s, user);
  }

  lemma TokensCount(s: Sys, user: Id)
    ensures |LoginTokens(s, user).Values| <= |LoginsOf(s, user)|
    ensures |PendingTokens(s, user).Values| <= |PendingOf(s, user)|
  {
    ValuesCount(LoginTokens(s, user));
    ValuesCount(PendingTokens(s, user));
    assert LoginTokens(s, user).Keys == LoginsOf(s, user) && PendingTokens(s, user).Keys == PendingOf(s, user);
  }

  lemma SubsetCount(a: set<Id>, b: set<Id>, c: set<Id>)
    requires forall x :: x in a ==> x in b + c
    ensures |a| <= |b| + |c|
  {
    SetSizes(a, b + c);
    assert |b + c| == |b| + |c| - |b * c|;
  }

  lemma {:induction false} SetSizes(a: set<Id>, b: set<Id>)
    requires forall x :: x in a ==> x in b
    ensures |a| <= |b|
    decreases a
  {
    if x :| x in a { SetSizes(a - {x}, b - {x}); }
  }

  /**
   Conservation: a user's unrevoked tokens never outnumber the sessions opened for that user by
   login plus the refreshes holding a created but not yet linked token.
   */
  lemma Conservation(ttl: Time, ss: seq<Sys>, steps: seq<Step>, i: nat, user: Id)
    requires IsRun(ttl, ss, steps) && i < |ss|
    ensures |LiveTokens(ss[i], user)| <= |LoginsOf(ss[i], user)| + |PendingOf(ss[i], user)|
  {
    var s := ss[i];
    ReachableInv(ttl, ss, steps, i);
    var lost, heads, tails := LostOf(s, user), HeadsOf(s.tokens, user), TailsOf(s.tokens, user);
    HeadsEqualTails(s.tokens, user);
    HeadsCovered(s, user);
    assert lost <= heads && lost <= tails;
    assert |heads - lost| == |heads| - |lost| && |tails - lost| == |tails| - |lost|;
    SetSizes(LiveTokens(s, user), tails - lost);
  }

  // ----- reuse -----

  /**
   Presenting a rotated token: once its chain-revocation step is done, no token of that chain,
   ancestors included, is unrevoked.
   */
  lemma ReuseKillsChain(ttl: Time, ss: seq<Sys>, steps: seq<Step>, i: nat, c: CallId, now: Time)
    requires IsRun(ttl, ss, steps) && i < |steps| && steps[i] == RevokeChain(c, now)
    ensures ChainDead(ss[i + 1].tokens, ss[i].calls[c].tok.id)
  {
    ReachableInv(ttl, ss, steps, i);
    CallFacts(ss[i], c);
    ForwardWalkKillsChain(ss[i].tokens, ss[i].calls[c].tok.id, now);
  }

  /** Presenting a revoked token without successor needs no write: its chain is dead already. */
  lemma RevokedTailMeansDead(ttl: Time, ss: seq<Sys>, steps: seq<Step>, i: nat, c: CallId, id: Id, now: Time)
    requires IsRun(ttl, ss, steps) && i < |steps| && steps[i] == Present(c, id, now)
    requires Revoked(ss[i].tokens, id) && Next(ss[i].tokens, id).None?
    ensures ChainDead(ss[i + 1].tokens, id)
  {
    ReachableInv(ttl, ss, steps, i);
    ForwardWalkKillsChain(ss[i].tokens, id, now);
  }

  // ----- disabled users -----

  function UserOf(p: Phase): Id {
    if p.LoginAdmitted? then p.user else p.tok.userId
  }

  /** No call outside `before` has passed the user check for `user`, nor been granted a session. */
  ghost predicate NoneAdmitted(s: Sys, before: set<CallId>, user: Id) {
    && (forall c :: c in s.calls && c !in before && UserOf(s.calls[c]) == user ==>
          s.calls[c].Looked? || s.calls[c].Reused? || s.calls[c].Barred?)
    && (forall c :: c in s.grants && c !in before ==> s.grants[c].user != user)
  }

  lemma StepAdmitsNone(ttl: Time, s: Sys, step: Step, before: set<CallId>, user: Id)
    requires Enabled(s, step) && NoneAdmitted(s, before, user)
    requires user in s.users && s.users[user] == Disabled
    ensures NoneAdmitted(Apply(ttl, s, step), before, user)
  {
    hide RevokeRows, Closure, NewToken, Link, UserRows;
  }

  lemma {:induction false} NoneAdmittedWhileDisabled(ttl: Time, ss: seq<Sys>, steps: seq<Step>,
                                                     i: nat, j: nat, user: Id)
    requires IsRun(ttl, ss, steps) && i <= j < |ss|
    requires forall k :: i <= k <= j ==> user in ss[k].users && ss[k].users[user] == Disabled
    ensures NoneAdmitted(ss[j], ss[i].used, user)
    decreases j - i
  {
    if i == j {
      ReachableInv(ttl, ss, steps, i);
    } else {
      NoneAdmittedWhileDisabled(ttl, ss, steps, i, j - 1, user);
      StepAdmitsNone(ttl, ss[j - 1], steps[j - 1], ss[i].used, user);
    }
  }

  /** No call started after a disable and finished before a re-enable returns a session for the user. */
  lemma NoSessionWhileDisabled(ttl: Time, ss: seq<Sys>, steps: seq<Step>, i: nat, j: nat, user: Id, c: CallId)
    requires IsRun(ttl, ss, steps) && i <= j < |ss|
    requires forall k :: i <= k <= j ==> user in ss[k].users && ss[k].users[user] == Disabled
    requires c !in ss[i].used && c in ss[j].grants
    ensures ss[j].grants[c].user != user
  {
    NoneAdmittedWhileDisabled(ttl, ss, steps, i, j, user);
  }
}
