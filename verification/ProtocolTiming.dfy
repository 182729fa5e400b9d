/**
 Lifetimes under concurrency. With a clock that does not run backwards, rotation still never
 shortens a chain's lifetime; what one refresh may add to it grows by the delay between its two
 clock readings, the one that found the presented token active and the one that dates the new token.
 */
module ProtocolTiming {
  import opened Types
  import opened Chains
  import opened Tables
  import opened Protocol
  import opened ProtocolInvariant

  function ReadingOf(step: Step): Option<Time> {
    match step
    case CheckUser(_) => None
    case Return(_) => None
    case LoginRead(_, _) => None
    case SetStatus(_, _) => None
    case AddUser(_) => None
    case _ => Some(step.now)
  }

  /** The step reads the clock, if at all, at `now`, and no refresh takes longer than `delay` between its readings. */
  ghost predicate OnTime(delay: Time, s: Sys, step: Step, clock: Time, now: Time) {
    && clock <= now
    && (ReadingOf(step).Some? ==> ReadingOf(step) == Some(now))
    && (step.Create? && step.c in s.calls && s.calls[step.c].Admitted? ==> now - s.calls[step.c].at <= delay)
  }

  /** A run with a monotone clock, `clocks[i]` being its reading at state `i`. */
  ghost predicate IsTimedRun(ttl: Time, delay: Time, ss: seq<Sys>, steps: seq<Step>, clocks: seq<Time>) {
    IsRun(ttl, ss, steps) && |clocks| == |ss|
    && forall i :: 0 <= i < |steps| ==> OnTime(delay, ss[i], steps[i], clocks[i], clocks[i + 1])
  }

  // ----- the invariant -----

  ghost predicate RowsTimely(ttl: Time, t: Table, clock: Time) {
    forall id :: id in t ==> t[id].issuedAt <= clock && t[id].expiresAt == t[id].issuedAt + ttl
  }

  /** The second token may replace the first. */
  ghost predicate Succeeds(delay: Time, t: Table, a: Id, b: Id) {
    a in t && b in t && t[a].issuedAt <= t[b].issuedAt < t[a].expiresAt + delay
  }

  ghost predicate LinksTimely(delay: Time, t: Table) {
    forall a :: a in t && Next(t, a).Some? ==> Succeeds(delay, t, a, Next(t, a).value)
  }

  ghost predicate PhaseTimely(delay: Time, t: Table, p: Phase) {
    && ((p.Looked? || p.Admitted?) ==> p.tok.id in t && p.at < t[p.tok.id].expiresAt)
    && (NewIdOf(p).Some? ==> Succeeds(delay, t, p.tok.id, p.newId))
  }

  ghost predicate Timely(ttl: Time, delay: Time, s: Sys, clock: Time) {
    && RowsTimely(ttl, s.tokens, clock) && LinksTimely(delay, s.tokens)
    && forall c :: c in s.calls ==> PhaseTimely(delay, s.tokens, s.calls[c])
  }

  /** The old rows keep their dates. */
  ghost predicate KeepsDates(t: Table, t': Table) {
    forall x :: x in t ==> x in t' && t'[x].issuedAt == t[x].issuedAt && t'[x].expiresAt == t[x].expiresAt
  }

  lemma DatesKeepPhase(delay: Time, t: Table, t': Table, p: Phase)
    requires KeepsDates(t, t') && PhaseTimely(delay, t, p)
    ensures PhaseTimely(delay, t', p)
  {
  }

  lemma DatesKeepLinks(delay: Time, t: Table, t': Table)
    requires KeepsDates(t, t') && LinksTimely(delay, t) && forall x :: Next(t', x) == Next(t, x)
    ensures LinksTimely(delay, t')
  {
    forall a | a in t' && Next(t', a).Some? ensures Succeeds(delay, t', a, Next(t', a).value) {
      assert a in t && Succeeds(delay, t, a, Next(t, a).value);
    }
  }

  // ----- every step keeps it -----

  lemma NewRowTimely(ttl: Time, t: Table, id: Id, user: Id, hash: Hash, device: string, clock: Time, now: Time)
    requires RowsTimely(ttl, t, clock) && clock <= now && id !in t
    ensures RowsTimely(ttl, Insert(t, NewToken(id, user, hash, device, now, ttl)), now)
    ensures KeepsDates(t, Insert(t, NewToken(id, user, hash, device, now, ttl)))
  {
  }

  lemma CreateKeepsTimely(ttl: Time, delay: Time, s: Sys, step: Step, clock: Time, now: Time)
    requires Inv(s) && Enabled(s, step) && step.Create? && Timely(ttl, delay, s, clock)
    requires OnTime(delay, s, step, clock, now)
    ensures Timely(ttl, delay, Apply(ttl, s, step), now)
  {
    hide Inv, Sound, LinksTimely;
    var s', c := Apply(ttl, s, step), step.c;
    var tok := s.calls[c].tok;
    InsertGrows(s.tokens, NewToken(step.id, tok.userId, step.hash, DeviceOf(tok), now, ttl));
    NewRowTimely(ttl, s.tokens, step.id, tok.userId, step.hash, DeviceOf(tok), clock, now);
    DatesKeepLinks(delay, s.tokens, s'.tokens);
    assert PhaseTimely(delay, s.tokens, s.calls[c]);
    forall d | d in s'.calls ensures PhaseTimely(delay, s'.tokens, s'.calls[d]) {
      if d != c { DatesKeepPhase(delay, s.tokens, s'.tokens, s.calls[d]); }
    }
  }

  lemma LoginCreateKeepsTimely(ttl: Time, delay: Time, s: Sys, step: Step, clock: Time, now: Time)
    requires Enabled(s, step) && step.LoginCreate? && Timely(ttl, delay, s, clock) && OnTime(delay, s, step, clock, now)
    ensures Timely(ttl, delay, Apply(ttl, s, step), now)
  {
    hide LinksTimely;
    var s', user := Apply(ttl, s, step), s.calls[step.c].user;
    InsertGrows(s.tokens, NewToken(step.id, user, step.hash, step.device, now, ttl));
    NewRowTimely(ttl, s.tokens, step.id, user, step.hash, step.device, clock, now);
    DatesKeepLinks(delay, s.tokens, s'.tokens);
    forall d | d in s'.calls ensures PhaseTimely(delay, s'.tokens, s'.calls[d]) {
      DatesKeepPhase(delay, s.tokens, s'.tokens, s.calls[d]);
    }
  }

  lemma ReplaceKeepsTimely(ttl: Time, delay: Time, s: Sys, step: Step, clock: Time, now: Time)
    requires Enabled(s, step) && step.Replace? && Timely(ttl, delay, s, clock) && OnTime(delay, s, step, clock, now)
    ensures Timely(ttl, delay, Apply(ttl, s, step), now)
  {
    var s', p := Apply(ttl, s, step), s.calls[step.c];
    assert PhaseTimely(delay, s.tokens, p);
    assert KeepsDates(s.tokens, s'.tokens);
    forall a | a in s'.tokens && Next(s'.tokens, a).Some?
      ensures Succeeds(delay, s'.tokens, a, Next(s'.tokens, a).value)
    {
      assert a != p.tok.id ==> Succeeds(delay, s.tokens, a, Next(s.tokens, a).value);
    }
    forall d | d in s'.calls ensures PhaseTimely(delay, s'.tokens, s'.calls[d]) {
      DatesKeepPhase(delay, s.tokens, s'.tokens, s.calls[d]);
    }
  }

  lemma RevokeKeepsDates(t: Table, ids: set<Id>, now: Time)
    ensures KeepsDates(t, RevokeRows(t, ids, now)) && RevokeRows(t, ids, now).Keys == t.Keys
    ensures forall x :: Next(RevokeRows(t, ids, now), x) == Next(t, x)
  {
  }

  lemma RevokingKeepsTimely(ttl: Time, delay: Time, s: Sys, s': Sys, ids: set<Id>, at: Time, clock: Time, now: Time)
    requires Timely(ttl, delay, s, clock) && clock <= now && s'.tokens == RevokeRows(s.tokens, ids, at)
    requires forall c :: c in s'.calls ==> c in s.calls && s'.calls[c] == s.calls[c]
    ensures Timely(ttl, delay, s', now)
  {
    RevokeKeepsDates(s.tokens, ids, at);
    hide RevokeRows, LinksTimely;
    DatesKeepLinks(delay, s.tokens, s'.tokens);
    forall c | c in s'.calls ensures PhaseTimely(delay, s'.tokens, s'.calls[c]) {
      DatesKeepPhase(delay, s.tokens, s'.tokens, s.calls[c]);
    }
  }

  /** Steps that write no token row. */
  lemma ReadingKeepsTimely(ttl: Time, delay: Time, s: Sys, step: Step, clock: Time, now: Time)
    requires RowsKeyed(s.tokens) && Enabled(s, step) && Timely(ttl, delay, s, clock)
    requires OnTime(delay, s, step, clock, now)
    requires step.Present? || step.CheckUser? || step.Return? || step.LoginRead? || step.SetStatus? || step.AddUser?
    ensures Timely(ttl, delay, Apply(ttl, s, step), now)
  {
    hide LinksTimely;
    var s' := Apply(ttl, s, step);
    forall c | c in s'.calls ensures PhaseTimely(delay, s'.tokens, s'.calls[c]) {
      if c in s.calls { assert PhaseTimely(delay, s.tokens, s.calls[c]); }
    }
  }

  lemma StepKeepsTimely(ttl: Time, delay: Time, s: Sys, step: Step, clock: Time, now: Time)
    requires Inv(s) && Enabled(s, step) && Timely(ttl, delay, s, clock) && OnTime(delay, s, step, clock, now)
    ensures Timely(ttl, delay, Apply(ttl, s, step), now)
  {
    assert RowsKeyed(s.tokens);
    hide Inv, Timely, RowsKeyed, RevokeRows, Closure, UserRows, NewToken;
    var s' := Apply(ttl, s, step);
    match step
    case Create(_, _, _, _) => CreateKeepsTimely(ttl, delay, s, step, clock, now);
    case LoginCreate(_, _, _, _, _) => LoginCreateKeepsTimely(ttl, delay, s, step, clock, now);
    case Replace(_, _) => ReplaceKeepsTimely(ttl, delay, s, step, clock, now);
    case RevokeBarred(c, at) => RevokingKeepsTimely(ttl, delay, s, s', {s.calls[c].tok.id}, at, clock, now);
    case RevokeChain(c, at) =>
      RevokingKeepsTimely(ttl, delay, s, s', Closure(s.tokens, s.calls[c].tok.id), at, clock, now);
    case RevokeLoser(c, at) => RevokingKeepsTimely(ttl, delay, s, s', {s.calls[c].newId}, at, clock, now);
    case Revoke(id, at) => RevokingKeepsTimely(ttl, delay, s, s', {id}, at, clock, now);
    case RevokeUser(user, except, at) =>
      RevokingKeepsTimely(ttl, delay, s, s', UserRows(s.tokens, user, except), at, clock, now);
    case _ => ReadingKeepsTimely(ttl, delay, s, step, clock, now);
  }

  lemma InitialTimely(ttl: Time, delay: Time, clock: Time)
    ensures Timely(ttl, delay, INITIAL, clock)
  {
  }

  lemma {:induction false} ReachableTimely(ttl: Time, delay: Time, ss: seq<Sys>, steps: seq<Step>,
                                           clocks: seq<Time>, i: nat)
    requires IsTimedRun(ttl, delay, ss, steps, clocks) && i < |ss|
    ensures Timely(ttl, delay, ss[i], clocks[i])
    decreases i
  {
    hide Apply, OnTime, Enabled, Timely, Inv;
    if i == 0 {
      InitialTimely(ttl, delay, clocks[0]);
    } else {
      ReachableTimely(ttl, delay, ss, steps, clocks, i - 1);
      ReachableInv(ttl, ss, steps, i - 1);
      StepKeepsTimely(ttl, delay, ss[i - 1], steps[i - 1], clocks[i - 1], clocks[i]);
    }
  }

  // ----- lifetimes along a chain -----

  lemma {:induction false} ExpiryAlongHops(ttl: Time, delay: Time, t: Table, clock: Time, a: Id, k: nat)
    requires RowsTimely(ttl, t, clock) && LinksTimely(delay, t) && TargetsExist(t) && a in t && Hop(t, a, k).Some?
    ensures var b := Hop(t, a, k).value;
            && b in t && t[a].issuedAt <= t[b].issuedAt
            && t[b].expiresAt <= t[a].issuedAt + (k + 1) * ttl + k * (delay - 1)
  {
    if k > 0 {
      HopLast(t, a, k - 1);
      ExpiryAlongHops(ttl, delay, t, clock, a, k - 1);
      var x := Hop(t, a, k - 1).value;
      assert Succeeds(delay, t, x, Next(t, x).value);
      assert (k + 1) * ttl + k * (delay - 1) == k * ttl + (k - 1) * (delay - 1) + ttl + delay - 1;
    }
  }

  /**
   Under every interleaving with a monotone clock, issue and expiry times never decrease along a
   chain, and the k-th successor expires within k + 1 lifetimes of the login plus, for each
   rotation, the longest delay between a refresh's two clock readings, less one tick.
   */
  lemma SlidingExpiryWithDelay(ttl: Time, delay: Time, ss: seq<Sys>, steps: seq<Step>,
                               clocks: seq<Time>, i: nat, a: Id, k: nat)
    requires IsTimedRun(ttl, delay, ss, steps, clocks) && i < |ss|
    requires a in ss[i].tokens && Hop(ss[i].tokens, a, k).Some?
    ensures var t := ss[i].tokens;
            var b := Hop(t, a, k).value;
            && b in t && t[a].issuedAt <= t[b].issuedAt && t[a].expiresAt <= t[b].expiresAt
            && t[b].expiresAt <= t[a].issuedAt + (k + 1) * ttl + k * (delay - 1)
  {
    ReachableTimely(ttl, delay, ss, steps, clocks, i);
    ReachableInv(ttl, ss, steps, i);
    ExpiryAlongHops(ttl, delay, ss[i].tokens, clocks[i], a, k);
  }

  // ----- the bound is reached -----

  lemma TimedAppend(ttl: Time, delay: Time, ss: seq<Sys>, steps: seq<Step>, clocks: seq<Time>, step: Step, now: Time)
    requires IsTimedRun(ttl, delay, ss, steps, clocks) && Enabled(ss[|steps|], step)
    requires OnTime(delay, ss[|steps|], step, clocks[|steps|], now)
    ensures IsTimedRun(ttl, delay, ss + [Apply(ttl, ss[|steps|], step)], steps + [step], clocks + [now])
  {
    hide Enabled, Apply, OnTime;
  }

  ghost function LoggedInAt(ttl: Time): Sys {
    Sys(map[1 := Active], map[1 := NewToken(1, 1, 1, "", 0, ttl)], map[], {1}, map[1 := Grant(1, None, 1)], {})
  }

  lemma LoginAtZero(ttl: Time, delay: Time) returns (ss: seq<Sys>, steps: seq<Step>, clocks: seq<Time>)
    ensures IsTimedRun(ttl, delay, ss, steps, clocks) && |steps| == 3 && ss[3] == LoggedInAt(ttl) && clocks[3] == 0
  {
    ss, steps, clocks := [INITIAL], [], [0];
    var s1 := Apply(ttl, INITIAL, AddUser(1));
    var s2 := Apply(ttl, s1, LoginRead(1, 1));
    assert s2.calls[1] == LoginAdmitted(1);
    var login := LoginCreate(1, 1, 1, "", 0);
    var s3 := Apply(ttl, s2, login);
    TimedAppend(ttl, delay, ss, steps, clocks, AddUser(1), 0);
    TimedAppend(ttl, delay, ss + [s1], steps + [AddUser(1)], clocks + [0], LoginRead(1, 1), 0);
    TimedAppend(ttl, delay, ss + [s1] + [s2], steps + [AddUser(1)] + [LoginRead(1, 1)], clocks + [0] + [0], login, 0);
    ss, steps := ss + [s1] + [s2] + [s3], steps + [AddUser(1)] + [LoginRead(1, 1)] + [login];
    clocks := clocks + [0] + [0] + [0];
    assert s3 == LoggedInAt(ttl);
  }

  /** The four store calls of a refresh that finds its token in its last tick and dates the new one `delay` later. */
  lemma SlowRefresh(ttl: Time, delay: Time) returns (s1: Sys, s2: Sys, s3: Sys, s4: Sys)
    requires ttl > 0 && delay >= 0
    ensures var s, now := LoggedInAt(ttl), ttl - 1 + delay;
            && Enabled(s, Present(2, 1, ttl - 1)) && s1 == Apply(ttl, s, Present(2, 1, ttl - 1))
            && Enabled(s1, CheckUser(2)) && s2 == Apply(ttl, s1, CheckUser(2))
            && Enabled(s2, Create(2, 2, 2, now)) && s3 == Apply(ttl, s2, Create(2, 2, 2, now))
            && Enabled(s3, Replace(2, now)) && s4 == Apply(ttl, s3, Replace(2, now))
            && s2.calls[2].Admitted? && s2.calls[2].at == ttl - 1
            && s4.tokens.Keys == {1, 2} && Next(s4.tokens, 1) == Some(2)
            && s4.tokens[1].issuedAt == 0 && s4.tokens[2].expiresAt == 2 * ttl + delay - 1
  {
    var s, now := LoggedInAt(ttl), ttl - 1 + delay;
    assert HandedOut(s, 1) by { assert s.grants[1].token == 1; }
    s1 := Apply(ttl, s, Present(2, 1, ttl - 1));
    assert s1.calls == map[2 := Looked(s.tokens[1], ttl - 1)];
    s2 := Apply(ttl, s1, CheckUser(2));
    assert s2.calls == map[2 := Admitted(s.tokens[1], ttl - 1)];
    s3 := Apply(ttl, s2, Create(2, 2, 2, now));
    assert s3.calls == map[2 := Created(s.tokens[1], 2)];
    s4 := Apply(ttl, s3, Replace(2, now));
  }

  /** For every lifetime and delay some run has a first successor expiring exactly at the bound. */
  lemma DelayBoundIsReached(ttl: Time, delay: Time) returns (ss: seq<Sys>, steps: seq<Step>, clocks: seq<Time>)
    requires ttl > 0 && delay >= 0
    ensures IsTimedRun(ttl, delay, ss, steps, clocks) && |steps| == 7
    ensures var t := ss[7].tokens;
            && 1 in t && Hop(t, 1, 1) == Some(2) && 2 in t
            && t[2].expiresAt == t[1].issuedAt + 2 * ttl + 1 * (delay - 1)
  {
    hide Apply, Enabled;
    ss, steps, clocks := LoginAtZero(ttl, delay);
    var s1, s2, s3, s4 := SlowRefresh(ttl, delay);
    var now := ttl - 1 + delay;
    TimedAppend(ttl, delay, ss, steps, clocks, Present(2, 1, ttl - 1), ttl - 1);
    ss, steps, clocks := ss + [s1], steps + [Present(2, 1, ttl - 1)], clocks + [ttl - 1];
    TimedAppend(ttl, delay, ss, steps, clocks, CheckUser(2), ttl - 1);
    ss, steps, clocks := ss + [s2], steps + [CheckUser(2)], clocks + [ttl - 1];
    TimedAppend(ttl, delay, ss, steps, clocks, Create(2, 2, 2, now), now);
    ss, steps, clocks := ss + [s3], steps + [Create(2, 2, 2, now)], clocks + [now];
    TimedAppend(ttl, delay, ss, steps, clocks, Replace(2, now), now);
    ss, steps, clocks := ss + [s4], steps + [Replace(2, now)], clocks + [now];
    assert Hop(s4.tokens, 2, 0) == Some(2);
  }
}
