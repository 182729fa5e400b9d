/**
 The two views of the service agree: a call modelled as one step is the same call modelled as
 store calls, run without interruption.
 */
module Simulation {
  import opened Types
  import opened Chains
  import opened Tables
  import A = Accounts
  import I = AccountsInvariant
  import P = Protocol
  import Phc

  /** The protocol state shows the database of the account model. */
  ghost predicate Shows(s: P.Sys, db: A.Db) {
    && s.tokens == db.tokens
    && (forall u :: u in s.users <==> u in db.users)
    && (forall u :: u in db.users ==> s.users[u] == db.users[u].status)
  }

  /** Steps of call `cid`, and of no other, take `s` to `s'`. */
  ghost predicate Runs(ttl: Time, cid: P.CallId, s: P.Sys, s': P.Sys) {
    exists ss: seq<P.Sys>, steps: seq<P.Step> :: IsSoloPath(ttl, cid, ss, steps) && ss[0] == s && ss[|steps|] == s'
  }

  ghost predicate IsSoloPath(ttl: Time, cid: P.CallId, ss: seq<P.Sys>, steps: seq<P.Step>) {
    P.IsPath(ttl, ss, steps) && forall i :: 0 <= i < |steps| ==> P.CallerOf(steps[i]) == Some(cid)
  }

  lemma RunsNothing(ttl: Time, cid: P.CallId, s: P.Sys)
    ensures Runs(ttl, cid, s, s)
  {
    var ss: seq<P.Sys>, steps: seq<P.Step> := [s], [];
    assert IsSoloPath(ttl, cid, ss, steps) && ss[0] == s && ss[|steps|] == s;
  }

  lemma RunsStep(ttl: Time, cid: P.CallId, s: P.Sys, s': P.Sys, step: P.Step)
    requires Runs(ttl, cid, s, s') && P.Enabled(s', step) && P.CallerOf(step) == Some(cid)
    ensures Runs(ttl, cid, s, P.Apply(ttl, s', step))
  {
    hide P.Enabled, P.Apply;
    var ss, steps :| IsSoloPath(ttl, cid, ss, steps) && ss[0] == s && ss[|steps|] == s';
    P.PathAppend(ttl, ss, steps, step);
    var more := ss + [P.Apply(ttl, s', step)];
    assert IsSoloPath(ttl, cid, more, steps + [step]);
    assert more[0] == s && more[|steps + [step]|] == P.Apply(ttl, s', step);
  }

  /**
   The state after the call is over: its table, its id used up and, if it opened a session, its
   grant; nothing else.
   */
  ghost function After(s: P.Sys, cid: P.CallId, t: Table, granted: Option<P.Grant>): P.Sys {
    s.(tokens := t, used := s.used + {cid},
       grants := if granted.Some? then s.grants[cid := granted.value] else s.grants)
  }

  /** A refresh that is refused: one or two further store calls, or none. */
  lemma RefusedRefresh(env: A.Env, db: A.Db, s: P.Sys, c: A.Call, now: Time, cid: P.CallId, tok: RefreshToken)
    requires c.Refresh? && A.TokenByHash(db.tokens, c.presented) == Some(tok) && Shows(s, db)
    requires tok.id in db.tokens && db.tokens[tok.id] == tok && P.HandedOut(s, tok.id) && cid !in s.used
    requires cid !in s.calls
    requires tok.userId in db.users && (!tok.IsActive(now) || db.users[tok.userId].status != Active)
    ensures A.RefreshStep(env, db, c, now).1.Failed?
    ensures Runs(env.refreshTtl, cid, s, After(s, cid, A.RefreshStep(env, db, c, now).0.tokens, None))
  {
    hide Runs, P.HandedOut, RevokeRows, Closure;
    var ttl := env.refreshTtl;
    RunsNothing(ttl, cid, s);
    RunsStep(ttl, cid, s, s, P.Present(cid, tok.id, now));
    var s' := P.Apply(ttl, s, P.Present(cid, tok.id, now));
    if tok.IsActive(now) {
      RunsStep(ttl, cid, s, s', P.CheckUser(cid));
      s' := P.Apply(ttl, s', P.CheckUser(cid));
      RunsStep(ttl, cid, s, s', P.RevokeBarred(cid, now));
      s' := P.Apply(ttl, s', P.RevokeBarred(cid, now));
    } else if tok.replacedBy.Some? {
      RunsStep(ttl, cid, s, s', P.RevokeChain(cid, now));
      s' := P.Apply(ttl, s', P.RevokeChain(cid, now));
    }
    assert s'.calls == s.calls;
    assert s' == After(s, cid, A.RefreshStep(env, db, c, now).0.tokens, None);
  }

  /** A refresh that succeeds: look up, check the user, insert, link, return. */
  lemma GrantedRefresh(env: A.Env, db: A.Db, s: P.Sys, c: A.Call, now: Time, cid: P.CallId, tok: RefreshToken)
    requires c.Refresh? && A.TokenByHash(db.tokens, c.presented) == Some(tok) && Shows(s, db) && A.UsersKeyed(db)
    requires tok.id in db.tokens && db.tokens[tok.id] == tok && P.HandedOut(s, tok.id) && cid !in s.used
    requires cid !in s.calls
    requires tok.userId in db.users && tok.IsActive(now) && db.users[tok.userId].status == Active
    requires FreshToken(db.tokens, c.id, c.hash)
    ensures A.RefreshStep(env, db, c, now).1.Opened? && A.RefreshStep(env, db, c, now).1.token == c.id
    ensures Runs(env.refreshTtl, cid, s,
                 After(s, cid, A.RefreshStep(env, db, c, now).0.tokens, Some(P.Grant(tok.userId, Some(tok.id), c.id))))
  {
    hide Runs, P.HandedOut, NewToken, FreshToken;
    var ttl := env.refreshTtl;
    RunsNothing(ttl, cid, s);
    RunsStep(ttl, cid, s, s, P.Present(cid, tok.id, now));
    var s1 := P.Apply(ttl, s, P.Present(cid, tok.id, now));
    RunsStep(ttl, cid, s, s1, P.CheckUser(cid));
    var s2 := P.Apply(ttl, s1, P.CheckUser(cid));
    RunsStep(ttl, cid, s, s2, P.Create(cid, c.id, c.hash, now));
    var s3 := P.Apply(ttl, s2, P.Create(cid, c.id, c.hash, now));
    assert s3.tokens == A.OpenSession(env, db, db.users[tok.userId], DeviceOf(tok), c.id, c.hash, now).tokens;
    InsertedElsewhere(db.tokens, tok.id, c.id, tok.userId, c.hash, DeviceOf(tok), now, ttl);
    RunsStep(ttl, cid, s, s3, P.Replace(cid, now));
    var s4 := P.Apply(ttl, s3, P.Replace(cid, now));
    RunsStep(ttl, cid, s, s4, P.Return(cid));
    var s5 := P.Apply(ttl, s4, P.Return(cid));
    assert s5.calls == s.calls;
  }

  lemma InsertedElsewhere(t: Table, prev: Id, id: Id, user: Id, hash: Hash, device: string, now: Time, ttl: Time)
    requires FreshToken(t, id, hash) && Replaceable(t, prev)
    ensures Replaceable(Insert(t, NewToken(id, user, hash, device, now, ttl)), prev)
  {
  }

  /** What a refresh of the whole-call model leaves behind in the concurrent one. */
  ghost function AfterRefresh(env: A.Env, w: A.World, s: P.Sys, c: A.Call, now: Time, cid: P.CallId,
                              tok: RefreshToken): P.Sys
    requires c.Refresh?
  {
    var step := A.RefreshStep(env, w.db, c, now);
    After(s, cid, step.0.tokens, if step.1.Opened? then Some(P.Grant(tok.userId, Some(tok.id), c.id)) else None)
  }

  /**
   A refresh as one step has, on the whole protocol state, the effect of its own store calls run
   in sequence with no other step between them, from any state showing the same database.
   */
  lemma RefreshIsItsStoreCalls(env: A.Env, w: A.World, s: P.Sys, c: A.Call, now: Time, cid: P.CallId, tok: RefreshToken)
    requires A.Inv(env, w) && P.Inv(s) && Shows(s, w.db) && c.Refresh? && A.Fresh(w.db, c) && cid !in s.used
    requires A.TokenByHash(w.db.tokens, c.presented) == Some(tok) && P.HandedOut(s, tok.id)
    ensures Runs(env.refreshTtl, cid, s, AfterRefresh(env, w, s, c, now, cid, tok))
  {
    assert RowsKeyed(w.db.tokens) && A.OwnersExist(w.db) && A.UsersKeyed(w.db) && P.CallsOk(s);
    hide Runs, A.Inv, P.Inv, P.HandedOut, A.RefreshStep, RowsKeyed;
    I.FoundByHash(w.db.tokens, c.presented);
    if tok.IsActive(now) && w.db.users[tok.userId].status == Active {
      GrantedRefresh(env, w.db, s, c, now, cid, tok);
    } else {
      RefusedRefresh(env, w.db, s, c, now, cid, tok);
    }
  }

  lemma AcceptedLogin(env: A.Env, db: A.Db, h: Phc.Params, c: A.Call, now: Time)
    requires A.UsersKeyed(db) && c.Login? && A.LoginStep(env, h, db, c, now).1.Opened?
    ensures var step := A.LoginStep(env, h, db, c, now);
            && step.1.user.id in db.users && db.users[step.1.user.id].status == Active
            && step.0.tokens == Insert(db.tokens, NewToken(c.id, step.1.user.id, c.hash, c.device, now, env.refreshTtl))
  {
    hide Phc.Verify, Phc.HashPassword, NewToken, A.HasName;
    I.FoundByName(env, db, c.username);
  }

  /** Likewise a login that opens a session: its accepting reads, then its insert. */
  lemma LoginIsItsStoreCalls(env: A.Env, w: A.World, s: P.Sys, h: Phc.Params, c: A.Call, now: Time, cid: P.CallId)
    requires A.Inv(env, w) && P.Inv(s) && Shows(s, w.db) && c.Login? && A.Fresh(w.db, c) && cid !in s.used
    requires A.LoginStep(env, h, w.db, c, now).1.Opened?
    ensures var step := A.LoginStep(env, h, w.db, c, now);
            Runs(env.refreshTtl, cid, s, After(s, cid, step.0.tokens, Some(P.Grant(step.1.user.id, None, c.id))))
  {
    assert A.UsersKeyed(w.db) && P.CallsOk(s);
    hide Runs, A.Inv, P.Inv, A.LoginStep, NewToken, FreshToken, After;
    AcceptedLogin(env, w.db, h, c, now);
    LoginPath(env.refreshTtl, s, cid, A.LoginStep(env, h, w.db, c, now).1.user.id, c.id, c.hash, c.device, now);
  }

  lemma LoginPath(ttl: Time, s: P.Sys, cid: P.CallId, user: Id, id: Id, hash: Hash, device: string, now: Time)
    requires cid !in s.used && cid !in s.calls && user in s.users && s.users[user] == Active
    requires FreshToken(s.tokens, id, hash)
    ensures Runs(ttl, cid, s,
                 After(s, cid, Insert(s.tokens, NewToken(id, user, hash, device, now, ttl)),
                       Some(P.Grant(user, None, id))))
  {
    hide Runs, NewToken, FreshToken;
    RunsNothing(ttl, cid, s);
    RunsStep(ttl, cid, s, s, P.LoginRead(cid, user));
    var s1 := P.Apply(ttl, s, P.LoginRead(cid, user));
    RunsStep(ttl, cid, s, s1, P.LoginCreate(cid, id, hash, device, now));
    var s2 := P.Apply(ttl, s1, P.LoginCreate(cid, id, hash, device, now));
    assert s2.calls == s.calls;
  }
}
