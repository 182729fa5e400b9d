/**
 Every run of whole calls is an interleaving of store calls: the concurrent model, with no two
 calls overlapping, does what the account model does. What holds of every interleaving therefore
 holds of whole calls.
 */
module Refinement {
  import opened Types
  import opened Chains
  import opened Tables
  import opened Simulation
  import opened Effects
  import A = Accounts
  import I = AccountsInvariant
  import P = Protocol
  import Q = ProtocolInvariant
  import T = ProtocolTheorems
  import Phc

  // ----- paths -----

  ghost predicate Leads(ttl: Time, s: P.Sys, s': P.Sys) {
    exists ss: seq<P.Sys>, steps: seq<P.Step> :: P.IsPath(ttl, ss, steps) && ss[0] == s && ss[|steps|] == s'
  }

  lemma LeadsNowhere(ttl: Time, s: P.Sys)
    ensures Leads(ttl, s, s)
  {
    var ss: seq<P.Sys>, steps: seq<P.Step> := [s], [];
    assert P.IsPath(ttl, ss, steps) && ss[0] == s && ss[|steps|] == s;
  }

  lemma LeadsStep(ttl: Time, s: P.Sys, s': P.Sys, step: P.Step)
    requires Leads(ttl, s, s') && P.Enabled(s', step)
    ensures Leads(ttl, s, P.Apply(ttl, s', step))
  {
    hide P.Enabled, P.Apply;
    var ss, steps :| P.IsPath(ttl, ss, steps) && ss[0] == s && ss[|steps|] == s';
    P.PathAppend(ttl, ss, steps, step);
    var more := ss + [P.Apply(ttl, s', step)];
    assert more[0] == s && more[|steps + [step]|] == P.Apply(ttl, s', step);
  }

  lemma {:induction false} LeadsOn(ttl: Time, s: P.Sys, ss: seq<P.Sys>, steps: seq<P.Step>, n: nat)
    requires P.IsPath(ttl, ss, steps) && n <= |steps| && Leads(ttl, s, ss[0])
    ensures Leads(ttl, s, ss[n])
  {
    hide P.Enabled, P.Apply, Leads;
    if n > 0 {
      LeadsOn(ttl, s, ss, steps, n - 1);
      LeadsStep(ttl, s, ss[n - 1], steps[n - 1]);
    }
  }

  lemma RunsLead(ttl: Time, cid: P.CallId, s: P.Sys, s': P.Sys)
    requires Runs(ttl, cid, s, s')
    ensures Leads(ttl, s, s')
  {
    var ss, steps :| IsSoloPath(ttl, cid, ss, steps) && ss[0] == s && ss[|steps|] == s';
  }

  lemma LeadsJoin(ttl: Time, s: P.Sys, s': P.Sys, s'': P.Sys)
    requires Leads(ttl, s, s') && Leads(ttl, s', s'')
    ensures Leads(ttl, s, s'')
  {
    var ss, steps :| P.IsPath(ttl, ss, steps) && ss[0] == s' && ss[|steps|] == s'';
    LeadsOn(ttl, s, ss, steps, |steps|);
  }

  // ----- one call -----

  /** Between whole calls: nothing is in flight and every token was handed out. */
  ghost predicate AtRest(s: P.Sys, db: A.Db) {
    Shows(s, db) && s.calls == map[] && forall id :: id in s.tokens ==> P.HandedOut(s, id)
  }

  /** Call number `k` is over, leaving this database: what it returned is its grant, if it opened a session. */
  ghost predicate Over(out: A.Outcome, byLogin: bool, db': A.Db, s: P.Sys, s': P.Sys, k: P.CallId) {
    && AtRest(s', db') && s'.used <= s.used + {k}
    && s'.grants.Keys == s.grants.Keys + (if out.Opened? then {k} else {})
    && (forall c :: c in s.grants && c != k ==> s'.grants[c] == s.grants[c])
    && (out.Opened? ==> s'.grants[k].user == out.user.id && s'.grants[k].token == out.token
                        && (s'.grants[k].presented == None <==> byLogin))
  }

  ghost predicate OverFor(env: A.Env, w: A.World, e: A.Event, s: P.Sys, s': P.Sys, k: P.CallId) {
    Over(A.Result(env, w, e), e.call.Login?, A.Advance(env, w, e).db, s, s', k)
  }

  ghost predicate Ready(env: A.Env, w: A.World, e: A.Event, s: P.Sys, k: P.CallId) {
    A.EnvOk(env) && A.Inv(env, w) && A.Enabled(w, e) && P.Inv(s) && AtRest(s, w.db) && k !in s.used
  }

  lemma SameRowsHandedOut(s: P.Sys, s': P.Sys)
    requires s'.tokens.Keys == s.tokens.Keys && s'.grants == s.grants
    requires forall id :: id in s.tokens ==> P.HandedOut(s, id)
    ensures forall id :: id in s'.tokens ==> P.HandedOut(s', id)
  {
    forall id | id in s'.tokens ensures P.HandedOut(s', id) {
      var c :| c in s.grants && s.grants[c].token == id;
      assert c in s'.grants;
    }
  }

  lemma OneMoreHandedOut(s: P.Sys, s': P.Sys, k: P.CallId, g: P.Grant)
    requires k !in s.grants && s'.grants == s.grants[k := g] && s'.tokens.Keys == s.tokens.Keys + {g.token}
    requires forall id :: id in s.tokens ==> P.HandedOut(s, id)
    ensures forall id :: id in s'.tokens ==> P.HandedOut(s', id)
  {
    forall id | id in s'.tokens ensures P.HandedOut(s', id) {
      if id == g.token {
        assert s'.grants[k].token == id;
      } else {
        var c :| c in s.grants && s.grants[c].token == id;
        assert s'.grants[c].token == id;
      }
    }
  }

  lemma OpenedOver(out: A.Outcome, byLogin: bool, db: A.Db, db': A.Db, s: P.Sys, k: P.CallId, presented: Option<Id>)
    requires AtRest(s, db) && k !in s.grants && out.Opened? && db'.users == db.users
    requires db'.tokens.Keys == db.tokens.Keys + {out.token} && (presented == None <==> byLogin)
    ensures Over(out, byLogin, db', s, After(s, k, db'.tokens, Some(P.Grant(out.user.id, presented, out.token))), k)
  {
    hide P.HandedOut;
    var g := P.Grant(out.user.id, presented, out.token);
    OneMoreHandedOut(s, After(s, k, db'.tokens, Some(g)), k, g);
  }

  lemma RefusedOver(out: A.Outcome, byLogin: bool, db: A.Db, db': A.Db, s: P.Sys, k: P.CallId)
    requires AtRest(s, db) && k !in s.grants && !out.Opened? && db'.users == db.users
    requires db'.tokens.Keys == db.tokens.Keys
    ensures Over(out, byLogin, db', s, After(s, k, db'.tokens, None), k)
    ensures db' == db ==> Over(out, byLogin, db', s, s, k)
  {
    hide P.HandedOut;
    SameRowsHandedOut(s, After(s, k, db'.tokens, None));
  }

  lemma RefreshRows(env: A.Env, w: A.World, e: A.Event, a: Id)
    requires A.Inv(env, w) && A.Enabled(w, e) && e.call.Refresh?
    requires a in w.db.tokens && w.db.tokens[a].hash == e.call.presented
    ensures var db', out := A.Advance(env, w, e).db, A.Result(env, w, e);
            && db'.users == w.db.users
            && (out.Opened? ==> db'.tokens.Keys == w.db.tokens.Keys + {e.call.id} && out.token == e.call.id
                                && out.user.id == w.db.tokens[a].userId)
            && (!out.Opened? ==> db'.tokens.Keys == w.db.tokens.Keys)
  {
    assert A.UsersKeyed(w.db);
    hide A.Inv, A.Step;
    RefreshOpensIffLive(env, w, e, a);
    if !A.Result(env, w, e).Opened? { RefusedRefreshWrites(env, w, e, a); }
  }

  lemma RefreshOver(env: A.Env, w: A.World, e: A.Event, s: P.Sys, k: P.CallId, a: Id)
    requires A.Inv(env, w) && A.Enabled(w, e) && AtRest(s, w.db) && k !in s.grants && e.call.Refresh?
    requires a in w.db.tokens && w.db.tokens[a].hash == e.call.presented && w.db.tokens[a].id == a
    ensures OverFor(env, w, e, s, AfterRefresh(env, w, s, e.call, e.now, k, w.db.tokens[a]), k)
  {
    var out, db' := A.Result(env, w, e), A.Advance(env, w, e).db;
    hide A.Inv, A.RefreshStep, Over, AtRest, A.Enabled, After;
    RefreshRows(env, w, e, a);
    if out.Opened? {
      OpenedOver(out, false, w.db, db', s, k, Some(a));
    } else {
      RefusedOver(out, false, w.db, db', s, k);
    }
  }

  lemma KnownRefreshCall(env: A.Env, w: A.World, e: A.Event, s: P.Sys, k: P.CallId, a: Id) returns (s': P.Sys)
    requires Ready(env, w, e, s, k) && e.call.Refresh?
    requires a in w.db.tokens && w.db.tokens[a].hash == e.call.presented && w.db.tokens[a].id == a
    ensures Leads(env.refreshTtl, s, s') && OverFor(env, w, e, s, s', k)
  {
    assert k !in s.grants;
    UniqueHash(w.db.tokens, a);
    hide Leads, A.Inv, P.Inv, A.EnvOk, Runs, OverFor, AfterRefresh, A.TokenByHash;
    RefreshIsItsStoreCalls(env, w, s, e.call, e.now, k, w.db.tokens[a]);
    s' := AfterRefresh(env, w, s, e.call, e.now, k, w.db.tokens[a]);
    RunsLead(env.refreshTtl, k, s, s');
    RefreshOver(env, w, e, s, k, a);
  }

  lemma RefreshCall(env: A.Env, w: A.World, e: A.Event, s: P.Sys, k: P.CallId) returns (s': P.Sys)
    requires Ready(env, w, e, s, k) && e.call.Refresh?
    ensures Leads(env.refreshTtl, s, s') && OverFor(env, w, e, s, s', k)
  {
    assert RowsKeyed(w.db.tokens);
    hide Leads, OverFor, A.Inv, P.Inv, A.Step;
    if a :| a in w.db.tokens && w.db.tokens[a].hash == e.call.presented {
      s' := KnownRefreshCall(env, w, e, s, k, a);
    } else {
      RefreshUnknown(env, w, e);
      IdleCall(env, w, e, s, k);
      s' := s;
    }
  }

  ghost function LoginGrant(env: A.Env, w: A.World, e: A.Event): P.Grant
    requires e.call.Login? && A.Result(env, w, e).Opened?
  {
    P.Grant(A.Result(env, w, e).user.id, None, e.call.id)
  }

  lemma LoginLeads(env: A.Env, w: A.World, e: A.Event, s: P.Sys, k: P.CallId)
    requires Ready(env, w, e, s, k) && e.call.Login? && A.Result(env, w, e).Opened?
    ensures Leads(env.refreshTtl, s, After(s, k, A.Advance(env, w, e).db.tokens, Some(LoginGrant(env, w, e))))
  {
    hide Leads, A.Inv, P.Inv, A.EnvOk, A.LoginStep, Runs, After;
    LoginIsItsStoreCalls(env, w, s, e.hasher, e.call, e.now, k);
    RunsLead(env.refreshTtl, k, s, After(s, k, A.Advance(env, w, e).db.tokens, Some(LoginGrant(env, w, e))));
  }

  lemma LoginCall(env: A.Env, w: A.World, e: A.Event, s: P.Sys, k: P.CallId) returns (s': P.Sys)
    requires Ready(env, w, e, s, k) && e.call.Login?
    ensures Leads(env.refreshTtl, s, s') && OverFor(env, w, e, s, s', k)
  {
    var out, db' := A.Result(env, w, e), A.Advance(env, w, e).db;
    assert k !in s.grants;
    hide Leads, A.Inv, P.Inv, A.EnvOk, A.Step, Over, AtRest, After;
    LoginInsertsOneRow(env, w, e);
    if out.Opened? {
      LoginLeads(env, w, e, s, k);
      OpenedOver(out, true, w.db, db', s, k, None);
      s' := After(s, k, db'.tokens, Some(LoginGrant(env, w, e)));
    } else {
      IdleCall(env, w, e, s, k);
      s' := s;
    }
  }

  /** A call without reads to carry over: its writes, and no grant. */
  lemma WrittenOver(out: A.Outcome, byLogin: bool, db: A.Db, db': A.Db, s: P.Sys, s': P.Sys, k: P.CallId)
    requires AtRest(s, db) && !out.Opened? && Shows(s', db') && db'.tokens.Keys == db.tokens.Keys
    requires s' == s.(users := s'.users, tokens := s'.tokens)
    ensures Over(out, byLogin, db', s, s', k)
  {
    hide P.HandedOut;
    SameRowsHandedOut(s, s');
  }

  /** A call that revokes tokens in one write. */
  lemma RevokingCall(env: A.Env, w: A.World, e: A.Event, s: P.Sys, k: P.CallId, ids: set<Id>, step: P.Step)
    returns (s': P.Sys)
    requires AtRest(s, w.db) && !A.Result(env, w, e).Opened? && A.Advance(env, w, e).db.users == w.db.users
    requires A.Advance(env, w, e).db.tokens == RevokeRows(w.db.tokens, ids, e.now)
    requires P.Enabled(s, step) && P.Apply(env.refreshTtl, s, step) == s.(tokens := RevokeRows(s.tokens, ids, e.now))
    ensures Leads(env.refreshTtl, s, s') && OverFor(env, w, e, s, s', k)
  {
    hide A.Result, A.Advance, P.Apply, P.Enabled, Leads, P.HandedOut, Over;
    LeadsNowhere(env.refreshTtl, s);
    LeadsStep(env.refreshTtl, s, s, step);
    s' := P.Apply(env.refreshTtl, s, step);
    WrittenOver(A.Result(env, w, e), e.call.Login?, w.db, A.Advance(env, w, e).db, s, s', k);
  }

  /** A call that writes neither a token nor a status. */
  lemma IdleCall(env: A.Env, w: A.World, e: A.Event, s: P.Sys, k: P.CallId)
    requires AtRest(s, w.db) && !A.Result(env, w, e).Opened? && A.Advance(env, w, e).db.users == w.db.users
    requires A.Advance(env, w, e).db.tokens == w.db.tokens
    ensures Leads(env.refreshTtl, s, s) && OverFor(env, w, e, s, s, k)
  {
    hide A.Result, A.Advance, Leads, P.HandedOut, Over;
    LeadsNowhere(env.refreshTtl, s);
    WrittenOver(A.Result(env, w, e), e.call.Login?, w.db, A.Advance(env, w, e).db, s, s, k);
  }

  lemma EndSessionCall(env: A.Env, w: A.World, e: A.Event, s: P.Sys, k: P.CallId) returns (s': P.Sys)
    requires AtRest(s, w.db) && (e.call.Logout? || e.call.RevokeSession?)
    ensures Leads(env.refreshTtl, s, s') && OverFor(env, w, e, s, s', k)
  {
    hide Leads, OverFor, AtRest, RevokeRows;
    var c := e.call;
    var found := if c.Logout? then A.TokenByHash(w.db.tokens, c.presented) else None;
    if c.RevokeSession? && c.session in A.SessionRows(w.db.tokens, c.uid, e.now) {
      s' := RevokingCall(env, w, e, s, k, {c.session}, P.Revoke(c.session, e.now));
    } else if found.Some? {
      s' := RevokingCall(env, w, e, s, k, {found.value.id}, P.Revoke(found.value.id, e.now));
    } else {
      IdleCall(env, w, e, s, k);
      s' := s;
    }
  }

  lemma SignOutCall(env: A.Env, w: A.World, e: A.Event, s: P.Sys, k: P.CallId, uid: Id, spared: Option<Id>)
    returns (s': P.Sys)
    requires AtRest(s, w.db) && !A.Result(env, w, e).Opened? && A.Advance(env, w, e).db.users == w.db.users
    requires SignsOut(w.db.tokens, A.Advance(env, w, e).db.tokens, uid, spared, e.now)
    ensures Leads(env.refreshTtl, s, s') && OverFor(env, w, e, s, s', k)
  {
    hide A.Result, A.Advance, Leads, OverFor;
    var ids := UserRows(w.db.tokens, uid, spared);
    assert A.Advance(env, w, e).db.tokens == RevokeRows(w.db.tokens, ids, e.now);
    s' := RevokingCall(env, w, e, s, k, ids, P.RevokeUser(uid, spared, e.now));
  }

  lemma PasswordCall(env: A.Env, w: A.World, e: A.Event, s: P.Sys, k: P.CallId) returns (s': P.Sys)
    requires A.EnvOk(env) && A.Enabled(w, e) && AtRest(s, w.db) && (e.call.ChangePassword? || e.call.ResetPassword?)
    ensures Leads(env.refreshTtl, s, s') && OverFor(env, w, e, s, s', k)
  {
    hide Leads, OverFor, AtRest, Phc.Verify, A.Step, A.EnvOk, Phc.Usable, SetsCredential, SignsOut;
    if e.call.ChangePassword? { ChangePasswordWrites(env, w, e); } else { ResetPasswordWrites(env, w, e); }
    if A.Result(env, w, e).Failed? {
      IdleCall(env, w, e, s, k);
      s' := s;
    } else {
      s' := SignOutCall(env, w, e, s, k, e.call.uid, if e.call.ChangePassword? then e.call.keep else None);
    }
  }

  /** The database with one more user, or one user's status changed. */
  lemma UsersShown(s: P.Sys, db: A.Db, db': A.Db, uid: Id)
    requires Shows(s, db) && db'.tokens == db.tokens && uid in db'.users
    requires db'.users == db.users[uid := db'.users[uid]]
    ensures Shows(s.(users := s.users[uid := db'.users[uid].status]), db')
  {
  }

  lemma NewUserCall(env: A.Env, w: A.World, e: A.Event, s: P.Sys, k: P.CallId) returns (s': P.Sys)
    requires A.EnvOk(env) && A.Enabled(w, e) && AtRest(s, w.db) && (e.call.Bootstrap? || e.call.CreateUser?)
    ensures Leads(env.refreshTtl, s, s') && OverFor(env, w, e, s, s', k)
  {
    hide Leads, Over, A.Step, P.HandedOut, Phc.Usable, A.EnvOk, SetsCredential;
    if e.call.Bootstrap? { BootstrapWrites(env, w, e); } else { CreateUserWrites(env, w, e); }
    var db' := A.Advance(env, w, e).db;
    if db'.users == w.db.users {
      IdleCall(env, w, e, s, k);
      s' := s;
    } else {
      LeadsNowhere(env.refreshTtl, s);
      LeadsStep(env.refreshTtl, s, s, P.AddUser(e.call.uid));
      s' := P.Apply(env.refreshTtl, s, P.AddUser(e.call.uid));
      UsersShown(s, w.db, db', e.call.uid);
      WrittenOver(A.Result(env, w, e), false, w.db, db', s, s', k);
    }
  }

  lemma UpdateUserCall(env: A.Env, w: A.World, e: A.Event, s: P.Sys, k: P.CallId) returns (s': P.Sys)
    requires AtRest(s, w.db) && e.call.UpdateUser?
    ensures Leads(env.refreshTtl, s, s') && OverFor(env, w, e, s, s', k)
  {
    hide Leads, Over, P.HandedOut, RevokeRows, UserRows;
    var c, ttl, out, db' := e.call, env.refreshTtl, A.Result(env, w, e), A.Advance(env, w, e).db;
    if c.uid !in w.db.users {
      IdleCall(env, w, e, s, k);
      s' := s;
    } else {
      LeadsNowhere(ttl, s);
      LeadsStep(ttl, s, s, P.SetStatus(c.uid, db'.users[c.uid].status));
      s' := P.Apply(ttl, s, P.SetStatus(c.uid, db'.users[c.uid].status));
      UsersShown(s, w.db, w.db.(users := db'.users), c.uid);
      if c.status == Some(Disabled) {
        LeadsStep(ttl, s, s', P.RevokeUser(c.uid, None, e.now));
        s' := P.Apply(ttl, s', P.RevokeUser(c.uid, None, e.now));
        RevokeKeepsLinks(w.db.tokens, UserRows(w.db.tokens, c.uid, None), e.now);
      }
      WrittenOver(out, false, w.db, db', s, s', k);
    }
  }

  /** Every whole call is a sequence of steps of the concurrent model, and what it returns is its grant. */
  lemma CallIsSteps(env: A.Env, w: A.World, e: A.Event, s: P.Sys, k: P.CallId) returns (s': P.Sys)
    requires Ready(env, w, e, s, k)
    ensures Leads(env.refreshTtl, s, s') && OverFor(env, w, e, s, s', k)
  {
    hide Leads, OverFor, AtRest, A.Inv, P.Inv;
    match e.call
    case Login(_, _, _, _, _, _) => s' := LoginCall(env, w, e, s, k);
    case Refresh(_, _, _) => s' := RefreshCall(env, w, e, s, k);
    case Logout(_) => s' := EndSessionCall(env, w, e, s, k);
    case RevokeSession(_, _) => s' := EndSessionCall(env, w, e, s, k);
    case ChangePassword(_, _, _, _, _) => s' := PasswordCall(env, w, e, s, k);
    case ResetPassword(_, _, _) => s' := PasswordCall(env, w, e, s, k);
    case Bootstrap(_, _, _, _) => s' := NewUserCall(env, w, e, s, k);
    case CreateUser(_, _, _, _, _, _) => s' := NewUserCall(env, w, e, s, k);
    case UpdateUser(_, _, _, _) => s' := UpdateUserCall(env, w, e, s, k);
  }

  // ----- whole runs -----

  /** The grants of the concurrent state are the sessions the first `i` calls opened. */
  ghost predicate GrantsOfRun(env: A.Env, ws: seq<A.World>, es: seq<A.Event>, i: nat, s: P.Sys)
    requires i <= |es| < |ws|
  {
    && (forall k: nat :: k in s.grants <==> k < i && A.Result(env, ws[k], es[k]).Opened?)
    && (forall k: nat :: k in s.grants ==>
          && s.grants[k].user == A.Result(env, ws[k], es[k]).user.id
          && s.grants[k].token == A.Result(env, ws[k], es[k]).token
          && (s.grants[k].presented == None <==> es[k].call.Login?))
  }

  /**
   Every run of whole calls is an interleaving that ends with the same users and tokens, with no
   call in flight, and whose grants are the sessions the calls opened.
   */
  lemma {:induction false} RunIsInterleaving(env: A.Env, ws: seq<A.World>, es: seq<A.Event>, i: nat) returns (s: P.Sys)
    requires A.IsRun(env, ws, es) && i < |ws|
    ensures Leads(env.refreshTtl, P.INITIAL, s) && AtRest(s, ws[i].db) && GrantsOfRun(env, ws, es, i, s)
    ensures forall c :: c in s.used ==> c < i
    decreases i
  {
    hide Leads, AtRest, A.Step, A.Inv, P.Inv, GrantsOfRun, OverFor;
    if i == 0 {
      s := P.INITIAL;
      LeadsNowhere(env.refreshTtl, s);
      InitialAtRest(env, ws, es);
    } else {
      var before := RunIsInterleaving(env, ws, es, i - 1);
      I.ReachableInv(env, ws, es, i - 1);
      LeadsKeepsInv(env.refreshTtl, before);
      s := CallIsSteps(env, ws[i - 1], es[i - 1], before, i - 1);
      LeadsJoin(env.refreshTtl, P.INITIAL, before, s);
      OneMoreCall(env, ws, es, i - 1, before, s);
    }
  }

  lemma InitialAtRest(env: A.Env, ws: seq<A.World>, es: seq<A.Event>)
    requires |es| < |ws|
    ensures AtRest(P.INITIAL, A.EMPTY) && GrantsOfRun(env, ws, es, 0, P.INITIAL)
  {
  }

  lemma OneMoreCall(env: A.Env, ws: seq<A.World>, es: seq<A.Event>, i: nat, s: P.Sys, s': P.Sys)
    requires i < |es| < |ws| && GrantsOfRun(env, ws, es, i, s) && OverFor(env, ws[i], es[i], s, s', i)
    requires forall c :: c in s.used ==> c < i
    ensures AtRest(s', A.Advance(env, ws[i], es[i]).db) && GrantsOfRun(env, ws, es, i + 1, s')
    ensures forall c :: c in s'.used ==> c < i + 1
  {
    hide AtRest, A.Result, A.Advance;
  }

  lemma LeadsKeepsInv(ttl: Time, s: P.Sys)
    requires Leads(ttl, P.INITIAL, s)
    ensures P.Inv(s)
  {
    hide P.Inv;
    var ss, steps :| P.IsPath(ttl, ss, steps) && ss[0] == P.INITIAL && ss[|steps|] == s;
    Q.ReachableInv(ttl, ss, steps, |steps|);
  }

  /** The logins among the first `i` calls that opened a session for this user. */
  ghost function LoginsIn(env: A.Env, ws: seq<A.World>, es: seq<A.Event>, i: nat, user: Id): set<nat>
    requires i <= |es| < |ws|
  {
    set k: nat | k < i && es[k].call.Login? && A.Result(env, ws[k], es[k]).Opened?
                 && A.Result(env, ws[k], es[k]).user.id == user
  }

  lemma LoginsAreGrants(env: A.Env, ws: seq<A.World>, es: seq<A.Event>, i: nat, s: P.Sys, user: Id)
    requires i <= |es| < |ws| && GrantsOfRun(env, ws, es, i, s)
    ensures T.LoginsOf(s, user) == LoginsIn(env, ws, es, i, user)
  {
    hide A.Result;
  }

  lemma ConservationAtRest(ttl: Time, s: P.Sys, db: A.Db, user: Id)
    requires Leads(ttl, P.INITIAL, s) && AtRest(s, db)
    ensures |set id | id in db.tokens && db.tokens[id].userId == user && db.tokens[id].revokedAt == None|
            <= |T.LoginsOf(s, user)|
  {
    hide P.Enabled, P.Apply, T.LoginsOf, P.HandedOut;
    var ss, steps :| P.IsPath(ttl, ss, steps) && ss[0] == P.INITIAL && ss[|steps|] == s;
    T.Conservation(ttl, ss, steps, |steps|, user);
    assert T.PendingOf(s, user) == {};
    assert T.LiveTokens(s, user)
        == set id | id in db.tokens && db.tokens[id].userId == user && db.tokens[id].revokedAt == None;
  }

  /** Conservation for whole calls: a user's unrevoked tokens never outnumber that user's logins. */
  lemma SessionsWithinLogins(env: A.Env, ws: seq<A.World>, es: seq<A.Event>, i: nat, user: Id)
    requires A.IsRun(env, ws, es) && i < |ws|
    ensures var t := ws[i].db.tokens;
            |set id | id in t && t[id].userId == user && t[id].revokedAt == None| <= |LoginsIn(env, ws, es, i, user)|
  {
    hide Leads, AtRest, GrantsOfRun, LoginsIn, A.Step;
    var s := RunIsInterleaving(env, ws, es, i);
    ConservationAtRest(env.refreshTtl, s, ws[i].db, user);
    LoginsAreGrants(env, ws, es, i, s, user);
  }
}
