/** What runs of whole calls guarantee: permanence of revocation, lifetimes, and the access-token window. */
module AccountsTheorems {
  import opened Types
  import opened Chains
  import opened Tables
  import opened Phc
  import opened Accounts
  import opened AccountsInvariant
  import opened Effects

  // ----- what calls never undo -----

  /** Only the last two fields of a row are ever written. */
  ghost predicate SameSession(r: RefreshToken, r': RefreshToken) {
    r' == r.(revokedAt := r'.revokedAt, replacedBy := r'.replacedBy)
  }

  /** Revoked rows are never written again, no row disappears, and a new link points to a new row. */
  ghost predicate Continues(t: Table, t': Table) {
    && (forall id :: id in t ==> id in t' && SameSession(t[id], t'[id]))
    && (forall id :: Revoked(t, id) ==> id in t' && t'[id] == t[id])
    && (forall y, x :: x in t && Next(t', y) == Some(x) ==> Next(t, y) == Some(x))
  }

  lemma RevokeContinues(t: Table, ids: set<Id>, now: Time)
    ensures Continues(t, RevokeRows(t, ids, now))
  {
  }

  lemma RotateContinues(env: Env, db: Db, tok: RefreshToken, user: User, id: Id, hash: Hash, now: Time)
    requires tok.id in db.tokens && !Revoked(db.tokens, tok.id) && id !in db.tokens
    ensures Continues(db.tokens, RotateStep(env, db, tok, user, id, hash, now).0.tokens)
  {
  }

  lemma RefreshContinues(env: Env, w: World, e: Event)
    requires RowsKeyed(w.db.tokens) && e.call.Refresh? && Enabled(w, e)
    ensures Continues(w.db.tokens, Advance(env, w, e).db.tokens)
  {
    hide RotateStep, Continues, RowsKeyed;
    UntouchedContinues(w.db.tokens);
    FoundByHash(w.db.tokens, e.call.presented);
    var found := TokenByHash(w.db.tokens, e.call.presented);
    if found.Some? {
      var tok := found.value;
      RevokeContinues(w.db.tokens, Closure(w.db.tokens, tok.id), e.now);
      RevokeContinues(w.db.tokens, {tok.id}, e.now);
      if tok.IsActive(e.now) && tok.userId in w.db.users {
        RotateContinues(env, w.db, tok, w.db.users[tok.userId], e.call.id, e.call.hash, e.now);
      }
    }
  }

  lemma UntouchedContinues(t: Table)
    ensures Continues(t, t)
  {
  }

  lemma StepContinues(env: Env, w: World, e: Event)
    requires RowsKeyed(w.db.tokens) && Enabled(w, e)
    ensures Continues(w.db.tokens, Advance(env, w, e).db.tokens)
  {
    hide RowsKeyed, Continues, LoginStep, RefreshStep;
    hide BootstrapStep, CreateUserStep, ChangePasswordStep, ResetPasswordStep;
    UntouchedContinues(w.db.tokens);
    match e.call
    case Refresh(_, _, _) => RefreshContinues(env, w, e);
    case Login(_, _, _, _, _, _) => LoginContinues(env, w, e);
    case Logout(presented) =>
      var found := TokenByHash(w.db.tokens, presented);
      if found.Some? { RevokeContinues(w.db.tokens, {found.value.id}, e.now); }
    case UpdateUser(uid, _, _, _) => RevokeContinues(w.db.tokens, UserRows(w.db.tokens, uid, None), e.now);
    case RevokeSession(_, session) => RevokeContinues(w.db.tokens, {session}, e.now);
    case _ => PasswordContinues(env, w, e);
  }

  lemma LoginContinues(env: Env, w: World, e: Event)
    requires e.call.Login? && Enabled(w, e)
    ensures Continues(w.db.tokens, Advance(env, w, e).db.tokens)
  {
    hide Continues, Verify, HashPassword, NewToken;
    UntouchedContinues(w.db.tokens);
    var c := e.call;
    var found := UserByName(env.fold, w.db.users, c.username);
    if found.Some? {
      InsertContinues(w.db.tokens, c.id, found.value.id, c.hash, c.device, e.now, env.refreshTtl);
    }
  }

  lemma InsertContinues(t: Table, id: Id, user: Id, hash: Hash, device: string, now: Time, ttl: Time)
    requires id !in t
    ensures Continues(t, Insert(t, NewToken(id, user, hash, device, now, ttl)))
  {
  }

  lemma PasswordContinues(env: Env, w: World, e: Event)
    requires e.call.ChangePassword? || e.call.ResetPassword? || e.call.Bootstrap? || e.call.CreateUser?
    ensures Continues(w.db.tokens, Advance(env, w, e).db.tokens)
  {
    hide Continues;
    var c := e.call;
    UntouchedContinues(w.db.tokens);
    if c.ChangePassword? { RevokeContinues(w.db.tokens, UserRows(w.db.tokens, c.uid, c.keep), e.now); }
    if c.ResetPassword? { RevokeContinues(w.db.tokens, UserRows(w.db.tokens, c.uid, None), e.now); }
  }

  lemma ContinuesTransitive(t: Table, u: Table, v: Table)
    requires Continues(t, u) && Continues(u, v)
    ensures Continues(t, v)
  {
  }

  lemma {:induction false} RunContinues(env: Env, ws: seq<World>, es: seq<Event>, i: nat, j: nat)
    requires IsRun(env, ws, es) && i <= j < |ws|
    ensures Continues(ws[i].db.tokens, ws[j].db.tokens)
    decreases j - i
  {
    hide Step;
    if i < j {
      RunContinues(env, ws, es, i, j - 1);
      ReachableInv(env, ws, es, j - 1);
      StepContinues(env, ws[j - 1], es[j - 1]);
      ContinuesTransitive(ws[i].db.tokens, ws[j - 1].db.tokens, ws[j].db.tokens);
    }
  }

  // ----- dead chains -----

  lemma {:induction false} HopsOfDead(t: Table, t': Table, a: Id, n: nat)
    requires TargetsExist(t) && Continues(t, t') && a in t && ChainDead(t, a)
    ensures Hop(t', a, n) == Hop(t, a, n)
  {
    if n > 0 {
      HopsOfDead(t, t', a, n - 1);
      if Hop(t, a, n - 1).Some? {
        var x := Hop(t, a, n - 1).value;
        HopStaysInTable(t, a, n - 1);
        assert SameChain(t, a, x);
        HopAdd(t, a, n - 1, 1);
        HopAdd(t', a, n - 1, 1);
        assert Next(t', x) == Next(t, x);
      } else {
        if Hop(t, a, n).Some? { HopPrefix(t, a, n - 1, n); }
        if Hop(t', a, n).Some? { HopPrefix(t', a, n - 1, n); }
      }
    }
  }

  lemma {:induction false} HopsIntoOld(t: Table, t': Table, y: Id, a: Id, n: nat)
    requires TargetsExist(t) && Continues(t, t') && a in t && Hop(t', y, n) == Some(a)
    ensures Hop(t, y, n) == Some(a)
    decreases n
  {
    if n > 0 {
      HopLast(t', y, n - 1);
      var x := Hop(t', y, n - 1).value;
      HopsIntoOld(t, t', y, x, n - 1);
      HopAdd(t, y, n - 1, 1);
      assert Hop(t, a, 0) == Some(a);
    }
  }

  /** A dead chain is frozen: the same tokens, with the same rows, in the same order, from then on. */
  lemma DeadChainFrozen(t: Table, t': Table, a: Id)
    requires Sound(t) && Continues(t, t') && a in t && ChainDead(t, a)
    ensures ChainDead(t', a)
    ensures forall x :: SameChain(t', a, x) <==> SameChain(t, a, x)
    ensures forall x :: x in t && SameChain(t, a, x) ==> t'[x] == t[x]
  {
    forall x: Id ensures Reaches(t', a, x) <==> Reaches(t, a, x) {
      forall n: nat ensures Hop(t', a, n) == Hop(t, a, n) { HopsOfDead(t, t', a, n); }
    }
    forall x: Id ensures Reaches(t', x, a) ==> Reaches(t, x, a) {
      if n: nat :| Hop(t', x, n) == Some(a) { HopsIntoOld(t, t', x, a, n); }
    }
    forall x: Id ensures Reaches(t, x, a) ==> Reaches(t', x, a) {
      if n: nat :| Hop(t, x, n) == Some(a) { AncestorsSurvive(t, t', x, a, n); }
    }
    forall x | x in t' && SameChain(t', a, x) ensures Revoked(t', x) {
      ChainInTable(t, a, x);
    }
  }

  lemma {:induction false} AncestorsSurvive(t: Table, t': Table, x: Id, a: Id, n: nat)
    requires ReplacedIsRevoked(t) && Continues(t, t') && Hop(t, x, n) == Some(a)
    ensures Hop(t', x, n) == Some(a)
    decreases n
  {
    if n > 0 {
      assert Revoked(t, x);
      AncestorsSurvive(t, t', Next(t, x).value, a, n - 1);
    }
  }

  // ----- refreshing with revoked tokens -----

  /** A token revoked at any point of a run is never active again and never refreshes. */
  lemma RevocationIsFinal(env: Env, ws: seq<World>, es: seq<Event>, i: nat, j: nat, id: Id)
    requires IsRun(env, ws, es) && i <= j < |ws| && Revoked(ws[i].db.tokens, id)
    ensures id in ws[j].db.tokens && ws[j].db.tokens[id] == ws[i].db.tokens[id]
    ensures j < |es| && es[j].call.Refresh? && es[j].call.presented == ws[i].db.tokens[id].hash
            ==> Result(env, ws[j], es[j]) == Failed(InvalidSession)
  {
    RunContinues(env, ws, es, i, j);
    ReachableInv(env, ws, es, j);
    UniqueHash(ws[j].db.tokens, id);
  }

  /**
   Reuse is final: after a refresh with an already rotated token, no continuation of the run makes
   any token of that chain active, adds a token to the chain, or lets a refresh on any member succeed.
   */
  lemma ReuseIsFinal(env: Env, ws: seq<World>, es: seq<Event>, i: nat, j: nat, a: Id, x: Id)
    requires IsRun(env, ws, es) && i < j < |ws| && a in ws[i].db.tokens && ws[i].db.tokens[a].replacedBy.Some?
    requires es[i].call.Refresh? && es[i].call.presented == ws[i].db.tokens[a].hash
    ensures SameChain(ws[j].db.tokens, a, x) <==> SameChain(ws[i].db.tokens, a, x)
    ensures x in ws[i].db.tokens && SameChain(ws[i].db.tokens, a, x) ==> Revoked(ws[j].db.tokens, x)
    ensures x in ws[i].db.tokens && SameChain(ws[i].db.tokens, a, x) && j < |es| && es[j].call.Refresh?
              && es[j].call.presented == ws[i].db.tokens[x].hash
            ==> Result(env, ws[j], es[j]) == Failed(InvalidSession)
  {
    var t, t1 := ws[i].db.tokens, ws[i + 1].db.tokens;
    ReachableInv(env, ws, es, i);
    ReachableInv(env, ws, es, i + 1);
    UniqueHash(t, a);
    assert t1 == RevokeRows(t, Closure(t, a), es[i].now);
    hide Inv, Step;
    ForwardWalkKillsChain(t, a, es[i].now);
    RevokeKeepsLinks(t, Closure(t, a), es[i].now);
    SameChainSameLinks(t, t1, a, x);
    RunContinues(env, ws, es, i + 1, j);
    DeadChainFrozen(t1, ws[j].db.tokens, a);
    if x in t && SameChain(t, a, x) {
      RevocationIsFinal(env, ws, es, i + 1, j, x);
    }
  }

  /** The call asks for this session to be ended, by its token, its id or its user. */
  ghost predicate SignsOutSession(t: Table, c: Call, id: Id) {
    id in t
    && match c
       case Logout(presented) => presented == t[id].hash
       case RevokeSession(uid, session) => session == id
       case ChangePassword(uid, _, _, keep, _) => uid == t[id].userId && keep != Some(id)
       case ResetPassword(uid, _, _) => uid == t[id].userId
       case UpdateUser(uid, _, _, status) => uid == t[id].userId && status == Some(Disabled)
       case _ => false
  }

  /** A call that asks for a session to be ended and does not fail leaves its token revoked. */
  lemma SignOutRevokes(env: Env, w: World, e: Event, id: Id)
    requires Inv(env, w) && EnvOk(env) && Enabled(w, e)
    requires SignsOutSession(w.db.tokens, e.call, id) && !Result(env, w, e).Failed?
    ensures Revoked(Advance(env, w, e).db.tokens, id)
  {
    assert OwnersExist(w.db);
    hide Inv, Step, EnvOk, Usable, SetsCredential;
    match e.call
    case Logout(_) => LogoutRevokes(env, w, e);
    case RevokeSession(_, _) => RevokeSessionRevokes(env, w, e);
    case ChangePassword(_, _, _, _, _) => ChangePasswordWrites(env, w, e);
    case ResetPassword(_, _, _) => ResetPasswordWrites(env, w, e);
    case UpdateUser(_, _, _, _) => UpdateUserWrites(env, w, e);
  }

  /**
   A session ended by a logout, a revocation, a reset, another session's password change or a
   disable never refreshes again.
   */
  lemma SignedOutForGood(env: Env, ws: seq<World>, es: seq<Event>, i: nat, j: nat, id: Id)
    requires IsRun(env, ws, es) && i < j < |es|
    requires SignsOutSession(ws[i].db.tokens, es[i].call, id) && !Result(env, ws[i], es[i]).Failed?
    requires es[j].call.Refresh? && es[j].call.presented == ws[i].db.tokens[id].hash
    ensures Result(env, ws[j], es[j]) == Failed(InvalidSession)
  {
    hide Step;
    ReachableInv(env, ws, es, i);
    RunContinues(env, ws, es, i, i + 1);
    SignOutRevokes(env, ws[i], es[i], id);
    RevocationIsFinal(env, ws, es, i + 1, j, id);
  }

  /** In every reachable state a disabled user has no unrevoked token. */
  lemma DisabledHasNoLiveToken(env: Env, ws: seq<World>, es: seq<Event>, i: nat, id: Id)
    requires IsRun(env, ws, es) && i < |ws| && id in ws[i].db.tokens
    ensures var owner := ws[i].db.tokens[id].userId;
            && owner in ws[i].db.users
            && (ws[i].db.users[owner].status == Disabled ==> ws[i].db.tokens[id].revokedAt.Some?)
  {
    ReachableInv(env, ws, es, i);
  }

  /** A disable is final for the tokens issued before it: none refreshes again, even after re-enabling. */
  lemma DisableIsFinal(env: Env, ws: seq<World>, es: seq<Event>, i: nat, j: nat, id: Id)
    requires IsRun(env, ws, es) && i < j < |es| && id in ws[i].db.tokens
    requires es[i].call.UpdateUser? && es[i].call.uid == ws[i].db.tokens[id].userId
    requires es[i].call.status == Some(Disabled)
    requires es[j].call.Refresh? && es[j].call.presented == ws[i].db.tokens[id].hash
    ensures Result(env, ws[j], es[j]) == Failed(InvalidSession)
  {
    hide Step;
    ReachableInv(env, ws, es, i);
    UpdateUserWrites(env, ws[i], es[i]);
    SignedOutForGood(env, ws, es, i, j, id);
  }

  // ----- lifetimes along a chain -----

  /**
   Issue and expiry times never decrease along a chain, and the k-th successor expires no later
   than (k + 1) lifetimes after the first was issued.
   */
  lemma {:induction false} SlidingExpiry(env: Env, w: World, a: Id, k: nat)
    requires Inv(env, w) && a in w.db.tokens && Hop(w.db.tokens, a, k).Some?
    ensures var b := Hop(w.db.tokens, a, k).value;
            && b in w.db.tokens
            && w.db.tokens[a].issuedAt <= w.db.tokens[b].issuedAt
            && w.db.tokens[a].expiresAt <= w.db.tokens[b].expiresAt
            && w.db.tokens[b].expiresAt <= w.db.tokens[a].issuedAt + (k + 1) * env.refreshTtl
  {
    if k > 0 {
      HopLast(w.db.tokens, a, k - 1);
      SlidingExpiry(env, w, a, k - 1);
      HopStaysInTable(w.db.tokens, a, k);
      assert (k + 1) * env.refreshTtl == k * env.refreshTtl + env.refreshTtl;
    }
  }

  // ----- the revocation window of access tokens -----

  lemma {:induction false} ClockMonotone(env: Env, ws: seq<World>, es: seq<Event>, i: nat, j: nat)
    requires IsRun(env, ws, es) && i <= j < |ws|
    ensures ws[i].clock <= ws[j].clock
    decreases j - i
  {
    if i < j { ClockMonotone(env, ws, es, i, j - 1); }
  }

  /** A user's row is kept by every call but an update of that user, and is never removed. */
  lemma OnlyUpdateWritesUser(env: Env, w: World, e: Event, uid: Id)
    requires Inv(env, w) && EnvOk(env) && Enabled(w, e) && uid in w.db.users
    ensures var users' := Advance(env, w, e).db.users;
            uid in users' && ((e.call.UpdateUser? && e.call.uid == uid) || users'[uid] == w.db.users[uid])
  {
    hide Inv, Step, EnvOk, Usable;
    match e.call
    case Bootstrap(_, _, _, _) => BootstrapWrites(env, w, e);
    case CreateUser(_, _, _, _, _, _) => CreateUserWrites(env, w, e);
    case Login(_, _, _, _, _, _) => LoginInsertsOneRow(env, w, e);
    case Refresh(presented, _, _) =>
      if id :| id in w.db.tokens && w.db.tokens[id].hash == presented {
        RefreshOpensIffLive(env, w, e, id);
      } else {
        RefreshUnknown(env, w, e);
      }
    case Logout(_) => LogoutRevokes(env, w, e);
    case UpdateUser(_, _, _, _) => UpdateUserWrites(env, w, e);
    case ChangePassword(_, _, _, _, _) => ChangePasswordWrites(env, w, e);
    case ResetPassword(_, _, _) => ResetPasswordWrites(env, w, e);
    case RevokeSession(_, _) => RevokeSessionRevokes(env, w, e);
  }

  /** The call gives the user this status, or this role. */
  predicate Gives(c: Call, uid: Id, role: Option<Role>, status: Option<Status>) {
    && c.UpdateUser? && c.uid == uid
    && ((role.Some? && c.role == role) || (status.Some? && c.status == status))
  }

  /** From a disable, or a demotion, on until it is undone the user's row says so. */
  lemma {:induction false} StandingKept(env: Env, ws: seq<World>, es: seq<Event>, i: nat, k: nat, uid: Id)
    requires IsRun(env, ws, es) && i < k < |ws| && uid in ws[i].db.users
    ensures uid in ws[k].db.users
    ensures Gives(es[i].call, uid, None, Some(Disabled))
              && (forall m :: i < m < k ==> !Gives(es[m].call, uid, None, Some(Active)))
            ==> ws[k].db.users[uid].status == Disabled
    ensures Gives(es[i].call, uid, Some(Member), None)
              && (forall m :: i < m < k ==> !Gives(es[m].call, uid, Some(Admin), None))
            ==> ws[k].db.users[uid].role == Member
    decreases k - i
  {
    hide Step;
    ReachableInv(env, ws, es, k - 1);
    if i < k - 1 { StandingKept(env, ws, es, i, k - 1, uid); }
    OnlyUpdateWritesUser(env, ws[k - 1], es[k - 1], uid);
    if es[k - 1].call.UpdateUser? { UpdateUserWrites(env, ws[k - 1], es[k - 1]); }
  }

  /**
   After a disable that is not undone, no access token of the user, whenever in the run it was
   minted, verifies at or after that instant plus the access-token lifetime.
   */
  lemma DisabledWindow(env: Env, ws: seq<World>, es: seq<Event>, i: nat, uid: Id, j: nat, at: Time)
    requires IsRun(env, ws, es) && i < |es| && j < |es| && at >= es[i].now + env.accessTtl
    requires uid in ws[i].db.users && Gives(es[i].call, uid, None, Some(Disabled))
    requires forall k :: i < k < |es| ==> !Gives(es[k].call, uid, None, Some(Active))
    requires Result(env, ws[j], es[j]).Opened? && Result(env, ws[j], es[j]).access.subject == uid
    ensures !Verifies(Result(env, ws[j], es[j]).access, at)
  {
    hide Step;
    ReachableInv(env, ws, es, j);
    AccessTokenDescribesUser(env, ws[j], es[j]);
    if i < j { StandingKept(env, ws, es, i, j, uid); } else { ClockMonotone(env, ws, es, j + 1, i + 1); }
  }

  /** Likewise for the admin role: no token carrying it verifies past the window of a demotion that is not undone. */
  lemma DemotedWindow(env: Env, ws: seq<World>, es: seq<Event>, i: nat, uid: Id, j: nat, at: Time)
    requires IsRun(env, ws, es) && i < |es| && j < |es| && at >= es[i].now + env.accessTtl
    requires uid in ws[i].db.users && Gives(es[i].call, uid, Some(Member), None)
    requires forall k :: i < k < |es| ==> !Gives(es[k].call, uid, Some(Admin), None)
    requires Result(env, ws[j], es[j]).Opened? && Result(env, ws[j], es[j]).access.subject == uid
    ensures Admin in Result(env, ws[j], es[j]).access.roles ==> !Verifies(Result(env, ws[j], es[j]).access, at)
  {
    hide Step;
    ReachableInv(env, ws, es, j);
    AccessTokenDescribesUser(env, ws[j], es[j]);
    if i < j { StandingKept(env, ws, es, i, j, uid); } else { ClockMonotone(env, ws, es, j + 1, i + 1); }
  }
}
