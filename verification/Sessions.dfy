/** How long a session lives: exactly until a call ends it or its lifetime is over. */
module Sessions {
  import opened Types
  import opened Chains
  import opened Tables
  import opened Phc
  import opened Accounts
  import opened AccountsInvariant
  import opened Effects
  import opened AccountsTheorems

  /** The token is neither revoked nor replaced. */
  ghost predicate Live(t: Table, id: Id) {
    id in t && t[id].revokedAt == None && t[id].replacedBy == None
  }

  /**
   The calls that end a live session: presenting its token, to log out or, in time, to rotate it;
   presenting a rotated token of its chain; revoking it from the owner's list; and for its user a
   password change that spares another session, a reset, or a disable.
   */
  ghost predicate Ends(env: Env, w: World, e: Event, id: Id) {
    var t := w.db.tokens;
    id in t
    && match e.call
       case Logout(presented) => presented == t[id].hash
       case Refresh(presented, _, _) => (presented == t[id].hash && e.now < t[id].expiresAt) || Reuses(t, presented, id)
       case RevokeSession(uid, session) => session == id && uid == t[id].userId && e.now < t[id].expiresAt
       case ChangePassword(uid, current, _, keep, _) =>
         && uid == t[id].userId && keep != Some(id) && uid in w.db.creds
         && Verify(env.kdf, e.hasher, current, w.db.creds[uid].passwordHash).Match?
       case ResetPassword(uid, _, _) => uid == t[id].userId
       case UpdateUser(uid, _, _, status) => uid == t[id].userId && status == Some(Disabled)
       case _ => false
  }

  /** The presented token is a rotated one of this token's chain. */
  ghost predicate Reuses(t: Table, presented: Hash, id: Id) {
    exists a :: a in t && t[a].hash == presented && t[a].replacedBy != None && SameChain(t, a, id)
  }

  lemma RefreshEnds(env: Env, w: World, e: Event, id: Id)
    requires Inv(env, w) && Enabled(w, e) && e.call.Refresh? && Live(w.db.tokens, id)
    ensures var t' := Advance(env, w, e).db.tokens;
            id in t' && if Ends(env, w, e, id) then !Live(t', id) else t'[id] == w.db.tokens[id]
  {
    var t := w.db.tokens;
    assert HashesDistinct(t) && e.call.id !in t;
    hide Inv, Step, SameChain, HashesDistinct;
    if a :| a in t && t[a].hash == e.call.presented {
      RefreshOpensIffLive(env, w, e, a);
      assert forall b :: b in t && t[b].hash == e.call.presented ==> b == a by { UniqueRow(t, a); }
      if !Result(env, w, e).Opened? { RefusedRefreshWrites(env, w, e, a); }
    } else {
      RefreshUnknown(env, w, e);
    }
  }

  lemma UniqueRow(t: Table, a: Id)
    requires HashesDistinct(t) && a in t
    ensures forall b :: b in t && t[b].hash == t[a].hash ==> b == a
  {
  }

  /** A call that ends a live session leaves its token revoked or replaced; every other call leaves its row as it is. */
  lemma EndsIffWritten(env: Env, w: World, e: Event, id: Id)
    requires Inv(env, w) && EnvOk(env) && Enabled(w, e) && Live(w.db.tokens, id)
    ensures var t' := Advance(env, w, e).db.tokens;
            id in t' && if Ends(env, w, e, id) then !Live(t', id) else t'[id] == w.db.tokens[id]
  {
    assert OwnersExist(w.db);
    hide Inv, Step, EnvOk, Usable, Reuses, Verify, SetsCredential;
    match e.call
    case Bootstrap(_, _, _, _) => BootstrapWrites(env, w, e);
    case CreateUser(_, _, _, _, _, _) => CreateUserWrites(env, w, e);
    case Login(_, _, _, _, _, _) => LoginInsertsOneRow(env, w, e);
    case Refresh(_, _, _) => RefreshEnds(env, w, e, id);
    case Logout(_) => LogoutRevokes(env, w, e);
    case UpdateUser(_, _, _, _) => UpdateUserWrites(env, w, e);
    case ChangePassword(_, _, _, _, _) => ChangePasswordWrites(env, w, e);
    case ResetPassword(_, _, _) => ResetPasswordWrites(env, w, e);
    case RevokeSession(_, _) => RevokeSessionRevokes(env, w, e);
  }

  /** An opened session is one live row, with the hash drawn for it and the full lifetime. */
  lemma OpenedIsLive(env: Env, w: World, e: Event)
    requires Inv(env, w) && Enabled(w, e) && Result(env, w, e).Opened?
    ensures var id, t' := Result(env, w, e).token, Advance(env, w, e).db.tokens;
            && (e.call.Login? || e.call.Refresh?) && Live(t', id)
            && t'[id].hash == e.call.hash && t'[id].userId == Result(env, w, e).user.id
            && t'[id].issuedAt == e.now && t'[id].expiresAt == e.now + env.refreshTtl
  {
    hide Inv, RefreshStep, LoginStep, Verify;
    if e.call.Login? {
      LoginInsertsOneRow(env, w, e);
    } else {
      if a :| a in w.db.tokens && w.db.tokens[a].hash == e.call.presented {
        assert OwnersExist(w.db) && UsersKeyed(w.db) by { InvOwners(env, w); }
        RefreshOpensIffLive(env, w, e, a);
      } else {
        RefreshUnknown(env, w, e);
      }
    }
  }

  lemma InvOwners(env: Env, w: World)
    requires Inv(env, w)
    ensures OwnersExist(w.db) && UsersKeyed(w.db)
  {
  }

  /** A session opened at event i is live at state j exactly when no call between the two ended it. */
  lemma {:induction false} LiveIffNotEnded(env: Env, ws: seq<World>, es: seq<Event>, i: nat, j: nat)
    requires IsRun(env, ws, es) && i < j < |ws| && Result(env, ws[i], es[i]).Opened?
    ensures var id := Result(env, ws[i], es[i]).token;
            Live(ws[j].db.tokens, id) <==> forall k :: i < k < j ==> !Ends(env, ws[k], es[k], id)
    decreases j - i
  {
    hide Step, Ends, Inv;
    var id := Result(env, ws[i], es[i]).token;
    if i + 1 == j {
      ReachableInv(env, ws, es, i);
      OpenedIsLive(env, ws[i], es[i]);
    } else {
      LiveIffNotEnded(env, ws, es, i, j - 1);
      ReachableInv(env, ws, es, j - 1);
      if Live(ws[j - 1].db.tokens, id) {
        EndsIffWritten(env, ws[j - 1], es[j - 1], id);
      } else {
        StaysEnded(env, ws, es, i, j, id);
      }
    }
  }

  lemma StaysEnded(env: Env, ws: seq<World>, es: seq<Event>, i: nat, j: nat, id: Id)
    requires IsRun(env, ws, es) && i + 1 < j < |ws| && Result(env, ws[i], es[i]).Opened?
    requires id == Result(env, ws[i], es[i]).token && !Live(ws[j - 1].db.tokens, id)
    ensures !Live(ws[j].db.tokens, id)
  {
    hide Step;
    ReachableInv(env, ws, es, i);
    OpenedIsLive(env, ws[i], es[i]);
    RunContinues(env, ws, es, i + 1, j - 1);
    ReachableInv(env, ws, es, j - 1);
    assert Revoked(ws[j - 1].db.tokens, id);
    RunContinues(env, ws, es, j - 1, j);
  }

  /**
   The token of a session, on whatever device it was opened, refreshes exactly while its lifetime
   runs and no call since has ended the session; otherwise the refresh is refused.
   */
  lemma RefreshOpensIffNotEnded(env: Env, ws: seq<World>, es: seq<Event>, i: nat, j: nat)
    requires IsRun(env, ws, es) && i < j < |es| && Result(env, ws[i], es[i]).Opened?
    requires es[j].call.Refresh? && es[j].call.presented == es[i].call.hash
    ensures var id, out := Result(env, ws[i], es[i]).token, Result(env, ws[j], es[j]);
            && (out.Opened? <==>
                  && es[j].now < es[i].now + env.refreshTtl
                  && forall k :: i < k < j ==> !Ends(env, ws[k], es[k], id))
            && (out.Opened? ==> out.user.id == Result(env, ws[i], es[i]).user.id)
            && (!out.Opened? ==> out == Failed(InvalidSession))
  {
    hide Step, Ends, Inv;
    var id := Result(env, ws[i], es[i]).token;
    ReachableInv(env, ws, es, i);
    OpenedIsLive(env, ws[i], es[i]);
    LiveIffNotEnded(env, ws, es, i, j);
    RunContinues(env, ws, es, i + 1, j);
    ReachableInv(env, ws, es, j);
    InvOwners(env, ws[j]);
    RefreshOpensIffLive(env, ws[j], es[j], id);
  }
}
