/**
 What each call does, stated on the rows before and after it and on what it returns: which rows
 change, to what, and that nothing else does.
 */
module Effects {
  import opened Types
  import opened Base64
  import opened Chains
  import opened Tables
  import opened Phc
  import opened Accounts
  import opened AccountsInvariant

  // ----- refresh -----

  lemma UniqueHash(t: Table, id: Id)
    requires RowsKeyed(t) && HashesDistinct(t) && id in t
    ensures TokenByHash(t, t[id].hash) == Some(t[id])
  {
    FoundByHash(t, t[id].hash);
    assert HasHash(t, id, t[id].hash);
  }

  /** A refresh with a string that matches no row is refused and writes nothing. */
  lemma RefreshUnknown(env: Env, w: World, e: Event)
    requires e.call.Refresh? && forall id :: id in w.db.tokens ==> w.db.tokens[id].hash != e.call.presented
    ensures Result(env, w, e) == Failed(InvalidSession) && Advance(env, w, e).db == w.db
  {
  }

  /**
   A refresh opens a session exactly for a token that is neither revoked nor replaced nor expired,
   whose user is then active. It adds one row for the same user and device, revokes and links the
   presented one, and writes nothing else; it returns the user and the must-change flag as stored.
   */
  lemma RefreshOpensIffLive(env: Env, w: World, e: Event, id: Id)
    requires Inv(env, w) && Enabled(w, e) && e.call.Refresh?
    requires id in w.db.tokens && w.db.tokens[id].hash == e.call.presented
    ensures var t, db', out, c := w.db.tokens, Advance(env, w, e).db, Result(env, w, e), e.call;
            var owner := t[id].userId;
            && owner in w.db.users && db'.users == w.db.users && db'.creds == w.db.creds
            && (out.Opened? <==> t[id].revokedAt == None && t[id].replacedBy == None && e.now < t[id].expiresAt)
            && (!out.Opened? ==> out == Failed(InvalidSession))
            && (out.Opened? ==>
                  && w.db.users[owner].status == Active && out.user == w.db.users[owner] && out.token == c.id
                  && out.mustChange == (owner in w.db.creds && w.db.creds[owner].mustChange)
                  && db'.tokens == t[id := t[id].(revokedAt := Some(e.now), replacedBy := Some(c.id))]
                                    [c.id := RefreshToken(c.id, owner, c.hash, t[id].device,
                                                          e.now, e.now + env.refreshTtl, None, None)])
  {
    UniqueHash(w.db.tokens, id);
    assert w.db.tokens[id].device != Some("") && w.db.tokens[id].id == id && OwnersExist(w.db) && UsersKeyed(w.db);
    assert DisabledLockedOut(w.db);
    hide Inv, TokenByHash, Closure;
  }

  /**
   A refused refresh writes nothing, unless the presented token was rotated: then it revokes the
   unrevoked tokens of that token's chain and writes nothing else.
   */
  lemma RefusedRefreshWrites(env: Env, w: World, e: Event, id: Id)
    requires Inv(env, w) && Enabled(w, e) && e.call.Refresh? && !Result(env, w, e).Opened?
    requires id in w.db.tokens && w.db.tokens[id].hash == e.call.presented
    ensures var t, t' := w.db.tokens, Advance(env, w, e).db.tokens;
            && t'.Keys == t.Keys
            && (t[id].replacedBy == None ==> t' == t)
            && (t[id].replacedBy != None ==>
                  forall x :: x in t ==>
                    t'[x] == if t[x].revokedAt == None && SameChain(t, id, x)
                             then t[x].(revokedAt := Some(e.now)) else t[x])
  {
    var t, t' := w.db.tokens, Advance(env, w, e).db.tokens;
    UniqueHash(t, id);
    RefreshOpensIffLive(env, w, e, id);
    assert ReplacedIsRevoked(t) && t[id].id == id;
    if t[id].replacedBy != None {
      assert t' == RevokeRows(t, Closure(t, id), e.now);
      forall x | x in t && t[x].revokedAt == None ensures x in Closure(t, id) <==> SameChain(t, id, x) {
        if x != id && Reaches(t, x, id) { AncestorsRevoked(t, id, x); }
      }
    }
  }

  // ----- access tokens -----

  lemma OpenedForStoredUser(env: Env, w: World, e: Event)
    requires Inv(env, w) && Result(env, w, e).Opened?
    ensures var out := Result(env, w, e);
            && out.user.id in w.db.users && out.user == w.db.users[out.user.id] && out.user.status == Active
            && out.access == Mint(env, out.user, e.now)
  {
    assert RowsKeyed(w.db.tokens) && UsersKeyed(w.db);
    hide Inv, Verify, OpenSession, SetCredential, Mint, RowsKeyed;
    if e.call.Login? {
      FoundByName(env, w.db, e.call.username);
    } else {
      FoundByHash(w.db.tokens, e.call.presented);
    }
  }

  /**
   An access token names the user it was opened for, with the user name and the one role stored
   at that moment, is dated to the whole second, and verifies from then on until, to within a
   second, its lifetime is over.
   */
  lemma AccessTokenDescribesUser(env: Env, w: World, e: Event)
    requires Inv(env, w) && Result(env, w, e).Opened?
    ensures var out := Result(env, w, e);
            && out.user.id in w.db.users && out.user == w.db.users[out.user.id] && out.user.status == Active
            && out.access.subject == out.user.id && out.access.username == out.user.username
            && out.access.roles == [out.user.role]
            && out.access.issuedAt <= e.now < out.access.issuedAt + 1_000_000_000
            && out.access.issuedAt % 1_000_000_000 == 0
            && (forall at :: at <= e.now + env.accessTtl - 1_000_000_000 ==> Verifies(out.access, at))
            && (forall at :: at >= e.now + env.accessTtl ==> !Verifies(out.access, at))
  {
    hide Inv, Result;
    OpenedForStoredUser(env, w, e);
  }

  // ----- login -----

  /**
   A login that opens a session adds one row for the user, an empty device name as absent; a login
   that is refused writes nothing.
   */
  lemma LoginInsertsOneRow(env: Env, w: World, e: Event)
    requires e.call.Login?
    ensures var c, db', out := e.call, Advance(env, w, e).db, Result(env, w, e);
            && (!out.Opened? ==> db' == w.db)
            && db'.users == w.db.users
            && (out.Opened? ==>
                  && out.token == c.id
                  && var device := if c.device == "" then None else Some(c.device);
                  && var row := RefreshToken(c.id, out.user.id, c.hash, device, e.now, e.now + env.refreshTtl,
                                             None, None);
                  && db'.tokens == w.db.tokens[c.id := row])
  {
    hide Verify, HashPassword;
  }

  /**
   The lazy rehash: after a login that opens a session, the stored hash verifies the password just
   presented and asks for no rehash under the current parameters, with its flag kept. A hash that
   asked for none is left alone, and so is every other user's.
   */
  lemma LoginLeavesStrongHash(env: Env, w: World, e: Event)
    requires EnvOk(env) && UsersKeyed(w.db) && e.call.Login? && Usable(e.hasher) && Result(env, w, e).Opened?
    ensures var creds, creds', uid := w.db.creds, Advance(env, w, e).db.creds, Result(env, w, e).user.id;
            && uid in creds && creds'.Keys == creds.Keys
            && Verify(env.kdf, e.hasher, e.call.password, creds[uid].passwordHash).Match?
            && Verify(env.kdf, e.hasher, e.call.password, creds'[uid].passwordHash) == Match(false)
            && creds'[uid].mustChange == creds[uid].mustChange
            && (Verify(env.kdf, e.hasher, e.call.password, creds[uid].passwordHash) == Match(false) ==> creds' == creds)
            && (forall u :: u in creds && u != uid ==> creds'[u] == creds[u])
  {
    FoundByName(env, w.db, e.call.username);
    hide Verify, HashPassword, OpenSession, UserByName;
    RehashSettles(env.kdf, e.hasher, e.call.salt, e.call.password);
  }

  // ----- logout and revoking a session -----

  /** Logging out revokes the presented token and no other row; an unknown token is a no-op. It always succeeds. */
  lemma LogoutRevokes(env: Env, w: World, e: Event)
    requires Inv(env, w) && e.call.Logout?
    ensures var t, db' := w.db.tokens, Advance(env, w, e).db;
            && Result(env, w, e) == Done
            && db'.users == w.db.users && db'.creds == w.db.creds && db'.tokens.Keys == t.Keys
            && forall x :: x in t ==>
                 db'.tokens[x] == if t[x].hash == e.call.presented && t[x].revokedAt == None
                                  then t[x].(revokedAt := Some(e.now)) else t[x]
  {
    var t := w.db.tokens;
    assert RowsKeyed(t) && HashesDistinct(t);
    FoundByHash(t, e.call.presented);
    hide Inv, TokenByHash;
  }

  /** Revoking a session succeeds exactly for one of the user's own live tokens, and then revokes that row alone. */
  lemma RevokeSessionRevokes(env: Env, w: World, e: Event)
    requires e.call.RevokeSession?
    ensures var t, db', out, c := w.db.tokens, Advance(env, w, e).db, Result(env, w, e), e.call;
            && (out == Done <==>
                  && c.session in t && t[c.session].userId == c.uid && t[c.session].revokedAt == None
                  && t[c.session].replacedBy == None && e.now < t[c.session].expiresAt)
            && (out != Done ==> out == Failed(NotFound) && db' == w.db)
            && (out == Done ==>
                  db' == w.db.(tokens := t[c.session := t[c.session].(revokedAt := Some(e.now))]))
  {
  }

  // ----- users -----

  /** What an update gives a field: the value named, or the one it had. */
  function Given<T>(value: Option<T>, before: T): T {
    match value
    case None => before
    case Some(v) => v
  }

  /**
   An update of an existing user gives every named field its value, keeps the others and returns
   the new row; a disable also revokes all of the user's tokens. Nothing else is written, and
   nothing at all for an unknown user.
   */
  lemma UpdateUserWrites(env: Env, w: World, e: Event)
    requires e.call.UpdateUser?
    ensures var db, db', out, c := w.db, Advance(env, w, e).db, Result(env, w, e), e.call;
            && (c.uid !in db.users ==> out == Failed(NotFound) && db' == db)
            && (c.uid in db.users ==>
                  && var u := db.users[c.uid];
                  && db'.users == db.users[c.uid := User(u.id, u.username, Given(c.displayName, u.displayName), u.email,
                                                         Given(c.role, u.role), Given(c.status, u.status))]
                  && out == Account(db'.users[c.uid]) && db'.creds == db.creds && db'.tokens.Keys == db.tokens.Keys
                  && forall x :: x in db.tokens ==>
                       db'.tokens[x] ==
                         if c.status == Some(Disabled) && db.tokens[x].userId == c.uid && db.tokens[x].revokedAt == None
                         then db.tokens[x].(revokedAt := Some(e.now)) else db.tokens[x])
  {
  }

  /** The credential accepts this password, asks for no rehash and has this flag. */
  ghost predicate Accepts(env: Env, h: Params, cred: Credential, password: string, mustChange: bool) {
    Verify(env.kdf, h, password, cred.passwordHash) == Match(false) && cred.mustChange == mustChange
  }

  /** The credentials differ only in this user's, which now accepts this password. */
  ghost predicate SetsCredential(env: Env, h: Params, db: Db, db': Db, uid: Id, password: string, mustChange: bool) {
    && db'.creds.Keys == db.creds.Keys + {uid}
    && (forall u :: u in db.creds && u != uid ==> db'.creds[u] == db.creds[u])
    && Accepts(env, h, db'.creds[uid], password, mustChange)
  }

  /**
   Creation is refused exactly for a name taken up to case, without a write; otherwise it adds one
   active user of the given role, who can log in with the temporary password and must change it.
   */
  lemma CreateUserWrites(env: Env, w: World, e: Event)
    requires EnvOk(env) && Usable(e.hasher) && e.call.CreateUser?
    ensures var db, db', out, c := w.db, Advance(env, w, e).db, Result(env, w, e), e.call;
            var taken := exists id :: id in db.users && env.fold(db.users[id].username) == env.fold(c.username);
            && (taken ==> out == Failed(DuplicateUsername) && db' == db)
            && (!taken ==>
                  && out == TemporaryPassword(c.uid, c.temp) && db'.tokens == db.tokens
                  && db'.users == db.users[c.uid := User(c.uid, c.username, c.name, None, c.newRole, Active)]
                  && SetsCredential(env, e.hasher, db, db', c.uid, c.temp, true))
  {
    hide Step, Verify, HashPassword, DerivesFullKeys, Usable, HasName;
    CreateUserAdds(env, e.hasher, w.db, e.call, e.now);
    NameTaken(env, w.db, e.call.username);
    RehashSettles(env.kdf, e.hasher, e.call.salt, e.call.temp);
  }

  lemma NameTaken(env: Env, db: Db, name: string)
    ensures (exists id :: HasName(env.fold, db.users, id, name)) <==>
            exists id :: id in db.users && env.fold(db.users[id].username) == env.fold(name)
  {
    if id :| id in db.users && env.fold(db.users[id].username) == env.fold(name) {
      assert HasName(env.fold, db.users, id, name);
    }
  }

  /** Bootstrap acts once: on a store without users, for a name and a password, it creates the first administrator. */
  lemma BootstrapWrites(env: Env, w: World, e: Event)
    requires EnvOk(env) && Usable(e.hasher) && e.call.Bootstrap?
    ensures var db, db', out, c := w.db, Advance(env, w, e).db, Result(env, w, e), e.call;
            && (c.username == "" || db.users != map[] ==> out == Done && db' == db)
            && (c.username != "" && db.users == map[] && c.password == "" ==>
                  out == Failed(BootstrapNeedsPassword) && db' == db)
            && (c.username != "" && db.users == map[] && c.password != "" ==>
                  && out == Done && db'.tokens == db.tokens
                  && db'.users == map[c.uid := User(c.uid, c.username, c.username, None, Admin, Active)]
                  && SetsCredential(env, e.hasher, db, db', c.uid, c.password, true))
  {
    hide Verify, HashPassword;
    RehashSettles(env.kdf, e.hasher, e.call.salt, e.call.password);
    assert |w.db.users| == 0 <==> w.db.users == map[];
  }

  // ----- passwords -----

  /** The user's unrevoked tokens, but the spared one, are revoked; no other row changes. */
  ghost predicate SignsOut(t: Table, t': Table, uid: Id, spared: Option<Id>, now: Time) {
    && t'.Keys == t.Keys
    && forall x :: x in t ==>
         t'[x] == if t[x].userId == uid && t[x].revokedAt == None && spared != Some(x)
                  then t[x].(revokedAt := Some(now)) else t[x]
  }

  /**
   A reset succeeds exactly for an existing user: it sets the temporary password, to be changed,
   and signs the user out everywhere. Otherwise nothing is written.
   */
  lemma ResetPasswordWrites(env: Env, w: World, e: Event)
    requires EnvOk(env) && Usable(e.hasher) && e.call.ResetPassword?
    ensures var db, db', out, c := w.db, Advance(env, w, e).db, Result(env, w, e), e.call;
            && (c.uid !in db.users ==> out == Failed(NotFound) && db' == db)
            && (c.uid in db.users ==>
                  && out == TemporaryPassword(c.uid, c.temp) && db'.users == db.users
                  && SetsCredential(env, e.hasher, db, db', c.uid, c.temp, true)
                  && SignsOut(db.tokens, db'.tokens, c.uid, None, e.now))
  {
    hide Verify, HashPassword;
    RehashSettles(env.kdf, e.hasher, e.call.salt, e.call.temp);
  }

  /**
   A password change that succeeds sets the new password, not to be changed, and signs out every
   other session of the user; one that is refused writes nothing.
   */
  lemma ChangePasswordWrites(env: Env, w: World, e: Event)
    requires EnvOk(env) && Usable(e.hasher) && e.call.ChangePassword?
    ensures var db, db', out, c := w.db, Advance(env, w, e).db, Result(env, w, e), e.call;
            && (out != Done ==> db' == db)
            && (c.uid !in db.creds ==> out == Failed(NotFound))
            && (c.uid in db.creds ==>
                  && var verdict := Verify(env.kdf, e.hasher, c.current, db.creds[c.uid].passwordHash);
                  && (out == Done <==> verdict.Match?)
                  && (verdict.WrongPassword? ==> out == Failed(InvalidCredentials))
                  && (verdict.BadHash? ==> out == Failed(UnreadableHash(verdict.reason))))
            && (out == Done ==>
                  && db'.users == db.users
                  && SetsCredential(env, e.hasher, db, db', c.uid, c.newPassword, false)
                  && SignsOut(db.tokens, db'.tokens, c.uid, c.keep, e.now))
  {
    hide Verify, HashPassword;
    RehashSettles(env.kdf, e.hasher, e.call.salt, e.call.newPassword);
  }
}
