/**
 The service: each call as the sequence of store calls it makes, proved to be one step of the
 model of whole calls. Random draws and the clock reading are arguments.
 */
module Service {
  import opened Types
  import opened Base64
  import opened Chains
  import opened Tables
  import opened Phc
  import opened Accounts
  import opened AccountsInvariant
  import opened Fake

  /** One active session as the sessions page shows it. */
  datatype SessionInfo = SessionInfo(id: Id, device: Option<string>, issuedAt: Time, expiresAt: Time, current: bool)

  predicate Describes(info: SessionInfo, tok: RefreshToken) {
    info.id == tok.id && info.device == tok.device && info.issuedAt == tok.issuedAt && info.expiresAt == tok.expiresAt
  }

  class AccountService {
    const store: Store
    const env: Env
    const hasher: Params

    constructor (store: Store, env: Env, hasher: Params)
      ensures this.store == store && this.env == env && this.hasher == hasher
    {
      this.store, this.env, this.hasher := store, env, hasher;
    }

    /** The store holds what the service built so far, at instants up to `now`. */
    ghost predicate Ready(now: Time)
      reads store
    {
      EnvOk(env) && Usable(hasher) && store.fold == env.fold && Inv(env, World(store.Contents(), now))
    }

    ghost function StepOf(db: Db, c: Call, now: Time): (Db, Outcome) {
      Step(env, hasher, db, c, now)
    }

    method Bootstrap(username: string, password: string, uid: Id, salt: seq<byte>, ghost now: Time)
      returns (out: Outcome)
      requires Ready(now) && uid !in store.users
      modifies store
      ensures Ready(now)
      ensures (store.Contents(), out)
           == StepOf(old(store.Contents()), Call.Bootstrap(username, password, uid, salt), now)
    {
      ghost var db := store.Contents();
      ghost var c := Call.Bootstrap(username, password, uid, salt);
      StepKeepsInv(env, World(db, now), Event(c, now, hasher));
      if username == "" {
        return Done;
      }
      if |store.users| > 0 {
        return Done;
      }
      if password == "" {
        return Failed(BootstrapNeedsPassword);
      }
      var u := store.CreateUser(username, username, Admin, uid);
      assert u.Some? by { assert forall x :: !HasName(env.fold, db.users, x, username); }
      store.SetCredential(uid, HashPassword(env.kdf, hasher, password, salt), true);
      out := Done;
    }

    method OpenSession(user: User, device: string, id: Id, hash: Hash, now: Time) returns (access: Claims)
      modifies store`tokens
      ensures store.Contents() == Accounts.OpenSession(env, old(store.Contents()), user, device, id, hash, now)
      ensures store.tokens ==
                old(store.tokens)[id := RefreshToken(id, user.id, hash, if device == "" then None else Some(device),
                                                     now, now + env.refreshTtl, None, None)]
      ensures access == Mint(env, user, now)
      ensures access.subject == user.id && access.username == user.username && access.roles == [user.role]
      ensures forall at :: at <= now + env.accessTtl - 1_000_000_000 ==> Verifies(access, at)
      ensures forall at :: at >= now + env.accessTtl ==> !Verifies(access, at)
    {
      var name := None;
      if device != "" {
        name := Some(device);
      }
      store.CreateRefreshToken(RefreshToken(id, user.id, hash, name, now, now + env.refreshTtl, None, None));
      access := Mint(env, user, now);
    }

    method Login(username: string, password: string, device: string, id: Id, hash: Hash, salt: seq<byte>, now: Time)
      returns (out: Outcome)
      requires Ready(now) && FreshToken(store.tokens, id, hash)
      modifies store
      ensures Ready(now)
      ensures (store.Contents(), out)
           == StepOf(old(store.Contents()), Call.Login(username, password, device, id, hash, salt), now)
    {
      ghost var db := store.Contents();
      ghost var c := Call.Login(username, password, device, id, hash, salt);
      StepKeepsInv(env, World(db, now), Event(c, now, hasher));
      assert NamesDistinct(env, db) && UsersKeyed(db);
      var user := store.GetUserByUsername(username);
      FoundByName(env, db, username);
      if user.None? {
        return Failed(InvalidCredentials);
      }
      var uid := user.value.id;
      if uid !in store.creds {
        return Failed(InvalidCredentials);
      }
      var cred := store.creds[uid];
      var verdict := Verify(env.kdf, hasher, password, cred.passwordHash);
      if verdict.WrongPassword? {
        return Failed(InvalidCredentials);
      }
      if verdict.BadHash? {
        return Failed(UnreadableHash(verdict.reason));
      }
      if user.value.status != Active {
        return Failed(AccountDisabled);
      }
      if verdict.needsRehash {
        store.SetCredential(uid, HashPassword(env.kdf, hasher, password, salt), cred.mustChange);
      }
      var access := OpenSession(user.value, device, id, hash, now);
      out := Opened(user.value, id, cred.mustChange, access);
    }

    method Refresh(presented: Hash, id: Id, hash: Hash, now: Time) returns (out: Outcome)
      requires Ready(now) && FreshToken(store.tokens, id, hash)
      modifies store
      ensures Ready(now)
      ensures (store.Contents(), out) == StepOf(old(store.Contents()), Call.Refresh(presented, id, hash), now)
    {
      ghost var db := store.Contents();
      StepKeepsInv(env, World(db, now), Event(Call.Refresh(presented, id, hash), now, hasher));
      assert HashesDistinct(db.tokens) && RowsKeyed(db.tokens) && Acyclic(db.tokens) && UsersKeyed(db);
      var found := store.GetRefreshTokenByHash(presented);
      if found.None? {
        return Failed(InvalidSession);
      }
      var tok := found.value;
      if !tok.IsActive(now) {
        if tok.replacedBy.Some? {
          store.RevokeRefreshTokenChain(tok.id, now);
        }
        return Failed(InvalidSession);
      }
      if tok.userId !in store.users {
        return Failed(NotFound);
      }
      var user := store.users[tok.userId];
      if user.status != Active {
        var _ := store.RevokeRefreshToken(tok.id, now);
        return Failed(AccountDisabled);
      }
      var device := "";
      if tok.device.Some? {
        device := tok.device.value;
      }
      var access := OpenSession(user, device, id, hash, now);
      var replaced := store.ReplaceRefreshToken(tok.id, id, now);
      if !replaced {
        var _ := store.RevokeRefreshToken(id, now);
        return Failed(InvalidSession);
      }
      var mustChange := false;
      if user.id in store.creds {
        mustChange := store.creds[user.id].mustChange;
      }
      out := Opened(user, id, mustChange, access);
    }

    method Logout(presented: Hash, now: Time) returns (out: Outcome)
      requires Ready(now)
      modifies store
      ensures Ready(now)
      ensures (store.Contents(), out) == StepOf(old(store.Contents()), Call.Logout(presented), now)
    {
      ghost var db := store.Contents();
      StepKeepsInv(env, World(db, now), Event(Call.Logout(presented), now, hasher));
      assert HashesDistinct(db.tokens);
      var found := store.GetRefreshTokenByHash(presented);
      if found.Some? {
        var _ := store.RevokeRefreshToken(found.value.id, now);
      }
      out := Done;
    }

    method UpdateUser(uid: Id, displayName: Option<string>, role: Option<Role>, status: Option<Status>, now: Time)
      returns (out: Outcome)
      requires Ready(now)
      modifies store
      ensures Ready(now)
      ensures (store.Contents(), out)
           == StepOf(old(store.Contents()), Call.UpdateUser(uid, displayName, role, status), now)
    {
      ghost var db := store.Contents();
      StepKeepsInv(env, World(db, now), Event(Call.UpdateUser(uid, displayName, role, status), now, hasher));
      var u := store.UpdateUser(uid, displayName, None, role, status);
      if u.None? {
        return Failed(NotFound);
      }
      if status == Some(Disabled) {
        store.RevokeUserRefreshTokens(uid, None, now);
      }
      out := Account(u.value);
    }

    method ChangePassword(uid: Id, current: string, newPassword: string, keep: Option<Id>, salt: seq<byte>, now: Time)
      returns (out: Outcome)
      requires Ready(now)
      modifies store
      ensures Ready(now)
      ensures (store.Contents(), out)
           == StepOf(old(store.Contents()), Call.ChangePassword(uid, current, newPassword, keep, salt), now)
    {
      ghost var db := store.Contents();
      StepKeepsInv(env, World(db, now), Event(Call.ChangePassword(uid, current, newPassword, keep, salt), now, hasher));
      if uid !in store.creds {
        return Failed(NotFound);
      }
      var verdict := Verify(env.kdf, hasher, current, store.creds[uid].passwordHash);
      if verdict.WrongPassword? {
        return Failed(InvalidCredentials);
      }
      if verdict.BadHash? {
        return Failed(UnreadableHash(verdict.reason));
      }
      store.SetCredential(uid, HashPassword(env.kdf, hasher, newPassword, salt), false);
      store.RevokeUserRefreshTokens(uid, keep, now);
      out := Done;
    }

    method CreateUser(username: string, name: string, role: Role, uid: Id, temp: string,
                      salt: seq<byte>, ghost now: Time) returns (out: Outcome)
      requires Ready(now) && uid !in store.users
      modifies store
      ensures Ready(now)
      ensures (store.Contents(), out)
           == StepOf(old(store.Contents()), Call.CreateUser(username, name, role, uid, temp, salt), now)
    {
      ghost var db := store.Contents();
      ghost var c := Call.CreateUser(username, name, role, uid, temp, salt);
      StepKeepsInv(env, World(db, now), Event(c, now, hasher));
      CreateUserAdds(env, hasher, db, c, now);
      var u := store.CreateUser(username, name, role, uid);
      if u.None? {
        return Failed(DuplicateUsername);
      }
      store.SetCredential(uid, HashPassword(env.kdf, hasher, temp, salt), true);
      out := TemporaryPassword(uid, temp);
    }

    method ResetPassword(uid: Id, temp: string, salt: seq<byte>, now: Time) returns (out: Outcome)
      requires Ready(now)
      modifies store
      ensures Ready(now)
      ensures (store.Contents(), out) == StepOf(old(store.Contents()), Call.ResetPassword(uid, temp, salt), now)
    {
      ghost var db := store.Contents();
      StepKeepsInv(env, World(db, now), Event(Call.ResetPassword(uid, temp, salt), now, hasher));
      if uid !in store.users {
        return Failed(NotFound);
      }
      store.SetCredential(uid, HashPassword(env.kdf, hasher, temp, salt), true);
      store.RevokeUserRefreshTokens(uid, None, now);
      out := TemporaryPassword(uid, temp);
    }

    /** The session a presented token belongs to, if that token is active. */
    method CurrentSessionID(presented: Hash, now: Time) returns (r: Option<Id>)
      requires Ready(now)
      ensures r.Some? ==> r.value in store.tokens
      ensures forall id :: id in store.tokens ==>
                (r == Some(id) <==> store.tokens[id].hash == presented && store.tokens[id].revokedAt == None
                                    && store.tokens[id].replacedBy == None && now < store.tokens[id].expiresAt)
    {
      assert HashesDistinct(store.tokens) && RowsKeyed(store.tokens);
      FoundByHash(store.tokens, presented);
      var found := store.GetRefreshTokenByHash(presented);
      if found.None? || !found.value.IsActive(now) {
        return None;
      }
      r := Some(found.value.id);
    }

    /** The user's active sessions, newest first, the caller's one marked: at most one is. */
    method ListSessions(user: Id, current: Option<Id>, now: Time) returns (out: seq<SessionInfo>)
      requires RowsKeyed(store.tokens)
      ensures forall i :: 0 <= i < |out| ==> out[i].id in store.tokens && Describes(out[i], store.tokens[out[i].id])
      ensures forall id :: id in store.tokens ==>
                ((exists i :: 0 <= i < |out| && out[i].id == id) <==>
                   store.tokens[id].userId == user && store.tokens[id].revokedAt == None
                   && store.tokens[id].replacedBy == None && now < store.tokens[id].expiresAt)
      ensures forall i, j :: 0 <= i < j < |out| ==> out[i].id != out[j].id && out[i].issuedAt >= out[j].issuedAt
      ensures forall i :: 0 <= i < |out| ==> (out[i].current <==> current == Some(out[i].id))
      ensures forall i, j :: 0 <= i < |out| && 0 <= j < |out| && out[i].current && out[j].current ==> i == j
    {
      var tokens := store.ListUserSessions(user, now);
      out := [];
      for k := 0 to |tokens|
        invariant |out| == k
        invariant forall i :: 0 <= i < k ==>
          Describes(out[i], tokens[i]) && out[i].current == (current == Some(tokens[i].id))
      {
        var t := tokens[k];
        out := out + [SessionInfo(t.id, t.device, t.issuedAt, t.expiresAt, current.Some? && t.id == current.value)];
      }
      forall id | id in store.tokens
        ensures store.tokens[id] in tokens <==> exists i :: 0 <= i < |out| && out[i].id == id
      {
        if i :| 0 <= i < |tokens| && tokens[i] == store.tokens[id] { assert out[i].id == id; }
      }
    }

    /** Whether the session is among those the user's list shows. */
    method IsListed(user: Id, session: Id, now: Time) returns (found: bool)
      requires RowsKeyed(store.tokens)
      ensures found <==>
                session in store.tokens && store.tokens[session].userId == user
                && store.tokens[session].revokedAt == None && store.tokens[session].replacedBy == None
                && now < store.tokens[session].expiresAt
    {
      var sessions := store.ListUserSessions(user, now);
      for k := 0 to |sessions|
        invariant forall i :: 0 <= i < k ==> sessions[i].id != session
      {
        if sessions[k].id == session {
          return true;
        }
      }
      found := false;
    }

    /** Succeeds only for one of the user's own active sessions, and then revokes that token alone. */
    method RevokeSession(user: Id, session: Id, now: Time) returns (out: Outcome)
      requires Ready(now)
      modifies store
      ensures Ready(now)
      ensures (store.Contents(), out) == StepOf(old(store.Contents()), Call.RevokeSession(user, session), now)
      ensures out == Done <==>
                session in old(store.tokens) && old(store.tokens)[session].userId == user
                && old(store.tokens)[session].revokedAt == None && old(store.tokens)[session].replacedBy == None
                && now < old(store.tokens)[session].expiresAt
      ensures out == Done ==>
                store.tokens == old(store.tokens)[session := old(store.tokens)[session].(revokedAt := Some(now))]
      ensures out != Done ==> store.tokens == old(store.tokens)
    {
      ghost var db := store.Contents();
      StepKeepsInv(env, World(db, now), Event(Call.RevokeSession(user, session), now, hasher));
      var found := IsListed(user, session, now);
      if !found {
        return Failed(NotFound);
      }
      var _ := store.RevokeRefreshToken(session, now);
      out := Done;
    }
  }
}
