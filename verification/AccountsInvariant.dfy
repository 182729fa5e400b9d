/** Every call of the account service keeps the invariant of its database. */
module AccountsInvariant {
  import opened Types
  import opened Chains
  import opened Tables
  import opened Phc
  import opened Accounts

  // ----- the pieces a call is made of -----

  lemma LaterKeepsInv(env: Env, w: World, now: Time)
    requires Inv(env, w) && now >= w.clock
    ensures Inv(env, w.(clock := now))
  {
  }

  lemma RevokeKeepsTimely(env: Env, w: World, ids: set<Id>, now: Time)
    requires Timely(env, w)
    ensures Timely(env, w.(db := w.db.(tokens := RevokeRows(w.db.tokens, ids, now))))
  {
  }

  lemma RevokeKeepsInv(env: Env, w: World, ids: set<Id>, now: Time)
    requires Inv(env, w)
    ensures Inv(env, w.(db := w.db.(tokens := RevokeRows(w.db.tokens, ids, now))))
  {
    hide Sound, Timely;
    RevokeKeepsSound(w.db.tokens, ids, now);
    RevokeKeepsTimely(env, w, ids, now);
  }

  lemma CredsKeepInv(env: Env, w: World, creds: map<Id, Credential>)
    requires Inv(env, w) && forall id :: id in creds ==> id in w.db.users
    ensures Inv(env, w.(db := w.db.(creds := creds)))
  {
  }

  lemma NewUserKeepsInv(env: Env, w: World, u: User)
    requires Inv(env, w) && u.id !in w.db.users && u.status == Active
    requires forall id :: !HasName(env.fold, w.db.users, id, u.username)
    ensures Inv(env, w.(db := w.db.(users := w.db.users[u.id := u])))
  {
    hide Sound;
    var db' := w.db.(users := w.db.users[u.id := u]);
    forall a, b, name | HasName(env.fold, db'.users, a, name) && HasName(env.fold, db'.users, b, name) ensures a == b {
      assert a != u.id ==> HasName(env.fold, w.db.users, a, name);
      assert b != u.id ==> HasName(env.fold, w.db.users, b, name);
      assert !HasName(env.fold, w.db.users, a, u.username) && !HasName(env.fold, w.db.users, b, u.username);
    }
  }

  lemma EditUserKeepsNames(env: Env, db: Db, u: User)
    requires NamesDistinct(env, db) && u.id in db.users && db.users[u.id].username == u.username
    ensures NamesDistinct(env, db.(users := db.users[u.id := u]))
  {
    var db' := db.(users := db.users[u.id := u]);
    forall a, name | HasName(env.fold, db'.users, a, name) ensures HasName(env.fold, db.users, a, name) {}
  }

  lemma EditUserKeepsInv(env: Env, w: World, u: User)
    requires Inv(env, w) && u.id in w.db.users && w.db.users[u.id].username == u.username
    requires u.status == Disabled ==>
               forall id :: id in w.db.tokens && w.db.tokens[id].userId == u.id ==> Revoked(w.db.tokens, id)
    ensures Inv(env, w.(db := w.db.(users := w.db.users[u.id := u])))
  {
    hide Sound, NamesDistinct;
    EditUserKeepsNames(env, w.db, u);
  }

  lemma OpenKeepsTimely(env: Env, w: World, user: User, device: string, id: Id, hash: Hash)
    requires Timely(env, w) && TargetsExist(w.db.tokens) && id !in w.db.tokens
    ensures Timely(env, w.(db := OpenSession(env, w.db, user, device, id, hash, w.clock)))
  {
  }

  lemma OpenKeepsInv(env: Env, w: World, user: User, device: string, id: Id, hash: Hash)
    requires Inv(env, w) && FreshToken(w.db.tokens, id, hash)
    requires user.id in w.db.users && w.db.users[user.id].status == Active
    ensures Inv(env, w.(db := OpenSession(env, w.db, user, device, id, hash, w.clock)))
  {
    InsertKeepsSound(w.db.tokens, id, user.id, hash, device, w.clock, env.refreshTtl);
    OpenKeepsTimely(env, w, user, device, id, hash);
    hide Sound, Timely;
  }

  /** A rotation: the presented token is active at the clock, the new one was just inserted. */
  lemma LinkKeepsInv(env: Env, w: World, oldId: Id, newId: Id)
    requires Inv(env, w) && oldId in w.db.tokens && newId in w.db.tokens && oldId != newId
    requires w.db.tokens[oldId].IsActive(w.clock) && w.db.tokens[newId].issuedAt == w.clock
    requires Isolated(w.db.tokens, newId) && SameOwner(w.db.tokens, oldId, newId)
    ensures Inv(env, w.(db := w.db.(tokens := Link(w.db.tokens, oldId, newId, w.clock))))
  {
    LinkKeepsSound(w.db.tokens, oldId, newId, w.clock);
    hide Sound;
  }

  // ----- the calls -----

  lemma FoundByName(env: Env, db: Db, name: string)
    requires UsersKeyed(db)
    ensures var u := UserByName(env.fold, db.users, name);
            && (u.Some? ==> HasName(env.fold, db.users, u.value.id, name) && db.users[u.value.id] == u.value)
            && (u.None? ==> forall id :: !HasName(env.fold, db.users, id, name))
  {
  }

  /**
   Creating a user fails exactly for a name taken up to case, and otherwise adds one active user
   with a temporary password.
   */
  lemma CreateUserAdds(env: Env, h: Params, db: Db, c: Call, now: Time)
    requires c.CreateUser?
    ensures Step(env, h, db, c, now) ==
      if exists id :: HasName(env.fold, db.users, id, c.username) then (db, Failed(DuplicateUsername))
      else (Db(db.users[c.uid := User(c.uid, c.username, c.name, None, c.newRole, Active)],
               db.creds[c.uid := Credential(HashPassword(env.kdf, h, c.temp, c.salt), true)], db.tokens),
            TemporaryPassword(c.uid, c.temp))
  {
  }

  lemma FoundByHash(t: Table, hash: Hash)
    requires RowsKeyed(t)
    ensures var r := TokenByHash(t, hash);
            && (r.Some? ==> r.value.id in t && t[r.value.id] == r.value && r.value.hash == hash)
            && (r.None? ==> forall id :: id in t ==> t[id].hash != hash)
  {
    if TokenByHash(t, hash).None? {
      forall id | id in t ensures t[id].hash != hash { assert !HasHash(t, id, hash); }
    }
  }

  lemma LoginKeepsInv(env: Env, w: World, e: Event)
    requires Inv(env, w) && e.call.Login? && Enabled(w, e) && w.clock == e.now
    ensures Inv(env, Advance(env, w, e))
  {
    hide Sound, Timely, Verify, NamesDistinct, HashPassword;
    FoundByName(env, w.db, e.call.username);
    var found := UserByName(env.fold, w.db.users, e.call.username);
    if Result(env, w, e).Opened? {
      var user := found.value;
      var db1 := w.db.(creds := Advance(env, w, e).db.creds);
      CredsKeepInv(env, w, db1.creds);
      OpenKeepsInv(env, w.(db := db1), user, e.call.device, e.call.id, e.call.hash);
    }
  }

  lemma RotateKeepsInv(env: Env, w: World, tok: RefreshToken, id: Id, hash: Hash)
    requires Inv(env, w) && tok.id in w.db.tokens && w.db.tokens[tok.id] == tok && tok.IsActive(w.clock)
    requires tok.userId in w.db.users && w.db.users[tok.userId].status == Active && FreshToken(w.db.tokens, id, hash)
    ensures Replaceable(OpenSession(env, w.db, w.db.users[tok.userId], DeviceOf(tok), id, hash, w.clock).tokens, tok.id)
    ensures Inv(env, w.(db := RotateStep(env, w.db, tok, w.db.users[tok.userId], id, hash, w.clock).0))
  {
    hide Sound, Timely, NamesDistinct;
    var user := w.db.users[tok.userId];
    var db1 := OpenSession(env, w.db, user, DeviceOf(tok), id, hash, w.clock);
    InsertKeepsSound(w.db.tokens, id, user.id, hash, DeviceOf(tok), w.clock, env.refreshTtl);
    OpenKeepsInv(env, w, user, DeviceOf(tok), id, hash);
    assert SameOwner(db1.tokens, tok.id, id) by { KeyedRow(w.db.tokens, tok.id); }
    LinkKeepsInv(env, w.(db := db1), tok.id, id);
  }

  lemma KeyedRow(t: Table, id: Id)
    requires Sound(t) && id in t
    ensures t[id].id == id && t[id].device != Some("")
  {
  }

  lemma RefreshKeepsInv(env: Env, w: World, e: Event)
    requires Inv(env, w) && e.call.Refresh? && Enabled(w, e) && w.clock == e.now
    ensures Inv(env, Advance(env, w, e))
  {
    assert RowsKeyed(w.db.tokens);
    hide Sound, Timely, NamesDistinct, RotateStep;
    FoundByHash(w.db.tokens, e.call.presented);
    var found := TokenByHash(w.db.tokens, e.call.presented);
    if found.Some? {
      var tok := found.value;
      RevokeKeepsInv(env, w, Closure(w.db.tokens, tok.id), e.now);
      RevokeKeepsInv(env, w, {tok.id}, e.now);
      if tok.IsActive(e.now) && tok.userId in w.db.users && w.db.users[tok.userId].status == Active {
        RotateKeepsInv(env, w, tok, e.call.id, e.call.hash);
      }
    }
  }

  lemma UpdateUserKeepsInv(env: Env, w: World, e: Event)
    requires Inv(env, w) && e.call.UpdateUser? && w.clock == e.now
    ensures Inv(env, Advance(env, w, e))
  {
    hide Sound, Timely, NamesDistinct;
    var c := e.call;
    if c.uid in w.db.users {
      var u := UpdatedUser(w.db.users[c.uid], c);
      if c.status == Some(Disabled) {
        var ids := UserRows(w.db.tokens, c.uid, None);
        var w1 := w.(db := w.db.(tokens := RevokeRows(w.db.tokens, ids, e.now)));
        RevokeKeepsInv(env, w, ids, e.now);
        EditUserKeepsInv(env, w1, u);
        assert Advance(env, w, e) == w1.(db := w1.db.(users := w1.db.users[u.id := u]));
      } else {
        EditUserKeepsInv(env, w, u);
      }
    }
  }

  lemma AccountKeepsInv(env: Env, w: World, e: Event)
    requires Inv(env, w) && (e.call.Bootstrap? || e.call.CreateUser?) && Enabled(w, e) && w.clock == e.now
    ensures Inv(env, Advance(env, w, e))
  {
    hide Sound, Timely, HashPassword;
    var c := e.call;
    var w' := Advance(env, w, e);
    FoundByName(env, w.db, c.username);
    if w'.db.users != w.db.users {
      var u := if c.Bootstrap? then NewUser(c.uid, c.username, c.username, Admin)
               else NewUser(c.uid, c.username, c.name, c.newRole);
      assert c.Bootstrap? ==> w.db.users == map[];
      NewUserKeepsInv(env, w, u);
      CredsKeepInv(env, w.(db := w.db.(users := w.db.users[u.id := u])), w'.db.creds);
    }
  }

  lemma PasswordKeepsInv(env: Env, w: World, e: Event)
    requires Inv(env, w) && (e.call.ChangePassword? || e.call.ResetPassword?) && w.clock == e.now
    ensures Inv(env, Advance(env, w, e))
  {
    hide Sound, Timely, Verify, NamesDistinct, HashPassword;
    var c := e.call;
    var w' := Advance(env, w, e);
    if w' != w {
      var w1 := w.(db := w.db.(creds := w'.db.creds));
      CredsKeepInv(env, w, w'.db.creds);
      RevokeKeepsInv(env, w1, UserRows(w.db.tokens, c.uid, if c.ChangePassword? then c.keep else None), e.now);
    }
  }

  lemma StepKeepsInvNow(env: Env, w: World, e: Event)
    requires Inv(env, w) && Enabled(w, e) && w.clock == e.now
    ensures Inv(env, Advance(env, w, e))
  {
    var c := e.call;
    assert RowsKeyed(w.db.tokens);
    hide Inv, LoginStep, RefreshStep, UpdateUserStep;
    hide BootstrapStep, CreateUserStep, ChangePasswordStep, ResetPasswordStep;
    match c
    case Login(_, _, _, _, _, _) => LoginKeepsInv(env, w, e);
    case Refresh(_, _, _) => RefreshKeepsInv(env, w, e);
    case UpdateUser(_, _, _, _) => UpdateUserKeepsInv(env, w, e);
    case Bootstrap(_, _, _, _) => AccountKeepsInv(env, w, e);
    case CreateUser(_, _, _, _, _, _) => AccountKeepsInv(env, w, e);
    case ChangePassword(_, _, _, _, _) => PasswordKeepsInv(env, w, e);
    case ResetPassword(_, _, _) => PasswordKeepsInv(env, w, e);
    case RevokeSession(_, session) => RevokeKeepsInv(env, w, {session}, e.now);
    case Logout(presented) =>
      var found := TokenByHash(w.db.tokens, presented);
      if found.Some? { RevokeKeepsInv(env, w, {found.value.id}, e.now); }
  }

  /** Every call keeps the invariant. */
  lemma StepKeepsInv(env: Env, w: World, e: Event)
    requires Inv(env, w) && Enabled(w, e)
    ensures Inv(env, Advance(env, w, e))
  {
    hide Inv, Step;
    var w1 := w.(clock := e.now);
    LaterKeepsInv(env, w, e.now);
    StepKeepsInvNow(env, w1, e);
    assert Advance(env, w1, e) == Advance(env, w, e);
  }

  /** Every world of every run satisfies the invariant. */
  lemma {:induction false} ReachableInv(env: Env, ws: seq<World>, es: seq<Event>, i: nat)
    requires IsRun(env, ws, es) && i < |ws|
    ensures Inv(env, ws[i])
    decreases i
  {
    hide Step;
    if i > 0 {
      ReachableInv(env, ws, es, i - 1);
      StepKeepsInv(env, ws[i - 1], es[i - 1]);
    }
  }
}
