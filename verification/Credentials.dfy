/**
 Credentials refine a simple map: for each user, the last password set and whether it must be
 changed. Hash strings, salts, parameters and lazy rehashing do not show.
 */
module Credentials {
  import opened Types
  import opened Base64
  import opened Phc
  import opened Tables
  import opened Accounts
  import opened AccountsInvariant

  datatype Secret = Secret(password: string, mustChange: bool)

  type Secrets = map<Id, Secret>

  /** What each call does to the simple map; a login, with or without a rehash, does nothing. */
  ghost function Remember(env: Env, secrets: Secrets, w: World, e: Event): Secrets {
    match e.call
    case Bootstrap(username, password, uid, _) =>
      if |w.db.users| == 0 && username != "" && password != "" then secrets[uid := Secret(password, true)] else secrets
    case CreateUser(_, _, _, uid, temp, _) =>
      if Result(env, w, e) == TemporaryPassword(uid, temp) then secrets[uid := Secret(temp, true)] else secrets
    case ResetPassword(uid, temp, _) =>
      if Result(env, w, e) == TemporaryPassword(uid, temp) then secrets[uid := Secret(temp, true)] else secrets
    case ChangePassword(uid, _, newPassword, _, _) =>
      if Result(env, w, e) == Done then secrets[uid := Secret(newPassword, false)] else secrets
    case _ => secrets
  }

  /** The map after the first `i` calls of a run. */
  ghost function SecretsAt(env: Env, ws: seq<World>, es: seq<Event>, i: nat): Secrets
    requires i <= |es| < |ws|
  {
    if i == 0 then map[] else Remember(env, SecretsAt(env, ws, es, i - 1), ws[i - 1], es[i - 1])
  }

  /** The stored string is a hash of the password, under some salt and usable parameters. */
  ghost predicate IsHashOf(env: Env, phc: string, password: string) {
    exists h: Params, salt: seq<byte> :: Usable(h) && phc == HashPassword(env.kdf, h, password, salt)
  }

  ghost predicate Represents(env: Env, creds: map<Id, Credential>, secrets: Secrets) {
    && creds.Keys == secrets.Keys
    && forall u :: u in secrets ==>
         IsHashOf(env, creds[u].passwordHash, secrets[u].password) && creds[u].mustChange == secrets[u].mustChange
  }

  /**
   A different password with the key of `p` under the salt and parameters of the stored hash: a
   collision of argon2id.
   */
  ghost predicate Collides(env: Env, phc: string, p: string, q: string) {
    match Parse(phc)
    case Rejected(_) => false
    case Parsed(memory, iterations, parallelism, salt, key) =>
      p != q && SameKey(env.kdf, Params(memory, iterations, parallelism, |key|), salt, p, q)
  }

  /** The call presents password `q` for this user. */
  ghost predicate Attempts(env: Env, w: World, e: Event, uid: Id, q: string) {
    || (e.call.Login? && uid in w.db.users && env.fold(w.db.users[uid].username) == env.fold(e.call.username)
        && e.call.password == q)
    || (e.call.ChangePassword? && e.call.uid == uid && e.call.current == q)
  }

  /** The password presented, if any, does not collide with the current one of the user it is presented for. */
  ghost predicate NoCollision(env: Env, secrets: Secrets, w: World, e: Event) {
    forall uid, q :: Attempts(env, w, e, uid, q) && uid in w.db.creds && uid in secrets ==>
      !Collides(env, w.db.creds[uid].passwordHash, secrets[uid].password, q)
  }

  ghost predicate CollisionFreeRun(env: Env, ws: seq<World>, es: seq<Event>) {
    |ws| == |es| + 1 && forall i :: 0 <= i < |es| ==> NoCollision(env, SecretsAt(env, ws, es, i), ws[i], es[i])
  }

  // ----- refinement -----

  /** The salt and parameters read back from a stored hash are those it was made with. */
  lemma CollidesOnHashed(env: Env, made: Params, salt: seq<byte>, p: string, q: string)
    requires DerivesFullKeys(env.kdf) && Usable(made)
    ensures Collides(env, HashPassword(env.kdf, made, p, salt), p, q) <==> p != q && SameKey(env.kdf, made, salt, p, q)
  {
    hide Parse, Print, SameKey;
    ParsePrint(made, salt, env.kdf(p, salt, made.iterations, made.memory, made.parallelism, made.keyLen));
  }

  lemma VerdictOnHash(env: Env, h: Params, phc: string, p: string, q: string)
    requires DerivesFullKeys(env.kdf) && IsHashOf(env, phc, p) && !Collides(env, phc, p, q)
    ensures p == q ==> Verify(env.kdf, h, q, phc).Match?
    ensures p != q ==> Verify(env.kdf, h, q, phc) == WrongPassword
  {
    hide Verify, HashPassword, SameKey, Collides;
    var made, salt :| Usable(made) && phc == HashPassword(env.kdf, made, p, salt);
    VerifyHashed(env.kdf, made, h, salt, p, q);
    CollidesOnHashed(env, made, salt, p, q);
    assert SameKey(env.kdf, made, salt, p, p) by { SameKeyReflexive(env.kdf, made, salt, p); }
  }

  lemma SameKeyReflexive(kdf: Kdf, h: Params, salt: seq<byte>, p: string)
    ensures SameKey(kdf, h, salt, p, p)
  {
  }

  lemma SetRepresents(env: Env, h: Params, db: Db, secrets: Secrets, uid: Id, password: string,
                      mustChange: bool, salt: seq<byte>)
    requires Represents(env, db.creds, secrets) && Usable(h)
    ensures Represents(env, SetCredential(env, h, db, uid, password, mustChange, salt).creds,
                       secrets[uid := Secret(password, mustChange)])
  {
    hide HashPassword;
    assert IsHashOf(env, HashPassword(env.kdf, h, password, salt), password);
  }

  /** A lazy rehash replaces the stored string and nothing else. */
  lemma LoginRepresents(env: Env, secrets: Secrets, w: World, e: Event)
    requires EnvOk(env) && UsersKeyed(w.db) && Represents(env, w.db.creds, secrets) && Enabled(w, e)
    requires e.call.Login? && NoCollision(env, secrets, w, e)
    ensures Represents(env, Advance(env, w, e).db.creds, secrets)
  {
    hide Verify, HashPassword, Represents, NewToken, Collides;
    var c := e.call;
    var found := UserByName(env.fold, w.db.users, c.username);
    FoundByName(env, w.db, c.username);
    if found.Some? && found.value.id in w.db.creds {
      var uid := found.value.id;
      var secret := Stored(env, w.db.creds, secrets, uid);
      assert Attempts(env, w, e, uid, c.password);
      VerdictOnHash(env, e.hasher, w.db.creds[uid].passwordHash, secret.password, c.password);
      SetRepresents(env, e.hasher, w.db, secrets, uid, c.password, w.db.creds[uid].mustChange, c.salt);
      assert secret.password == c.password ==>
                 secrets[uid := Secret(c.password, w.db.creds[uid].mustChange)] == secrets;
    }
  }

  lemma Stored(env: Env, creds: map<Id, Credential>, secrets: Secrets, uid: Id) returns (secret: Secret)
    requires Represents(env, creds, secrets) && uid in creds
    ensures uid in secrets && secret == secrets[uid]
    ensures IsHashOf(env, creds[uid].passwordHash, secret.password) && creds[uid].mustChange == secret.mustChange
  {
    secret := secrets[uid];
  }

  lemma PasswordCallRepresents(env: Env, secrets: Secrets, w: World, e: Event)
    requires Represents(env, w.db.creds, secrets) && Usable(e.hasher)
    requires e.call.Bootstrap? || e.call.CreateUser? || e.call.ResetPassword? || e.call.ChangePassword?
    ensures Represents(env, Advance(env, w, e).db.creds, Remember(env, secrets, w, e))
  {
    hide Verify, HashPassword, Represents, UserByName, RevokeRows;
    var c, h := e.call, e.hasher;
    match c
    case Bootstrap(_, password, uid, salt) => SetRepresents(env, h, w.db, secrets, uid, password, true, salt);
    case CreateUser(_, _, _, uid, temp, salt) => SetRepresents(env, h, w.db, secrets, uid, temp, true, salt);
    case ResetPassword(uid, temp, salt) => SetRepresents(env, h, w.db, secrets, uid, temp, true, salt);
    case ChangePassword(uid, _, newPassword, _, salt) =>
      SetRepresents(env, h, w.db, secrets, uid, newPassword, false, salt);
  }

  lemma SessionCallKeepsCreds(env: Env, w: World, e: Event)
    requires e.call.Refresh? || e.call.Logout? || e.call.UpdateUser? || e.call.RevokeSession?
    ensures Advance(env, w, e).db.creds == w.db.creds
  {
  }

  lemma StepRepresents(env: Env, secrets: Secrets, w: World, e: Event)
    requires EnvOk(env) && UsersKeyed(w.db) && Represents(env, w.db.creds, secrets) && Enabled(w, e)
    requires NoCollision(env, secrets, w, e)
    ensures Represents(env, Advance(env, w, e).db.creds, Remember(env, secrets, w, e))
  {
    hide Step, Represents;
    match e.call
    case Login(_, _, _, _, _, _) => LoginRepresents(env, secrets, w, e);
    case Refresh(_, _, _) => SessionCallKeepsCreds(env, w, e);
    case Logout(_) => SessionCallKeepsCreds(env, w, e);
    case UpdateUser(_, _, _, _) => SessionCallKeepsCreds(env, w, e);
    case RevokeSession(_, _) => SessionCallKeepsCreds(env, w, e);
    case _ => PasswordCallRepresents(env, secrets, w, e);
  }

  /** Over every run without argon2id collisions, the stored credentials represent the simple map. */
  lemma {:induction false} CredentialsRefine(env: Env, ws: seq<World>, es: seq<Event>, i: nat)
    requires IsRun(env, ws, es) && CollisionFreeRun(env, ws, es) && i < |ws|
    ensures Represents(env, ws[i].db.creds, SecretsAt(env, ws, es, i))
    decreases i
  {
    hide Step, Represents, NoCollision, Remember, EnvOk;
    if i == 0 {
      assert Represents(env, map[], map[]) by { EmptyRepresents(env); }
    } else {
      CredentialsRefine(env, ws, es, i - 1);
      ReachableInv(env, ws, es, i - 1);
      StepRepresents(env, SecretsAt(env, ws, es, i - 1), ws[i - 1], es[i - 1]);
    }
  }

  lemma EmptyRepresents(env: Env)
    ensures Represents(env, map[], map[])
  {
  }

  /** The user of this name is presented with the last password set. */
  ghost predicate Correct(env: Env, w: World, secrets: Secrets, c: Call, uid: Id)
    requires c.Login?
  {
    && uid in w.db.users && env.fold(w.db.users[uid].username) == env.fold(c.username)
    && uid in secrets && secrets[uid].password == c.password
  }

  /** Whom a login lets in, and why it refuses the others. */
  ghost predicate LoginDecides(env: Env, w: World, e: Event, secrets: Secrets)
    requires e.call.Login?
  {
    var out := Result(env, w, e);
    && (out.Opened? <==> exists uid :: Correct(env, w, secrets, e.call, uid) && w.db.users[uid].status == Active)
    && (out == Failed(AccountDisabled) <==>
          exists uid :: Correct(env, w, secrets, e.call, uid) && w.db.users[uid].status == Disabled)
    && (out == Failed(InvalidCredentials) <==> forall uid :: !Correct(env, w, secrets, e.call, uid))
    && (out.Opened? ==>
          && Correct(env, w, secrets, e.call, out.user.id) && out.user == w.db.users[out.user.id]
          && out.mustChange == secrets[out.user.id].mustChange)
  }

  /**
   Login opens a session exactly for an active user presenting the last password set for that
   user, and reports the user's must-change flag; it says that the account is disabled exactly to
   a disabled user presenting that password; any other name or password is invalid.
   */
  lemma LoginIffLastPassword(env: Env, ws: seq<World>, es: seq<Event>, i: nat)
    requires IsRun(env, ws, es) && CollisionFreeRun(env, ws, es) && i < |es| && es[i].call.Login?
    ensures LoginDecides(env, ws[i], es[i], SecretsAt(env, ws, es, i))
  {
    hide Step, Represents, SecretsAt, LoginDecides, NoCollision, Inv;
    CredentialsRefine(env, ws, es, i);
    ReachableInv(env, ws, es, i);
    LoginDecided(env, ws[i], es[i], SecretsAt(env, ws, es, i));
  }

  lemma LoginDecided(env: Env, w: World, e: Event, secrets: Secrets)
    requires EnvOk(env) && Inv(env, w) && Represents(env, w.db.creds, secrets) && NoCollision(env, secrets, w, e)
    requires e.call.Login?
    ensures LoginDecides(env, w, e, secrets)
  {
    OnlyNamesake(env, w, e.call.username);
    FoundByName(env, w.db, e.call.username);
    LoginOutcome(env, w, e, secrets);
    hide *;
    DecisionOnFound(env, w, e, secrets);
  }

  /** What is decided on the one user found is decided on all users of the name. */
  lemma DecisionOnFound(env: Env, w: World, e: Event, secrets: Secrets)
    requires e.call.Login?
    requires var found := UserByName(env.fold, w.db.users, e.call.username);
             && (found.Some? ==> HasName(env.fold, w.db.users, found.value.id, e.call.username)
                                 && w.db.users[found.value.id] == found.value)
             && forall id :: HasName(env.fold, w.db.users, id, e.call.username) ==> found.Some? && found.value.id == id
    requires var found, out := UserByName(env.fold, w.db.users, e.call.username), Result(env, w, e);
             if found.None? || !Correct(env, w, secrets, e.call, found.value.id) then out == Failed(InvalidCredentials)
             else if found.value.status == Disabled then out == Failed(AccountDisabled)
             else out.Opened? && out.user == found.value && out.mustChange == secrets[found.value.id].mustChange
    ensures LoginDecides(env, w, e, secrets)
  {
    hide Result, UserByName;
    assert forall uid :: Correct(env, w, secrets, e.call, uid) ==> HasName(env.fold, w.db.users, uid, e.call.username);
  }

  /** The decision on the one user found, if any. */
  lemma LoginOutcome(env: Env, w: World, e: Event, secrets: Secrets)
    requires EnvOk(env) && UsersKeyed(w.db) && Represents(env, w.db.creds, secrets) && NoCollision(env, secrets, w, e)
    requires e.call.Login?
    ensures var found, out := UserByName(env.fold, w.db.users, e.call.username), Result(env, w, e);
            if found.None? || !Correct(env, w, secrets, e.call, found.value.id) then out == Failed(InvalidCredentials)
            else if found.value.status == Disabled then out == Failed(AccountDisabled)
            else out.Opened? && out.user == found.value && out.mustChange == secrets[found.value.id].mustChange
  {
    var found := UserByName(env.fold, w.db.users, e.call.username);
    FoundByName(env, w.db, e.call.username);
    assert w.db.creds.Keys == secrets.Keys;
    assert Result(env, w, e) == LoginStep(env, e.hasher, w.db, e.call, e.now).1;
    hide Verify, OpenSession, SetCredential, UserByName, Represents, NoCollision, EnvOk, Result, Mint, UsersKeyed;
    if found.Some? && found.value.id in w.db.creds { LoginVerdict(env, w, e, secrets, found.value.id); }
  }

  lemma LoginVerdict(env: Env, w: World, e: Event, secrets: Secrets, uid: Id)
    requires EnvOk(env) && Represents(env, w.db.creds, secrets) && NoCollision(env, secrets, w, e)
    requires e.call.Login? && HasName(env.fold, w.db.users, uid, e.call.username) && uid in w.db.creds
    ensures uid in secrets && w.db.creds[uid].mustChange == secrets[uid].mustChange
    ensures var verdict := Verify(env.kdf, e.hasher, e.call.password, w.db.creds[uid].passwordHash);
            if secrets[uid].password == e.call.password then verdict.Match? else verdict == WrongPassword
  {
    hide Verify, HashPassword, IsHashOf, Collides;
    assert Attempts(env, w, e, uid, e.call.password);
    VerdictOnHash(env, e.hasher, w.db.creds[uid].passwordHash, secrets[uid].password, e.call.password);
  }

  lemma OnlyNamesake(env: Env, w: World, name: string)
    requires Inv(env, w)
    ensures forall id :: HasName(env.fold, w.db.users, id, name) ==>
              var found := UserByName(env.fold, w.db.users, name);
              found.Some? && found.value == w.db.users[id] && found.value.id == id
  {
  }

  /** Whom a password change obeys. */
  ghost predicate ChangeDecides(env: Env, w: World, e: Event, secrets: Secrets)
    requires e.call.ChangePassword?
  {
    var out, c := Result(env, w, e), e.call;
    && (out == Done <==> c.uid in secrets && secrets[c.uid].password == c.current)
    && (out == Failed(NotFound) <==> c.uid !in secrets)
    && (out != Done && out != Failed(NotFound) ==> out == Failed(InvalidCredentials))
  }

  /** A password change succeeds exactly for the last password set. */
  lemma ChangeIffLastPassword(env: Env, ws: seq<World>, es: seq<Event>, i: nat)
    requires IsRun(env, ws, es) && CollisionFreeRun(env, ws, es) && i < |es| && es[i].call.ChangePassword?
    ensures ChangeDecides(env, ws[i], es[i], SecretsAt(env, ws, es, i))
  {
    hide Step, Represents, SecretsAt, ChangeDecides, NoCollision, Inv;
    CredentialsRefine(env, ws, es, i);
    ChangeDecided(env, ws[i], es[i], SecretsAt(env, ws, es, i));
  }

  lemma ChangeDecided(env: Env, w: World, e: Event, secrets: Secrets)
    requires EnvOk(env) && Represents(env, w.db.creds, secrets) && NoCollision(env, secrets, w, e)
    requires e.call.ChangePassword?
    ensures ChangeDecides(env, w, e, secrets)
  {
    hide Verify, HashPassword, IsHashOf, Collides, SetCredential, RevokeAll;
    if e.call.uid in w.db.creds {
      assert Attempts(env, w, e, e.call.uid, e.call.current);
      VerdictOnHash(env, e.hasher, w.db.creds[e.call.uid].passwordHash, secrets[e.call.uid].password, e.call.current);
    }
  }

  // ----- the must-change flag -----

  /** The call sets this user's password on behalf of an administrator. */
  ghost predicate Imposes(env: Env, w: World, e: Event, uid: Id) {
    || (e.call.ResetPassword? && e.call.uid == uid && Result(env, w, e).TemporaryPassword?)
    || (e.call.CreateUser? && e.call.uid == uid && Result(env, w, e).TemporaryPassword?)
    || (e.call.Bootstrap? && e.call.uid == uid && |w.db.users| == 0 && e.call.username != "" && e.call.password != "")
  }

  ghost predicate Changes(env: Env, w: World, e: Event, uid: Id) {
    e.call.ChangePassword? && e.call.uid == uid && Result(env, w, e) == Done
  }

  lemma ImposeSetsFlag(env: Env, secrets: Secrets, w: World, e: Event, uid: Id)
    requires Imposes(env, w, e, uid)
    ensures var after := Remember(env, secrets, w, e); uid in after && after[uid].mustChange
  {
  }

  lemma OnlyChangeClearsFlag(env: Env, secrets: Secrets, w: World, e: Event, uid: Id)
    requires uid in secrets && secrets[uid].mustChange && !Changes(env, w, e, uid)
    ensures var after := Remember(env, secrets, w, e); uid in after && after[uid].mustChange
  {
  }

  /** From an imposed password on, and until its owner changes it, the flag stays set. */
  lemma {:induction false} MustChangeUntilChanged(env: Env, ws: seq<World>, es: seq<Event>, i: nat, j: nat, uid: Id)
    requires IsRun(env, ws, es) && i < j <= |es| && Imposes(env, ws[i], es[i], uid)
    requires forall k :: i < k < j ==> !Changes(env, ws[k], es[k], uid)
    ensures uid in SecretsAt(env, ws, es, j) && SecretsAt(env, ws, es, j)[uid].mustChange
    decreases j
  {
    hide Step, Imposes, Changes, Remember;
    if j == i + 1 {
      ImposeSetsFlag(env, SecretsAt(env, ws, es, i), ws[i], es[i], uid);
    } else {
      MustChangeUntilChanged(env, ws, es, i, j - 1, uid);
      OnlyChangeClearsFlag(env, SecretsAt(env, ws, es, j - 1), ws[j - 1], es[j - 1], uid);
    }
  }

  /** Hence every login of the user in between is told to change the password. */
  lemma LoginReportsMustChange(env: Env, ws: seq<World>, es: seq<Event>, i: nat, j: nat, uid: Id)
    requires IsRun(env, ws, es) && CollisionFreeRun(env, ws, es) && i < j < |es| && Imposes(env, ws[i], es[i], uid)
    requires forall k :: i < k < j ==> !Changes(env, ws[k], es[k], uid)
    requires es[j].call.Login? && uid in ws[j].db.users
    requires env.fold(ws[j].db.users[uid].username) == env.fold(es[j].call.username)
    ensures Result(env, ws[j], es[j]).Opened? ==> Result(env, ws[j], es[j]).mustChange
  {
    MustChangeUntilChanged(env, ws, es, i, j, uid);
    LoginIffLastPassword(env, ws, es, j);
    ReachableInv(env, ws, es, j);
    OnlyNamesake(env, ws[j], es[j].call.username);
    hide Step, SecretsAt, Inv, UserByName;
  }

  // ----- the first login -----

  /**
   On an empty database, bootstrapping an administrator and logging in opens a session told to
   change the password.
   */
  lemma BootstrapThenLogin(env: Env, h: Params, username: string, password: string, salt: seq<byte>, now: Time)
    returns (ws: seq<World>, es: seq<Event>)
    requires EnvOk(env) && Usable(h) && username != "" && password != ""
    ensures IsRun(env, ws, es) && |es| == 2 && es[1].call.Login?
    ensures es[1].call.username == username && es[1].call.password == password
    ensures var out := Result(env, ws[1], es[1]); out.Opened? && out.mustChange && out.user.role == Admin
  {
    hide HashPassword, Verify;
    var first := Event(Bootstrap(username, password, 1, salt), now, h);
    var second := Event(Login(username, password, "", 1, 1, salt), now, h);
    var w0 := World(EMPTY, now);
    var w1 := Advance(env, w0, first);
    assert w1.db == Db(map[1 := NewUser(1, username, username, Admin)],
                       map[1 := Credential(HashPassword(env.kdf, h, password, salt), true)], map[]);
    assert HasName(env.fold, w1.db.users, 1, username);
    RehashSettles(env.kdf, h, salt, password);
    ws, es := [w0, w1, Advance(env, w1, second)], [first, second];
  }

  /** Two users: the first is bootstrapped with `p`, the second created with `q`. */
  ghost function TwoUsers(env: Env, h: Params, alice: string, bob: string, p: string, q: string, salt: seq<byte>): Db {
    Db(map[1 := NewUser(1, alice, alice, Admin), 2 := NewUser(2, bob, bob, Member)],
       map[1 := Credential(HashPassword(env.kdf, h, p, salt), true),
           2 := Credential(HashPassword(env.kdf, h, q, salt), true)],
       map[])
  }

  lemma TwoUsersRun(env: Env, h: Params, alice: string, bob: string, p: string, q: string, salt: seq<byte>)
    returns (ws: seq<World>, es: seq<Event>)
    requires EnvOk(env) && Usable(h) && alice != "" && p != "" && env.fold(alice) != env.fold(bob)
    ensures IsRun(env, ws, es) && |es| == 2 && ws[2] == World(TwoUsers(env, h, alice, bob, p, q, salt), 0)
    ensures SecretsAt(env, ws, es, 2) == map[1 := Secret(p, true), 2 := Secret(q, true)]
    ensures CollisionFreeRun(env, ws, es)
  {
    hide HashPassword, Parse;
    var first := Event(Bootstrap(alice, p, 1, salt), 0, h);
    var second := Event(CreateUser(bob, bob, Member, 2, q, salt), 0, h);
    var w0 := World(EMPTY, 0);
    var w1 := Advance(env, w0, first);
    assert w1.db == Db(map[1 := NewUser(1, alice, alice, Admin)],
                       map[1 := Credential(HashPassword(env.kdf, h, p, salt), true)], map[]);
    assert forall id :: !HasName(env.fold, w1.db.users, id, bob);
    CreateUserAdds(env, h, w1.db, second.call, 0);
    var w2 := Advance(env, w1, second);
    assert w2.db == TwoUsers(env, h, alice, bob, p, q, salt);
    ws, es := [w0, w1, w2], [first, second];
    assert SecretsAt(env, ws, es, 1) == map[1 := Secret(p, true)] by { assert SecretsAt(env, ws, es, 0) == map[]; }
  }

  /**
   Two users with different passwords: the first presents the other's password and is refused,
   then presents the right one and is let in. The run meets the hypothesis of the credential
   results as soon as the two passwords differ in key under the first user's salt.
   */
  lemma WrongPasswordRefused(env: Env, h: Params, alice: string, bob: string, p: string, q: string, salt: seq<byte>)
    returns (ws: seq<World>, es: seq<Event>)
    requires EnvOk(env) && Usable(h) && alice != "" && p != "" && p != q && env.fold(alice) != env.fold(bob)
    requires !SameKey(env.kdf, h, salt, p, q)
    ensures IsRun(env, ws, es) && CollisionFreeRun(env, ws, es) && |es| == 4
    ensures SecretsAt(env, ws, es, 3) == map[1 := Secret(p, true), 2 := Secret(q, true)]
    ensures es[2].call.Login? && es[2].call.username == alice && es[2].call.password == q
    ensures es[3].call.Login? && es[3].call.username == alice && es[3].call.password == p
    ensures Result(env, ws[2], es[2]) == Failed(InvalidCredentials) && Result(env, ws[3], es[3]).Opened?
  {
    ws, es := TwoUsersRun(env, h, alice, bob, p, q, salt);
    var db := TwoUsers(env, h, alice, bob, p, q, salt);
    var wrong := Event(Login(alice, q, "", 1, 1, salt), 0, h);
    var right := Event(Login(alice, p, "", 1, 1, salt), 0, h);
    WrongThenRight(env, h, alice, bob, p, q, salt);
    ExtendRun(env, ws, es, wrong);
    ExtendRun(env, ws + [ws[2]], es + [wrong], right);
    ws, es := ws + [ws[2]] + [Advance(env, ws[2], right)], es + [wrong] + [right];
  }

  lemma WrongThenRight(env: Env, h: Params, alice: string, bob: string, p: string, q: string, salt: seq<byte>)
    requires EnvOk(env) && Usable(h) && p != q && env.fold(alice) != env.fold(bob) && !SameKey(env.kdf, h, salt, p, q)
    ensures var w := World(TwoUsers(env, h, alice, bob, p, q, salt), 0);
            var secrets := map[1 := Secret(p, true), 2 := Secret(q, true)];
            var wrong := Event(Login(alice, q, "", 1, 1, salt), 0, h);
            var right := Event(Login(alice, p, "", 1, 1, salt), 0, h);
            && NoCollision(env, secrets, w, wrong) && NoCollision(env, secrets, w, right)
            && Result(env, w, wrong) == Failed(InvalidCredentials) && Advance(env, w, wrong) == w
            && Result(env, w, right).Opened?
  {
    hide HashPassword, Verify, Collides, SameKey;
    var w := World(TwoUsers(env, h, alice, bob, p, q, salt), 0);
    CollidesOnHashed(env, h, salt, p, q);
    CollidesOnHashed(env, h, salt, p, p);
    VerifyHashed(env.kdf, h, h, salt, p, q);
    RehashSettles(env.kdf, h, salt, p);
    assert HasName(env.fold, w.db.users, 1, alice) && !HasName(env.fold, w.db.users, 2, alice);
  }

  lemma ExtendRun(env: Env, ws: seq<World>, es: seq<Event>, e: Event)
    requires IsRun(env, ws, es) && CollisionFreeRun(env, ws, es) && Enabled(ws[|es|], e)
    requires NoCollision(env, SecretsAt(env, ws, es, |es|), ws[|es|], e)
    ensures var ws', es' := ws + [Advance(env, ws[|es|], e)], es + [e];
            && IsRun(env, ws', es') && CollisionFreeRun(env, ws', es')
            && SecretsAt(env, ws', es', |es|) == SecretsAt(env, ws, es, |es|)
            && SecretsAt(env, ws', es', |es'|) == Remember(env, SecretsAt(env, ws, es, |es|), ws[|es|], e)
  {
    hide Step, NoCollision, Remember, Enabled, Advance, EnvOk;
    var ws', es' := ws + [Advance(env, ws[|es|], e)], es + [e];
    forall i: nat | i <= |es| ensures SecretsAt(env, ws', es', i) == SecretsAt(env, ws, es, i) {
      SecretsOfPrefix(env, ws, es, ws', es', i);
    }
    ExtendIsRun(env, ws, es, e);
    forall i | 0 <= i < |es'| ensures NoCollision(env, SecretsAt(env, ws', es', i), ws'[i], es'[i]) {
      if i < |es| { assert NoCollision(env, SecretsAt(env, ws, es, i), ws[i], es[i]); }
    }
  }

  lemma ExtendIsRun(env: Env, ws: seq<World>, es: seq<Event>, e: Event)
    requires IsRun(env, ws, es) && Enabled(ws[|es|], e)
    ensures IsRun(env, ws + [Advance(env, ws[|es|], e)], es + [e])
  {
    hide Enabled, Advance, EnvOk;
  }

  lemma {:induction false} SecretsOfPrefix(env: Env, ws: seq<World>, es: seq<Event>, ws': seq<World>,
                                           es': seq<Event>, i: nat)
    requires |ws| == |es| + 1 && |ws'| == |es'| + 1 && ws <= ws' && es <= es' && i <= |es|
    ensures SecretsAt(env, ws', es', i) == SecretsAt(env, ws, es, i)
    decreases i
  {
    hide Remember;
    if i > 0 { SecretsOfPrefix(env, ws, es, ws', es', i - 1); }
  }
}
