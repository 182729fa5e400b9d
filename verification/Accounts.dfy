/**
 The account service's calls, each as one step with one clock reading: what it does to the
 database and what it returns. Random draws (ids, hashes, salts, temporary passwords) are
 arguments of the call.
 */
module Accounts {
  import opened Types
  import opened Base64
  import opened Chains
  import opened Tables
  import opened Phc

  datatype Db = Db(users: map<Id, User>, creds: map<Id, Credential>, tokens: Table)

  /** Case folding of user names, argon2id, and the lifetimes of refresh and access tokens. */
  datatype Env = Env(fold: string -> string, kdf: Kdf, refreshTtl: Time, accessTtl: Time)

  datatype Error =
    | InvalidCredentials | AccountDisabled | InvalidSession | NotFound | DuplicateUsername
    | BootstrapNeedsPassword | UnreadableHash(reason: Reason)

  /** The payload of an access token. */
  datatype Claims = Claims(subject: Id, username: string, roles: seq<Role>, issuedAt: Time, expiresAt: Time)

  datatype Outcome =
    | Opened(user: User, token: Id, mustChange: bool, access: Claims)
    | Done
    | Account(account: User)
    | TemporaryPassword(owner: Id, password: string)
    | Failed(error: Error)

  datatype Call =
    | Bootstrap(username: string, password: string, uid: Id, salt: seq<byte>)
    | Login(username: string, password: string, device: string, id: Id, hash: Hash, salt: seq<byte>)
    | Refresh(presented: Hash, id: Id, hash: Hash)
    | Logout(presented: Hash)
    | UpdateUser(uid: Id, displayName: Option<string>, role: Option<Role>, status: Option<Status>)
    | ChangePassword(uid: Id, current: string, newPassword: string, keep: Option<Id>, salt: seq<byte>)
    | CreateUser(username: string, name: string, newRole: Role, uid: Id, temp: string, salt: seq<byte>)
    | ResetPassword(uid: Id, temp: string, salt: seq<byte>)
    | RevokeSession(uid: Id, session: Id)

  // ----- access tokens -----

  const SECOND := 1_000_000_000

  /** Numeric dates carry whole seconds. */
  function WholeSeconds(t: Time): Time {
    t - t % SECOND
  }

  function Mint(env: Env, user: User, now: Time): Claims {
    Claims(user.id, user.username, [user.role], WholeSeconds(now), WholeSeconds(now + env.accessTtl))
  }

  /** A genuine token verifies strictly before its expiry. */
  predicate Verifies(c: Claims, now: Time) {
    now < c.expiresAt
  }

  // ----- lookups -----

  /** The rows with this user name, up to case. */
  predicate HasName(fold: string -> string, users: map<Id, User>, id: Id, name: string) {
    id in users && fold(users[id].username) == fold(name)
  }

  ghost function UserByName(fold: string -> string, users: map<Id, User>, name: string): Option<User> {
    if exists id :: HasName(fold, users, id, name) then
      var id :| HasName(fold, users, id, name);
      Some(users[id])
    else None
  }

  predicate HasHash(t: Table, id: Id, hash: Hash) {
    id in t && t[id].hash == hash
  }

  ghost function TokenByHash(t: Table, hash: Hash): Option<RefreshToken> {
    if exists id :: HasHash(t, id, hash) then
      var id :| HasHash(t, id, hash);
      Some(t[id])
    else None
  }

  function SessionRows(t: Table, user: Id, now: Time): set<Id> {
    set id | id in t && t[id].userId == user && t[id].IsActive(now)
  }

  // ----- the calls -----

  function NewUser(uid: Id, username: string, name: string, role: Role): User {
    User(uid, username, name, None, role, Active)
  }

  function SetCredential(env: Env, h: Params, db: Db, uid: Id, password: string, mustChange: bool,
                         salt: seq<byte>): Db {
    db.(creds := db.creds[uid := Credential(HashPassword(env.kdf, h, password, salt), mustChange)])
  }

  function OpenSession(env: Env, db: Db, user: User, device: string, id: Id, hash: Hash, now: Time): Db {
    db.(tokens := Insert(db.tokens, NewToken(id, user.id, hash, device, now, env.refreshTtl)))
  }

  function RevokeAll(db: Db, uid: Id, except: Option<Id>, now: Time): Db {
    db.(tokens := RevokeRows(db.tokens, UserRows(db.tokens, uid, except), now))
  }

  ghost function BootstrapStep(env: Env, h: Params, db: Db, c: Call): (Db, Outcome)
    requires c.Bootstrap?
  {
    if c.username == "" || |db.users| > 0 then (db, Done)
    else if c.password == "" then (db, Failed(BootstrapNeedsPassword))
    else
      var db1 := db.(users := db.users[c.uid := NewUser(c.uid, c.username, c.username, Admin)]);
      (SetCredential(env, h, db1, c.uid, c.password, true, c.salt), Done)
  }

  ghost function LoginStep(env: Env, h: Params, db: Db, c: Call, now: Time): (Db, Outcome)
    requires c.Login?
  {
    match UserByName(env.fold, db.users, c.username)
    case None => (db, Failed(InvalidCredentials))
    case Some(user) =>
      if user.id !in db.creds then (db, Failed(InvalidCredentials))
      else
        var cred := db.creds[user.id];
        match Verify(env.kdf, h, c.password, cred.passwordHash)
        case WrongPassword => (db, Failed(InvalidCredentials))
        case BadHash(reason) => (db, Failed(UnreadableHash(reason)))
        case Match(needsRehash) =>
          if user.status != Active then (db, Failed(AccountDisabled))
          else
            var rehashed := SetCredential(env, h, db, user.id, c.password, cred.mustChange, c.salt);
            (OpenSession(env, if needsRehash then rehashed else db, user, c.device, c.id, c.hash, now),
             Opened(user, c.id, cred.mustChange, Mint(env, user, now)))
  }

  ghost function RotateStep(env: Env, db: Db, tok: RefreshToken, user: User, id: Id, hash: Hash,
                            now: Time): (Db, Outcome) {
    var db1 := OpenSession(env, db, user, DeviceOf(tok), id, hash, now);
    if Replaceable(db1.tokens, tok.id) then
      (db1.(tokens := Link(db1.tokens, tok.id, id, now)),
       Opened(user, id, user.id in db.creds && db.creds[user.id].mustChange, Mint(env, user, now)))
    else (db1.(tokens := RevokeRows(db1.tokens, {id}, now)), Failed(InvalidSession))
  }

  ghost function RefreshStep(env: Env, db: Db, c: Call, now: Time): (Db, Outcome)
    requires c.Refresh?
  {
    match TokenByHash(db.tokens, c.presented)
    case None => (db, Failed(InvalidSession))
    case Some(tok) =>
      if !tok.IsActive(now) then
        (if tok.replacedBy.Some? then db.(tokens := RevokeRows(db.tokens, Closure(db.tokens, tok.id), now)) else db,
         Failed(InvalidSession))
      else if tok.userId !in db.users then (db, Failed(NotFound))
      else if db.users[tok.userId].status != Active then
        (db.(tokens := RevokeRows(db.tokens, {tok.id}, now)), Failed(AccountDisabled))
      else RotateStep(env, db, tok, db.users[tok.userId], c.id, c.hash, now)
  }

  ghost function LogoutStep(db: Db, c: Call, now: Time): (Db, Outcome)
    requires c.Logout?
  {
    match TokenByHash(db.tokens, c.presented)
    case None => (db, Done)
    case Some(tok) => (db.(tokens := RevokeRows(db.tokens, {tok.id}, now)), Done)
  }

  function UpdatedUser(u: User, c: Call): User
    requires c.UpdateUser?
  {
    u.(displayName := if c.displayName.Some? then c.displayName.value else u.displayName,
       role := if c.role.Some? then c.role.value else u.role,
       status := if c.status.Some? then c.status.value else u.status)
  }

  function UpdateUserStep(db: Db, c: Call, now: Time): (Db, Outcome)
    requires c.UpdateUser?
  {
    if c.uid !in db.users then (db, Failed(NotFound))
    else
      var u := UpdatedUser(db.users[c.uid], c);
      var db1 := db.(users := db.users[c.uid := u]);
      (if c.status == Some(Disabled) then RevokeAll(db1, c.uid, None, now) else db1, Account(u))
  }

  function ChangePasswordStep(env: Env, h: Params, db: Db, c: Call, now: Time): (Db, Outcome)
    requires c.ChangePassword?
  {
    if c.uid !in db.creds then (db, Failed(NotFound))
    else
      match Verify(env.kdf, h, c.current, db.creds[c.uid].passwordHash)
      case WrongPassword => (db, Failed(InvalidCredentials))
      case BadHash(reason) => (db, Failed(UnreadableHash(reason)))
      case Match(_) =>
        var db1 := SetCredential(env, h, db, c.uid, c.newPassword, false, c.salt);
        (RevokeAll(db1, c.uid, c.keep, now), Done)
  }

  ghost function CreateUserStep(env: Env, h: Params, db: Db, c: Call): (Db, Outcome)
    requires c.CreateUser?
  {
    if UserByName(env.fold, db.users, c.username).Some? then (db, Failed(DuplicateUsername))
    else
      var db1 := db.(users := db.users[c.uid := NewUser(c.uid, c.username, c.name, c.newRole)]);
      (SetCredential(env, h, db1, c.uid, c.temp, true, c.salt), TemporaryPassword(c.uid, c.temp))
  }

  function ResetPasswordStep(env: Env, h: Params, db: Db, c: Call, now: Time): (Db, Outcome)
    requires c.ResetPassword?
  {
    if c.uid !in db.users then (db, Failed(NotFound))
    else
      var db1 := SetCredential(env, h, db, c.uid, c.temp, true, c.salt);
      (RevokeAll(db1, c.uid, None, now), TemporaryPassword(c.uid, c.temp))
  }

  function RevokeSessionStep(db: Db, c: Call, now: Time): (Db, Outcome)
    requires c.RevokeSession?
  {
    if c.session in SessionRows(db.tokens, c.uid, now)
    then (db.(tokens := RevokeRows(db.tokens, {c.session}, now)), Done)
    else (db, Failed(NotFound))
  }

  ghost function Step(env: Env, h: Params, db: Db, c: Call, now: Time): (Db, Outcome) {
    match c
    case Bootstrap(_, _, _, _) => BootstrapStep(env, h, db, c)
    case Login(_, _, _, _, _, _) => LoginStep(env, h, db, c, now)
    case Refresh(_, _, _) => RefreshStep(env, db, c, now)
    case Logout(_) => LogoutStep(db, c, now)
    case UpdateUser(_, _, _, _) => UpdateUserStep(db, c, now)
    case ChangePassword(_, _, _, _, _) => ChangePasswordStep(env, h, db, c, now)
    case CreateUser(_, _, _, _, _, _) => CreateUserStep(env, h, db, c)
    case ResetPassword(_, _, _) => ResetPasswordStep(env, h, db, c, now)
    case RevokeSession(_, _) => RevokeSessionStep(db, c, now)
  }

  // ----- runs -----

  /** Drawn ids and hashes are new. */
  ghost predicate Fresh(db: Db, c: Call) {
    match c
    case Bootstrap(_, _, uid, _) => uid !in db.users
    case CreateUser(_, _, _, uid, _, _) => uid !in db.users
    case Login(_, _, _, id, hash, _) => FreshToken(db.tokens, id, hash)
    case Refresh(_, id, hash) => FreshToken(db.tokens, id, hash)
    case _ => true
  }

  /** One call at one instant, by a process with the given hasher configuration. */
  datatype Event = Event(call: Call, now: Time, hasher: Params)

  datatype World = World(db: Db, clock: Time)

  ghost predicate EnvOk(env: Env) {
    DerivesFullKeys(env.kdf) && env.refreshTtl > 0 && env.accessTtl > 0
  }

  ghost predicate Enabled(w: World, e: Event) {
    Fresh(w.db, e.call) && e.now >= w.clock && Usable(e.hasher)
  }

  ghost function Result(env: Env, w: World, e: Event): Outcome {
    Step(env, e.hasher, w.db, e.call, e.now).1
  }

  ghost function Advance(env: Env, w: World, e: Event): World {
    World(Step(env, e.hasher, w.db, e.call, e.now).0, e.now)
  }

  const EMPTY := Db(map[], map[], map[])

  /** A run of calls, one after another, from the empty database. */
  ghost predicate IsRun(env: Env, ws: seq<World>, es: seq<Event>) {
    EnvOk(env) && |ws| == |es| + 1 && ws[0].db == EMPTY
    && forall i :: 0 <= i < |es| ==> Enabled(ws[i], es[i]) && ws[i + 1] == Advance(env, ws[i], es[i])
  }

  // ----- what holds of every reachable world -----

  ghost predicate UsersKeyed(db: Db) {
    forall id :: id in db.users ==> db.users[id].id == id
  }

  ghost predicate NamesDistinct(env: Env, db: Db) {
    forall a, b, name :: HasName(env.fold, db.users, a, name) && HasName(env.fold, db.users, b, name) ==> a == b
  }

  ghost predicate OwnersExist(db: Db) {
    && (forall id :: id in db.tokens ==> db.tokens[id].userId in db.users)
    && (forall id :: id in db.creds ==> id in db.users)
  }

  predicate HasStatus(db: Db, user: Id, status: Status) {
    user in db.users && db.users[user].status == status
  }

  /** A disabled user has no unrevoked token. */
  ghost predicate DisabledLockedOut(db: Db) {
    forall id :: id in db.tokens && HasStatus(db, db.tokens[id].userId, Disabled) ==> Revoked(db.tokens, id)
  }

  /** A token's lifetime, and what rotation adds to it. */
  ghost predicate Timely(env: Env, w: World) {
    && (forall id :: id in w.db.tokens ==>
          w.db.tokens[id].issuedAt <= w.clock && w.db.tokens[id].expiresAt == w.db.tokens[id].issuedAt + env.refreshTtl)
    && (forall a :: a in w.db.tokens && Next(w.db.tokens, a).Some? && Next(w.db.tokens, a).value in w.db.tokens ==>
          w.db.tokens[a].issuedAt <= w.db.tokens[Next(w.db.tokens, a).value].issuedAt < w.db.tokens[a].expiresAt)
  }

  ghost predicate Inv(env: Env, w: World) {
    Sound(w.db.tokens) && UsersKeyed(w.db) && NamesDistinct(env, w.db) && OwnersExist(w.db)
    && DisabledLockedOut(w.db) && Timely(env, w)
  }
}
