/**
 The session protocol with concurrent callers. Every step is one store call; any number of
 `Refresh` and `Login` calls are in flight between store calls, interleaved with each other and
 with every other write the service issues. Clock readings are arbitrary.
 */
module Protocol {
  import opened Types
  import opened Chains
  import opened Tables

  type CallId = nat

  /** Where an in-flight call stands: what it has read so far and which store call comes next. */
  datatype Phase =
    | Looked(tok: RefreshToken, at: Time)     // Refresh found a row active at `at`; next reads the user
    | Reused(tok: RefreshToken)               // Refresh found a rotated row; next revokes its chain
    | Barred(tok: RefreshToken)               // the user is disabled; next revokes the row
    | Admitted(tok: RefreshToken, at: Time)   // the user is active; next inserts the new row
    | Created(tok: RefreshToken, newId: Id)   // the new row exists; next links it
    | Lost(tok: RefreshToken, newId: Id)      // another call linked first; next revokes the new row
    | Linked(tok: RefreshToken, newId: Id)    // linked; next reads the credential and returns
    | LoginAdmitted(user: Id)                 // Login accepted; next inserts its row and returns

  /** A session returned to a client, by a login (`presented` absent) or by a refresh. */
  datatype Grant = Grant(user: Id, presented: Option<Id>, token: Id)

  /** The database, the calls in flight and the history of what calls returned. */
  datatype Sys = Sys(
    users: map<Id, Status>, tokens: Table, calls: map<CallId, Phase>,
    used: set<CallId>, grants: map<CallId, Grant>, lost: set<Id>)

  datatype Step =
    | Present(c: CallId, id: Id, now: Time)
    | CheckUser(c: CallId)
    | RevokeBarred(c: CallId, now: Time)
    | RevokeChain(c: CallId, now: Time)
    | Create(c: CallId, id: Id, hash: Hash, now: Time)
    | Replace(c: CallId, now: Time)
    | RevokeLoser(c: CallId, now: Time)
    | Return(c: CallId)
    | LoginRead(c: CallId, user: Id)
    | LoginCreate(c: CallId, id: Id, hash: Hash, device: string, now: Time)
    | Revoke(id: Id, now: Time)
    | RevokeUser(user: Id, except: Option<Id>, now: Time)
    | SetStatus(user: Id, status: Status)
    | AddUser(user: Id)

  /** The in-flight call a step belongs to; the other steps are single writes of further calls. */
  function CallerOf(step: Step): Option<CallId> {
    match step
    case Revoke(_, _) => None
    case RevokeUser(_, _, _) => None
    case SetStatus(_, _) => None
    case AddUser(_) => None
    case _ => Some(step.c)
  }

  ghost predicate HandedOut(s: Sys, id: Id) {
    exists c :: c in s.grants && s.grants[c].token == id
  }

  /**
   Call ids, token ids and hashes are fresh, and a client presents only a token that was handed
   out. (A string matching no row, a wrong password or a disabled user at login ends the call
   without a write, so such calls need no step.)
   */
  ghost predicate Enabled(s: Sys, step: Step) {
    match step
    case Present(c, id, _) => c !in s.used && id in s.tokens && HandedOut(s, id)
    case CheckUser(c) => c in s.calls && s.calls[c].Looked?
    case RevokeBarred(c, _) => c in s.calls && s.calls[c].Barred?
    case RevokeChain(c, _) => c in s.calls && s.calls[c].Reused?
    case Create(c, id, hash, _) => c in s.calls && s.calls[c].Admitted? && FreshToken(s.tokens, id, hash)
    case Replace(c, _) => c in s.calls && s.calls[c].Created?
    case RevokeLoser(c, _) => c in s.calls && s.calls[c].Lost?
    case Return(c) => c in s.calls && s.calls[c].Linked?
    case LoginRead(c, user) => c !in s.used && user in s.users && s.users[user] == Active
    case LoginCreate(c, id, hash, _, _) => c in s.calls && s.calls[c].LoginAdmitted? && FreshToken(s.tokens, id, hash)
    case Revoke(_, _) => true
    case RevokeUser(_, _, _) => true
    case SetStatus(user, _) => user in s.users
    case AddUser(user) => user !in s.users
  }

  ghost function Apply(ttl: Time, s: Sys, step: Step): Sys
    requires Enabled(s, step)
  {
    match step
    case Present(c, id, now) =>
      var s' := s.(used := s.used + {c});
      var tok := s.tokens[id];
      if tok.IsActive(now) then s'.(calls := s.calls[c := Looked(tok, now)])
      else if tok.replacedBy.Some? then s'.(calls := s.calls[c := Reused(tok)])
      else s'
    case CheckUser(c) =>
      var tok := s.calls[c].tok;
      if tok.userId !in s.users then s.(calls := s.calls - {c})
      else if s.users[tok.userId] == Active then s.(calls := s.calls[c := Admitted(tok, s.calls[c].at)])
      else s.(calls := s.calls[c := Barred(tok)])
    case RevokeBarred(c, now) =>
      s.(tokens := RevokeRows(s.tokens, {s.calls[c].tok.id}, now), calls := s.calls - {c})
    case RevokeChain(c, now) =>
      s.(tokens := RevokeRows(s.tokens, Closure(s.tokens, s.calls[c].tok.id), now), calls := s.calls - {c})
    case Create(c, id, hash, now) =>
      var tok := s.calls[c].tok;
      s.(tokens := Insert(s.tokens, NewToken(id, tok.userId, hash, DeviceOf(tok), now, ttl)),
         calls := s.calls[c := Created(tok, id)])
    case Replace(c, now) =>
      var tok, newId := s.calls[c].tok, s.calls[c].newId;
      if Replaceable(s.tokens, tok.id)
      then s.(tokens := Link(s.tokens, tok.id, newId, now), calls := s.calls[c := Linked(tok, newId)])
      else s.(calls := s.calls[c := Lost(tok, newId)])
    case RevokeLoser(c, now) =>
      var newId := s.calls[c].newId;
      s.(tokens := RevokeRows(s.tokens, {newId}, now), calls := s.calls - {c}, lost := s.lost + {newId})
    case Return(c) =>
      var tok, newId := s.calls[c].tok, s.calls[c].newId;
      s.(calls := s.calls - {c}, grants := s.grants[c := Grant(tok.userId, Some(tok.id), newId)])
    case LoginRead(c, user) =>
      s.(calls := s.calls[c := LoginAdmitted(user)], used := s.used + {c})
    case LoginCreate(c, id, hash, device, now) =>
      var user := s.calls[c].user;
      s.(tokens := Insert(s.tokens, NewToken(id, user, hash, device, now, ttl)),
         calls := s.calls - {c}, grants := s.grants[c := Grant(user, None, id)])
    case Revoke(id, now) => s.(tokens := RevokeRows(s.tokens, {id}, now))
    case RevokeUser(user, except, now) => s.(tokens := RevokeRows(s.tokens, UserRows(s.tokens, user, except), now))
    case SetStatus(user, status) => s.(users := s.users[user := status])
    case AddUser(user) => s.(users := s.users[user := Active])
  }

  const INITIAL := Sys(map[], map[], map[], {}, map[], {})

  /** `ss` is what `steps` lead through, one state before and after each step. */
  ghost predicate IsPath(ttl: Time, ss: seq<Sys>, steps: seq<Step>) {
    |ss| == |steps| + 1
    && forall i :: 0 <= i < |steps| ==> Enabled(ss[i], steps[i]) && ss[i + 1] == Apply(ttl, ss[i], steps[i])
  }

  /** Every interleaving from the empty database. */
  ghost predicate IsRun(ttl: Time, ss: seq<Sys>, steps: seq<Step>) {
    IsPath(ttl, ss, steps) && ss[0] == INITIAL
  }

  lemma PathAppend(ttl: Time, ss: seq<Sys>, steps: seq<Step>, step: Step)
    requires IsPath(ttl, ss, steps) && Enabled(ss[|steps|], step)
    ensures IsPath(ttl, ss + [Apply(ttl, ss[|steps|], step)], steps + [step])
  {
  }

  // ----- the invariant -----

  function NewIdOf(p: Phase): Option<Id> {
    if p.Created? || p.Lost? || p.Linked? then Some(p.newId) else None
  }

  /** A created token that is not linked (yet, or ever). */
  predicate Pending(p: Phase) {
    p.Created? || p.Lost?
  }

  /** What a call read earlier still identifies its row. */
  ghost predicate Snapshot(s: Sys, tok: RefreshToken) {
    tok.id in s.tokens && HandedOut(s, tok.id) && tok.device != Some("")
    && s.tokens[tok.id].userId == tok.userId && s.tokens[tok.id].device == tok.device
  }

  ghost predicate PhaseOk(s: Sys, p: Phase) {
    && (p.LoginAdmitted? ==> p.user in s.users)
    && (!p.LoginAdmitted? ==> Snapshot(s, p.tok))
    && (p.Reused? ==> Next(s.tokens, p.tok.id).Some?)
    && (NewIdOf(p).Some? ==> p.newId !in s.lost && !HandedOut(s, p.newId) && SameOwner(s.tokens, p.tok.id, p.newId))
    && (Pending(p) ==> Isolated(s.tokens, p.newId))
    && (p.Linked? ==> Next(s.tokens, p.tok.id) == Some(p.newId))
  }

  ghost predicate CallsOk(s: Sys) {
    forall c :: c in s.calls ==> c in s.used && c !in s.grants && PhaseOk(s, s.calls[c])
  }

  ghost predicate NewIdsDistinct(s: Sys) {
    forall c, d :: c in s.calls && d in s.calls && NewIdOf(s.calls[c]).Some? ==>
                     NewIdOf(s.calls[c]) == NewIdOf(s.calls[d]) ==> c == d
  }

  /** A losing call's token is revoked and stays outside every chain. */
  ghost predicate LostOk(s: Sys) {
    forall id :: id in s.lost ==> Revoked(s.tokens, id) && Isolated(s.tokens, id) && !HandedOut(s, id)
  }

  ghost predicate GrantOk(s: Sys, g: Grant) {
    g.token in s.tokens && s.tokens[g.token].userId == g.user
    && (g.presented.None? ==> !HasPred(s.tokens, g.token))
    && (g.presented.Some? ==> Next(s.tokens, g.presented.value) == Some(g.token))
  }

  ghost predicate GrantsOk(s: Sys) {
    && (forall c :: c in s.grants ==> c in s.used && GrantOk(s, s.grants[c]))
    && (forall c, d :: c in s.grants && d in s.grants && s.grants[c].token == s.grants[d].token ==> c == d)
  }

  /** A token nothing was rotated into was opened by a login, awaits linking, or lost. */
  ghost predicate Accounted(s: Sys, id: Id) {
    || id in s.lost
    || (exists c :: c in s.grants && s.grants[c].presented.None? && s.grants[c].token == id)
    || (exists c :: c in s.calls && Pending(s.calls[c]) && s.calls[c].newId == id)
  }

  ghost predicate HeadsAccounted(s: Sys) {
    forall id :: id in s.tokens && !HasPred(s.tokens, id) ==> Accounted(s, id)
  }

  ghost predicate OwnersExist(s: Sys) {
    forall id :: id in s.tokens ==> s.tokens[id].userId in s.users
  }

  ghost predicate Inv(s: Sys) {
    && Sound(s.tokens) && OwnersExist(s) && CallsOk(s) && NewIdsDistinct(s)
    && LostOk(s) && GrantsOk(s) && HeadsAccounted(s)
  }
}
