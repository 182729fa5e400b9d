/**
 The credential table with concurrent callers. A login reads a hash, verifies it and, if the hash
 is weak, later writes it back under stronger parameters, with the password and flag it had read
 and whatever the table then holds. A password set in between is lost. This module gives such a
 run and states exactly when a password just set can be lost.

 A stored hash is represented by the password, parameters and flag it was made from.
 */
module CredentialRace {
  import opened Types
  import opened Base64
  import opened Phc
  import opened Credentials

  type CallId = nat

  datatype Stored = Stored(secret: Secret, made: Params)

  datatype Phase =
    | Rehashing(user: Id, secret: Secret, hasher: Params)        // Login verified a weak hash; next writes it back
    | Changing(user: Id, newPassword: string, hasher: Params)    // ChangePassword verified; next writes the new hash

  datatype Sys = Sys(creds: map<Id, Stored>, calls: map<CallId, Phase>, used: set<CallId>)

  datatype Step =
    | LoginReads(c: CallId, user: Id, password: string, hasher: Params)
    | Rehash(c: CallId)
    | LoginEnds(c: CallId)
    | ChangeReads(c: CallId, user: Id, current: string, newPassword: string, hasher: Params)
    | ChangeWrites(c: CallId)
    | Impose(user: Id, temp: string, hasher: Params)

  /**
   Verification accepts exactly the password a hash was made from, and asks for a rehash exactly
   when its parameters are weaker, unless argon2id collides on its salt.
   */
  lemma StoredStandsForHash(kdf: Kdf, stored: Stored, salt: seq<byte>, current: Params, q: string)
    requires DerivesFullKeys(kdf) && Usable(stored.made)
    requires SameKey(kdf, stored.made, salt, stored.secret.password, q) ==> stored.secret.password == q
    ensures Verify(kdf, current, q, HashPassword(kdf, stored.made, stored.secret.password, salt))
         == if stored.secret.password == q then Match(Weaker(stored.made, current)) else WrongPassword
  {
    hide Verify, HashPassword;
    VerifyHashed(kdf, stored.made, current, salt, stored.secret.password, q);
  }

  /** Calls whose password is refused end without a write and need no step. */
  predicate Enabled(s: Sys, step: Step) {
    match step
    case LoginReads(c, user, password, _) =>
      c !in s.used && user in s.creds && s.creds[user].secret.password == password
    case Rehash(c) => c in s.calls && s.calls[c].Rehashing?
    case LoginEnds(c) => c in s.calls && s.calls[c].Rehashing?
    case ChangeReads(c, user, current, _, _) =>
      c !in s.used && user in s.creds && s.creds[user].secret.password == current
    case ChangeWrites(c) => c in s.calls && s.calls[c].Changing?
    case Impose(_, _, _) => true
  }

  /** `LoginEnds` is a login that stops before its write because the user it read is disabled. */
  function Apply(s: Sys, step: Step): Sys
    requires Enabled(s, step)
  {
    match step
    case LoginReads(c, user, password, hasher) =>
      var read := s.creds[user];
      var s' := s.(used := s.used + {c});
      if Weaker(read.made, hasher)
      then s'.(calls := s.calls[c := Rehashing(user, Secret(password, read.secret.mustChange), hasher)]) else s'
    case Rehash(c) =>
      var p := s.calls[c];
      s.(creds := s.creds[p.user := Stored(p.secret, p.hasher)], calls := s.calls - {c})
    case LoginEnds(c) => s.(calls := s.calls - {c})
    case ChangeReads(c, user, _, newPassword, hasher) =>
      s.(calls := s.calls[c := Changing(user, newPassword, hasher)], used := s.used + {c})
    case ChangeWrites(c) =>
      var p := s.calls[c];
      s.(creds := s.creds[p.user := Stored(Secret(p.newPassword, false), p.hasher)], calls := s.calls - {c})
    case Impose(user, temp, hasher) =>
      s.(creds := s.creds[user := Stored(Secret(temp, true), hasher)])
  }

  /** The step sets this user's password: a change, or one imposed by bootstrap, creation or reset. */
  predicate Sets(s: Sys, step: Step, user: Id) {
    || (step.ChangeWrites? && step.c in s.calls && s.calls[step.c].user == user)
    || (step.Impose? && step.user == user)
  }

  ghost predicate IsPath(ss: seq<Sys>, steps: seq<Step>) {
    |ss| == |steps| + 1
    && forall i :: 0 <= i < |steps| ==> Enabled(ss[i], steps[i]) && ss[i + 1] == Apply(ss[i], steps[i])
  }

  /** A continuation in which nobody sets the user's password. */
  ghost predicate LeavesPassword(ss: seq<Sys>, steps: seq<Step>, user: Id) {
    IsPath(ss, steps) && forall i :: 0 <= i < |steps| ==> !Sets(ss[i], steps[i], user)
  }

  // ----- when a password survives -----

  /** This login in flight is to write back another password or flag of the user. */
  predicate RehashesOther(s: Sys, c: CallId, user: Id, secret: Secret) {
    c in s.calls && s.calls[c].Rehashing? && s.calls[c].user == user && s.calls[c].secret != secret
  }

  /** A login in flight verified another password or flag of this user and may yet write it back. */
  ghost predicate Stale(s: Sys, user: Id) {
    user in s.creds && exists c :: RehashesOther(s, c, user, s.creds[user].secret)
  }

  /** The user's password and flag are these, and every rehash in flight would write these. */
  ghost predicate Settled(s: Sys, user: Id, secret: Secret) {
    && user in s.creds && s.creds[user].secret == secret
    && forall c :: !RehashesOther(s, c, user, secret)
  }

  lemma StepKeepsSettled(s: Sys, step: Step, user: Id, secret: Secret)
    requires Enabled(s, step) && !Sets(s, step, user) && Settled(s, user, secret)
    ensures Settled(Apply(s, step), user, secret)
  {
    forall c ensures !RehashesOther(Apply(s, step), c, user, secret) {
      assert !RehashesOther(s, c, user, secret);
    }
    if step.Rehash? { assert !RehashesOther(s, step.c, user, secret); }
  }

  lemma {:induction false} SettledPersists(ss: seq<Sys>, steps: seq<Step>, user: Id, secret: Secret, i: nat)
    requires LeavesPassword(ss, steps, user) && Settled(ss[0], user, secret) && i < |ss|
    ensures Settled(ss[i], user, secret)
    decreases i
  {
    if i > 0 {
      SettledPersists(ss, steps, user, secret, i - 1);
      StepKeepsSettled(ss[i - 1], steps[i - 1], user, secret);
    }
  }

  /** A continuation without a new password after which the stored one is another. */
  ghost predicate Loses(s: Sys, user: Id, ss: seq<Sys>, steps: seq<Step>) {
    && LeavesPassword(ss, steps, user) && ss[0] == s && user in s.creds
    && (user in ss[|steps|].creds ==> ss[|steps|].creds[user].secret != s.creds[user].secret)
  }

  /**
   The password and flag a user has in any state survive every continuation in which they are not
   set again, if and only if no login in flight verified other ones and is to rehash them.
   */
  lemma PasswordSurvivesIffNotStale(s: Sys, user: Id)
    requires user in s.creds
    ensures Stale(s, user) <==> exists ss: seq<Sys>, steps: seq<Step> :: Loses(s, user, ss, steps)
  {
    if Stale(s, user) {
      var c :| RehashesOther(s, c, user, s.creds[user].secret);
      var ss, steps := [s, Apply(s, Rehash(c))], [Rehash(c)];
      assert Loses(s, user, ss, steps);
    } else {
      forall ss: seq<Sys>, steps: seq<Step> ensures !Loses(s, user, ss, steps) {
        if LeavesPassword(ss, steps, user) && ss[0] == s {
          SettledPersists(ss, steps, user, s.creds[user].secret, |steps|);
        }
      }
    }
  }

  /**
   In particular a password change survives exactly when, as it is written, no login of the user
   that verified the old password, or the old flag, is about to rehash it.
   */
  lemma ChangeSurvivesIffNoOldLogin(s: Sys, c: CallId)
    requires Enabled(s, ChangeWrites(c))
    ensures var p, s' := s.calls[c], Apply(s, ChangeWrites(c));
            (exists ss: seq<Sys>, steps: seq<Step> :: Loses(s', p.user, ss, steps)) <==>
            exists d :: RehashesOther(s, d, p.user, Secret(p.newPassword, false))
  {
    var p, s' := s.calls[c], Apply(s, ChangeWrites(c));
    PasswordSurvivesIffNotStale(s', p.user);
    assert forall d :: RehashesOther(s', d, p.user, Secret(p.newPassword, false))
                  <==> RehashesOther(s, d, p.user, Secret(p.newPassword, false));
  }

  // ----- a lost password -----

  /**
   A concrete run: a user logs in while the stored hash is weak, changes the password before that
   login rehashes, and ends up with the old password, to be changed again.
   */
  lemma LostChange(weak: Params, strong: Params, oldPassword: string, newPassword: string)
    returns (ss: seq<Sys>, steps: seq<Step>)
    requires Weaker(weak, strong) && oldPassword != newPassword
    ensures IsPath(ss, steps) && |steps| == 5 && ss[0] == Sys(map[], map[], {})
    ensures steps[3] == ChangeWrites(2) && ss[4].creds == map[1 := Stored(Secret(newPassword, false), strong)]
    ensures steps[4] == Rehash(1) && ss[5].creds == map[1 := Stored(Secret(oldPassword, true), strong)]
  {
    steps := [Impose(1, oldPassword, weak), LoginReads(1, 1, oldPassword, strong),
              ChangeReads(2, 1, oldPassword, newPassword, strong), ChangeWrites(2), Rehash(1)];
    var s0 := Sys(map[], map[], {});
    var s1 := Apply(s0, steps[0]);
    var s2 := Apply(s1, steps[1]);
    var s3 := Apply(s2, steps[2]);
    var s4 := Apply(s3, steps[3]);
    ss := [s0, s1, s2, s3, s4, Apply(s4, steps[4])];
  }
}
