/**
 The rows the account service keeps: users, credentials and refresh tokens.
 Identifiers and token hashes are opaque values; instants are integers (nanoseconds).
 */
module Types {

  type Id = nat
  type Hash = nat
  type Time = int

  datatype Option<+T> = None | Some(value: T)

  // The schema's CHECK constraints admit exactly these values.
  datatype Role = Admin | Member
  datatype Status = Active | Disabled

  datatype User = User(id: Id, username: string, displayName: string, email: Option<string>, role: Role, status: Status)

  datatype Credential = Credential(passwordHash: string, mustChange: bool)

  /** One session: an opaque token known by its hash, rotated on every refresh. */
  datatype RefreshToken = RefreshToken(
    id: Id, userId: Id, hash: Hash, device: Option<string>,
    issuedAt: Time, expiresAt: Time, revokedAt: Option<Time>, replacedBy: Option<Id>)
  {
    /** Usable at the given instant. */
    predicate IsActive(now: Time) {
      revokedAt.None? && replacedBy.None? && now < expiresAt
    }
  }

  type Table = map<Id, RefreshToken>
}
