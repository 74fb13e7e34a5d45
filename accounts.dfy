/** The `User` row shared by the credential check and the OTP flow. */
module Accounts {
  import opened Wrappers

  /** Times are milliseconds since the epoch. */
  datatype User = User(
    id: string,
    email: string,
    hashedPassword: Option<string>,
    emailVerified: Option<int>)

  /** The user table, keyed by its unique email column. */
  type UserTable = map<string, User>

  predicate KeyedByEmail(users: UserTable)
  {
    forall e :: e in users ==> users[e].email == e
  }
}
