/**
 * The registry's data: one record per chat user, and the per-user
 * conversation scratch space the chat framework keeps (`context.user_data`).
 */
module Users {
  import opened Wrappers
  import opened Clock

  /** A chat user's numeric id. */
  type UserId = int

  /** An authenticated connection to the remote site, bound to its bearer token. */
  datatype Session = Session(token: string)

  /**
   * One registered user. The password is kept only as its ciphertext (the
   * Fernet token's text); `fio` is the display name used in comments.
   */
  datatype UserRecord = UserRecord(
    email: string,
    fio: Option<string>,
    encryptedPassword: string,
    session: Option<Session>,
    lastLogin: Option<DateTime>)

  /** Per-user conversation scratch values: the login typed, a name, the order awaiting a comment. */
  datatype ChatContext = ChatContext(
    tempEmail: Option<string>,
    tempFio: Option<string>,
    pendingApproval: Option<string>)

  const EmptyChat: ChatContext := ChatContext(None, None, None)

  /** A record whose timestamp is a real date and time. */
  predicate ValidRecord(u: UserRecord) {
    u.lastLogin.Some? ==> Valid(u.lastLogin.value)
  }

  predicate ValidUsers(users: map<UserId, UserRecord>) {
    forall id :: id in users ==> ValidRecord(users[id])
  }

  /** Decrypting a stored password: the plaintext, or None for a bad key or token. */
  type Decrypt = string -> Option<string>

  /** Logging in to the remote site with an email and a password. */
  type Authenticate = (string, string) -> Option<Session>
}
