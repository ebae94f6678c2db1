/**
 * Remote-site sessions: bringing back a lost session from the stored
 * ciphertext (`restore_all_sessions`) and the `/list` command's request
 * with its one re-login on an expired token (`list_applications`).
 * Decryption, logging in and the HTTP answers are parameters.
 */
module Sessions {
  import opened Wrappers
  import opened Clock
  import opened Users

  /** A record after a successful login at time `now`. */
  function Relogged(u: UserRecord, s: Session, now: DateTime): (r: UserRecord)
    ensures r.email == u.email && r.fio == u.fio && r.encryptedPassword == u.encryptedPassword
    ensures r.session == Some(s) && r.lastLogin == Some(now)
  {
    u.(session := Some(s), lastLogin := Some(now))
  }

  /**
   * The session a stored login yields: the ciphertext is decrypted and the
   * plaintext used to log in; None when decryption raises or the login
   * fails.
   */
  function LoginAgain(u: UserRecord, decrypt: Decrypt, auth: Authenticate): (r: Option<Session>)
    ensures r.Some? <==> decrypt(u.encryptedPassword).Some? && auth(u.email, decrypt(u.encryptedPassword).value).Some?
  {
    match decrypt(u.encryptedPassword)
    case None => None
    case Some(password) => auth(u.email, password)
  }

  /**
   * The loop body of `restore_all_sessions` for one user: a user without
   * a session logs in again from the stored login, and on success gets the
   * new session and `now` as last login; a failure is logged and the user
   * is left as they were.
   */
  function RestoreOne(u: UserRecord, decrypt: Decrypt, auth: Authenticate, now: DateTime): (r: UserRecord)
    ensures r.email == u.email && r.fio == u.fio && r.encryptedPassword == u.encryptedPassword
    ensures u.session.Some? ==> r == u
    ensures u.session.None? && LoginAgain(u, decrypt, auth).None? ==> r == u
    ensures u.session.None? && LoginAgain(u, decrypt, auth).Some? ==>
      r.session == LoginAgain(u, decrypt, auth) && r.lastLogin == Some(now)
  {
    if u.session.Some? then u
    else
      match LoginAgain(u, decrypt, auth)
      case None => u
      case Some(s) => Relogged(u, s, now)
  }

  /** `restore_all_sessions`: every user restored in turn, with one clock reading. */
  function RestoreAll(users: map<UserId, UserRecord>, decrypt: Decrypt, auth: Authenticate, now: DateTime): (r: map<UserId, UserRecord>)
    ensures r.Keys == users.Keys
  {
    map id | id in users :: RestoreOne(users[id], decrypt, auth, now)
  }

  /** A restored registry keeps every user's identity and is valid when the clock reading is. */
  lemma RestoreAllKeeps(users: map<UserId, UserRecord>, decrypt: Decrypt, auth: Authenticate, now: DateTime)
    requires ValidUsers(users) && Valid(now)
    ensures var r := RestoreAll(users, decrypt, auth, now);
      && ValidUsers(r)
      && forall id :: id in users ==>
        && r[id].email == users[id].email && r[id].fio == users[id].fio
        && r[id].encryptedPassword == users[id].encryptedPassword
        && (users[id].session.Some? ==> r[id] == users[id])
  {
    var r := RestoreAll(users, decrypt, auth, now);
    forall id | id in r
      ensures ValidRecord(r[id])
    {
      assert r[id] == RestoreOne(users[id], decrypt, auth, now);
    }
  }

  /**
   * After a restore, a user has a session exactly when they had one or
   * their stored login works.
   */
  lemma RestoreAllSessionsIff(users: map<UserId, UserRecord>, decrypt: Decrypt, auth: Authenticate, now: DateTime, id: UserId)
    requires id in users
    ensures RestoreAll(users, decrypt, auth, now)[id].session.Some? <==>
      users[id].session.Some? || LoginAgain(users[id], decrypt, auth).Some?
  {
  }

  /** Restoring twice with the same login outcomes is restoring once. */
  lemma RestoreAllIdempotent(users: map<UserId, UserRecord>, decrypt: Decrypt, auth: Authenticate, now: DateTime)
    ensures RestoreAll(RestoreAll(users, decrypt, auth, now), decrypt, auth, now) == RestoreAll(users, decrypt, auth, now)
  {
    var once := RestoreAll(users, decrypt, auth, now);
    var twice := RestoreAll(once, decrypt, auth, now);
    forall id | id in once
      ensures twice[id] == once[id]
    {
      var u := users[id];
      assert once[id] == RestoreOne(u, decrypt, auth, now);
      if u.session.None? && LoginAgain(u, decrypt, auth).None? {
        assert once[id] == u;
      }
    }
  }

  /** The answer to one GET of the orders list. */
  datatype FetchResult = Http(status: int) | NetworkError

  /** What the user is told after `/list`. */
  datatype ListOutcome =
    | NotRegistered   // "❌ Вы не зарегистрированы. Используйте /start."
    | ShowOrders      // the orders are sent, one message each
    | OrdersDropped   // a list was fetched but nothing is sent
    | AccessError     // "🔒 Ошибка доступа. Перерегистрируйтесь."
    | LoginFailed     // "❌ Не удалось войти. Проверьте логин/пароль."
    | RetryFailed     // "❌ Не удалось получить данные после повторного входа."
    | SiteError(status: int) // "⚠️ Ошибка сайта: <status>"
    | ConnectionError // "⚠️ Не удалось подключиться к сайту. Попробуйте позже."

  /** The outcome, the user's record afterwards and the number of GET requests sent. */
  datatype ListResult = ListResult(outcome: ListOutcome, user: UserRecord, requests: nat)

  /**
   * `list_applications` for a registered user. `first` answers the GET
   * made with the stored session (no session: the call raises, reported as
   * a connection failure). On 401 the stored login is used again; a
   * successful login replaces session and last login in memory and the
   * GET is repeated once, answered by `retry`. `awaited` says whether the
   * orders of a successful retry are actually sent.
   */
  function ListFlow(u: UserRecord, first: FetchResult, decrypt: Decrypt, auth: Authenticate,
                    retry: FetchResult, now: DateTime, awaited: bool): (r: ListResult)
    ensures r.user == u || r.user.(session := u.session, lastLogin := u.lastLogin) == u
    ensures r.outcome != NotRegistered
  {
    if u.session.None? then ListResult(ConnectionError, u, 0)
    else
      match first
      case NetworkError => ListResult(ConnectionError, u, 1)
      case Http(status) =>
        if status == 200 then ListResult(ShowOrders, u, 1)
        else if status != 401 then ListResult(SiteError(status), u, 1)
        else
          match decrypt(u.encryptedPassword)
          case None => ListResult(AccessError, u, 1)
          case Some(password) =>
            match auth(u.email, password)
            case None => ListResult(LoginFailed, u, 1)
            case Some(s) =>
              var renewed := Relogged(u, s, now);
              match retry
              case NetworkError => ListResult(ConnectionError, renewed, 2)
              case Http(again) =>
                if again != 200 then ListResult(RetryFailed, renewed, 2)
                else ListResult(if awaited then ShowOrders else OrdersDropped, renewed, 2)
  }

  /** The list flow as written: the retried listing is never awaited. */
  function ListFlowAsWritten(u: UserRecord, first: FetchResult, decrypt: Decrypt, auth: Authenticate,
                             retry: FetchResult, now: DateTime): (r: ListResult)
    ensures r.outcome != ShowOrders || first == Http(200)
  {
    ListFlow(u, first, decrypt, auth, retry, now, false)
  }

  /** True when the stored session is rejected and a fresh login succeeds. */
  predicate ReloginWorks(u: UserRecord, first: FetchResult, decrypt: Decrypt, auth: Authenticate) {
    u.session.Some? && first == Http(401) && LoginAgain(u, decrypt, auth).Some?
  }

  /**
   * The record changes only when a re-login succeeds, and then exactly
   * its session and last login are replaced; at most two requests are
   * sent, two exactly when the re-login succeeds.
   */
  lemma ListFlowEffects(u: UserRecord, first: FetchResult, decrypt: Decrypt, auth: Authenticate,
                        retry: FetchResult, now: DateTime, awaited: bool)
    ensures var r := ListFlow(u, first, decrypt, auth, retry, now, awaited);
      && r.requests <= 2
      && (r.requests == 2 <==> ReloginWorks(u, first, decrypt, auth))
      && (!ReloginWorks(u, first, decrypt, auth) ==> r.user == u)
      && (ReloginWorks(u, first, decrypt, auth) ==>
            r.user == Relogged(u, LoginAgain(u, decrypt, auth).value, now))
  {
  }

  /**
   * With the retry awaited, the orders are shown exactly when the stored
   * session works, or it is rejected, a fresh login succeeds and the
   * repeated request succeeds.
   */
  lemma ListShowsOrders(u: UserRecord, first: FetchResult, decrypt: Decrypt, auth: Authenticate,
                        retry: FetchResult, now: DateTime)
    ensures ListFlow(u, first, decrypt, auth, retry, now, true).outcome == ShowOrders <==>
      u.session.Some? && (first == Http(200) || (ReloginWorks(u, first, decrypt, auth) && retry == Http(200)))
  {
  }

  /**
   * As written, a rejected session followed by a working login and a
   * successful repeat shows nothing; awaited, the same answers show the
   * orders. Everywhere else the two agree.
   */
  lemma RetryOrdersDroppedAsWritten(u: UserRecord, first: FetchResult, decrypt: Decrypt, auth: Authenticate,
                                    retry: FetchResult, now: DateTime)
    ensures var w, a := ListFlowAsWritten(u, first, decrypt, auth, retry, now), ListFlow(u, first, decrypt, auth, retry, now, true);
      && w.user == a.user && w.requests == a.requests
      && (ReloginWorks(u, first, decrypt, auth) && retry == Http(200) ==>
            w.outcome == OrdersDropped && a.outcome == ShowOrders)
      && (!(ReloginWorks(u, first, decrypt, auth) && retry == Http(200)) ==> w.outcome == a.outcome)
  {
  }

  /** A listing never invalidates the record when the clock reading is valid. */
  lemma ListFlowValid(u: UserRecord, first: FetchResult, decrypt: Decrypt, auth: Authenticate,
                      retry: FetchResult, now: DateTime, awaited: bool)
    requires ValidRecord(u) && Valid(now)
    ensures ValidRecord(ListFlow(u, first, decrypt, auth, retry, now, awaited).user)
  {
  }
}
