/**
 * The bot's handlers over its in-memory state: the registry of users, each
 * user's conversation scratch values, where each user stands in the
 * registration dialogue, and the data file's content after the last save.
 * Chat replies are returned as values; encryption, decryption, logging in,
 * HTTP answers and the clock are parameters.
 */
module Handlers {
  import opened Wrappers
  import opened Text
  import opened Digits
  import opened Clock
  import opened Users
  import opened Snapshot
  import opened Sessions
  import opened Tokens
  import opened Approval

  /** The registration dialogue's waiting states (`LOGIN`, `PASSWORD`, `FIO`). */
  datatype Step = Login | Password | Fio

  /** Encrypting a password: the ciphertext's text, or None when encryption raises. */
  type Encrypt = string -> Option<string>

  /** A handler's answer: a chat message, or an exception escaping the handler. */
  datatype Reply = Say(text: string) | Raise(exception: string)

  /**
   * What an approval attempt ends in: the order the approval is sent to
   * (the id text in `/api/rest/order/<id>/approve`), the comment posted
   * and the message edit made after it; an edit made without posting (the
   * session could not be restored); or an exception.
   */
  datatype ApprovalReply =
    | Posted(orderId: string, comment: string, edit: MessageEdit)
    | NotPosted(edit: MessageEdit)
    | Raised(exception: string)

  const AskLogin: string := "🔐 Введите логин:"
  const AskFio: string := "📝 Введите ваше ФИО (для комментариев):"
  const AlreadyRegistered: string := "Вы уже зарегистрированы."
  const AskPassword: string := "🔑 Введите пароль (сообщение будет удалено):"
  const EncryptionFailed: string := "Ошибка шифрования. Попробуйте снова."
  const LoginRejected: string := "❌ Ошибка входа. Проверьте логин и пароль."
  const Registered: string := "✅ Успешно! Проверка заявок запущена (каждые 5 мин)."
  /** The display name stored for a user who registers without giving one. */
  const NoName: string := "Без ФИО"
  /** The comment prompt, written in short pieces so that each piece is seen to be one line. */
  const AskComment: string := "🖋 Введите " + "комментарий " + "(например, " + "'бюджет', " + "'грант' " + "и т.п.):"
  const AccessDenied: string := "🔒 Ошибка доступа."
  const RestoreFailed: string := "❌ Не удалось восстановить сессию."

  const FioSavedPrefix: string := "✅ ФИО сохранено: "

  /** The confirmation sent after a name is entered: it echoes the name after a fixed prefix. */
  function FioSaved(fio: string): (r: string)
    ensures FioSavedPrefix + fio <= r
  {
    FioSavedPrefix + fio + "\nПроверка запущена."
  }

  /** The state a snapshot must reload to: every user without session and name. */
  predicate SnapshotOf(saved: seq<Entry>, users: map<UserId, UserRecord>) {
    LoadFn(saved) == Some(map id | id in users :: Reloaded(users[id]))
  }

  /**
   * After a save and a restart, a user has a session again exactly when
   * their stored login still decrypts and is accepted; everything else
   * about them is as it was saved.
   */
  lemma RestartRestoresSessions(users: map<UserId, UserRecord>, saved: seq<Entry>, decrypt: Decrypt, auth: Authenticate, now: DateTime)
    requires SnapshotOf(saved, users)
    ensures var r := RestoreAll(LoadFn(saved).value, decrypt, auth, now);
      && r.Keys == users.Keys
      && forall id :: id in users ==>
        && r[id].email == users[id].email && r[id].encryptedPassword == users[id].encryptedPassword
        && r[id].fio.None?
        && (r[id].session.Some? <==> LoginAgain(users[id], decrypt, auth).Some?)
  {
    var loaded := LoadFn(saved).value;
    forall id | id in users
      ensures LoginAgain(loaded[id], decrypt, auth) == LoginAgain(users[id], decrypt, auth)
    {
      assert loaded[id] == Reloaded(users[id]);
    }
  }

  /**
   * The answer of `send_approval_comment` for the registry `users`: an
   * unknown user raises KeyError; a user with a session, or whose stored
   * login works again, gets the comment posted and the message edited by
   * the answer; otherwise the message is replaced by an error without
   * buttons (decryption failing and login failing give different texts).
   */
  function ApprovalAnswer(users: map<UserId, UserRecord>, id: UserId, orderId: string, suffix: string, messageText: string,
                          decrypt: Decrypt, auth: Authenticate, remote: RemoteResult, now: DateTime): (r: ApprovalReply)
    requires Clock.Valid(now)
    ensures r == Raised("KeyError") <==> id !in users
    ensures r.Posted? <==> id in users && (users[id].session.Some? || LoginAgain(users[id], decrypt, auth).Some?)
    ensures r.Posted? ==>
      r == Posted(orderId, ApprovalComment(now, users[id].fio, suffix), EditAfterApproval(messageText, orderId, remote))
    ensures r.NotPosted? ==>
      r.edit == MessageEdit(if decrypt(users[id].encryptedPassword).None? then AccessDenied else RestoreFailed, [])
  {
    if id !in users then Raised("KeyError")
    else if users[id].session.None? && LoginAgain(users[id], decrypt, auth).None? then
      NotPosted(MessageEdit(if decrypt(users[id].encryptedPassword).None? then AccessDenied else RestoreFailed, []))
    else Posted(orderId, ApprovalComment(now, users[id].fio, suffix), EditAfterApproval(messageText, orderId, remote))
  }

  /**
   * The registry after `send_approval_comment`: only the caller's record
   * may change, and only its session, which a user without one gets back
   * from their stored login when that works.
   */
  function ApprovalUsers(users: map<UserId, UserRecord>, id: UserId, decrypt: Decrypt, auth: Authenticate)
    : (r: map<UserId, UserRecord>)
    ensures r.Keys == users.Keys
    ensures forall k :: k in users && k != id ==> r[k] == users[k]
    ensures id in users ==> r[id].(session := users[id].session) == users[id]
    ensures id in users && r[id] != users[id] <==>
      id in users && users[id].session.None? && LoginAgain(users[id], decrypt, auth).Some?
    ensures id in users && r[id] != users[id] ==> r[id].session == LoginAgain(users[id], decrypt, auth)
  {
    if id in users && users[id].session.None? && LoginAgain(users[id], decrypt, auth).Some? then
      users[id := users[id].(session := LoginAgain(users[id], decrypt, auth))]
    else users
  }

  /**
   * `handle_message` as written hands its Update to `send_approval_comment`
   * where a callback query is expected. An Update has no
   * `edit_message_text`, so for a registered user every path ends in an
   * edit that raises AttributeError, the one in the exception handler
   * included; an unknown user raises KeyError first.
   */
  function CommentAnswerAsWritten(users: map<UserId, UserRecord>, id: UserId): (r: ApprovalReply)
    ensures r.Raised?
    ensures r.exception == "KeyError" <==> id !in users
  {
    if id !in users then Raised("KeyError") else Raised("AttributeError")
  }

  /**
   * As written, a registered user's comment never reaches the order: the
   * handler raises where the repaired one posts the comment or reports
   * the lost session on the order message.
   */
  lemma CommentCrashesAsWritten(users: map<UserId, UserRecord>, id: UserId, orderId: string, suffix: string,
                                messageText: string, decrypt: Decrypt, auth: Authenticate, remote: RemoteResult, now: DateTime)
    requires Clock.Valid(now) && id in users
    ensures CommentAnswerAsWritten(users, id) == Raised("AttributeError")
    ensures !ApprovalAnswer(users, id, orderId, suffix, messageText, decrypt, auth, remote, now).Raised?
  {
  }

  class Bot {
    /** `user_data`: the registry of users by chat id. */
    var users: map<UserId, UserRecord>
    /** `context.user_data` of each user who has one. */
    var chats: map<UserId, ChatContext>
    /** The dialogue step of each user inside the registration conversation. */
    var conversation: map<UserId, Step>
    /** The members of the data file, as last written. */
    var saved: seq<Entry>

    /**
     * The registry holds valid timestamps; a user waiting for a password
     * has entered a login, and a user asked for a name is registered.
     */
    ghost predicate Valid()
      reads this
    {
      && ValidUsers(users)
      && (forall id :: id in conversation && conversation[id] == Password ==> id in chats && chats[id].tempEmail.Some?)
      && (forall id :: id in conversation && conversation[id] == Fio ==> id in users)
      && (forall id :: id in chats ==> chats[id].tempFio.None?)
    }

    /** A bot started on a registry read from `file`, outside any conversation. */
    constructor(loaded: map<UserId, UserRecord>, file: seq<Entry>)
      requires ValidUsers(loaded)
      ensures Valid()
      ensures users == loaded && chats == map[] && conversation == map[] && saved == file
    {
      users := loaded;
      chats := map[];
      conversation := map[];
      saved := file;
    }

    /** A user's scratch values; a user who has none starts with an empty set. */
    function ChatOf(id: UserId): (c: ChatContext)
      reads this
      ensures id !in chats ==> c == EmptyChat
      ensures id in chats ==> c == chats[id]
    {
      if id in chats then chats[id] else EmptyChat
    }

    /**
     * Where `/start` sends a user: an unknown user is asked for a login, a
     * registered one without a (non-empty) name for a name, and anyone else
     * is told they are registered (None: the dialogue ends).
     */
    function StartRoute(id: UserId): (r: Option<Step>)
      reads this
      ensures r != Some(Password)
      ensures r == Some(Login) <==> id !in users
      ensures r == Some(Fio) ==> id in users
      ensures r.None? <==> id in users && users[id].fio.Some? && users[id].fio.value != ""
    {
      if id !in users then Some(Login)
      else if users[id].fio.None? || users[id].fio.value == "" then Some(Fio)
      else None
    }

    /**
     * `/start`: entering the registration dialogue. A user already inside
     * it gets nothing (the dialogue does not restart).
     */
    method StartCommand(id: UserId) returns (reply: Option<string>)
      requires Valid()
      modifies this
      ensures Valid()
      ensures users == old(users) && chats == old(chats) && saved == old(saved)
      ensures id in old(conversation) ==> reply.None? && conversation == old(conversation)
      ensures id !in old(conversation) ==>
        && reply == Some(match StartRoute(id) case Some(Login) => AskLogin case Some(_) => AskFio case None => AlreadyRegistered)
        && conversation == if StartRoute(id).Some? then old(conversation)[id := StartRoute(id).value] else old(conversation)
    {
      if id in conversation {
        return None;
      }
      var route := StartRoute(id);
      match route {
        case Some(Login) => reply := Some(AskLogin);
        case Some(_) => reply := Some(AskFio);
        case None => reply := Some(AlreadyRegistered);
      }
      if route.Some? {
        conversation := conversation[id := route.value];
      }
    }

    /** `login_received`: the stripped text is kept as the login and a password is asked for. */
    method LoginReceived(id: UserId, text: string) returns (reply: Reply)
      requires Valid()
      modifies this
      ensures Valid()
      ensures reply == Say(AskPassword)
      ensures chats == old(chats)[id := old(ChatOf(id)).(tempEmail := Some(Strip(text)))]
      ensures conversation == old(conversation)[id := Password]
      ensures users == old(users) && saved == old(saved)
    {
      chats := chats[id := ChatOf(id).(tempEmail := Some(Strip(text)))];
      conversation := conversation[id := Password];
      reply := Say(AskPassword);
    }

    /**
     * `fio_received`: a registered user's name becomes the stripped text;
     * the reply echoes it either way and the dialogue ends.
     */
    method FioReceived(id: UserId, text: string) returns (reply: Reply)
      requires Valid()
      modifies this
      ensures Valid()
      ensures reply == Say(FioSaved(Strip(text)))
      ensures users == if id in old(users) then old(users)[id := old(users)[id].(fio := Some(Strip(text)))] else old(users)
      ensures conversation == old(conversation) - {id}
      ensures chats == old(chats) && saved == old(saved)
    {
      var fio := Strip(text);
      if id in users {
        users := users[id := users[id].(fio := Some(fio))];
      }
      conversation := conversation - {id};
      reply := Say(FioSaved(fio));
    }

    /** Writes the registry to the data file (`save_user_data`, also run at exit). */
    method Save()
      requires Valid()
      modifies this
      ensures Valid()
      ensures SnapshotOf(saved, users)
      ensures users == old(users) && chats == old(chats) && conversation == old(conversation)
    {
      ghost var order;
      saved, order := SaveUserData(users);
    }

    /**
     * `password_received`: the login typed before is required (KeyError
     * without it); the password is encrypted, then used to log in; on
     * success the user is (re-)registered with the name given or a
     * default, the new session and `now`, and the registry is saved.
     */
    method PasswordReceived(id: UserId, password: string, encrypt: Encrypt, auth: Authenticate, now: DateTime)
      returns (reply: Reply)
      requires Valid() && Clock.Valid(now)
      modifies this
      ensures Valid()
      ensures chats == old(chats)
      ensures old(ChatOf(id)).tempEmail.None? ==>
        reply == Raise("KeyError") && users == old(users) && saved == old(saved) && conversation == old(conversation)
      ensures old(ChatOf(id)).tempEmail.Some? ==> conversation == old(conversation) - {id}
      ensures old(ChatOf(id)).tempEmail.Some? && encrypt(password).None? ==>
        reply == Say(EncryptionFailed) && users == old(users) && saved == old(saved)
      ensures old(ChatOf(id)).tempEmail.Some? && encrypt(password).Some? && auth(old(ChatOf(id)).tempEmail.value, password).None? ==>
        reply == Say(LoginRejected) && users == old(users) && saved == old(saved)
      ensures old(ChatOf(id)).tempEmail.Some? && encrypt(password).Some? && auth(old(ChatOf(id)).tempEmail.value, password).Some? ==>
        && reply == Say(Registered)
        && users == old(users)[id := UserRecord(old(ChatOf(id)).tempEmail.value, Some(old(ChatOf(id)).tempFio.GetOr(NoName)),
                                                encrypt(password).value, auth(old(ChatOf(id)).tempEmail.value, password), Some(now))]
        && SnapshotOf(saved, users)
        && users[id].fio == Some(NoName) && StartRoute(id).None?
    {
      var chat := ChatOf(id);
      if chat.tempEmail.None? {
        return Raise("KeyError");
      }
      var email := chat.tempEmail.value;
      conversation := conversation - {id};
      var encrypted := encrypt(password);
      if encrypted.None? {
        return Say(EncryptionFailed);
      }
      var session := auth(email, password);
      if session.None? {
        return Say(LoginRejected);
      }
      users := users[id := UserRecord(email, Some(chat.tempFio.GetOr(NoName)), encrypted.value, session, Some(now))];
      Save();
      reply := Say(Registered);
    }

    /**
     * A non-command text message. Inside the registration dialogue it goes
     * to the handler of the current step; outside it nothing handles it.
     * Reached this way, no handler raises, and a name entered is stored.
     */
    method TextMessage(id: UserId, text: string, encrypt: Encrypt, auth: Authenticate, now: DateTime)
      returns (reply: Option<Reply>)
      requires Valid() && Clock.Valid(now)
      modifies this
      ensures Valid()
      ensures reply.Some? <==> id in old(conversation)
      ensures reply.Some? ==> reply.value.Say?
      ensures id !in old(conversation) ==>
        users == old(users) && chats == old(chats) && conversation == old(conversation) && saved == old(saved)
      ensures id in old(conversation) && old(conversation)[id] == Fio ==> id in users && users[id].fio == Some(Strip(text))
      ensures id in old(conversation) && old(conversation)[id] != Login ==> id !in conversation
      // The login step: the stripped login is kept and the password asked for.
      ensures id in old(conversation) && old(conversation)[id] == Login ==>
        && reply == Some(Say(AskPassword))
        && chats == old(chats)[id := old(ChatOf(id)).(tempEmail := Some(Strip(text)))]
        && conversation == old(conversation)[id := Password]
        && users == old(users) && saved == old(saved)
      // The password step: the three outcomes of `password_received`, with the default name.
      ensures id in old(conversation) && old(conversation)[id] == Password ==>
        && chats == old(chats) && conversation == old(conversation) - {id}
        && old(ChatOf(id)).tempEmail.Some?
        && (var email := old(ChatOf(id)).tempEmail.value;
            && (encrypt(text).None? ==>
                  reply == Some(Say(EncryptionFailed)) && users == old(users) && saved == old(saved))
            && (encrypt(text).Some? && auth(email, text).None? ==>
                  reply == Some(Say(LoginRejected)) && users == old(users) && saved == old(saved))
            && (encrypt(text).Some? && auth(email, text).Some? ==>
                  && reply == Some(Say(Registered))
                  && users == old(users)[id := UserRecord(email, Some(NoName), encrypt(text).value, auth(email, text), Some(now))]
                  && SnapshotOf(saved, users)))
      // The name step: only this user's name changes, and the dialogue ends.
      ensures id in old(conversation) && old(conversation)[id] == Fio ==>
        && reply == Some(Say(FioSaved(Strip(text))))
        && users == old(users)[id := old(users)[id].(fio := Some(Strip(text)))]
        && conversation == old(conversation) - {id}
        && chats == old(chats) && saved == old(saved)
    {
      if id !in conversation {
        return None;
      }
      var r;
      match conversation[id] {
        case Login => r := LoginReceived(id, text);
        case Password => r := PasswordReceived(id, text, encrypt, auth, now);
        case Fio => r := FioReceived(id, text);
      }
      reply := Some(r);
    }

    /**
     * `restore_all_sessions`: each user without a session logs in again
     * from their stored login, with one clock reading for the pass.
     */
    method RestoreAllSessions(decrypt: Decrypt, auth: Authenticate, now: DateTime)
      requires Valid() && Clock.Valid(now)
      modifies this
      ensures Valid()
      ensures users == RestoreAll(old(users), decrypt, auth, now)
      ensures chats == old(chats) && conversation == old(conversation) && saved == old(saved)
    {
      ghost var start := users;
      var todo := users.Keys;
      while exists id :: id in todo
        invariant todo <= start.Keys && users.Keys == start.Keys
        invariant forall id :: id in users ==> users[id] == if id in todo then start[id] else RestoreOne(start[id], decrypt, auth, now)
        invariant chats == old(chats) && conversation == old(conversation) && saved == old(saved)
        decreases todo
      {
        var id :| id in todo;
        var u := users[id];
        if u.session.None? {
          var password := decrypt(u.encryptedPassword);
          if password.Some? {
            var session := auth(u.email, password.value);
            if session.Some? {
              users := users[id := u.(session := session, lastLogin := Some(now))];
            }
          }
        }
        todo := todo - {id};
      }
      assert forall id :: id in users ==> users[id] == RestoreAll(start, decrypt, auth, now)[id];
      RestoreAllKeeps(start, decrypt, auth, now);
    }

    /**
     * Startup (`main`): the registry is loaded from the data file (a key
     * that is not an integer stops startup: null) and every lost session
     * is restored.
     */
    static method Launch(file: seq<Entry>, decrypt: Decrypt, auth: Authenticate, now: DateTime) returns (bot: Bot?)
      requires Clock.Valid(now)
      ensures bot == null <==> LoadFn(file).None?
      ensures bot != null ==>
        && fresh(bot) && bot.Valid()
        && bot.users == RestoreAll(LoadFn(file).value, decrypt, auth, now)
        && bot.chats == map[] && bot.conversation == map[] && bot.saved == file
      ensures bot != null ==> forall id :: id in bot.users ==> bot.StartRoute(id) == Some(Fio)
    {
      var loaded := LoadUserData(file);
      if loaded.None? {
        return null;
      }
      bot := new Bot(loaded.value, file);
      bot.RestoreAllSessions(decrypt, auth, now);
      LoadedRecords(file);
      RestoreAllKeeps(loaded.value, decrypt, auth, now);
    }

    /**
     * `/list`: an unregistered user is told to register; otherwise the
     * listing runs with the retried request's orders sent, and a successful
     * re-login is kept in memory only.
     */
    method ListApplications(id: UserId, first: FetchResult, decrypt: Decrypt, auth: Authenticate,
                            retry: FetchResult, now: DateTime) returns (outcome: ListOutcome)
      requires Valid() && Clock.Valid(now)
      modifies this
      ensures Valid()
      ensures id !in old(users) ==> outcome == NotRegistered && users == old(users)
      ensures id in old(users) ==>
        var r := ListFlow(old(users)[id], first, decrypt, auth, retry, now, true);
        outcome == r.outcome && users == old(users)[id := r.user]
      ensures chats == old(chats) && conversation == old(conversation) && saved == old(saved)
    {
      if id !in users {
        return NotRegistered;
      }
      var r := ListFlow(users[id], first, decrypt, auth, retry, now, true);
      ListFlowValid(users[id], first, decrypt, auth, retry, now, true);
      users := users[id := r.user];
      outcome := r.outcome;
    }

    /**
     * `send_approval_comment`: the comment is the date, the user's name and
     * the suffix; a user without a session logs in again first (only the
     * session is kept), and on failure the message is replaced by an error;
     * then the approval is posted and the message edited by the answer.
     * An unknown user raises KeyError.
     */
    method SendApprovalComment(id: UserId, orderId: string, suffix: string, messageText: string,
                               decrypt: Decrypt, auth: Authenticate, remote: RemoteResult, now: DateTime)
      returns (reply: ApprovalReply)
      requires Valid() && Clock.Valid(now)
      modifies this
      ensures Valid()
      ensures chats == old(chats) && conversation == old(conversation) && saved == old(saved)
      ensures id !in old(users) ==> reply == Raised("KeyError") && users == old(users)
      ensures id in old(users) && old(users)[id].session.Some? ==>
        && reply == Posted(orderId, ApprovalComment(now, old(users)[id].fio, suffix), EditAfterApproval(messageText, orderId, remote))
        && users == old(users)
      ensures id in old(users) && old(users)[id].session.None? && decrypt(old(users)[id].encryptedPassword).None? ==>
        reply == NotPosted(MessageEdit(AccessDenied, [])) && users == old(users)
      ensures id in old(users) && old(users)[id].session.None? && decrypt(old(users)[id].encryptedPassword).Some?
              && LoginAgain(old(users)[id], decrypt, auth).None? ==>
        reply == NotPosted(MessageEdit(RestoreFailed, [])) && users == old(users)
      ensures id in old(users) && old(users)[id].session.None? && LoginAgain(old(users)[id], decrypt, auth).Some? ==>
        && reply == Posted(orderId, ApprovalComment(now, old(users)[id].fio, suffix), EditAfterApproval(messageText, orderId, remote))
        && users == old(users)[id := old(users)[id].(session := LoginAgain(old(users)[id], decrypt, auth))]
      ensures reply == ApprovalAnswer(old(users), id, orderId, suffix, messageText, decrypt, auth, remote, now)
      ensures users == ApprovalUsers(old(users), id, decrypt, auth)
    {
      if id !in users {
        return Raised("KeyError");
      }
      var u := users[id];
      var comment := ApprovalComment(now, u.fio, suffix);
      if u.session.None? {
        var password := decrypt(u.encryptedPassword);
        if password.None? {
          return NotPosted(MessageEdit(AccessDenied, []));
        }
        var session := auth(u.email, password.value);
        if session.None? {
          return NotPosted(MessageEdit(RestoreFailed, []));
        }
        users := users[id := u.(session := session)];
      }
      reply := Posted(orderId, comment, EditAfterApproval(messageText, orderId, remote));
    }

    /**
     * `button_handler`, with the confirm branch repaired: the decoded
     * button is dispatched; the free-text button records the order as
     * waiting for a comment, and a category button sends the approval for
     * the order id read as an integer (ValueError when it is not one).
     */
    method ButtonPressed(id: UserId, data: string, messageText: string, decrypt: Decrypt, auth: Authenticate,
                         remote: RemoteResult, now: DateTime) returns (outcome: ButtonOutcome, approval: Option<ApprovalReply>)
      requires Valid() && Clock.Valid(now)
      modifies this
      ensures Valid()
      ensures outcome == HandleButton(data, id in old(users))
      ensures approval.Some? <==> outcome.Submit?
      ensures outcome.AwaitComment? ==>
        chats == old(chats)[id := old(ChatOf(id)).(pendingApproval := Some(outcome.orderId))] && users == old(users)
      ensures !outcome.AwaitComment? ==> chats == old(chats)
      ensures !outcome.Submit? ==> users == old(users)
      ensures outcome.Submit? && ParseInt(outcome.orderId).None? ==> approval == Some(Raised("ValueError")) && users == old(users)
      ensures outcome.Submit? && ParseInt(outcome.orderId).Some? && id in old(users) && old(users)[id].session.Some? ==>
        && approval == Some(Posted(IntText(ParseInt(outcome.orderId).value), ApprovalComment(now, old(users)[id].fio, outcome.category),
                                   EditAfterApproval(messageText, IntText(ParseInt(outcome.orderId).value), remote)))
        && users == old(users)
      ensures outcome.Submit? && ParseInt(outcome.orderId).Some? && id !in old(users) ==>
        approval == Some(Raised("KeyError")) && users == old(users)
      ensures outcome.Submit? && ParseInt(outcome.orderId).Some? ==>
        && approval == Some(ApprovalAnswer(old(users), id, IntText(ParseInt(outcome.orderId).value), outcome.category,
                                           messageText, decrypt, auth, remote, now))
        && users == ApprovalUsers(old(users), id, decrypt, auth)
      ensures conversation == old(conversation) && saved == old(saved)
    {
      outcome := HandleButton(data, id in users);
      approval := None;
      match outcome {
        case AwaitComment(orderId) =>
          chats := chats[id := ChatOf(id).(pendingApproval := Some(orderId))];
        case Submit(orderId, category) =>
          var n := ParseInt(orderId);
          if n.None? {
            approval := Some(Raised("ValueError"));
          } else {
            var r := SendApprovalComment(id, IntText(n.value), category, messageText, decrypt, auth, remote, now);
            approval := Some(r);
          }
        case _ =>
      }
    }

    /**
     * `handle_message`: a text sent while an order waits for a comment
     * takes that order off the waiting slot and sends the approval with the
     * stripped text as the comment suffix.
     */
    method HandleMessage(id: UserId, text: string, messageText: string, decrypt: Decrypt, auth: Authenticate,
                         remote: RemoteResult, now: DateTime) returns (approval: Option<ApprovalReply>)
      requires Valid() && Clock.Valid(now)
      modifies this
      ensures Valid()
      ensures old(ChatOf(id)).pendingApproval.None? ==> approval.None? && users == old(users) && chats == old(chats)
      ensures old(ChatOf(id)).pendingApproval.Some? ==>
        && approval.Some?
        && chats == old(chats)[id := old(ChatOf(id)).(pendingApproval := None)]
        && (id in old(users) && old(users)[id].session.Some? ==>
              approval.value == Posted(old(ChatOf(id)).pendingApproval.value, ApprovalComment(now, old(users)[id].fio, Strip(text)),
                                       EditAfterApproval(messageText, old(ChatOf(id)).pendingApproval.value, remote)))
      ensures old(ChatOf(id)).pendingApproval.Some? && approval.value.Posted? ==>
        approval.value.orderId == old(ChatOf(id)).pendingApproval.value
      ensures old(ChatOf(id)).pendingApproval.Some? ==>
        && approval == Some(ApprovalAnswer(old(users), id, old(ChatOf(id)).pendingApproval.value, Strip(text),
                                           messageText, decrypt, auth, remote, now))
        && users == ApprovalUsers(old(users), id, decrypt, auth)
      ensures conversation == old(conversation) && saved == old(saved)
    {
      var chat := ChatOf(id);
      if chat.pendingApproval.None? {
        return None;
      }
      var orderId := chat.pendingApproval.value;
      chats := chats[id := chat.(pendingApproval := None)];
      var r := SendApprovalComment(id, orderId, Strip(text), messageText, decrypt, auth, remote, now);
      approval := Some(r);
    }
  }

  /** A user who has a session gets the comment posted and the registry stays as it was. */
  lemma ApprovalWithSession(users: map<UserId, UserRecord>, id: UserId, orderId: string, suffix: string, messageText: string,
                            decrypt: Decrypt, auth: Authenticate, remote: RemoteResult, now: DateTime)
    requires Clock.Valid(now) && id in users && users[id].session.Some?
    ensures ApprovalAnswer(users, id, orderId, suffix, messageText, decrypt, auth, remote, now)
      == Posted(orderId, ApprovalComment(now, users[id].fio, suffix), EditAfterApproval(messageText, orderId, remote))
    ensures ApprovalUsers(users, id, decrypt, auth) == users
  {
  }

  /** The comment prompt is one line without a status, so an accepted approval keeps its text. */
  lemma PromptEditAccepted(orderId: string)
    ensures EditAfterApproval(AskComment, orderId, Accepted) == MessageEdit(AskComment, [])
  {
    assert '\n' !in AskComment;
  }

  /**
   * The free-text comment flow end to end: pressing the free-text button
   * of an order's category keyboard puts that order in the waiting slot
   * and replaces the message's text by the comment prompt; the next text
   * message takes the order out and approves that order, editing the
   * message that now shows the prompt. The prompt has no status line, so
   * an accepted approval leaves it as it is and only removes the buttons.
   */
  method CustomCommentFlow(bot: Bot, id: UserId, orderId: int, comment: string, messageText: string,
                           decrypt: Decrypt, auth: Authenticate, remote: RemoteResult, now: DateTime)
    returns (approval: Option<ApprovalReply>)
    requires bot.Valid() && Clock.Valid(now)
    requires id in bot.users && bot.users[id].session.Some?
    modifies bot
    ensures approval == Some(Posted(IntText(orderId), ApprovalComment(now, old(bot.users[id].fio), Strip(comment)),
                                    EditAfterApproval(AskComment, IntText(orderId), remote)))
    ensures approval.value.orderId == IntText(orderId)
    ensures remote.Accepted? ==> approval.value.edit == MessageEdit(AskComment, [])
    ensures bot.ChatOf(id).pendingApproval.None?
    ensures bot.users == old(bot.users)
  {
    var keyboard := CategoryKeyboard(IntText(orderId));
    assert ':' !in IntText(orderId);
    ApproveFlow(IntText(orderId), true);
    ghost var before := bot.users;
    var outcome, none := bot.ButtonPressed(id, keyboard[2], messageText, decrypt, auth, remote, now);
    assert outcome == AwaitComment(IntText(orderId));
    approval := bot.HandleMessage(id, comment, AskComment, decrypt, auth, remote, now);
    ApprovalWithSession(before, id, IntText(orderId), Strip(comment), AskComment, decrypt, auth, remote, now);
    PromptEditAccepted(IntText(orderId));
  }

  /**
   * The category flow end to end: on an order's action buttons, approve
   * shows the categories, and the paid or subsidy button then posts the
   * comment "DD.MM name category" for that order.
   */
  method CategoryFlow(bot: Bot, id: UserId, orderId: int, paid: bool, messageText: string,
                      decrypt: Decrypt, auth: Authenticate, remote: RemoteResult, now: DateTime)
    returns (approval: Option<ApprovalReply>)
    requires bot.Valid() && Clock.Valid(now)
    requires id in bot.users && bot.users[id].session.Some?
    modifies bot
    ensures approval == Some(Posted(IntText(orderId), ApprovalComment(now, old(bot.users[id].fio), if paid then "платно" else "субсидия"),
                                    EditAfterApproval(messageText, IntText(orderId), remote)))
    ensures approval.value.orderId == IntText(orderId)
    ensures bot.users == old(bot.users)
  {
    var text := IntText(orderId);
    ActionKeyboardTokens(orderId);
    ApproveFlow(text, true);
    var shown, none := bot.ButtonPressed(id, ActionKeyboard(text)[0], messageText, decrypt, auth, remote, now);
    assert shown == ShowCategories(CategoryKeyboard(text));
    var outcome;
    outcome, approval := bot.ButtonPressed(id, CategoryKeyboard(text)[if paid then 0 else 1], messageText, decrypt, auth, remote, now);
    assert outcome == Submit(text, if paid then "платно" else "субсидия");
  }
}
