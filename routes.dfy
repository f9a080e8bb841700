/**
 * The routes of app.py as transitions of the store: `register`, `login`,
 * `chat`, `get_messages` and `logout`. Each is a function from the state before
 * the request to the state after it; the class in chat_app.dfy performs the
 * same steps on mutable fields and is proved against these functions.
 *
 * The reply of the language model, the salt of `bcrypt.gensalt()` and the form
 * fields are parameters.
 */
module Routes {
  import opened Wrappers
  import opened Registration
  import opened PasswordHash
  import opened ChatStore

  /** No users, no chats, no messages, an empty cookie. */
  function Initial(): (st: State)
    ensures Inv(st) && st.cookie == Cookie(None, None)
    ensures st.users == [] && st.chats == [] && st.messages == []
  {
    State([], [], [], 0, Cookie(None, None))
  }

  // ---------------------------------------------------------------------------
  // register (app.py:64-106)
  // ---------------------------------------------------------------------------

  /**
   * The validation block of `register` against the current user table: the
   * two "already exists" answers name a stored user, and a pass names none
   * with the stripped username or email.
   */
  function CheckRegistration(users: seq<User>, username: string, email: string, password: string)
    : (r: Result<Credentials, RegisterError>)
    ensures r == Err(UsernameTaken) ==> exists u :: u in users && u.username == Strip(username)
    ensures r == Err(EmailTaken) ==> exists u :: u in users && u.email == Strip(email)
    ensures r.Ok? ==> forall u :: u in users ==> u.username != Strip(username) && u.email != Strip(email)
  {
    Validate(username, email, password, Usernames(users), Emails(users))
  }

  /**
   * A successful registration adds exactly one user row holding the stripped
   * username and email and the hash of the stripped password; any failed
   * check leaves every table and the cookie as they were.
   */
  function Register(st: State, username: string, email: string, password: string, salt: nat)
    : (st': State)
    ensures CheckRegistration(st.users, username, email, password).Err? ==> st' == st
    ensures CheckRegistration(st.users, username, email, password).Ok? ==>
      |st'.users| == |st.users| + 1 && st'.users[..|st.users|] == st.users &&
      st'.users[|st.users|].id == |st.users| + 1 &&
      st'.users[|st.users|].username == Strip(username) &&
      st'.users[|st.users|].email == Strip(email) &&
      Verify(Strip(password), st'.users[|st.users|].passwordHash) &&
      st'.chats == st.chats && st'.messages == st.messages && st'.cookie == st.cookie &&
      st'.clock == st.clock
  {
    match CheckRegistration(st.users, username, email, password)
    case Err(_) => st
    case Ok(c) =>
      assert c.password == Strip(password);
      st.(users := st.users + [User(|st.users| + 1, c.username, c.email, Hash(salt, c.password))])
  }

  /**
   * Registration keeps usernames and emails unique and well formed, and the
   * cookie naming existing rows.
   */
  lemma RegisterKeepsTables(st: State, username: string, email: string, password: string, salt: nat)
    requires TablesOk(st) && CookieInRange(st)
    ensures TablesOk(Register(st, username, email, password, salt))
    ensures CookieInRange(Register(st, username, email, password, salt))
  {
    var st' := Register(st, username, email, password, salt);
    var check := CheckRegistration(st.users, username, email, password);
    if check.Ok? {
      var u := st'.users[|st.users|];
      assert UsernameOk(u.username) && EmailRegex(u.email);
      assert u.username !in Usernames(st.users) && u.email !in Emails(st.users);
      assert st' == st.(users := st.users + [u]);
      AddUserKeepsTables(st, u);
    } else {
      assert st' == st;
    }
  }

  /** Registration keeps the whole invariant: the cookie and the chats are untouched. */
  lemma RegisterPreservesInv(st: State, username: string, email: string, password: string, salt: nat)
    requires Inv(st)
    ensures Inv(Register(st, username, email, password, salt))
  {
    var st' := Register(st, username, email, password, salt);
    RegisterKeepsTables(st, username, email, password, salt);
    assert st'.chats == st.chats && st'.cookie == st.cookie by {
      if CheckRegistration(st.users, username, email, password).Err? {
        assert st' == st;
      }
    }
    SameCookieAndChatsKeepCookieOk(st, st');
  }

  /** CookieOk depends only on the cookie, the chats and the range of user ids. */
  lemma SameCookieAndChatsKeepCookieOk(st: State, st': State)
    requires CookieOk(st) && CookieInRange(st')
    requires st'.chats == st.chats && st'.cookie == st.cookie
    ensures CookieOk(st')
  {
  }

  // ---------------------------------------------------------------------------
  // login (app.py:110-125)
  // ---------------------------------------------------------------------------

  /**
   * The user a login form authenticates: the first user whose username or
   * email equals the stripped input, provided the stripped password verifies
   * against that user's hash.
   */
  function LoginLookup(users: seq<User>, input: string, password: string): (r: Option<User>)
    ensures r.Some? ==>
      r.value in users && MatchesKey(r.value, Strip(input)) &&
      Verify(Strip(password), r.value.passwordHash)
  {
    match FindUser(users, Strip(input))
    case None => None
    case Some(u) => if Verify(Strip(password), u.passwordHash) then Some(u) else None
  }

  /**
   * `login`: success stores the user's id in the cookie and leaves any
   * `session_id` already there (see the finding below); a failed login
   * changes nothing.
   */
  function Login(st: State, input: string, password: string): (st': State)
    ensures LoginLookup(st.users, input, password).None? ==> st' == st
    ensures LoginLookup(st.users, input, password).Some? ==>
      st' == st.(cookie := st.cookie.(userId := Some(LoginLookup(st.users, input, password).value.id)))
  {
    match LoginLookup(st.users, input, password)
    case None => st
    case Some(u) => st.(cookie := st.cookie.(userId := Some(u.id)))
  }

  /**
   * The login the finding below calls for: success stores the user's id and
   * drops any `session_id`, so the user's next chat opens a session of its
   * own. A failed login changes nothing.
   */
  function LoginCorrected(st: State, input: string, password: string): (st': State)
    ensures LoginLookup(st.users, input, password).None? ==> st' == st
    ensures LoginLookup(st.users, input, password).Some? ==>
      st' == st.(cookie := Cookie(Some(LoginLookup(st.users, input, password).value.id), None))
  {
    match LoginLookup(st.users, input, password)
    case None => st
    case Some(u) => st.(cookie := Cookie(Some(u.id), None))
  }

  /**
   * A login succeeds exactly when some user has the stripped input as
   * username or email and the stripped password verifies against that user's
   * hash; it is then that user who is logged in, whatever the table order.
   */
  lemma LoginSucceedsIff(st: State, input: string, password: string)
    requires UsersOk(st.users)
    ensures LoginLookup(st.users, input, password).Some? <==>
      exists u :: u in st.users && MatchesKey(u, Strip(input)) && Verify(Strip(password), u.passwordHash)
    ensures forall u :: (u in st.users && MatchesKey(u, Strip(input)) &&
      Verify(Strip(password), u.passwordHash)) ==> LoginLookup(st.users, input, password) == Some(u)
  {
    forall u | u in st.users && MatchesKey(u, Strip(input)) && Verify(Strip(password), u.passwordHash)
      ensures LoginLookup(st.users, input, password) == Some(u)
    {
      var w := FindUser(st.users, Strip(input)).value;
      KeyMatchesAtMostOne(st.users, Strip(input), u, w);
    }
  }

  /** Login keeps the tables and leaves the cookie naming existing rows. */
  lemma LoginKeepsTables(st: State, input: string, password: string)
    requires TablesOk(st) && CookieInRange(st)
    ensures TablesOk(Login(st, input, password)) && CookieInRange(Login(st, input, password))
  {
    var r := LoginLookup(st.users, input, password);
    if r.Some? {
      UserIdInRange(st.users, r.value);
      CookieOnlyKeepsTables(st, st.cookie.(userId := Some(r.value.id)));
    }
  }

  /**
   * On a client with no chat session in its cookie, login keeps the whole
   * invariant: there is no session that could belong to another user.
   */
  lemma LoginWithoutSessionPreservesInv(st: State, input: string, password: string)
    requires Inv(st) && st.cookie.sessionId.None?
    ensures Inv(Login(st, input, password))
  {
    LoginKeepsTables(st, input, password);
  }

  /** The corrected login keeps the whole invariant, whatever the cookie held. */
  lemma LoginCorrectedPreservesInv(st: State, input: string, password: string)
    requires Inv(st)
    ensures Inv(LoginCorrected(st, input, password))
  {
    var r := LoginLookup(st.users, input, password);
    if r.Some? {
      UserIdInRange(st.users, r.value);
      CookieOnlyKeepsTables(st, Cookie(Some(r.value.id), None));
    }
  }

  /**
   * Whoever registered can log in with the same form values, by username or
   * by email, and is then the user the cookie names; the cookie's chat
   * session is left as it was.
   */
  lemma RegisterThenLogin(st: State, username: string, email: string, password: string, salt: nat)
    requires TablesOk(st) && CookieInRange(st)
    requires CheckRegistration(st.users, username, email, password).Ok?
    ensures var st' := Register(st, username, email, password, salt);
      LoginLookup(st'.users, username, password) == Some(st'.users[|st.users|]) &&
      LoginLookup(st'.users, email, password) == Some(st'.users[|st.users|]) &&
      Login(st', username, password).cookie == Cookie(Some(|st.users| + 1), st.cookie.sessionId)
  {
    var st' := Register(st, username, email, password, salt);
    RegisterKeepsTables(st, username, email, password, salt);
    var u := st'.users[|st.users|];
    assert u in st'.users;
    LoginSucceedsIff(st', username, password);
    LoginSucceedsIff(st', email, password);
  }

  // ---------------------------------------------------------------------------
  // chat (app.py:128-162)
  // ---------------------------------------------------------------------------

  /**
   * The storing part of `chat`: when a user is logged in, open a chat session
   * if the cookie has none, then file one message with the user's text and the
   * model's answer under the cookie's session. Nothing is stored otherwise.
   */
  function Chat(st: State, text: string, answer: string): (st': State)
    ensures st.cookie.userId.None? ==> st' == st
    ensures st.cookie.userId.Some? ==>
      st'.users == st.users &&
      st'.cookie.userId == st.cookie.userId && st'.cookie.sessionId.Some? &&
      (st.cookie.sessionId.Some? ==> st'.chats == st.chats && st'.cookie == st.cookie) &&
      (st.cookie.sessionId.None? ==>
         |st'.chats| == |st.chats| + 1 && st'.chats[..|st.chats|] == st.chats &&
         st'.chats[|st.chats|].userId == st.cookie.userId.value &&
         st'.cookie.sessionId.value == st'.chats[|st.chats|].id) &&
      |st'.messages| == |st.messages| + 1 && st'.messages[..|st.messages|] == st.messages &&
      st'.messages[|st.messages|].sessionId == st'.cookie.sessionId.value &&
      st'.messages[|st.messages|].text == text && st'.messages[|st.messages|].response == answer
  {
    match st.cookie.userId
    case None => st
    case Some(uid) =>
      var st1 :=
        if st.cookie.sessionId.Some? then st
        else st.(chats := st.chats + [ChatSession(|st.chats| + 1, uid, st.clock)],
                 clock := st.clock + 1,
                 cookie := Cookie(Some(uid), Some(|st.chats| + 1)));
      var sid := st1.cookie.sessionId.value;
      st1.(messages := st1.messages + [Message(|st1.messages| + 1, sid, text, answer, st1.clock)],
           clock := st1.clock + 1)
  }

  /** The message a chat of a logged-in user stored. */
  function LastMessage(st: State): Message
    requires |st.messages| > 0
  {
    st.messages[|st.messages| - 1]
  }

  /** Chat keeps the tables consistent as long as the cookie names existing rows. */
  lemma ChatPreservesTables(st: State, text: string, answer: string)
    requires TablesOk(st) && CookieInRange(st)
    ensures TablesOk(Chat(st, text, answer)) && CookieInRange(Chat(st, text, answer))
  {
  }

  lemma ChatPreservesInv(st: State, text: string, answer: string)
    requires Inv(st)
    ensures Inv(Chat(st, text, answer))
  {
    ChatPreservesTables(st, text, answer);
  }

  /**
   * Two chats in a row open at most one chat session, and both messages are
   * filed under the same one.
   */
  lemma ChatReusesSession(st: State, text1: string, answer1: string, text2: string, answer2: string)
    requires st.cookie.userId.Some?
    ensures var st2 := Chat(Chat(st, text1, answer1), text2, answer2);
      |st2.chats| <= |st.chats| + 1 && |st2.messages| == |st.messages| + 2 &&
      st2.messages[|st.messages|].sessionId == st2.messages[|st.messages| + 1].sessionId
  {
    var st1 := Chat(st, text1, answer1);
    var st2 := Chat(st1, text2, answer2);
    assert st2.messages[|st.messages|] == st1.messages[|st.messages|];
  }

  // ---------------------------------------------------------------------------
  // get_messages (app.py:164-185)
  // ---------------------------------------------------------------------------

  datatype HistoryError = Unauthorized  // HTTP 401, {"error": "Unauthorized"}

  /**
   * The logged-in user's sessions in start order, and within each session its
   * messages in timestamp order, as JSON items; 401 without a login.
   */
  function History(st: State): (r: Result<seq<Entry>, HistoryError>)
    ensures r.Err? <==> st.cookie.userId.None?
  {
    match st.cookie.userId
    case None => Err(Unauthorized)
    case Some(uid) => Ok(Entries(Transcript(OwnedSessions(st.chats, uid), st.messages)))
  }

  /** Message `m` is filed under a chat session that belongs to user `uid`. */
  ghost predicate SentBy(chats: seq<ChatSession>, m: Message, uid: nat)
  {
    exists c :: c in chats && c.id == m.sessionId && c.userId == uid
  }

  /**
   * The history lists an item exactly for each message filed under one of the
   * logged-in user's sessions, and for nothing else.
   */
  lemma HistoryMembers(st: State)
    requires st.cookie.userId.Some?
    ensures forall e :: e in History(st).value <==>
      exists m :: m in st.messages && SentBy(st.chats, m, st.cookie.userId.value) && e == EntryOf(m)
  {
    var uid := st.cookie.userId.value;
    var sessions := OwnedSessions(st.chats, uid);
    var t := Transcript(sessions, st.messages);
    TranscriptMembers(sessions, st.messages);
    forall e | e in History(st).value
      ensures exists m :: m in st.messages && SentBy(st.chats, m, uid) && e == EntryOf(m)
    {
      var i :| 0 <= i < |t| && Entries(t)[i] == e;
      assert t[i] in t;
    }
    forall e | exists m :: m in st.messages && SentBy(st.chats, m, uid) && e == EntryOf(m)
      ensures e in History(st).value
    {
      var m :| m in st.messages && SentBy(st.chats, m, uid) && e == EntryOf(m);
      var c :| c in st.chats && c.id == m.sessionId && c.userId == uid;
      assert c in sessions;
      assert m in t;
      var i :| 0 <= i < |t| && t[i] == m;
      assert Entries(t)[i] == e;
    }
  }

  /**
   * The history is the list of some of the user's messages, ordered by the
   * start of their chat sessions and, within a session, by timestamp.
   */
  lemma HistoryOrdered(st: State)
    requires TablesOk(st) && st.cookie.userId.Some?
    ensures exists t: seq<Message> ::
      History(st) == Ok(Entries(t)) &&
      (forall m :: m in t ==> m in st.messages && SentBy(st.chats, m, st.cookie.userId.value)) &&
      (forall i, j :: 0 <= i < j < |t| ==> ListedBefore(st.chats, t[i], t[j]))
  {
    var uid := st.cookie.userId.value;
    var sessions := OwnedSessions(st.chats, uid);
    var t := Transcript(sessions, st.messages);
    OwnedSessionsByStartTime(st.chats, uid);
    TranscriptMembers(sessions, st.messages);
    TranscriptOrdered(st.chats, sessions, st.messages);
    assert History(st) == Ok(Entries(t));
  }

  /**
   * Timestamps identify messages, so a message shows in the history of the
   * logged-in user only if it is filed under one of that user's sessions.
   */
  lemma HistoryShowsOnlySender(st: State, i: nat)
    requires TablesOk(st) && st.cookie.userId.Some? && i < |st.messages|
    requires EntryOf(st.messages[i]) in History(st).value
    ensures SentBy(st.chats, st.messages[i], st.cookie.userId.value)
  {
    HistoryMembers(st);
    var m' :| m' in st.messages && SentBy(st.chats, m', st.cookie.userId.value) &&
      EntryOf(m') == EntryOf(st.messages[i]);
    var j :| 0 <= j < |st.messages| && st.messages[j] == m';
    assert st.messages[j].timestamp == st.messages[i].timestamp;
  }

  /**
   * A chat of a logged-in user files the message under one of that user's own
   * sessions, so the user's history shows it.
   */
  lemma ChatShowsInOwnHistory(st: State, text: string, answer: string)
    requires Inv(st) && st.cookie.userId.Some?
    ensures var st' := Chat(st, text, answer);
      SentBy(st'.chats, LastMessage(st'), st.cookie.userId.value) &&
      EntryOf(LastMessage(st')) in History(st').value
  {
    var st' := Chat(st, text, answer);
    var m := LastMessage(st');
    var sid := st'.cookie.sessionId.value;
    ChatPreservesInv(st, text, answer);
    assert st'.chats[sid - 1] in st'.chats;
    assert m in st'.messages;
    HistoryMembers(st');
  }

  // ---------------------------------------------------------------------------
  // logout (app.py:188-192)
  // ---------------------------------------------------------------------------

  /** `session.clear()`: the cookie forgets the user and the chat session. */
  function Logout(st: State): (st': State)
    ensures st'.cookie.userId.None? && st'.cookie.sessionId.None?
    ensures st'.users == st.users && st'.chats == st.chats && st'.messages == st.messages &&
      st'.clock == st.clock
    ensures TablesOk(st) ==> TablesOk(st') && CookieInRange(st')
    ensures Inv(st) ==> Inv(st')
  {
    st.(cookie := Cookie(None, None))
  }

  /**
   * After a logout, the first chat following the next login opens a new chat
   * session, distinct from every earlier one, owned by the user who logged in.
   */
  lemma LogoutLoginChatOpensFreshSession(st: State, input: string, password: string,
                                         text: string, answer: string)
    requires TablesOk(st)
    requires LoginLookup(st.users, input, password).Some?
    ensures var st' := Chat(Login(Logout(st), input, password), text, answer);
      |st'.chats| == |st.chats| + 1 &&
      LastMessage(st').sessionId == |st.chats| + 1 &&
      (forall c :: c in st.chats ==> c.id != LastMessage(st').sessionId) &&
      st'.chats[|st.chats|].userId == LoginLookup(st.users, input, password).value.id
  {
    var st' := Chat(Login(Logout(st), input, password), text, answer);
    forall c | c in st.chats ensures c.id != |st.chats| + 1 {
      var k :| 0 <= k < |st.chats| && st.chats[k] == c;
    }
  }

  // ---------------------------------------------------------------------------
  // Finding: login keeps a stale session_id
  // ---------------------------------------------------------------------------

  /**
   * With the login of app.py, a second user who logs in on a client where a
   * first user chatted without logging out has the next message filed under
   * the first user's chat session: it shows in the first user's history and
   * not in the sender's, and the cookie no longer satisfies CookieOk.
   */
  lemma LoginMisfilesChat(st: State, input: string, password: string, b: User,
                          text: string, answer: string)
    requires Inv(st) && st.cookie.userId.Some? && st.cookie.sessionId.Some?
    requires LoginLookup(st.users, input, password) == Some(b) && b.id != st.cookie.userId.value
    ensures Misfiled(Chat(Login(st, input, password), text, answer),
                     st.cookie.userId.value, b.id)
  {
    UserIdInRange(st.users, b);
    var c := Cookie(Some(b.id), st.cookie.sessionId);
    var st1 := st.(cookie := c);
    assert Login(st, input, password) == st1;
    CookieOnlyKeepsTables(st, c);
    MisfiledChat(st1, st.cookie.userId.value, text, answer);
  }

  /**
   * After a chat by user `b`, the stored message sits in a session of user
   * `a`: it shows in `a`'s history and not in `b`'s, and the cookie pairs
   * `b` with `a`'s session.
   */
  ghost predicate Misfiled(st: State, a: nat, b: nat)
  {
    |st.messages| > 0 && st.cookie.userId == Some(b) &&
    SentBy(st.chats, LastMessage(st), a) &&
    !SentBy(st.chats, LastMessage(st), b) &&
    EntryOf(LastMessage(st)) !in History(st).value &&
    !CookieOk(st)
  }

  /**
   * With the corrected login the same sequence of requests files the message
   * under a session of the user who sent it, and it shows in that user's
   * history.
   */
  lemma LoginThenChatShowsInOwnHistory(st: State, input: string, password: string, b: User,
                                       text: string, answer: string)
    requires Inv(st)
    requires LoginLookup(st.users, input, password) == Some(b)
    ensures var st' := Chat(LoginCorrected(st, input, password), text, answer);
      st'.cookie.userId == Some(b.id) &&
      SentBy(st'.chats, LastMessage(st'), b.id) &&
      EntryOf(LastMessage(st')) in History(st').value &&
      CookieOk(st')
  {
    var st1 := LoginCorrected(st, input, password);
    LoginCorrectedPreservesInv(st, input, password);
    ChatShowsInOwnHistory(st1, text, answer);
    ChatPreservesInv(st1, text, answer);
  }

  /** Replacing the cookie leaves the tables as they were. */
  lemma CookieOnlyKeepsTables(st: State, c: Cookie)
    requires TablesOk(st)
    ensures TablesOk(st.(cookie := c))
  {
  }

  /**
   * A chat whose cookie names a session of user `a` while naming another user
   * as logged in is filed under `a`'s session and missing from the sender's
   * history.
   */
  lemma MisfiledChat(st: State, a: nat, text: string, answer: string)
    requires TablesOk(st) && CookieInRange(st)
    requires st.cookie.userId.Some? && st.cookie.sessionId.Some?
    requires st.chats[st.cookie.sessionId.value - 1].userId == a && a != st.cookie.userId.value
    ensures Misfiled(Chat(st, text, answer), a, st.cookie.userId.value)
  {
    var b := st.cookie.userId.value;
    var sid := st.cookie.sessionId.value;
    var st' := Chat(st, text, answer);
    var m := LastMessage(st');
    assert st'.chats == st.chats && m.sessionId == sid;
    assert st.chats[sid - 1] in st.chats;
    forall c | c in st.chats && c.id == sid
      ensures c.userId == a
    {
      var kc :| 0 <= kc < |st.chats| && st.chats[kc] == c;
    }
    ChatPreservesTables(st, text, answer);
    if EntryOf(m) in History(st').value {
      HistoryShowsOnlySender(st', |st'.messages| - 1);
    }
  }
}
