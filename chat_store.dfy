/**
 * The three tables of app.py (users, chatsession, message), the client's
 * session cookie, the invariant the routes keep, and the queries the routes
 * run against the tables.
 *
 * Primary keys are the autoincrement ids of a table that starts empty, so the
 * row at index i has id i + 1. The `datetime.utcnow` defaults of `starttime`
 * and `timestamp` are replaced by a counter, `clock`, that every insert reads
 * and then advances.
 */
module ChatStore {
  import opened Wrappers
  import opened Registration
  import opened PasswordHash

  /** A row of `users` (app.py:31-36). */
  datatype User = User(id: nat, username: string, email: string, passwordHash: Hashed)

  /** A row of `chatsession` (app.py:38-43); `endtime` is never written by the routes. */
  datatype ChatSession = ChatSession(id: nat, userId: nat, startTime: nat)

  /** A row of `message` (app.py:45-51). */
  datatype Message = Message(id: nat, sessionId: nat, text: string, response: string, timestamp: nat)

  /** The keys of the Flask session that the routes read and write. */
  datatype Cookie = Cookie(userId: Option<nat>, sessionId: Option<nat>)

  /** The tables, the insert counter and one client's cookie. */
  datatype State = State(users: seq<User>, chats: seq<ChatSession>, messages: seq<Message>,
                         clock: nat, cookie: Cookie)

  /** One item of the JSON list `get_messages` returns (app.py:179-183). */
  datatype Entry = Entry(user: string, bot: string, timestamp: nat)

  function EntryOf(m: Message): Entry
  {
    Entry(m.text, m.response, m.timestamp)
  }

  // ---------------------------------------------------------------------------
  // Invariant
  // ---------------------------------------------------------------------------

  /**
   * Every user row passed registration's format checks, and the `unique=True`
   * columns `username` and `email` hold no duplicates.
   */
  ghost predicate UsersOk(users: seq<User>)
  {
    (forall i :: 0 <= i < |users| ==> users[i].id == i + 1 && UsernameOk(users[i].username)) &&
    EmailsOk(users) &&
    (forall i, j :: 0 <= i < j < |users| ==>
       users[i].username != users[j].username && users[i].email != users[j].email)
  }

  /**
   * Every stored email matched the registration pattern. Stated row by row
   * from the last one back, so that it unfolds only as far as a proof asks.
   */
  ghost predicate EmailsOk(users: seq<User>)
    decreases |users|
  {
    |users| == 0 ||
    (EmailsOk(users[..|users| - 1]) && EmailRegex(users[|users| - 1].email))
  }

  lemma {:induction false} EmailOkAt(users: seq<User>, i: nat)
    requires EmailsOk(users) && i < |users|
    ensures EmailRegex(users[i].email)
    decreases |users|
  {
    if i < |users| - 1 {
      var init := users[..|users| - 1];
      EmailOkAt(init, i);
      assert init[i] == users[i];
    }
  }

  /** Appending a well-formed user whose username and email are new keeps UsersOk. */
  lemma UsersOkAppend(users: seq<User>, u: User)
    requires UsersOk(users)
    requires u.id == |users| + 1 && UsernameOk(u.username) && EmailRegex(u.email)
    requires forall v :: v in users ==> v.username != u.username && v.email != u.email
    ensures UsersOk(users + [u])
  {
    var us := users + [u];
    assert us[..|us| - 1] == users;
    forall i | 0 <= i < |us|
      ensures us[i].id == i + 1 && UsernameOk(us[i].username)
    {
      if i < |users| { assert us[i] == users[i]; }
    }
    forall i, j | 0 <= i < j < |us|
      ensures us[i].username != us[j].username && us[i].email != us[j].email
    {
      assert us[i] == users[i];
      if j == |users| {
        assert users[i] in users;
      } else {
        assert us[j] == users[j];
      }
    }
  }

  /** A stored user's id names its own row. */
  lemma UserIdInRange(users: seq<User>, u: User)
    requires UsersOk(users) && u in users
    ensures 1 <= u.id <= |users| && users[u.id - 1] == u
  {
  }

  /** Chat sessions belong to existing users and start in table order. */
  predicate ChatsOk(chats: seq<ChatSession>, userCount: nat, clock: nat)
  {
    (forall i :: 0 <= i < |chats| ==>
       chats[i].id == i + 1 && 1 <= chats[i].userId <= userCount && chats[i].startTime < clock) &&
    (forall i, j :: 0 <= i < j < |chats| ==> chats[i].startTime < chats[j].startTime)
  }

  /** Messages belong to existing chat sessions and are stamped in table order. */
  predicate MessagesOk(messages: seq<Message>, sessionCount: nat, clock: nat)
  {
    (forall i :: 0 <= i < |messages| ==>
       messages[i].id == i + 1 && 1 <= messages[i].sessionId <= sessionCount &&
       messages[i].timestamp < clock) &&
    (forall i, j :: 0 <= i < j < |messages| ==> messages[i].timestamp < messages[j].timestamp)
  }

  ghost predicate TablesOk(st: State)
  {
    UsersOk(st.users) && ChatsOk(st.chats, |st.users|, st.clock) &&
    MessagesOk(st.messages, |st.chats|, st.clock)
  }

  /** The ids the cookie holds name existing rows. */
  predicate CookieInRange(st: State)
  {
    (st.cookie.userId.Some? ==> 1 <= st.cookie.userId.value <= |st.users|) &&
    (st.cookie.sessionId.Some? ==> 1 <= st.cookie.sessionId.value <= |st.chats|)
  }

  /**
   * The chat session the cookie names belongs to the user the cookie names:
   * the chat route files messages under the sender's own session.
   */
  predicate CookieOk(st: State)
  {
    CookieInRange(st) &&
    (st.cookie.sessionId.Some? ==>
       st.cookie.userId.Some? &&
       st.chats[st.cookie.sessionId.value - 1].userId == st.cookie.userId.value)
  }

  ghost predicate Inv(st: State)
  {
    TablesOk(st) && CookieOk(st)
  }

  /**
   * Adding a well-formed user whose username and email are new keeps the
   * tables consistent and the cookie naming existing rows.
   */
  lemma AddUserKeepsTables(st: State, u: User)
    requires TablesOk(st) && CookieInRange(st)
    requires u.id == |st.users| + 1 && UsernameOk(u.username) && EmailRegex(u.email)
    requires forall v :: v in st.users ==> v.username != u.username && v.email != u.email
    ensures TablesOk(st.(users := st.users + [u])) && CookieInRange(st.(users := st.users + [u]))
  {
    UsersOkAppend(st.users, u);
  }

  // ---------------------------------------------------------------------------
  // Queries
  // ---------------------------------------------------------------------------

  /** The elements of `s` that satisfy `p`, in table order (a `filter` query). */
  function Filter<T(!new)>(s: seq<T>, p: T -> bool): (r: seq<T>)
    ensures |r| <= |s|
    ensures forall x :: x in r <==> x in s && p(x)
  {
    if |s| == 0 then []
    else Filter(s[..|s| - 1], p) + (if p(s[|s| - 1]) then [s[|s| - 1]] else [])
  }

  /** A key that increases along `s` increases along every filter of `s`. */
  lemma {:induction false} FilterKeepsIncreasing<T(!new)>(s: seq<T>, p: T -> bool, key: T -> int)
    requires forall i, j :: 0 <= i < j < |s| ==> key(s[i]) < key(s[j])
    ensures forall i, j :: 0 <= i < j < |Filter(s, p)| ==> key(Filter(s, p)[i]) < key(Filter(s, p)[j])
  {
    if |s| > 0 {
      var init := s[..|s| - 1];
      var last := s[|s| - 1];
      FilterKeepsIncreasing(init, p, key);
      var f := Filter(init, p);
      forall x | x in f ensures key(x) < key(last) {
        var k :| 0 <= k < |init| && init[k] == x;
      }
    }
  }

  function Usernames(users: seq<User>): (r: seq<string>)
    ensures forall x :: x in r <==> exists u :: u in users && u.username == x
  {
    if |users| == 0 then [] else Usernames(users[..|users| - 1]) + [users[|users| - 1].username]
  }

  function Emails(users: seq<User>): (r: seq<string>)
    ensures forall x :: x in r <==> exists u :: u in users && u.email == x
  {
    if |users| == 0 then [] else Emails(users[..|users| - 1]) + [users[|users| - 1].email]
  }

  /** The filter of the login query: `username == key or email == key`. */
  predicate MatchesKey(u: User, key: string)
  {
    u.username == key || u.email == key
  }

  /** `User.query.filter(...).first()`, taking table order as the row order. */
  function FindUser(users: seq<User>, key: string): (r: Option<User>)
    ensures r.Some? ==> r.value in users && MatchesKey(r.value, key)
    ensures r.None? ==> forall u :: u in users ==> !MatchesKey(u, key)
  {
    if |users| == 0 then None
    else if MatchesKey(users[0], key) then Some(users[0])
    else FindUser(users[1..], key)
  }

  /**
   * Under the invariant a login key matches at most one user: usernames and
   * emails are each unique, and no username can equal an email.
   */
  lemma KeyMatchesAtMostOne(users: seq<User>, key: string, u: User, w: User)
    requires UsersOk(users)
    requires u in users && w in users && MatchesKey(u, key) && MatchesKey(w, key)
    ensures u == w
  {
    var i :| 0 <= i < |users| && users[i] == u;
    var j :| 0 <= j < |users| && users[j] == w;
    if u.username == key && w.email == key {
      EmailOkAt(users, j);
      UsernameIsNeverEmail(key);
    } else if u.email == key && w.username == key {
      EmailOkAt(users, i);
      UsernameIsNeverEmail(key);
    }
  }

  /** `ChatSession.query.filter_by(userid=uid)`, in table order. */
  function OwnedSessions(chats: seq<ChatSession>, uid: nat): (r: seq<ChatSession>)
    ensures forall c :: c in r <==> c in chats && c.userId == uid
  {
    Filter(chats, (c: ChatSession) => c.userId == uid)
  }

  /** `Message.query.filter_by(sessionid=sid)`, in table order. */
  function SessionMessages(messages: seq<Message>, sid: nat): (r: seq<Message>)
    ensures forall m :: m in r <==> m in messages && m.sessionId == sid
  {
    Filter(messages, (m: Message) => m.sessionId == sid)
  }

  /**
   * With start times increasing along the table, the session query in table
   * order is the query `order_by(ChatSession.starttime)`.
   */
  lemma OwnedSessionsByStartTime(chats: seq<ChatSession>, uid: nat)
    requires forall i, j :: 0 <= i < j < |chats| ==> chats[i].startTime < chats[j].startTime
    ensures forall i, j :: 0 <= i < j < |OwnedSessions(chats, uid)| ==>
      OwnedSessions(chats, uid)[i].startTime < OwnedSessions(chats, uid)[j].startTime
  {
    FilterKeepsIncreasing(chats, (c: ChatSession) => c.userId == uid, (c: ChatSession) => c.startTime);
  }

  /**
   * With timestamps increasing along the table, the message query in table
   * order is the query `order_by(Message.timestamp)`.
   */
  lemma SessionMessagesByTimestamp(messages: seq<Message>, sid: nat)
    requires forall i, j :: 0 <= i < j < |messages| ==> messages[i].timestamp < messages[j].timestamp
    ensures forall i, j :: 0 <= i < j < |SessionMessages(messages, sid)| ==>
      SessionMessages(messages, sid)[i].timestamp < SessionMessages(messages, sid)[j].timestamp
  {
    FilterKeepsIncreasing(messages, (m: Message) => m.sessionId == sid, (m: Message) => m.timestamp);
  }

  // ---------------------------------------------------------------------------
  // The history transcript built by get_messages
  // ---------------------------------------------------------------------------

  /** The messages of each session in turn, each session's in table order. */
  function Transcript(sessions: seq<ChatSession>, messages: seq<Message>): (r: seq<Message>)
    ensures forall m :: m in r ==> m in messages
  {
    if |sessions| == 0 then []
    else Transcript(sessions[..|sessions| - 1], messages) +
         SessionMessages(messages, sessions[|sessions| - 1].id)
  }

  /** The JSON items of `ms`, one per message and in the same order. */
  function Entries(ms: seq<Message>): seq<Entry>
  {
    seq(|ms|, i requires 0 <= i < |ms| => EntryOf(ms[i]))
  }

  /** The transcript holds exactly the messages filed under one of the sessions. */
  lemma {:induction false} TranscriptMembers(sessions: seq<ChatSession>, messages: seq<Message>)
    ensures forall m :: m in Transcript(sessions, messages) <==>
      m in messages && exists c :: c in sessions && c.id == m.sessionId
  {
    if |sessions| > 0 {
      var init := sessions[..|sessions| - 1];
      var last := sessions[|sessions| - 1];
      TranscriptMembers(init, messages);
      assert sessions == init + [last];
      forall m | m in messages && (exists c :: c in sessions && c.id == m.sessionId)
        ensures m in Transcript(sessions, messages)
      {
        var c :| c in sessions && c.id == m.sessionId;
        if c != last {
          assert c in init;
        }
      }
    }
  }

  /** The start time of the session a message is filed under (-1 for no session). */
  function StartOf(chats: seq<ChatSession>, sid: nat): int
  {
    if 1 <= sid <= |chats| then chats[sid - 1].startTime else -1
  }

  /**
   * `m1` comes before `m2` in the order `get_messages` lists them: by the
   * start of their sessions, and by timestamp within one session.
   */
  predicate ListedBefore(chats: seq<ChatSession>, m1: Message, m2: Message)
  {
    StartOf(chats, m1.sessionId) < StartOf(chats, m2.sessionId) ||
    (m1.sessionId == m2.sessionId && m1.timestamp < m2.timestamp)
  }

  /**
   * Given sessions of the table in start order, the transcript lists messages
   * by session start and then by timestamp.
   */
  lemma {:induction false} TranscriptOrdered(chats: seq<ChatSession>, sessions: seq<ChatSession>,
                                             messages: seq<Message>)
    requires forall i :: 0 <= i < |chats| ==> chats[i].id == i + 1
    requires forall c :: c in sessions ==> c in chats
    requires forall i, j :: 0 <= i < j < |sessions| ==> sessions[i].startTime < sessions[j].startTime
    requires forall i, j :: 0 <= i < j < |messages| ==> messages[i].timestamp < messages[j].timestamp
    ensures forall i, j :: 0 <= i < j < |Transcript(sessions, messages)| ==>
      ListedBefore(chats, Transcript(sessions, messages)[i], Transcript(sessions, messages)[j])
  {
    if |sessions| > 0 {
      var init := sessions[..|sessions| - 1];
      var last := sessions[|sessions| - 1];
      var a := Transcript(init, messages);
      var b := SessionMessages(messages, last.id);
      TranscriptOrdered(chats, init, messages);
      TranscriptMembers(init, messages);
      SessionMessagesByTimestamp(messages, last.id);
      assert last in sessions;
      var k :| 0 <= k < |chats| && chats[k] == last;
      assert StartOf(chats, last.id) == last.startTime;
      forall x | x in a
        ensures StartOf(chats, x.sessionId) < last.startTime
      {
        var c :| c in init && c.id == x.sessionId;
        var ci :| 0 <= ci < |init| && init[ci] == c;
        assert sessions[ci] == c;
        var kc :| 0 <= kc < |chats| && chats[kc] == c;
        assert StartOf(chats, x.sessionId) == c.startTime;
      }
      var t := a + b;
      assert t == Transcript(sessions, messages);
      forall i, j | 0 <= i < j < |t|
        ensures ListedBefore(chats, t[i], t[j])
      {
        if j < |a| {
          assert t[i] == a[i] && t[j] == a[j];
        } else if i >= |a| {
          assert t[i] == b[i - |a|] && t[j] == b[j - |a|];
        } else {
          assert t[i] == a[i] && t[j] == b[j - |a|];
          assert t[i] in a && t[j] in b;
        }
      }
    }
  }
}
