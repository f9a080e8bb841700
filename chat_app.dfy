/**
 * The application object: the three tables and one client's cookie as
 * mutable fields, and one method per route. Each method performs the route's
 * steps in place and is proved to produce the state the transition of the
 * same name in module Routes describes, so every property proved there about
 * the transitions holds of the fields.
 */
module ChatApp {
  import opened Wrappers
  import opened Registration
  import opened PasswordHash
  import opened ChatStore
  import opened Routes

  class App {
    var users: seq<User>
    var chats: seq<ChatSession>
    var messages: seq<Message>
    var clock: nat
    var userId: Option<nat>     // session['user_id']
    var sessionId: Option<nat>  // session['session_id']

    /** The fields as a value of the transition model. */
    function Model(): State
      reads this
    {
      State(users, chats, messages, clock, Cookie(userId, sessionId))
    }

    /**
     * What every route keeps: the tables are consistent and the cookie names
     * existing rows. The stronger `Inv`, whose cookie part pairs the session
     * with its owner, is not kept by `Login` (see `Routes.LoginMisfilesChat`).
     */
    ghost predicate Valid()
      reads this
    {
      TablesOk(Model()) && CookieInRange(Model())
    }

    /** Empty tables (`db.create_all()`) and a client without a cookie. */
    constructor ()
      ensures Model() == Initial() && Valid()
    {
      users := [];
      chats := [];
      messages := [];
      clock := 0;
      userId := None;
      sessionId := None;
    }

    /**
     * POST /register: validate the stripped form fields against the user
     * table and, when every check passes, insert the user with the hash of
     * the stripped password.
     */
    method Register(username: string, email: string, password: string, salt: nat)
      returns (r: Result<Credentials, RegisterError>)
      requires Valid()
      modifies this
      ensures r == CheckRegistration(old(users), username, email, password)
      ensures Model() == Routes.Register(old(Model()), username, email, password, salt)
      ensures Valid()
    {
      RegisterKeepsTables(Model(), username, email, password, salt);
      r := CheckRegistration(users, username, email, password);
      if r.Ok? {
        var c := r.value;
        users := users + [User(|users| + 1, c.username, c.email, Hash(salt, c.password))];
      }
    }

    /**
     * POST /login: look the stripped input up as username or email, check the
     * stripped password against the stored hash, and on success put the
     * user's id in the cookie; the cookie's chat session, if any, stays.
     */
    method Login(input: string, password: string) returns (ok: bool)
      requires Valid()
      modifies this
      ensures ok <==> LoginLookup(old(users), input, password).Some?
      ensures Model() == Routes.Login(old(Model()), input, password)
      ensures Valid()
    {
      LoginKeepsTables(Model(), input, password);
      var found := LoginLookup(users, input, password);
      match found {
        case None =>
          ok := false;
        case Some(u) =>
          userId := Some(u.id);
          ok := true;
      }
    }

    /**
     * POST /chat: the reply is returned whether or not a user is logged in;
     * for a logged-in user, a chat session is opened when the cookie has none
     * and the exchange is stored under the cookie's session.
     */
    method Chat(text: string, answer: string) returns (response: string)
      requires Valid()
      modifies this
      ensures response == answer
      ensures Model() == Routes.Chat(old(Model()), text, answer)
      ensures Valid()
    {
      ChatPreservesTables(Model(), text, answer);
      response := answer;
      if userId.Some? {
        if sessionId.None? {
          chats := chats + [ChatSession(|chats| + 1, userId.value, clock)];
          sessionId := Some(|chats|);
          clock := clock + 1;
        }
        messages := messages + [Message(|messages| + 1, sessionId.value, text, answer, clock)];
        clock := clock + 1;
      }
    }

    /**
     * GET /messages: for each of the user's chat sessions in start order, the
     * session's messages in timestamp order, collected into one list.
     */
    method GetMessages() returns (r: Result<seq<Entry>, HistoryError>)
      ensures r == History(Model())
    {
      if userId.None? {
        return Err(Unauthorized);
      }
      var sessions := OwnedSessions(chats, userId.value);
      var all: seq<Entry> := [];
      ghost var shown: seq<Message> := [];
      var i := 0;
      while i < |sessions|
        invariant 0 <= i <= |sessions|
        invariant shown == Transcript(sessions[..i], messages)
        invariant all == Entries(shown)
      {
        var ms := SessionMessages(messages, sessions[i].id);
        var j := 0;
        while j < |ms|
          invariant 0 <= j <= |ms|
          invariant shown == Transcript(sessions[..i], messages) + ms[..j]
          invariant all == Entries(shown)
        {
          assert ms[..j + 1] == ms[..j] + [ms[j]];
          assert Entries(shown + [ms[j]]) == Entries(shown) + [EntryOf(ms[j])];
          all := all + [EntryOf(ms[j])];
          shown := shown + [ms[j]];
          j := j + 1;
        }
        assert sessions[..i + 1][..i] == sessions[..i];
        assert ms[..j] == ms;
        i := i + 1;
      }
      assert sessions[..i] == sessions;
      r := Ok(all);
    }

    /** GET /logout: `session.clear()`. */
    method Logout()
      requires Valid()
      modifies this
      ensures Model() == Routes.Logout(old(Model()))
      ensures Valid()
    {
      userId := None;
      sessionId := None;
    }
  }
}
