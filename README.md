# Mental-health chatbot: registration, login and chat history

This project models the request handlers of `app.py`, a Flask application
that answers mental-health questions with a retrieval-augmented language
model and stores every exchange per user. It has two parts:

* **Registration validation** (`register`). The three form fields are
  stripped of white space. They are then checked in a fixed order, and the
  first failing check decides the outcome:
  1. the username must have at least 6 characters, all alphanumeric;
  2. the email must match `^[\w\.-]+@[\w\.-]+\.\w+$`;
  3. the password must match the look-ahead pattern (lower case, upper case,
     digit, one of `@$!%*?&`, only those classes, length at least 8);
  4. the username must not be taken;
  5. the email must not be taken.

  Only then is a user row inserted, holding the bcrypt hash of the password.
* **The session state machine** (`login`, `chat`, `get_messages`, `logout`).
  It covers the users, chat-session and message tables and one client's
  Flask session cookie, which holds `user_id` and `session_id`:
  * login puts a user id in the cookie and leaves any chat-session id that
    is already there;
  * a chat by a logged-in user opens a chat session when the cookie has
    none, then stores one message under it;
  * the history lists the user's messages, ordered by session start time and
    then by timestamp;
  * logout clears the cookie.

Files:

* `wrappers.dfy`: the `Option` and `Result` types.
* `registration.dfy`: Python's `str.strip`, the character classes and
  `re.match` semantics. Each regular expression appears twice: as a ghost
  predicate that states what the pattern accepts, and as a compiled scanner
  proved equal to it. It also holds the validator `Validate`.
* `password_hash.dfy`: `Hash` and `Verify`, a stand-in for bcrypt. The only
  fact the model uses about them is that a password verifies against its own
  hash.
* `chat_store.dfy`: the three table rows, the `State` value (tables, insert
  counter, cookie) and the invariant `Inv`. It also holds the queries the
  routes run and the lemmas about them.
* `routes.dfy`: each route as a function from the state before the request to
  the state after it, and the properties of those functions. It also holds
  the finding below.
* `chat_app.dfy`: the class `App`. Its fields are the tables and the cookie,
  and it has one method per route. Each method changes the fields exactly as
  the transition of the same name does. Each keeps the tables consistent and
  the cookie naming existing rows. It does not keep the full `Inv`, because
  login can leave one user's chat session in another user's cookie (see
  Findings). `GetMessages` runs the nested loops of `get_messages`.

Assumptions:

* Python's `isalnum`, `\w` and `\d` also accept non-ASCII letters and
  digits. The model uses only their ASCII parts. `str.strip` removes exactly
  the characters of Python's `str.isspace`.
* Python's `$` also matches just before a final line feed. The model includes
  this, and proves it changes nothing here: a stripped field never ends with
  a line feed.
* The model has a counter, `clock`, that every insert reads and then
  advances. It stands in for the `datetime.utcnow` column defaults.
* Row ids are autoincrement ids over tables that start empty.
* The reply of the language model and the salt of `bcrypt.gensalt()` are
  parameters of the operations.

## Model

| member | source | states |
|---|---|---|
| Registration.LeadingSpaceEnd | app.py:67-69 | every character before the returned index is white space, and the one at it (if any) is not |
| Registration.TrailingSpaceStart | app.py:67-69 | every character from the returned index on is white space, and the one before it (if past the lower bound) is not |
| Registration.Strip | app.py:67-69 | `str.strip()`: the result is no longer than the input and neither starts nor ends with white space |
| Registration.StripRemovesOnlySpace | app.py:67-69 | the input is the result with white space added on both sides |
| Registration.StripIdempotent | app.py:67-69 | stripping a stripped field gives it back unchanged |
| Registration.NoEdgeSpaceStripsToSelf | app.py:67-69 | a string without white space at either end is its own strip |
| Registration.StrippedHasNoTrailingNewline | app.py:67-69 | a stripped field never ends with a line feed, so the `$` line-feed case cannot arise for the checked fields |
| Registration.IndexOf | app.py:76-77 | the index of the first occurrence of a character, or the length when it is absent |
| Registration.LastIndexOf | app.py:76-77 | the index of the last occurrence of a character, or -1 when it is absent |
| Registration.ScanEmailSound | app.py:76-77 | every string the scanner accepts is spanned by the email pattern |
| Registration.ScanEmailComplete | app.py:76-77 | every split the email pattern admits makes the scanner accept |
| Registration.FirstAtOfSplit | app.py:76-77 | the `@` of a split the pattern admits is the first `@` of the string |
| Registration.DomainOfSplit | app.py:76-77 | after that `@` every character is in `[\w\.-]`, and the split's `.` is the last dot |
| Registration.ScanEmailCorrect | app.py:76-77 | the scanner accepts exactly the strings the email pattern spans |
| Registration.EmailMatches | app.py:76-77 | `re.match` of the email pattern succeeds iff the pattern spans the string, or the string minus a final line feed |
| Registration.UsernameIsNeverEmail | app.py:71 | a string that passes the username rule never matches the email pattern |
| Registration.PasswordRegexIsPolicy | app.py:82-83 | the look-ahead pattern accepts exactly the passwords of length at least 8 over `[A-Za-z0-9@$!%*?&]` that hold a lower-case letter, an upper-case letter, a digit and a special character |
| Registration.PasswordMatches | app.py:82-83 | `re.match` of the password pattern succeeds iff the pattern spans the string, or the string minus a final line feed |
| Registration.Validate | app.py:67-94 | success iff all five checks pass on the stripped fields, with the stripped fields as the value; each error iff its check is the first that fails |
| PasswordHash.Hash | app.py:96 | the stored hash verifies the password it was made from |
| ChatStore.EmailOkAt | app.py:76-79 | every stored email matched the registration pattern |
| ChatStore.UsersOkAppend | app.py:88-101 | appending a valid user with a new username and a new email keeps ids, formats and uniqueness |
| ChatStore.UserIdInRange | app.py:31-32 | a stored user's id names its own row |
| ChatStore.AddUserKeepsTables | app.py:99-101 | inserting such a user keeps the tables consistent and the cookie in range |
| ChatStore.Filter | app.py:171 | the filtered rows are exactly the rows that satisfy the condition, and there are no more of them than rows |
| ChatStore.FilterKeepsIncreasing | app.py:171 | filtering keeps rows sorted strictly by a key |
| ChatStore.Usernames | app.py:88 | the username column holds exactly the usernames of the rows |
| ChatStore.Emails | app.py:92 | the email column holds exactly the emails of the rows |
| ChatStore.FindUser | app.py:116 | `.first()` returns a stored row whose username or email is the key, and returns nothing only when no row has the key |
| ChatStore.KeyMatchesAtMostOne | app.py:116 | under the invariant, at most one user matches a login key |
| ChatStore.OwnedSessions | app.py:171 | `filter_by(userid=uid)`: exactly the chat sessions owned by the user |
| ChatStore.SessionMessages | app.py:176 | `filter_by(sessionid=sid)`: exactly the messages filed under the session |
| ChatStore.Transcript | app.py:173-183 | the messages the nested loops visit are stored messages (`TranscriptMembers` says which ones) |
| ChatStore.OwnedSessionsByStartTime | app.py:171 | with start times increasing along the table, the user's chat sessions come in strictly increasing start time (`order_by(starttime)`) |
| ChatStore.SessionMessagesByTimestamp | app.py:176 | with timestamps increasing along the table, a session's messages come in strictly increasing timestamp (`order_by(timestamp)`) |
| ChatStore.TranscriptMembers | app.py:173-183 | the concatenated per-session lists hold exactly the messages filed under one of the sessions |
| ChatStore.TranscriptOrdered | app.py:171-183 | the concatenated lists are ordered by session start time, then by timestamp |
| Routes.Initial | app.py:29-51 | empty tables and an empty cookie satisfy the invariant |
| Routes.CheckRegistration | app.py:88-94 | "Username already exists" and "Email already exists" each name a stored user with that value; a pass means no stored user has the stripped username or email |
| Routes.Register | app.py:88-101 | a failed check changes nothing; a pass appends exactly one user with the next id, the stripped username and email, and a hash that verifies the stripped password; the other tables, the cookie and the insert counter stay as they were |
| Routes.RegisterKeepsTables | app.py:88-101 | registration keeps ids, formats and the uniqueness of usernames and emails, and the cookie in range |
| Routes.RegisterPreservesInv | app.py:88-101 | registration keeps the whole invariant |
| Routes.SameCookieAndChatsKeepCookieOk | app.py:99-101 | adding users leaves the cookie's session paired with its owner |
| Routes.LoginLookup | app.py:113-118 | a user found has the stripped input as username or email, and the stripped password verifies against their hash |
| Routes.Login | app.py:116-123 | a failed login changes nothing; success sets the cookie's user id and leaves `session_id` as it was |
| Routes.LoginCorrected | app.py:119 | corrected login, unlike app.py:119: success also clears `session_id`; a failed login changes nothing |
| Routes.LoginSucceedsIff | app.py:116-119 | login succeeds iff some user matches the stripped input and verifies the stripped password, and that user is the one logged in |
| Routes.LoginKeepsTables | app.py:119 | login keeps the tables and leaves the cookie naming existing rows |
| Routes.LoginWithoutSessionPreservesInv | app.py:119 | on a cookie without a chat session, login keeps the whole invariant |
| Routes.LoginCorrectedPreservesInv | app.py:119 | the corrected login keeps the whole invariant whatever the cookie held |
| Routes.RegisterThenLogin | app.py:96-119 | from any state the class keeps (consistent tables, cookie in range, including a cookie left misfiled by an earlier login), a user who registers can then log in by username or by email with the same password. They become the cookie's user, and the cookie's `session_id` is left as it was |
| Routes.Chat | app.py:141-157 | logged out, nothing is stored. Logged in, a session is opened only when the cookie has none, and exactly one message is appended under the cookie's session with the text and the reply |
| Routes.ChatPreservesTables | app.py:141-157 | a chat keeps ids, owners and the increasing start times and timestamps |
| Routes.ChatPreservesInv | app.py:141-157 | a chat keeps the invariant, including the session belonging to the logged-in user |
| Routes.ChatReusesSession | app.py:144-152 | two chats in a row open at most one session, and both messages go under the same session |
| Routes.History | app.py:166-167 | Unauthorized iff no user is logged in |
| Routes.HistoryMembers | app.py:171-183 | the history holds an item exactly for each message filed under one of the user's sessions |
| Routes.HistoryOrdered | app.py:171-183 | the history lists the user's messages ordered by session start, then by timestamp |
| Routes.HistoryShowsOnlySender | app.py:171-183 | a message shows in a user's history only if it was filed under one of that user's sessions |
| Routes.ChatShowsInOwnHistory | app.py:141-183 | when the cookie's session belongs to the cookie's user, a chat is filed under one of that user's sessions and shows in their history |
| Routes.Logout | app.py:191 | the cookie forgets the user and the session; the tables and the counter are unchanged, and the invariant is kept |
| Routes.LogoutLoginChatOpensFreshSession | app.py:144-148 | from any state with consistent tables, whatever the cookie holds (including a misfiled one), after logout and a new login the next chat opens a new session owned by the user who logged in, distinct from every earlier one |
| Routes.LoginMisfilesChat | app.py:119 | with the login of app.py, the next chat of a second user goes under the first user's session. It shows in the first user's history, not the sender's |
| Routes.LoginThenChatShowsInOwnHistory | app.py:119 | with the corrected login, the same requests file the message under the sender's own session, it shows in the sender's history, and the cookie stays consistent |
| Routes.CookieOnlyKeepsTables | app.py:119 | changing only the cookie keeps the table invariant |
| Routes.MisfiledChat | app.py:144-157 | a chat whose cookie pairs a user with another user's session files the message where the logged-in user's history does not show it |
| ChatApp.App.constructor | app.py:29-51 | the application starts with empty tables and no cookie, satisfying the invariant |
| ChatApp.App.Register | app.py:67-101 | returns the validation outcome; the fields change as `Routes.Register` says; the tables stay consistent |
| ChatApp.App.Login | app.py:113-123 | reports success iff the lookup finds a verifying user; the fields change as `Routes.Login` says (user id set, `session_id` kept); the tables stay consistent |
| ChatApp.App.Chat | app.py:131-162 | the reply is returned whether or not a user is logged in; the fields change as `Routes.Chat` says; the tables stay consistent |
| ChatApp.App.GetMessages | app.py:166-185 | the nested loops build exactly the history `Routes.History` defines, or Unauthorized |
| ChatApp.App.Logout | app.py:191 | the fields change as `Routes.Logout` says; the tables stay consistent |

## Left out

- `Response_Generation.py`: it only configures FAISS, the CSV loader, the embeddings, the Gemini chat model and the retrieval chain. Their behaviour lives in those libraries. The similarity threshold and the temperature are floats handed to them, and the prompt template is filled in by the library.
- The language model call (`qa_chain.invoke`, app.py:133) is replaced by the `answer` parameter, and `request.json.get('message')` by the `text` parameter. A request without a `message` key is not modelled.
- Markdown rendering of the reply (app.py:136): the returned response is the answer itself.
- ChatApp.App.Chat: the broad `except` around the inserts (app.py:159-160) is not modelled, and the model has no failing database. In the source, a failure after the chat session was committed (app.py:147) leaves that session row and the cookie's `session_id` (app.py:148) in place, without the message. The reply is still returned, which the method's `response == answer` states for the cases the model has.
- bcrypt (app.py:96, app.py:118): `Hash`/`Verify` is a stand-in. The model relies only on a password verifying against its own hash. It does not model the salt format, the 72-byte input limit, or the collision resistance that keeps other passwords from verifying.
- Flask plumbing: routing, `render_template`, `redirect`, `jsonify`, the GET branches of the forms, and the `index` page. The flashed messages are replaced by the `RegisterError` values.
- Persistence: PostgreSQL, SQLAlchemy sessions and commits, the `varchar(255)` column limits, and the environment variables (app.py:13-24).
- The `endtime` column is never written by the routes. Wall-clock timestamps are replaced by the `clock` counter, so no two rows share a time.
- Concurrency: one client cookie is modelled against the shared tables. Several browsers interleaving requests are not modelled.
- The `print` logging.
- Unicode: `isalnum`, `\w` and `\d` are ASCII-only in the model.
- ChatStore.FindUser: `.first()` without `order_by` returns an arbitrary matching row in the database. The model picks the first in table order. `ChatStore.KeyMatchesAtMostOne` shows that under the invariant there is at most one matching row, so the choice does not matter.

## Findings

`Routes.Login` and `ChatApp.App.Login` follow app.py:119 as written. The
corrected login is `Routes.LoginCorrected`, and `Routes.LoginCorrectedPreservesInv`
and `Routes.LoginThenChatShowsInOwnHistory` prove the intended behaviour of it.

| source | as written | input that shows it | evidently intended | confidence | as-written member | corrected member |
|---|---|---|---|---|---|---|
| app.py:119 | A successful login sets `session['user_id']` but keeps any `session['session_id']` already in the cookie. | User A logs in and chats, so the cookie holds A's session. User B then logs in on the same client without logging out and chats. B's message is stored under A's chat session. It appears in A's history and not in B's. | A login starts a fresh chat context: `session_id` is cleared (or the whole session reset), so B's first chat opens a session owned by B. | not executed | Routes.LoginMisfilesChat | Routes.LoginThenChatShowsInOwnHistory |
