/**
 * Input validation of the registration form (app.py, `register`).
 *
 * Each of the three form fields is stripped of surrounding white space and then
 * checked by one rule: the username by `len(...) >= 6 and isalnum()`, the email
 * and the password by a regular expression applied with Python's `re.match`.
 * Every regular expression is given twice here: once as a ghost predicate that
 * states what the pattern accepts (the regex read as a decomposition of the
 * string), and once as a compiled scanner; lemmas prove the two agree.
 *
 * Character classes are ASCII: Python's `str.isalnum`, `\w` and `\d` also accept
 * other Unicode letters and digits, which this model does not.
 */
module Registration {
  import opened Wrappers

  // ---------------------------------------------------------------------------
  // Character classes
  // ---------------------------------------------------------------------------

  /** Python's `str.isspace`: the characters `str.strip()` removes. */
  predicate IsSpace(c: char)
  {
    var n := c as int;
    (9 <= n <= 13) || (28 <= n <= 32) || n == 0x85 || n == 0xA0 || n == 0x1680 ||
    (0x2000 <= n <= 0x200A) || n == 0x2028 || n == 0x2029 || n == 0x202F ||
    n == 0x205F || n == 0x3000
  }

  predicate IsLower(c: char) { 'a' <= c <= 'z' }

  predicate IsUpper(c: char) { 'A' <= c <= 'Z' }

  /** `\d`, restricted to ASCII. */
  predicate IsDigit(c: char) { '0' <= c <= '9' }

  /** `str.isalnum` for one character, restricted to ASCII. */
  predicate IsAlnum(c: char) { IsLower(c) || IsUpper(c) || IsDigit(c) }

  /** `\w`, restricted to ASCII. */
  predicate IsWordChar(c: char) { IsAlnum(c) || c == '_' }

  /** The class `[\w\.-]` of the email pattern. */
  predicate IsWordDotDash(c: char) { IsWordChar(c) || c == '.' || c == '-' }

  /** The class `[@$!%*?&]` of the password pattern. */
  predicate IsSpecial(c: char)
  {
    c == '@' || c == '$' || c == '!' || c == '%' || c == '*' || c == '?' || c == '&'
  }

  /** The class `[A-Za-z\d@$!%*?&]` of the password pattern. */
  predicate IsPasswordChar(c: char) { IsAlnum(c) || IsSpecial(c) }

  predicate AllAlnum(s: string) { forall i :: 0 <= i < |s| ==> IsAlnum(s[i]) }

  predicate AllWord(s: string) { forall i :: 0 <= i < |s| ==> IsWordChar(s[i]) }

  predicate AllWordDotDash(s: string) { forall i :: 0 <= i < |s| ==> IsWordDotDash(s[i]) }

  predicate AllPasswordChars(s: string) { forall i :: 0 <= i < |s| ==> IsPasswordChar(s[i]) }

  // ---------------------------------------------------------------------------
  // str.strip()
  // ---------------------------------------------------------------------------

  /** The index of the first character of `s` that is not white space, or `|s|`. */
  function LeadingSpaceEnd(s: string): (i: nat)
    ensures i <= |s|
    ensures forall k :: 0 <= k < i ==> IsSpace(s[k])
    ensures i == |s| || !IsSpace(s[i])
  {
    if |s| > 0 && IsSpace(s[0]) then 1 + LeadingSpaceEnd(s[1..]) else 0
  }

  /**
   * The index just past the last character of `s` at or after `lo` that is
   * not white space, or `lo` when there is none.
   */
  function TrailingSpaceStart(s: string, lo: nat): (j: nat)
    requires lo <= |s|
    ensures lo <= j <= |s|
    ensures forall k :: j <= k < |s| ==> IsSpace(s[k])
    ensures j == lo || !IsSpace(s[j - 1])
  {
    if |s| > lo && IsSpace(s[|s| - 1]) then TrailingSpaceStart(s[..|s| - 1], lo) else |s|
  }

  /** `s` is `r` with white space added on both sides. */
  ghost predicate PaddedBy(s: string, r: string)
  {
    exists k :: PaddedAt(s, r, k)
  }

  /** `s` is `k` white-space characters, then `r`, then white space to the end. */
  predicate PaddedAt(s: string, r: string, k: int)
  {
    0 <= k <= |s| - |r| && s[k..k + |r|] == r &&
    (forall m :: 0 <= m < k ==> IsSpace(s[m])) &&
    (forall m :: k + |r| <= m < |s| ==> IsSpace(s[m]))
  }

  /** Python's `str.strip()` with no argument. */
  function Strip(s: string): (r: string)
    ensures |r| <= |s|
    ensures r == [] || (!IsSpace(r[0]) && !IsSpace(r[|r| - 1]))
  {
    var i := LeadingSpaceEnd(s);
    s[i..TrailingSpaceStart(s, i)]
  }

  /** Stripping removes white space from the two ends and nothing else. */
  lemma StripRemovesOnlySpace(s: string)
    ensures PaddedBy(s, Strip(s))
  {
    var i := LeadingSpaceEnd(s);
    var j := TrailingSpaceStart(s, i);
    assert PaddedAt(s, Strip(s), i);
  }

  /** Stripping is idempotent: a stripped field is stripped again to itself. */
  lemma StripIdempotent(s: string)
    ensures Strip(Strip(s)) == Strip(s)
  {
    var r := Strip(s);
    NoEdgeSpaceStripsToSelf(r);
  }

  /** A string that neither starts nor ends with white space is its own strip. */
  lemma NoEdgeSpaceStripsToSelf(r: string)
    requires r == [] || (!IsSpace(r[0]) && !IsSpace(r[|r| - 1]))
    ensures Strip(r) == r
  {
    assert LeadingSpaceEnd(r) == 0;
    assert TrailingSpaceStart(r, 0) == |r|;
    assert r[0..|r|] == r;
  }

  /** A stripped string never ends with a line feed. */
  lemma StrippedHasNoTrailingNewline(s: string)
    ensures !EndsWithNewline(Strip(s))
  {
  }

  // ---------------------------------------------------------------------------
  // re.match(pattern, s) with a pattern of the form ^...$
  // ---------------------------------------------------------------------------

  /**
   * Python's `$` (without MULTILINE) matches at the end of the string and also
   * just before a final line feed, so `^P$` accepts `s` when `P` spans all of
   * `s` or all of `s` but a final "\n".
   */
  predicate EndsWithNewline(s: string) { |s| > 0 && s[|s| - 1] == '\n' }

  function DropLast(s: string): string
    requires |s| > 0
  {
    s[..|s| - 1]
  }

  // ---------------------------------------------------------------------------
  // Username rule: len(username) < 6 or not username.isalnum() is rejected
  // ---------------------------------------------------------------------------

  predicate UsernameOk(u: string)
  {
    |u| >= 6 && AllAlnum(u)
  }

  // ---------------------------------------------------------------------------
  // Email rule: ^[\w\.-]+@[\w\.-]+\.\w+$
  // ---------------------------------------------------------------------------

  /**
   * The pattern `[\w\.-]+@[\w\.-]+\.\w+` spans `s`: a non-empty local part, an
   * `@` at index `a`, a non-empty domain part, a `.` at index `d` and a
   * non-empty run of word characters to the end.
   */
  ghost predicate EmailRegex(s: string)
  {
    exists a, d :: EmailSplit(s, a, d)
  }

  /** The split of `s` at an `@` at index `a` and a `.` at index `d` that the pattern needs. */
  predicate EmailSplit(s: string, a: int, d: int)
  {
    0 < a && a + 1 < d && d + 1 < |s| && s[a] == '@' && s[d] == '.' &&
    AllWordDotDash(s[..a]) && AllWordDotDash(s[a + 1..d]) && AllWord(s[d + 1..])
  }

  /** Index of the first `c` in `s`, or `|s|` when there is none. */
  function IndexOf(s: string, c: char): (i: nat)
    ensures i <= |s|
    ensures i < |s| ==> s[i] == c
    ensures forall k :: 0 <= k < i ==> s[k] != c
  {
    if |s| == 0 then 0
    else if s[0] == c then 0
    else 1 + IndexOf(s[1..], c)
  }

  /** Index of the last `c` in `s`, or -1 when there is none. */
  function LastIndexOf(s: string, c: char): (i: int)
    ensures -1 <= i < |s|
    ensures 0 <= i ==> s[i] == c
    ensures forall k :: i < k < |s| ==> s[k] != c
  {
    if |s| == 0 then -1
    else if s[|s| - 1] == c then |s| - 1
    else LastIndexOf(s[..|s| - 1], c)
  }

  /**
   * Deterministic scanner for the email pattern: the `@` must be the first
   * one (the local part cannot hold another), and the final `.` must be the
   * last dot of the domain (the word run after it cannot hold a dot).
   */
  function ScanEmail(s: string): bool
  {
    var a := IndexOf(s, '@');
    0 < a < |s| && AllWordDotDash(s[..a]) &&
    var rest := s[a + 1..];
    AllWordDotDash(rest) &&
    var d := LastIndexOf(rest, '.');
    0 < d && d + 1 < |rest| && AllWord(rest[d + 1..])
  }

  /** A string the scanner accepts is spanned by the email pattern. */
  lemma ScanEmailSound(s: string)
    requires ScanEmail(s)
    ensures EmailRegex(s)
  {
    var a := IndexOf(s, '@');
    var rest := s[a + 1..];
    var d := LastIndexOf(rest, '.');
    var d' := a + 1 + d;
    assert s[a + 1..d'] == rest[..d];
    assert s[d' + 1..] == rest[d + 1..];
    assert AllWordDotDash(s[a + 1..d']);
    assert EmailSplit(s, a, d');
  }

  /**
   * A split of `s` that the email pattern admits is the one the scanner finds:
   * the first `@` and the last `.` after it.
   */
  lemma ScanEmailComplete(s: string, a: nat, d: nat)
    requires EmailSplit(s, a, d)
    ensures ScanEmail(s)
  {
    FirstAtOfSplit(s, a, d);
    DomainOfSplit(s, a, d);
    var rest := s[a + 1..];
    var e := d - a - 1;
    assert rest[e + 1..] == s[d + 1..];
  }

  /** The `@` of a split is the first one: the local part holds none. */
  lemma FirstAtOfSplit(s: string, a: nat, d: nat)
    requires EmailSplit(s, a, d)
    ensures IndexOf(s, '@') == a
  {
    forall k | 0 <= k < a
      ensures s[k] != '@'
    {
      assert IsWordDotDash(s[..a][k]);
    }
  }

  /**
   * Everything after the `@` of a split is in `[\w\.-]`, and its last `.`
   * is the one at index `d`: the final word run holds none.
   */
  lemma DomainOfSplit(s: string, a: nat, d: nat)
    requires EmailSplit(s, a, d)
    ensures AllWordDotDash(s[a + 1..])
    ensures LastIndexOf(s[a + 1..], '.') == d - a - 1
  {
    var rest := s[a + 1..];
    var e := d - a - 1;
    assert rest[..e] == s[a + 1..d];
    assert rest[e + 1..] == s[d + 1..];
    forall k | 0 <= k < |rest|
      ensures IsWordDotDash(rest[k]) && (k > e ==> rest[k] != '.')
    {
      if k < e {
        assert rest[k] == rest[..e][k];
      } else if k > e {
        assert rest[k] == rest[e + 1..][k - e - 1];
      }
    }
  }

  /** The scanner accepts exactly the strings the email pattern spans. */
  lemma ScanEmailCorrect(s: string)
    ensures ScanEmail(s) <==> EmailRegex(s)
  {
    if ScanEmail(s) {
      ScanEmailSound(s);
    }
    if EmailRegex(s) {
      var a, d :| EmailSplit(s, a, d);
      ScanEmailComplete(s, a, d);
    }
  }

  /** `re.match(r'^[\w\.-]+@[\w\.-]+\.\w+$', s)` succeeds. */
  function EmailMatches(s: string): (b: bool)
    ensures b <==> EmailRegex(s) || (EndsWithNewline(s) && EmailRegex(DropLast(s)))
  {
    ScanEmailCorrect(s);
    ScanEmailCorrect(if |s| > 0 then DropLast(s) else s);
    ScanEmail(s) || (EndsWithNewline(s) && ScanEmail(DropLast(s)))
  }

  /** An email address always holds an `@`, so it is never a valid username. */
  lemma UsernameIsNeverEmail(x: string)
    requires UsernameOk(x)
    ensures !EmailRegex(x)
  {
  }

  // ---------------------------------------------------------------------------
  // Password rule:
  //   ^(?=.*[a-z])(?=.*[A-Z])(?=.*\d)(?=.*[@$!%*?&])[A-Za-z\d@$!%*?&]{8,}$
  // ---------------------------------------------------------------------------

  /**
   * The look-ahead `(?=.*X)` at the start of `s`: some character of class X
   * comes before the first line feed (`.` does not match "\n").
   */
  ghost predicate LookAhead(s: string, x: char -> bool)
  {
    exists i :: 0 <= i < |s| && x(s[i]) && forall k :: 0 <= k < i ==> s[k] != '\n'
  }

  /** The password pattern, without its `$`, spans `s`. */
  ghost predicate PasswordRegex(s: string)
  {
    LookAhead(s, IsLower) && LookAhead(s, IsUpper) && LookAhead(s, IsDigit) &&
    LookAhead(s, IsSpecial) && |s| >= 8 && AllPasswordChars(s)
  }

  /** The password policy in words: the rule the form's error message states. */
  predicate PasswordPolicy(p: string)
  {
    |p| >= 8 && AllPasswordChars(p) &&
    (exists i :: 0 <= i < |p| && IsLower(p[i])) &&
    (exists i :: 0 <= i < |p| && IsUpper(p[i])) &&
    (exists i :: 0 <= i < |p| && IsDigit(p[i])) &&
    (exists i :: 0 <= i < |p| && IsSpecial(p[i]))
  }

  /** The look-aheads add nothing beyond "contains one of each class". */
  lemma PasswordRegexIsPolicy(p: string)
    ensures PasswordRegex(p) <==> PasswordPolicy(p)
  {
    if PasswordPolicy(p) {
      assert forall k :: 0 <= k < |p| ==> p[k] != '\n' by {
        forall k | 0 <= k < |p| ensures p[k] != '\n' { assert IsPasswordChar(p[k]); }
      }
    }
  }

  /** `re.match(pass_pattern, s)` succeeds. */
  function PasswordMatches(s: string): (b: bool)
    ensures b <==> PasswordRegex(s) || (EndsWithNewline(s) && PasswordRegex(DropLast(s)))
  {
    PasswordRegexIsPolicy(s);
    PasswordRegexIsPolicy(if |s| > 0 then DropLast(s) else s);
    PasswordPolicy(s) || (EndsWithNewline(s) && PasswordPolicy(DropLast(s)))
  }

  // ---------------------------------------------------------------------------
  // The validation block of register
  // ---------------------------------------------------------------------------

  /** Why a registration was turned away; each one is a flashed message. */
  datatype RegisterError =
    | BadUsername    // 'Username must be at least 6 characters ...'
    | BadEmail       // 'Invalid email format.'
    | BadPassword    // 'Password must be at least 8 characters long ...'
    | UsernameTaken  // 'Username already exists'
    | EmailTaken     // 'Email already exists'

  /** The stripped fields of a registration that passed every check. */
  datatype Credentials = Credentials(username: string, email: string, password: string)

  /**
   * Strips the three fields and runs the five checks in the source's order;
   * the first failing check is the answer. `usernames` and `emails` are the
   * corresponding columns of the user table.
   */
  function Validate(username: string, email: string, password: string,
                    usernames: seq<string>, emails: seq<string>): (r: Result<Credentials, RegisterError>)
    ensures r.Ok? <==>
      UsernameOk(Strip(username)) && EmailRegex(Strip(email)) &&
      PasswordPolicy(Strip(password)) &&
      Strip(username) !in usernames && Strip(email) !in emails
    ensures r.Ok? ==> r.value == Credentials(Strip(username), Strip(email), Strip(password))
    ensures r == Err(BadUsername) <==> !UsernameOk(Strip(username))
    ensures r == Err(BadEmail) <==>
      UsernameOk(Strip(username)) && !EmailRegex(Strip(email))
    ensures r == Err(BadPassword) <==>
      UsernameOk(Strip(username)) && EmailRegex(Strip(email)) &&
      !PasswordPolicy(Strip(password))
    ensures r == Err(UsernameTaken) <==>
      UsernameOk(Strip(username)) && EmailRegex(Strip(email)) &&
      PasswordPolicy(Strip(password)) && Strip(username) in usernames
    ensures r == Err(EmailTaken) <==>
      UsernameOk(Strip(username)) && EmailRegex(Strip(email)) &&
      PasswordPolicy(Strip(password)) && Strip(username) !in usernames &&
      Strip(email) in emails
  {
    var u := Strip(username);
    var e := Strip(email);
    var p := Strip(password);
    StrippedHasNoTrailingNewline(email);
    StrippedHasNoTrailingNewline(password);
    PasswordRegexIsPolicy(p);
    if |u| < 6 || !AllAlnum(u) then Err(BadUsername)
    else if !EmailMatches(e) then Err(BadEmail)
    else if !PasswordMatches(p) then Err(BadPassword)
    else if u in usernames then Err(UsernameTaken)
    else if e in emails then Err(EmailTaken)
    else Ok(Credentials(u, e, p))
  }
}
