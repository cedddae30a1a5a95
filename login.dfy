/**
 * The login form: the email pattern, the order in which `handleSubmit`
 * checks its inputs, the session it writes, and the one-click demo login.
 */
module AuthForm {
  import opened Wrappers
  import opened Session

  // ---------------------------------------------------------------------
  // isValidEmail: /^[^\s@]+@[^\s@]+\.[^\s@]+$/

  /** The characters `\s` matches in a JavaScript regular expression. */
  predicate IsRegexSpace(c: char) {
    || c == '\t' || c == '\n' || c == '\U{B}' || c == '\U{C}' || c == '\r' || c == ' '
    || c == '\U{A0}' || c == '\U{1680}' || ('\U{2000}' <= c <= '\U{200A}')
    || c == '\U{2028}' || c == '\U{2029}' || c == '\U{202F}' || c == '\U{205F}'
    || c == '\U{3000}' || c == '\U{FEFF}'
  }

  /** A character `[^\s@]` matches. */
  predicate Plain(c: char) {
    !IsRegexSpace(c) && c != '@'
  }

  predicate AllPlain(s: string) {
    forall k :: 0 <= k < |s| ==> Plain(s[k])
  }

  /** The pattern read off by positions: an '@' at `at` and a '.' at `dot`,
      each with text on both sides, and every other character plain. */
  predicate EmailAt(s: string, at: int, dot: int) {
    && 0 < at && at + 1 < dot && dot + 1 < |s|
    && s[at] == '@' && s[dot] == '.'
    && forall k :: 0 <= k < |s| && k != at ==> Plain(s[k])
  }

  predicate IsValidEmail(s: string) {
    exists at, dot :: 0 <= at < |s| && 0 <= dot < |s| && EmailAt(s, at, dot)
  }

  /** The pattern read off as the regular expression builds it:
      one or more plain characters, '@', one or more, '.', one or more. */
  ghost predicate EmailParts(s: string, local: string, host: string, tld: string) {
    && s == local + "@" + host + "." + tld
    && |local| > 0 && |host| > 0 && |tld| > 0
    && AllPlain(local) && AllPlain(host) && AllPlain(tld)
  }

  ghost predicate MatchesEmailRegex(s: string) {
    exists local, host, tld :: EmailParts(s, local, host, tld)
  }

  /** The position test is exactly the regular expression. */
  lemma IsValidEmailMatchesRegex(s: string)
    ensures IsValidEmail(s) <==> MatchesEmailRegex(s)
  {
    if IsValidEmail(s) {
      var at, dot :| 0 <= at < |s| && 0 <= dot < |s| && EmailAt(s, at, dot);
      var local, host, tld := s[..at], s[at + 1..dot], s[dot + 1..];
      assert s == local + "@" + host + "." + tld;
      assert AllPlain(local) by {
        forall k | 0 <= k < |local| ensures Plain(local[k]) {
          assert local[k] == s[k];
        }
      }
      assert AllPlain(host) by {
        forall k | 0 <= k < |host| ensures Plain(host[k]) {
          assert host[k] == s[at + 1 + k];
        }
      }
      assert AllPlain(tld) by {
        forall k | 0 <= k < |tld| ensures Plain(tld[k]) {
          assert tld[k] == s[dot + 1 + k];
        }
      }
      assert EmailParts(s, local, host, tld);
    }
    if MatchesEmailRegex(s) {
      var local, host, tld :| EmailParts(s, local, host, tld);
      var at, dot := |local|, |local| + 1 + |host|;
      forall k | 0 <= k < |s| && k != at ensures Plain(s[k]) {
        if k < at {
          assert s[k] == local[k];
        } else if k < dot {
          assert s[k] == host[k - at - 1];
        } else if k == dot {
          assert s[k] == '.';
        } else {
          assert s[k] == tld[k - dot - 1];
        }
      }
      assert EmailAt(s, at, dot);
      assert at < |s| && dot < |s|;
    }
  }

  /** In words: no whitespace, exactly one '@' with text before it, and a
      '.' in the domain with text on both of its sides. */
  lemma IsValidEmailInWords(s: string)
    ensures IsValidEmail(s) <==>
              (forall k :: 0 <= k < |s| ==> !IsRegexSpace(s[k])) &&
              exists at :: 0 < at < |s| && s[at] == '@' &&
                (forall k :: 0 <= k < |s| && s[k] == '@' ==> k == at) &&
                exists dot :: at + 1 < dot < |s| - 1 && s[dot] == '.'
  {
    if IsValidEmail(s) {
      var at, dot :| 0 <= at < |s| && 0 <= dot < |s| && EmailAt(s, at, dot);
      assert forall k :: 0 <= k < |s| && s[k] == '@' ==> k == at;
      assert at + 1 < dot < |s| - 1 && s[dot] == '.';
    }
    if (forall k :: 0 <= k < |s| ==> !IsRegexSpace(s[k])) &&
       exists at :: 0 < at < |s| && s[at] == '@' &&
         (forall k :: 0 <= k < |s| && s[k] == '@' ==> k == at) &&
         exists dot :: at + 1 < dot < |s| - 1 && s[dot] == '.'
    {
      var at :| 0 < at < |s| && s[at] == '@' &&
                (forall k :: 0 <= k < |s| && s[k] == '@' ==> k == at) &&
                exists dot :: at + 1 < dot < |s| - 1 && s[dot] == '.';
      var dot :| at + 1 < dot < |s| - 1 && s[dot] == '.';
      assert EmailAt(s, at, dot);
    }
  }

  // ---------------------------------------------------------------------
  // handleSubmit

  const AdminEmail := "admin@example.com"
  const AdminPassword := "admin123"

  const InvalidEmailText := "Please enter a valid email address"
  const MissingPasswordText := "Please enter your password"
  const WrongCredentialsText := "Invalid email or password"

  lemma AdminEmailValid()
    ensures IsValidEmail(AdminEmail)
  {
    assert EmailAt(AdminEmail, 5, 13);
  }

  datatype SubmitOutcome = InvalidEmail | MissingPassword | WrongCredentials | LoggedIn

  /** The checks in the order the handler makes them. */
  function Outcome(email: string, password: string): (r: SubmitOutcome)
  {
    if !IsValidEmail(email) then InvalidEmail
    else if |password| < 1 then MissingPassword
    else if email == AdminEmail && password == AdminPassword then LoggedIn
    else WrongCredentials
  }

  /** The error shown after a submit; empty on success. */
  function ErrorText(o: SubmitOutcome): (r: string)
    ensures r == "" <==> o == LoggedIn
  {
    match o
    case InvalidEmail => InvalidEmailText
    case MissingPassword => MissingPasswordText
    case WrongCredentials => WrongCredentialsText
    case LoggedIn => ""
  }

  /** Login succeeds exactly for the demo credentials; an invalid email is
      reported whatever the password; a valid email with an empty password
      asks for the password; anything else is rejected as a pair. */
  lemma OutcomeCases(email: string, password: string)
    ensures Outcome(email, password) == LoggedIn <==> email == AdminEmail && password == AdminPassword
    ensures !IsValidEmail(email) ==> forall p :: Outcome(email, p) == InvalidEmail
    ensures IsValidEmail(email) && password == "" ==> Outcome(email, password) == MissingPassword
    ensures IsValidEmail(email) && password != "" && (email != AdminEmail || password != AdminPassword) ==>
              Outcome(email, password) == WrongCredentials
  {
    AdminEmailValid();
  }

  /** The form's React state, and where it last sent the browser. */
  class AuthFormState {
    var email: string
    var password: string
    var error: string
    var loading: bool
    var navigatedTo: Option<string>

    constructor ()
      ensures email == "" && password == "" && error == "" && !loading && navigatedTo == None
    {
      email := "";
      password := "";
      error := "";
      loading := false;
      navigatedTo := None;
    }

    /** On success the session is written and the form stays in its loading
        state while the browser moves to the dashboard; on any failure the
        error is shown, loading ends and the store is untouched. */
    method HandleSubmit(store: LocalStorage)
      modifies this, store
      ensures var o := Outcome(old(email), old(password));
              && error == ErrorText(o)
              && loading == (o == LoggedIn)
              && store.items == (if o == LoggedIn then SignedIn(old(store.items), old(email)) else old(store.items))
              && navigatedTo == (if o == LoggedIn then Some("/dashboard") else old(navigatedTo))
      ensures email == old(email) && password == old(password)
    {
      loading := true;
      error := "";
      if !IsValidEmail(email) {
        error := InvalidEmailText;
        loading := false;
        return;
      }
      if |password| < 1 {
        error := MissingPasswordText;
        loading := false;
        return;
      }
      if email == AdminEmail && password == AdminPassword {
        WriteLogin(store, email);
        navigatedTo := Some("/dashboard");
      } else {
        error := WrongCredentialsText;
        loading := false;
      }
    }

    /** The button fills in the demo credentials ... */
    method HandleOneClickLogin()
      modifies this
      ensures email == AdminEmail && password == AdminPassword
      ensures error == old(error) && loading == old(loading) && navigatedTo == old(navigatedTo)
    {
      email := AdminEmail;
      password := AdminPassword;
    }

    /** ... and 100 ms later writes the session and opens the dashboard. */
    method OneClickTimerFires(store: LocalStorage)
      modifies this, store
      ensures store.items == SignedIn(old(store.items), AdminEmail)
      ensures navigatedTo == Some("/dashboard")
      ensures email == old(email) && password == old(password) && error == old(error) && loading == old(loading)
    {
      WriteLogin(store, AdminEmail);
      navigatedTo := Some("/dashboard");
    }
  }

  /** The one-click login leaves the store exactly as a successful submit of
      the demo credentials does, and that store holds a session. */
  lemma OneClickSameAsSubmit(items: map<string, string>)
    ensures Outcome(AdminEmail, AdminPassword) == LoggedIn
    ensures HasSession(SignedIn(items, AdminEmail))
  {
    AdminEmailValid();
    SessionStates(items, AdminEmail);
  }
}
