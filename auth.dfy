/** The sign-in page: the password-strength meter, account creation and sign-in against
    the `users` collection. */
module Auth {
  import opened Wrappers
  import opened Seqs
  import opened Text
  import opened Entities

  predicate IsDigit(c: char) { '0' <= c <= '9' }

  /** `/[^a-zA-Z0-9]/`: anything but an ASCII letter or digit. */
  predicate IsSymbol(c: char) { !IsUpperAscii(c) && !IsLowerAscii(c) && !IsDigit(c) }

  /** The five checks of the meter, in the order it makes them: a `length` of at least 8
      UTF-16 code units, at least 12, both cases, a digit, a symbol. */
  function Criteria(pass: string): seq<bool> {
    [ Utf16Length(pass) >= 8, Utf16Length(pass) >= 12, Any(pass, IsUpperAscii) && Any(pass, IsLowerAscii),
      Any(pass, IsDigit), Any(pass, IsSymbol) ]
  }

  function Holds(b: bool): bool { b }

  function Point(b: bool): nat { if b then 1 else 0 }

  /** The strength score: how many of the checks the password passes. */
  function Score(pass: string): (n: nat)
    ensures n <= 5
  {
    Count(Criteria(pass), Holds)
  }

  lemma {:induction false} CountTrueSplit(s: seq<bool>)
    requires |s| > 0
    ensures Count(s, Holds) == Point(s[0]) + Count(s[1..], Holds)
  {
  }

  /** The score adds one point per passed check. */
  lemma ScoreIsSumOfPoints(pass: string)
    ensures var c := Criteria(pass);
      Score(pass) == Point(c[0]) + Point(c[1]) + Point(c[2]) + Point(c[3]) + Point(c[4])
  {
    var c := Criteria(pass);
    CountTrueSplit(c);
    CountTrueSplit(c[1..]);
    CountTrueSplit(c[2..]);
    CountTrueSplit(c[3..]);
    CountTrueSplit(c[4..]);
    assert c[1..][1..] == c[2..] && c[2..][1..] == c[3..] && c[3..][1..] == c[4..];
    assert c[4..][1..] == [];
  }

  /** A password whose `length` is 12 or more gets exactly two points for its length,
      and one shorter than 8 gets none. */
  lemma LengthPoints(pass: string)
    ensures Utf16Length(pass) >= 12 ==> Score(pass) == 2 + Count(Criteria(pass)[2..], Holds)
    ensures Utf16Length(pass) < 8 ==> Score(pass) == Count(Criteria(pass)[2..], Holds) && Score(pass) <= 3
  {
    var c := Criteria(pass);
    CountTrueSplit(c);
    CountTrueSplit(c[1..]);
    assert c[1..][1..] == c[2..];
  }

  lemma AnyExtends<T>(s: seq<T>, t: seq<T>, p: T -> bool)
    requires Any(s, p)
    ensures Any(s + t, p)
  {
    var i := IndexWhere(s, p).value;
    assert (s + t)[i] == s[i];
  }

  /** Typing more characters never lowers the score: every check a password passes,
      any extension of it passes too. */
  lemma ScoreMonotone(pass: string, more: string)
    ensures Score(pass) <= Score(pass + more)
  {
    var c, d := Criteria(pass), Criteria(pass + more);
    ScoreIsSumOfPoints(pass);
    ScoreIsSumOfPoints(pass + more);
    Utf16LengthAppend(pass, more);
    if Any(pass, IsUpperAscii) && Any(pass, IsLowerAscii) {
      AnyExtends(pass, more, IsUpperAscii);
      AnyExtends(pass, more, IsLowerAscii);
    }
    if Any(pass, IsDigit) {
      AnyExtends(pass, more, IsDigit);
    }
    if Any(pass, IsSymbol) {
      AnyExtends(pass, more, IsSymbol);
    }
  }

  /** An entry of the meter's table: bar width, colour, caption. */
  datatype Level = Level(pct: nat, color: string, text: string)

  const Levels: seq<Level> := [
    Level(0, "#2d3548", ""), Level(20, "#ff4f6a", "Weak"), Level(40, "#ff944f", "Fair"),
    Level(70, "#f5c518", "Good"), Level(90, "#00d4aa", "Strong"),
    Level(100, "#00d4aa", "\U{2713} Excellent") ]

  /** `checkStrength` without the drawing: the running score and the table entry it
      selects, which always exists. */
  method CheckStrength(pass: string) returns (score: nat, level: Level)
    ensures score == Score(pass) && score < |Levels|
    ensures level == Levels[score]
  {
    score := 0;
    var length := Utf16Length(pass);
    if length >= 8 { score := score + 1; }
    if length >= 12 { score := score + 1; }
    if Any(pass, IsUpperAscii) && Any(pass, IsLowerAscii) { score := score + 1; }
    if Any(pass, IsDigit) { score := score + 1; }
    if Any(pass, IsSymbol) { score := score + 1; }
    ScoreIsSumOfPoints(pass);
    level := Levels[Min(score, 5)];
  }

  const MissingFieldsAlert := "Please fill in all required fields."
  const MismatchAlert := "Passwords do not match."
  const ShortPasswordAlert := "Password must be at least 8 characters."
  const TermsAlert := "Please accept the Terms of Service."
  const EmailTakenAlert := "An account with this email already exists."
  const LoginFieldsAlert := "Please fill in all fields."
  const LoginFailedAlert := "Incorrect email or password. Please try again."

  /** The guards of account creation on the trimmed fields, in the order they are
      checked; `None` when the form passes all of them. */
  function SignupProblem(first: string, last: string, email: string, password: string,
                         confirm: string, terms: bool): (r: Option<string>)
    ensures r == Some(MissingFieldsAlert) <==> first == "" || last == "" || email == "" || password == ""
    ensures r == Some(MismatchAlert) <==>
      first != "" && last != "" && email != "" && password != "" && password != confirm
    ensures r == Some(ShortPasswordAlert) <==>
      first != "" && last != "" && email != "" && password != "" && password == confirm && Utf16Length(password) < 8
    ensures r == Some(TermsAlert) <==>
      first != "" && last != "" && email != "" && password == confirm && Utf16Length(password) >= 8 && !terms
    ensures r == None <==>
      first != "" && last != "" && email != "" && password == confirm && Utf16Length(password) >= 8 && terms
  {
    if first == "" || last == "" || email == "" || password == "" then Some(MissingFieldsAlert)
    else if password != confirm then Some(MismatchAlert)
    else if Utf16Length(password) < 8 then Some(ShortPasswordAlert)
    else if !terms then Some(TermsAlert)
    else None
  }

  function Credentials(email: string, password: string): User -> bool {
    (u: User) => u.email == email && u.password == password
  }

  datatype LoginResult = LoginRejected(alert: string) | LoggedIn(user: User)

  /** `handleLogin`: the first stored account whose email and password both match exactly. */
  function Login(users: seq<User>, email: string, password: string): (r: LoginResult)
    ensures r.LoggedIn? ==> r.user in users && r.user.email == Trim(email) && r.user.password == password
  {
    var e := Trim(email);
    if e == "" || password == "" then LoginRejected(LoginFieldsAlert)
    else match IndexWhere(users, Credentials(e, password))
      case Some(k) => LoggedIn(users[k])
      case None => LoginRejected(LoginFailedAlert)
  }

  /** Sign-in succeeds exactly when a stored account has the trimmed email and the
      password as typed. */
  lemma LoginSucceedsIff(users: seq<User>, email: string, password: string)
    ensures Login(users, email, password).LoggedIn? <==>
      Trim(email) != "" && password != "" &&
      exists i :: 0 <= i < |users| && users[i].email == Trim(email) && users[i].password == password
  {
    var e := Trim(email);
    if e != "" && password != "" {
      if exists i :: 0 <= i < |users| && users[i].email == e && users[i].password == password {
        var i :| 0 <= i < |users| && users[i].email == e && users[i].password == password;
        assert Credentials(e, password)(users[i]);
      }
    }
  }

  /** With one account per email, the account signed in is the one with that email. */
  lemma LoginFindsTheAccount(users: seq<User>, email: string, password: string, i: nat)
    requires Distinct(Map(users, UserEmail))
    requires i < |users| && users[i].email == Trim(email)
    requires Login(users, email, password).LoggedIn?
    ensures Login(users, email, password).user == users[i]
  {
    var m := Map(users, UserEmail);
    var k := IndexWhere(users, Credentials(Trim(email), password)).value;
    DistinctAt(m, k, i);
  }

  /** An account stored under a trimmed email signs in with that email typed as it is
      stored: trimming it again changes nothing, and the account found is that one. */
  lemma StoredAccountSignsIn(users: seq<User>, i: nat, typed: string)
    requires Distinct(Map(users, UserEmail))
    requires i < |users| && users[i].email == Trim(typed)
    requires users[i].email != "" && users[i].password != ""
    ensures Login(users, users[i].email, users[i].password) == LoggedIn(users[i])
  {
    var u := users[i];
    TrimIdempotent(typed);
    LoginSucceedsIff(users, u.email, u.password);
    LoginFindsTheAccount(users, u.email, u.password, i);
  }

  /** The `users` collection of localStorage; a missing key reads as empty. */
  class UserStore {
    var users: seq<User>

    /** One account per email, which `Signup` keeps. */
    ghost predicate Valid()
      reads this
    {
      Distinct(Map(users, UserEmail))
    }

    constructor Load(stored: Option<seq<User>>)
      requires Distinct(Map(stored.GetOr([]), UserEmail))
      ensures Valid() && users == stored.GetOr([])
    {
      users := stored.GetOr([]);
    }

    /** `handleSignup`: the guards on the trimmed fields, then the duplicate-email check,
        then one new account at the end of the collection. */
    method Signup(first: string, last: string, email: string, company: string, role: string,
                  password: string, confirm: string, terms: bool, now: string)
      returns (o: Outcome)
      requires Valid()
      modifies this`users
      ensures Valid()
      ensures var f, l, e := Trim(first), Trim(last), Trim(email);
        match SignupProblem(f, l, e, password, confirm, terms)
        case Some(alert) => o == Invalid(alert) && users == old(users)
        case None =>
          if Any(old(users), UserHasEmail(e)) then o == Invalid(EmailTakenAlert) && users == old(users)
          else o == Applied && users == old(users) + [User(f, l, e, Trim(company), role, password, now)]
    {
      var f, l, e := Trim(first), Trim(last), Trim(email);
      var problem := SignupProblem(f, l, e, password, confirm, terms);
      if problem.Some? {
        o := Invalid(problem.value);
        return;
      }
      if IndexWhere(users, UserHasEmail(e)).Some? {
        o := Invalid(EmailTakenAlert);
        return;
      }
      forall i | 0 <= i < |users| ensures Map(users, UserEmail)[i] != e {
        assert !UserHasEmail(e)(users[i]);
      }
      AddAccount(User(f, l, e, Trim(company), role, password, now));
      o := Applied;
    }

    /** Appends an account whose email no stored account has. */
    method AddAccount(account: User)
      requires Valid() && account.email !in Map(users, UserEmail)
      modifies this`users
      ensures Valid() && users == old(users) + [account]
    {
      MapAppendKey(users, account, UserEmail);
      users := users + [account];
    }
  }
}
