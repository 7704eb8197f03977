/** The client-side signup form schema: minimum lengths for name, username and password, a
    password-complexity pattern, and a refinement that the confirmation equals the password.
    Validation reports every failing rule, in the order the schema checks them. */
module SignupSchema {
  import opened JsStrings

  datatype SignupForm = SignupForm(name: string, username: string, password: string, confirmPassword: string)

  datatype Field = Name | Username | Password | ConfirmPassword

  /** One validation issue: the field path it is reported on and its message. */
  datatype Issue = Issue(path: Field, message: string)

  const NameMin: nat := 2
  const UsernameMin: nat := 3
  const PasswordMin: nat := 6

  const NameTooShort: string := "Nome deve ter pelo menos 2 caracteres"
  const UsernameTooShort: string := "Nome de usu\U{E1}rio deve ter pelo menos 3 caracteres"
  const PasswordTooShort: string := "Senha deve ter pelo menos 6 caracteres"
  const PasswordTooWeak: string :=
    "Senha deve conter pelo menos uma letra mai\U{FA}scula, uma letra min\U{FA}scula e um n\U{FA}mero"
  const PasswordsDiffer: string := "Senhas n\U{E3}o coincidem"

  // ---------------------------------------------------------------- the password pattern

  /** The character classes `[a-z]`, `[A-Z]` and `\d` (ASCII digits only). */
  datatype CharClass = Lower | Upper | Digit

  predicate InClass(c: char, k: CharClass) {
    match k
    case Lower => 'a' <= c <= 'z'
    case Upper => 'A' <= c <= 'Z'
    case Digit => '0' <= c <= '9'
  }

  predicate NoLineTerminator(s: string) {
    forall i :: 0 <= i < |s| ==> !IsLineTerminator(s[i])
  }

  /** The lookahead `(?=.*[k])` at the start of `s`: `.` matches anything but a line
      terminator, so it succeeds exactly when some character of the class occurs before the
      first line terminator. */
  function LookaheadAtStart(s: string, k: CharClass): (r: bool)
    ensures r <==> exists i :: 0 <= i < |s| && InClass(s[i], k) && NoLineTerminator(s[..i])
  {
    if s == [] then false
    else if InClass(s[0], k) then
      assert NoLineTerminator(s[..0]);
      true
    else if IsLineTerminator(s[0]) then
      assert forall i :: 0 < i <= |s| ==> !NoLineTerminator(s[..i]) by {
        forall i | 0 < i <= |s| ensures !NoLineTerminator(s[..i]) {
          assert s[..i][0] == s[0];
        }
      }
      false
    else
      var r := LookaheadAtStart(s[1..], k);
      assert r ==> exists i :: 0 <= i < |s| && InClass(s[i], k) && NoLineTerminator(s[..i]) by {
        if r {
          var j :| 0 <= j < |s[1..]| && InClass(s[1..][j], k) && NoLineTerminator(s[1..][..j]);
          assert s[..j + 1] == [s[0]] + s[1..][..j];
          assert InClass(s[j + 1], k) && NoLineTerminator(s[..j + 1]);
        }
      }
      assert (exists i :: 0 <= i < |s| && InClass(s[i], k) && NoLineTerminator(s[..i])) ==> r by {
        if exists i :: 0 <= i < |s| && InClass(s[i], k) && NoLineTerminator(s[..i]) {
          var i :| 0 <= i < |s| && InClass(s[i], k) && NoLineTerminator(s[..i]);
          assert i > 0;
          assert s[1..][..i - 1] == s[1..i];
          assert NoLineTerminator(s[1..][..i - 1]);
          assert InClass(s[1..][i - 1], k);
        }
      }
      r
  }

  /** `/^(?=.*[a-z])(?=.*[A-Z])(?=.*\d)/.test(password)`. */
  predicate PasswordPattern(password: string) {
    LookaheadAtStart(password, Lower) && LookaheadAtStart(password, Upper) && LookaheadAtStart(password, Digit)
  }

  // ---------------------------------------------------------------- the schema

  /** The issue list of a validation whose five checks fail as the flags say, in the order
      the schema runs them: the three minimum lengths, the password pattern, the refinement. */
  function IssuesFor(nameShort: bool, usernameShort: bool, passwordShort: bool, passwordWeak: bool,
                     mismatch: bool): (issues: seq<Issue>)
    ensures |issues| == (if nameShort then 1 else 0) + (if usernameShort then 1 else 0)
                        + (if passwordShort then 1 else 0) + (if passwordWeak then 1 else 0)
                        + (if mismatch then 1 else 0)
  {
    (if nameShort then [Issue(Name, NameTooShort)] else [])
    + (if usernameShort then [Issue(Username, UsernameTooShort)] else [])
    + (if passwordShort then [Issue(Password, PasswordTooShort)] else [])
    + (if passwordWeak then [Issue(Password, PasswordTooWeak)] else [])
    + (if mismatch then [Issue(ConfirmPassword, PasswordsDiffer)] else [])
  }

  /** Each check's issue is reported exactly when that check fails. */
  lemma IssuesForReportsEachFailure(n: bool, u: bool, p: bool, w: bool, m: bool)
    ensures Issue(Name, NameTooShort) in IssuesFor(n, u, p, w, m) <==> n
    ensures Issue(Username, UsernameTooShort) in IssuesFor(n, u, p, w, m) <==> u
    ensures Issue(Password, PasswordTooShort) in IssuesFor(n, u, p, w, m) <==> p
    ensures Issue(Password, PasswordTooWeak) in IssuesFor(n, u, p, w, m) <==> w
    ensures Issue(ConfirmPassword, PasswordsDiffer) in IssuesFor(n, u, p, w, m) <==> m
  {
    assert |PasswordTooShort| < |PasswordTooWeak|;
  }

  /** All issues of a submission. `z.string().min(n)` compares the UTF-16 length; the field
      failures are not fatal, so the object-level refinement runs as well. */
  function Validate(form: SignupForm): seq<Issue> {
    IssuesFor(Utf16Length(form.name) < NameMin,
              Utf16Length(form.username) < UsernameMin,
              Utf16Length(form.password) < PasswordMin,
              !PasswordPattern(form.password),
              form.password != form.confirmPassword)
  }

  predicate Accepts(form: SignupForm) {
    Validate(form) == []
  }

  /** The field paths reported in a list of issues. */
  function PathsOf(issues: seq<Issue>): set<Field> {
    if issues == [] then {} else {issues[0].path} + PathsOf(issues[1..])
  }

  lemma {:induction false} PathsOfConcat(a: seq<Issue>, b: seq<Issue>)
    ensures PathsOf(a + b) == PathsOf(a) + PathsOf(b)
  {
    if a == [] {
      assert a + b == b;
    } else {
      assert (a + b)[0] == a[0] && (a + b)[1..] == a[1..] + b;
      PathsOfConcat(a[1..], b);
    }
  }

  /** The paths of the five parts of a validation, in one step. */
  lemma PathsOfFiveParts(a: seq<Issue>, b: seq<Issue>, c: seq<Issue>, d: seq<Issue>, e: seq<Issue>)
    ensures PathsOf(a + b + c + d + e) == PathsOf(a) + PathsOf(b) + PathsOf(c) + PathsOf(d) + PathsOf(e)
  {
    PathsOfConcat(a + b + c + d, e);
    PathsOfConcat(a + b + c, d);
    PathsOfConcat(a + b, c);
    PathsOfConcat(a, b);
  }

  /** The paths of the issues one part of the validation reports. */
  function PartPaths(fails: bool, path: Field): set<Field> {
    if fails then {path} else {}
  }

  /** The field paths with at least one issue. */
  function FailingPaths(form: SignupForm): set<Field> {
    PathsOf(Validate(form))
  }

  /** A submission is accepted exactly when every field rule holds and the passwords agree. */
  lemma AcceptsIff(form: SignupForm)
    ensures Accepts(form) <==>
              && Utf16Length(form.name) >= NameMin
              && Utf16Length(form.username) >= UsernameMin
              && Utf16Length(form.password) >= PasswordMin
              && PasswordPattern(form.password)
              && form.password == form.confirmPassword
  {
  }

  lemma PathsOfIssuesFor(n: bool, u: bool, p: bool, w: bool, m: bool)
    ensures PathsOf(IssuesFor(n, u, p, w, m)) ==
              PartPaths(n, Name) + PartPaths(u, Username) + PartPaths(p, Password)
              + PartPaths(w, Password) + PartPaths(m, ConfirmPassword)
  {
    var a := if n then [Issue(Name, NameTooShort)] else [];
    var b := if u then [Issue(Username, UsernameTooShort)] else [];
    var c := if p then [Issue(Password, PasswordTooShort)] else [];
    var d := if w then [Issue(Password, PasswordTooWeak)] else [];
    var e := if m then [Issue(ConfirmPassword, PasswordsDiffer)] else [];
    PathsOfFiveParts(a, b, c, d, e);
    assert PathsOf(a) == PartPaths(n, Name);
    assert PathsOf(b) == PartPaths(u, Username);
    assert PathsOf(c) == PartPaths(p, Password);
    assert PathsOf(d) == PartPaths(w, Password);
    assert PathsOf(e) == PartPaths(m, ConfirmPassword);
  }

  /** Each field is reported exactly when its own rules fail; `confirmPassword` has no rule
      of its own and is reported exactly when it differs from the password. */
  lemma FailingPathsIff(form: SignupForm)
    ensures Name in FailingPaths(form) <==> Utf16Length(form.name) < NameMin
    ensures Username in FailingPaths(form) <==> Utf16Length(form.username) < UsernameMin
    ensures Password in FailingPaths(form) <==>
              Utf16Length(form.password) < PasswordMin || !PasswordPattern(form.password)
    ensures ConfirmPassword in FailingPaths(form) <==> form.password != form.confirmPassword
  {
    var n := Utf16Length(form.name) < NameMin;
    var u := Utf16Length(form.username) < UsernameMin;
    var p := Utf16Length(form.password) < PasswordMin;
    var w := !PasswordPattern(form.password);
    var m := form.password != form.confirmPassword;
    assert FailingPaths(form) == PathsOf(IssuesFor(n, u, p, w, m));
    PathsOfIssuesFor(n, u, p, w, m);
  }

  /** The password is accepted by itself exactly when it is long enough and each required
      class occurs before its first line terminator. */
  lemma PasswordRuleIff(password: string)
    ensures (Utf16Length(password) >= PasswordMin && PasswordPattern(password)) <==>
              && Utf16Length(password) >= PasswordMin
              && (exists i :: 0 <= i < |password| && 'a' <= password[i] <= 'z' && NoLineTerminator(password[..i]))
              && (exists i :: 0 <= i < |password| && 'A' <= password[i] <= 'Z' && NoLineTerminator(password[..i]))
              && (exists i :: 0 <= i < |password| && '0' <= password[i] <= '9' && NoLineTerminator(password[..i]))
  {
    assert forall i :: 0 <= i < |password| ==> (InClass(password[i], Lower) <==> 'a' <= password[i] <= 'z');
    assert forall i :: 0 <= i < |password| ==> (InClass(password[i], Upper) <==> 'A' <= password[i] <= 'Z');
    assert forall i :: 0 <= i < |password| ==> (InClass(password[i], Digit) <==> '0' <= password[i] <= '9');
  }

  /** Because `.` stops at a line terminator, a password whose digit only follows a newline
      fails the pattern although it contains all three classes. */
  lemma DigitAfterNewlineRejected()
    ensures !PasswordPattern("Abcdef\n1")
  {
    var p := "Abcdef\n1";
    assert forall i :: 0 <= i < |p| && InClass(p[i], Digit) ==> i == 7;
    assert !NoLineTerminator(p[..7]) by { assert p[..7][6] == '\n'; }
  }

  /** Lengths are UTF-16 code units: a single character outside the Basic Multilingual Plane
      already meets the two-unit minimum for the name. */
  lemma AstralCharacterMeetsNameMinimum()
    ensures Utf16Length("\U{1F600}") >= NameMin
    ensures |"\U{1F600}"| < NameMin
  {
  }
}
