/**
 * The User schema: its `trim` setters, its `required` fields, the email and
 * password validators and the defaults a new user document gets.
 */
module UserSchema {
  import opened Wrappers
  import opened Models

  // ---------------------------------------------------------------------
  // trim: String.prototype.trim
  // ---------------------------------------------------------------------

  /** The characters String.prototype.trim removes (WhiteSpace and LineTerminator). */
  predicate IsWhitespace(c: char) {
    || c == '\t' || c == '\n' || c == '\U{000B}' || c == '\U{000C}' || c == '\r' || c == ' '
    || c == '\U{00A0}' || c == '\U{1680}' || ('\U{2000}' <= c <= '\U{200A}')
    || c == '\U{2028}' || c == '\U{2029}' || c == '\U{202F}' || c == '\U{205F}'
    || c == '\U{3000}' || c == '\U{FEFF}'
  }

  predicate IsBlank(s: string) {
    forall i :: 0 <= i < |s| ==> IsWhitespace(s[i])
  }

  /** The number of whitespace characters `s` starts with. */
  function LeadingBlanks(s: string): (n: nat)
    ensures n <= |s|
    ensures forall i :: 0 <= i < n ==> IsWhitespace(s[i])
    ensures n < |s| ==> !IsWhitespace(s[n])
  {
    if s != [] && IsWhitespace(s[0]) then 1 + LeadingBlanks(s[1..]) else 0
  }
  /** Where the trailing whitespace of `s` begins. */
  function ContentEnd(s: string): (m: nat)
    ensures m <= |s|
    ensures forall i :: m <= i < |s| ==> IsWhitespace(s[i])
    ensures m > 0 ==> !IsWhitespace(s[m - 1])
  {
    if s != [] && IsWhitespace(s[|s| - 1]) then ContentEnd(s[..|s| - 1]) else |s|
  }
  /**
   * `s` without its leading and trailing whitespace: the characters of `s`
   * from its first non-whitespace one to its last, empty exactly when `s`
   * is blank.
   */
  function Trim(s: string): (r: string)
    ensures var a := LeadingBlanks(s);
            && a + |r| <= |s|
            && (forall i :: 0 <= i < |r| ==> r[i] == s[a + i])
            && (forall i :: a + |r| <= i < |s| ==> IsWhitespace(s[i]))
    ensures r != [] ==> !IsWhitespace(r[0]) && !IsWhitespace(r[|r| - 1])
    ensures r == [] <==> IsBlank(s)
  {
    var a := LeadingBlanks(s);
    if a == |s| then "" else s[a..ContentEnd(s)]
  }
  /** Trimming twice is trimming once. */
  lemma TrimIdempotent(s: string)
    ensures Trim(Trim(s)) == Trim(s)
  {
    var r := Trim(s);
    if r != [] {
      assert LeadingBlanks(r) == 0;
      assert ContentEnd(r) == |r|;
    }
  }

  // ---------------------------------------------------------------------
  // email: /^[a-zA-Z0-9._%+-]+@[a-zA-Z0-9.-]+\.[a-zA-Z]{2,}$/
  // ---------------------------------------------------------------------

  predicate IsAsciiLetter(c: char) { ('a' <= c <= 'z') || ('A' <= c <= 'Z') }

  predicate IsDigit(c: char) { '0' <= c <= '9' }

  /** `[a-zA-Z0-9._%+-]` */
  predicate IsLocalChar(c: char) {
    IsAsciiLetter(c) || IsDigit(c) || c == '.' || c == '_' || c == '%' || c == '+' || c == '-'
  }

  /** `[a-zA-Z0-9.-]` */
  predicate IsDomainChar(c: char) {
    IsAsciiLetter(c) || IsDigit(c) || c == '.' || c == '-'
  }

  /** `s[lo..hi]` is over `[a-zA-Z0-9._%+-]`. */
  predicate LocalChars(s: string, lo: nat, hi: nat) {
    forall i :: lo <= i < hi && i < |s| ==> IsLocalChar(s[i])
  }

  /** The characters strictly between `at` and `dot` are over `[a-zA-Z0-9.-]`. */
  predicate DomainCharsBetween(s: string, at: nat, dot: nat) {
    forall i :: at < i < dot && i < |s| ==> IsDomainChar(s[i])
  }

  /** `s[lo..]` is over `[a-zA-Z]`. */
  predicate LettersFrom(s: string, lo: nat) {
    forall i :: lo <= i < |s| ==> IsAsciiLetter(s[i])
  }

  /**
   * The anchored regular expression matches `s` when `s` splits as
   * `[a-zA-Z0-9._%+-]+` '@' `[a-zA-Z0-9.-]+` '.' `[a-zA-Z]{2,}`: some '@' at
   * `at` and some '.' at `dot` with the three runs around them non-empty
   * (the last at least two long) and over their character classes.
   */
  ghost predicate MatchesEmailRegex(s: string) {
    exists at: nat, dot: nat ::
      && 1 <= at && at + 1 < dot && dot + 3 <= |s|
      && s[at] == '@' && s[dot] == '.'
      && LocalChars(s, 0, at) && DomainCharsBetween(s, at, dot) && LettersFrom(s, dot + 1)
  }

  /** The index of the first `c` in `s`. */
  function IndexOf(s: string, c: char): (r: Option<nat>)
    ensures r.Some? ==> r.value < |s| && s[r.value] == c && forall i :: 0 <= i < r.value ==> s[i] != c
    ensures r.None? ==> forall i :: 0 <= i < |s| ==> s[i] != c
  {
    if s == [] then None
    else if s[0] == c then Some(0)
    else match IndexOf(s[1..], c)
      case None => None
      case Some(i) => Some(i + 1)
  }

  /** The index of the last `c` in `s`. */
  function LastIndexOf(s: string, c: char): (r: Option<nat>)
    ensures r.Some? ==> r.value < |s| && s[r.value] == c && forall i :: r.value < i < |s| ==> s[i] != c
    ensures r.None? ==> forall i :: 0 <= i < |s| ==> s[i] != c
  {
    if s == [] then None
    else if s[|s| - 1] == c then Some(|s| - 1)
    else LastIndexOf(s[..|s| - 1], c)
  }

  /**
   * The email validator (`value.match(re)` is truthy), without backtracking:
   * the '@' must be the first one and the '.' the last one.
   */
  function ValidEmail(s: string): bool {
    match IndexOf(s, '@')
    case None => false
    case Some(at) =>
      match LastIndexOf(s, '.')
      case None => false
      case Some(dot) =>
        && 1 <= at && at + 1 < dot && dot + 3 <= |s|
        && LocalChars(s, 0, at) && DomainCharsBetween(s, at, dot) && LettersFrom(s, dot + 1)
  }

  /** A match's '@' is the first one and its '.' the last one, so the validator accepts it. */
  lemma RegexMatchIsValidEmail(s: string, at: nat, dot: nat)
    requires 1 <= at && at + 1 < dot && dot + 3 <= |s|
    requires s[at] == '@' && s[dot] == '.'
    requires LocalChars(s, 0, at) && DomainCharsBetween(s, at, dot) && LettersFrom(s, dot + 1)
    ensures IndexOf(s, '@') == Some(at) && LastIndexOf(s, '.') == Some(dot)
    ensures ValidEmail(s)
  {
    assert forall i :: 0 <= i < at ==> s[i] != '@' by {
      forall i | 0 <= i < at ensures s[i] != '@' { assert IsLocalChar(s[i]); }
    }
    assert forall i :: dot < i < |s| ==> s[i] != '.' by {
      forall i | dot < i < |s| ensures s[i] != '.' { assert IsAsciiLetter(s[i]); }
    }
  }

  /** The validator accepts exactly the strings the regular expression matches. */
  lemma ValidEmailMatchesRegex(s: string)
    ensures ValidEmail(s) <==> MatchesEmailRegex(s)
  {
    if MatchesEmailRegex(s) {
      var at: nat, dot: nat :|
        && 1 <= at && at + 1 < dot && dot + 3 <= |s|
        && s[at] == '@' && s[dot] == '.'
        && LocalChars(s, 0, at) && DomainCharsBetween(s, at, dot) && LettersFrom(s, dot + 1);
      RegexMatchIsValidEmail(s, at, dot);
    }
    if ValidEmail(s) {
      var at, dot := IndexOf(s, '@').value, LastIndexOf(s, '.').value;
      assert s[at] == '@' && s[dot] == '.';
    }
  }

  /** An accepted email holds exactly one '@'. */
  lemma ValidEmailHasOneAt(s: string, j: nat)
    requires ValidEmail(s) && j < |s| && s[j] == '@'
    ensures IndexOf(s, '@') == Some(j)
  {
    var at := IndexOf(s, '@').value;
    var dot := LastIndexOf(s, '.').value;
    assert forall i :: at < i < |s| ==> s[i] != '@' by {
      forall i | at < i < |s| ensures s[i] != '@' {
        if i < dot {
          assert IsDomainChar(s[i]);
        } else if i > dot {
          assert IsAsciiLetter(s[i]);
        }
      }
    }
  }

  // ---------------------------------------------------------------------
  // password: a length validator that returns `true` or a message
  // ---------------------------------------------------------------------

  /** What a validator function returns: `true`, or a string. */
  datatype ValidatorResult = True | Text(text: string)

  /** Mongoose treats a validator's result as a pass when it is truthy. */
  predicate Passes(v: ValidatorResult) {
    v.True? || v.text != ""
  }

  /** JavaScript's `length`: UTF-16 code units, two for a character beyond U+FFFF. */
  function Utf16Length(s: string): (n: nat)
    ensures |s| <= n <= 2 * |s|
  {
    if s == [] then 0 else Utf16Length(s[..|s| - 1]) + (if s[|s| - 1] > '\U{FFFF}' then 2 else 1)
  }

  /** Over the Basic Multilingual Plane the two lengths agree. */
  lemma {:induction false} Utf16LengthInBmp(s: string)
    requires forall i :: 0 <= i < |s| ==> s[i] <= '\U{FFFF}'
    ensures Utf16Length(s) == |s|
  {
    if s != [] {
      Utf16LengthInBmp(s[..|s| - 1]);
    }
  }

  function PasswordValidator(value: string): (r: ValidatorResult)
    ensures r.True? <==> Utf16Length(value) > 6
    ensures |value| > 6 ==> r.True?
  {
    if Utf16Length(value) > 6 then True else Text("Value must be at least 6 characters")
  }

  /** Four characters beyond U+FFFF are eight code units, so the validator returns `true`. */
  lemma AstralPasswordIsLongEnough()
    ensures PasswordValidator("\U{1F600}\U{1F600}\U{1F600}\U{1F600}").True?
  {
    var c := '\U{1F600}';
    var s := [c, c, c, c];
    assert s == "\U{1F600}\U{1F600}\U{1F600}\U{1F600}";
    assert s[..3] == [c, c, c] && [c, c, c][..2] == [c, c] && [c, c][..1] == [c] && [c][..0] == [];
    assert Utf16Length([c]) == 2;
    assert Utf16Length([c, c]) == 4;
    assert Utf16Length([c, c, c]) == 6;
  }

  /** The password validator never fails: short passwords get a message string, which is truthy. */
  lemma PasswordValidatorNeverRejects(value: string)
    ensures Passes(PasswordValidator(value))
    ensures Utf16Length(value) <= 6 ==> PasswordValidator(value).Text?
  {
  }

  // ---------------------------------------------------------------------
  // The document: required and trimmed fields, defaults
  // ---------------------------------------------------------------------

  /**
   * The paths whose validation fails when a user is saved with these raw
   * fields: each is trimmed first, a required string fails when empty,
   * then the path's own validator runs.
   */
  function SchemaErrors(name: string, email: string, password: string): (errs: set<string>)
    ensures errs <= {"name", "email", "password"}
    ensures "name" in errs <==> IsBlank(name)
    ensures "email" in errs <==> !ValidEmail(Trim(email))
    ensures "password" in errs <==> IsBlank(password)
  {
    var n, e, p := Trim(name), Trim(email), Trim(password);
    PasswordValidatorNeverRejects(p);
    (if n == "" then {"name"} else {})
    + (if e == "" || !ValidEmail(e) then {"email"} else {})
    + (if p == "" || !Passes(PasswordValidator(p)) then {"password"} else {})
  }

  /**
   * A new user document with the store-assigned `id`: the trimmed fields,
   * `address` '' and `type` 'user' by default, and an empty cart.
   */
  function NewUser(id: Id, name: string, email: string, password: string): (r: Result<User, set<string>>)
    ensures r.Ok? <==> !IsBlank(name) && ValidEmail(Trim(email)) && !IsBlank(password)
    ensures r.Ok? ==> r.value.address == "" && r.value.role == "user" && r.value.cart == []
    ensures r.Ok? ==> r.value.id == id && r.value.name == Trim(name) && r.value.email == Trim(email)
                      && r.value.password == Trim(password)
    ensures r.Err? ==> r.error != {}
  {
    var errs := SchemaErrors(name, email, password);
    if errs == {} then Ok(User(id, Trim(name), Trim(email), Trim(password), "", "user", []))
    else Err(errs)
  }
}
