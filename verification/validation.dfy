/**
 * The form-validation helpers: the message shown for a control's errors, the
 * "show the error" test, and the e-mail pattern every invitation must match.
 */
module Validation {
  import opened Wrappers
  import opened Text

  /**
   * A form control as the helpers read it: the keys of its `errors` object
   * (`None` when `errors` is null), and its `invalid` and `touched` flags.
   */
  datatype Control = Control(errors: Option<set<string>>, invalid: bool, touched: bool)

  const RequiredMessage := "Este campo es requerido"
  const PatternMessage := "Email inválido"
  const NotRegisteredMessage := "Usuario no registrado"

  /**
   * `getFieldError`: no message for a missing control or one without errors;
   * otherwise the message of the first of `required`, `pattern`, `notRegistered`
   * present, and none for any other error.
   */
  function GetFieldError(control: Option<Control>): (r: Option<string>)
    ensures control.None? || control.value.errors.None? ==> r.None?
    ensures control.Some? && control.value.errors.Some? ==>
      var e := control.value.errors.value;
      && (r == Some(RequiredMessage) <==> "required" in e)
      && (r == Some(PatternMessage) <==> "required" !in e && "pattern" in e)
      && (r == Some(NotRegisteredMessage) <==> "required" !in e && "pattern" !in e && "notRegistered" in e)
      && (r.None? <==> "required" !in e && "pattern" !in e && "notRegistered" !in e)
  {
    if control.None? || control.value.errors.None? then None
    else
      var e := control.value.errors.value;
      if "required" in e then Some(RequiredMessage)
      else if "pattern" in e then Some(PatternMessage)
      else if "notRegistered" in e then Some(NotRegisteredMessage)
      else None
  }

  /** The error keys the helper knows, by precedence, with their messages. */
  const ErrorPrecedence: seq<(string, string)> :=
    [("required", RequiredMessage), ("pattern", PatternMessage), ("notRegistered", NotRegisteredMessage)]

  /** Reference reading: the message of the first entry of `order` whose key is present. */
  function FirstPresent(order: seq<(string, string)>, e: set<string>): Option<string> {
    if order == [] then None
    else if order[0].0 in e then Some(order[0].1)
    else FirstPresent(order[1..], e)
  }

  /** The helper is the precedence table read top to bottom. */
  lemma GetFieldErrorFollowsPrecedence(e: set<string>, invalid: bool, touched: bool)
    ensures GetFieldError(Some(Control(Some(e), invalid, touched))) == FirstPresent(ErrorPrecedence, e)
  {
    var order := ErrorPrecedence;
    var rest1, rest2 := order[1..], order[1..][1..];
    assert order[0] == ("required", RequiredMessage);
    assert rest1[0] == ("pattern", PatternMessage);
    assert rest2[0] == ("notRegistered", NotRegisteredMessage);
    assert rest2[1..] == [];
    assert FirstPresent(rest2, e) == if "notRegistered" in e then Some(NotRegisteredMessage) else None;
    assert FirstPresent(rest1, e) == if "pattern" in e then Some(PatternMessage) else FirstPresent(rest2, e);
    assert FirstPresent(order, e) == if "required" in e then Some(RequiredMessage) else FirstPresent(rest1, e);
  }

  /** Error keys the helper does not know never change its answer. */
  lemma OtherErrorsIgnored(e: set<string>, extra: set<string>, invalid: bool, touched: bool)
    requires "required" !in extra && "pattern" !in extra && "notRegistered" !in extra
    ensures GetFieldError(Some(Control(Some(e + extra), invalid, touched)))
         == GetFieldError(Some(Control(Some(e), invalid, touched)))
  {
  }

  /** `fieldHasErros`: the error is shown only for a control that is invalid and touched. */
  function FieldHasErrors(control: Option<Control>): (r: bool)
    ensures r ==> control.Some?
    ensures control.Some? ==> (r <==> control.value.invalid && control.value.touched)
  {
    match control
    case None => false
    case Some(c) => c.invalid && c.touched
  }

  // ---------------------------------------------------------------------------
  // The e-mail pattern ^[a-z0-9._%+-]+@[a-z0-9.-]+\.[a-z]{2,4}$
  // ---------------------------------------------------------------------------

  predicate LocalChar(c: char) {
    'a' <= c <= 'z' || '0' <= c <= '9' || c == '.' || c == '_' || c == '%' || c == '+' || c == '-'
  }

  predicate DomainChar(c: char) {
    'a' <= c <= 'z' || '0' <= c <= '9' || c == '.' || c == '-'
  }

  predicate LocalPart(s: string) {
    |s| > 0 && forall i :: 0 <= i < |s| ==> LocalChar(s[i])
  }

  predicate DomainPart(s: string) {
    |s| > 0 && forall i :: 0 <= i < |s| ==> DomainChar(s[i])
  }

  predicate TopLevelPart(s: string) {
    2 <= |s| <= 4 && forall i :: 0 <= i < |s| ==> IsAsciiLower(s[i])
  }

  /** `s` splits at `at` and `dot` into local part, `@`, domain, `.`, top-level part. */
  predicate EmailShape(s: string, at: int, dot: int) {
    && 0 < at < dot < |s|
    && s[at] == '@' && s[dot] == '.'
    && LocalPart(s[..at]) && DomainPart(s[at + 1..dot]) && TopLevelPart(s[dot + 1..])
  }

  /** What the anchored pattern accepts: some split of the whole string fits it. */
  ghost predicate MatchesEmailPattern(s: string) {
    exists at, dot :: EmailShape(s, at, dot)
  }

  /** The position of the last `c` in `s`, or -1. */
  function LastIndexOf(s: string, c: char): (r: int)
    ensures -1 <= r < |s|
    ensures r >= 0 ==> s[r] == c
    ensures forall k :: r < k < |s| ==> s[k] != c
  {
    if s == [] then -1
    else if s[|s| - 1] == c then |s| - 1
    else LastIndexOf(s[..|s| - 1], c)
  }

  /**
   * The check without search: the local part cannot hold an `@` and the top-level
   * part cannot hold a `.`, so only the first `@` and the last `.` can split the string.
   */
  function IsEmail(s: string): bool {
    EmailShape(s, |BeforeFirst(s, '@')|, LastIndexOf(s, '.'))
  }

  lemma EmailSplitIsUnique(s: string, at: int, dot: int)
    requires EmailShape(s, at, dot)
    ensures at == |BeforeFirst(s, '@')| && dot == LastIndexOf(s, '.')
  {
  }

  /** The direct check accepts exactly the strings the pattern matches. */
  lemma IsEmailMatchesPattern(s: string)
    ensures IsEmail(s) <==> MatchesEmailPattern(s)
  {
    if MatchesEmailPattern(s) {
      var at, dot :| EmailShape(s, at, dot);
      EmailSplitIsUnique(s, at, dot);
    }
  }

  /** The pattern rejects the empty string and anything without an `@`. */
  lemma EmailNeedsAt(s: string)
    requires MatchesEmailPattern(s)
    ensures '@' in s && |s| >= 5
  {
    var at, dot :| EmailShape(s, at, dot);
    assert s[at] == '@';
  }
}
