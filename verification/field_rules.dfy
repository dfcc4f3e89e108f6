/**
  The field checks shared by the sign-in form and the profile form: a
  required field is one whose trimmed value is empty, and an email must
  match the pattern `\S+@\S+\.\S+` somewhere in its text.
 */
module FieldRules {

  import opened Optional
  import opened Text

  const EmailRequired: string := "Email is required"
  const EmailInvalid: string := "Email is invalid"
  const NameRequired: string := "Name is required"

  /** A form's `errors` object: field name to message. */
  type ErrorMap = map<string, string>

  /** `errors[key]` is truthy: the message is present and not empty. */
  predicate Shown(errors: ErrorMap, key: string) {
    key in errors && errors[key] != ""
  }

  /** `!value.trim()` */
  predicate Blank(value: string) {
    Trim(value) == ""
  }

  /**
    The pattern matches with its `@` at `at` and its `.` at `dot`: a
    non-space character before the `@`, only non-space characters (at least
    one) between the two, and a non-space character after the `.`.
   */
  predicate EmailAt(s: string, at: int, dot: int) {
    1 <= at && at + 2 <= dot && dot + 1 < |s|
    && s[at] == '@' && s[dot] == '.' && !IsSpace(s[at - 1]) && !IsSpace(s[dot + 1])
    && forall k :: at < k < dot ==> !IsSpace(s[k])
  }

  /** `/\S+@\S+\.\S+/.test(s)`: the pattern is not anchored, so any match will do. */
  predicate EmailLike(s: string) {
    exists at, dot :: 0 <= at < |s| && 0 <= dot < |s| && EmailAt(s, at, dot)
  }

  /**
    A left-to-right scan deciding the pattern: for each `@` preceded by a
    non-space character, follow the run of non-space characters after it
    looking for a `.` that has a non-space character after it.
   */
  method EmailTest(s: string) returns (matched: bool)
    ensures matched <==> EmailLike(s)
  {
    var at := 1;
    while at < |s|
      invariant 1 <= at
      invariant forall a, d :: 1 <= a < at && 0 <= d < |s| ==> !EmailAt(s, a, d)
    {
      if s[at] == '@' && !IsSpace(s[at - 1]) {
        var dot := at + 1;
        while dot < |s| && !IsSpace(s[dot])
          invariant at + 1 <= dot <= |s|
          invariant forall k :: at < k < dot ==> !IsSpace(s[k])
          invariant forall d :: 0 <= d < dot ==> !EmailAt(s, at, d)
        {
          if dot >= at + 2 && s[dot] == '.' && dot + 1 < |s| && !IsSpace(s[dot + 1]) {
            assert EmailAt(s, at, dot);
            return true;
          }
          dot := dot + 1;
        }
      }
      at := at + 1;
    }
    return false;
  }

  /** "a@b.co" has the shape of an address. */
  lemma ShortAddressAccepted()
    ensures EmailLike("a@b.co")
  {
    assert EmailAt("a@b.co", 1, 3);
  }

  /** "not-an-email" has no `@`, so it is rejected. */
  lemma NoAtRejected()
    ensures !EmailLike("not-an-email")
  {
    var s := "not-an-email";
    assert forall k :: 0 <= k < |s| ==> s[k] != '@';
  }

  /** The email check: required first, then the pattern. */
  function EmailError(email: string): (e: Option<string>)
    ensures Blank(email) ==> e == Some(EmailRequired)
    ensures !Blank(email) ==> (e.Some? <==> !EmailLike(email)) && (e.Some? ==> e.value == EmailInvalid)
  {
    if Blank(email) then Some(EmailRequired)
    else if !EmailLike(email) then Some(EmailInvalid)
    else None
  }

  /** An accepted email has at least five characters, one `@` and one `.` among them. */
  lemma AcceptedEmailShape(email: string)
    requires EmailError(email).None?
    ensures |email| >= 5 && '@' in email && '.' in email
  {
    var at, dot :| 0 <= at < |email| && 0 <= dot < |email| && EmailAt(email, at, dot);
    assert email[at] == '@' && email[dot] == '.';
  }
}
