/**
 * The add-operator dialog: the form checks, the body it sends to the `create-operator`
 * function (trimmed e-mail, password as typed, display name or the e-mail's local part), and
 * the reset after a successful call.
 */
module AddOperatorDialog {
  import opened Wrappers
  import opened Text
  import opened Store
  import opened CreateOperator

  const DefaultRole := "scanner"
  const MinPasswordLength := 6

  datatype Rejection = RequiredFields | PasswordTooShort

  /** The checks before any call: both e-mail and password must be non-blank, and then the
      password, as typed, must have at least 6 characters. */
  function Validate(email: string, password: string): Option<Rejection>
  {
    if Trim(email) == "" || Trim(password) == "" then Some(RequiredFields)
    else if |password| < MinPasswordLength then Some(PasswordTooShort)
    else None
  }

  /** The form is refused for a blank field first, and only then for a short password. */
  lemma ValidateMeaning(email: string, password: string)
    ensures Validate(email, password) == Some(RequiredFields) <==> IsBlank(email) || IsBlank(password)
    ensures Validate(email, password) == Some(PasswordTooShort)
        <==> !IsBlank(email) && !IsBlank(password) && |password| < MinPasswordLength
    ensures Validate(email, password).None?
        <==> !IsBlank(email) && !IsBlank(password) && |password| >= MinPasswordLength
  {
    TrimEmptyIffBlank(email);
    TrimEmptyIffBlank(password);
  }

  /** `displayName.trim() || email.split("@")[0]`: the trimmed display name, or the untrimmed
      e-mail's text before its first "@". */
  function SentDisplayName(email: string, displayName: string): string
  {
    if Trim(displayName) != "" then Trim(displayName) else Split(email, '@')[0]
  }

  /** The sent display name is the trimmed one when that is not empty, and otherwise the part
      of the e-mail before its first "@" (the whole e-mail when it has none). */
  lemma SentDisplayNameMeaning(email: string, displayName: string)
    ensures var r := SentDisplayName(email, displayName);
            (Trim(displayName) != "" ==> r == Trim(displayName))
            && (Trim(displayName) == "" ==> '@' !in r && r <= email && (|r| < |email| ==> email[|r|] == '@'))
            && (Trim(displayName) == "" && '@' !in email ==> r == email)
  {
    SplitFirst(email, '@');
    if Trim(displayName) == "" && '@' !in email {
      SplitNoSep(email, '@');
    }
  }

  /** The first piece of a split is the prefix before the first separator. */
  lemma {:induction false} SplitFirst(s: string, sep: char)
    ensures var p := Split(s, sep)[0]; p <= s && sep !in p && (|p| < |s| ==> s[|p|] == sep)
    decreases |s|
  {
    if s != [] && s[0] != sep {
      SplitFirst(s[1..], sep);
    }
  }

  /** The body sent to `create-operator`. */
  function InvokeBody(email: string, password: string, displayName: string, role: string): OperatorBody
  {
    OperatorBody(Some(Trim(email)), Some(password), Some(SentDisplayName(email, displayName)), Some(role))
  }

  /** A body from a form that passed the checks reaches the user creation when a display
      name was given or the e-mail does not start with "@". */
  lemma ValidFormPassesFieldCheck(email: string, password: string, displayName: string, role: string)
    requires Validate(email, password).None? && role != ""
    requires Trim(displayName) != "" || (email != [] && email[0] != '@')
    ensures !MissingField(InvokeBody(email, password, displayName, role))
  {
    ValidateMeaning(email, password);
    TrimEmptyIffBlank(email);
    SentDisplayNameMeaning(email, displayName);
    if Trim(displayName) == "" {
      SplitFirst(email, '@');
    }
  }

  /** An e-mail starting with "@" and no display name sends an empty display name, which the
      function refuses with 400 before creating any user. */
  lemma LeadingAtSendsEmptyName(rest: string, password: string, displayName: string, role: string)
    requires Trim(displayName) == ""
    ensures InvokeBody("@" + rest, password, displayName, role).displayName == Some("")
    ensures MissingField(InvokeBody("@" + rest, password, displayName, role))
  {
    assert ("@" + rest)[0] == '@';
  }

  class AddOperatorForm {
    var email: string
    var password: string
    var displayName: string
    var role: string
    var isLoading: bool
    var open: bool

    constructor (open: bool)
      ensures email == "" && password == "" && displayName == "" && role == DefaultRole
      ensures !isLoading && this.open == open
    {
      email := "";
      password := "";
      displayName := "";
      role := DefaultRole;
      isLoading := false;
      this.open := open;
    }

    /** `handleSubmit`: a rejected form sends nothing and changes nothing; otherwise the body
        is sent, and a success (no transport error, no `data.error`) resets the form to
        empty fields and the scanner role and closes the dialog, while a failure keeps both.
        Loading is off afterwards either way. */
    method HandleSubmit(reply: InvokeReply) returns (sent: Option<OperatorBody>, rejected: Option<Rejection>)
      modifies this`email, this`password, this`displayName, this`role, this`open, this`isLoading
      ensures rejected == Validate(old(email), old(password))
      ensures rejected.Some? ==> sent.None? && isLoading == old(isLoading)
      ensures rejected.Some? || InvokeFailed(reply) ==> email == old(email) && password == old(password)
      ensures rejected.Some? || InvokeFailed(reply) ==> displayName == old(displayName) && role == old(role)
      ensures rejected.Some? || InvokeFailed(reply) ==> open == old(open)
      ensures rejected.None? ==> sent == Some(InvokeBody(old(email), old(password), old(displayName), old(role))) && !isLoading
      ensures rejected.None? && !InvokeFailed(reply) ==>
                (email == "" && password == "" && displayName == "" && role == DefaultRole && !open)
    {
      rejected := Validate(email, password);
      sent := None;
      if rejected.None? {
        isLoading := true;
        sent := Some(InvokeBody(email, password, displayName, role));
        if !InvokeFailed(reply) {
          email, password, displayName, role := "", "", "", DefaultRole;
          open := false;
        }
        isLoading := false;
      }
    }
  }
}
