/** The sign-in / registration form: the client-side length check on the
    credentials and the error text it shows. */
module AuthForm {
  import opened Wrappers
  import opened Entities
  import opened Strings

  /** The text shown when the credentials are too short. */
  const ValidationMessage: string :=
    "Username must be \U{2265} 3 chars and password \U{2265} 6 chars."

  /** The length guard of `handleSubmit`: the username has at least 3 and the
      password at least 6 UTF-16 code units. */
  predicate LengthsAcceptable(c: Credentials): (ok: bool)
    ensures |c.username| >= 3 && |c.password| >= 6 ==> ok
    ensures ok ==> |c.username| >= 2 && |c.password| >= 3
  {
    !(Utf16Length(c.username) < 3 || Utf16Length(c.password) < 6)
  }

  /** `err.message || 'Error'`: the shown text is never empty. */
  function ErrorText(message: string): (t: string)
    ensures t != ""
    ensures message != "" ==> t == message
  {
    if message != "" then message else "Error"
  }

  /** The `name` attribute of each input. */
  datatype CredentialField = Username | Password

  /** The form's state: the two inputs and the error line. */
  class CredentialsForm {
    var username: string
    var password: string
    var error: string

    constructor ()
      ensures username == "" && password == "" && error == ""
    {
      username, password, error := "", "", "";
    }

    /** The credentials as currently entered. */
    function Entered(): Credentials
      reads this
    {
      Credentials(username, password)
    }

    /** `handleChange`: the named input takes the typed value, the other keeps
        its value. */
    method HandleChange(name: CredentialField, value: string)
      modifies this`username, this`password
      ensures name == Username ==> username == value && password == old(password)
      ensures name == Password ==> password == value && username == old(username)
    {
      match name
      case Username => username := value;
      case Password => password := value;
    }

    /** `handleSubmit`: the error is reset; credentials failing the length
        guard are not submitted and show `ValidationMessage`; otherwise they
        are passed to the submit callback, whose outcome is `submitted`, and
        a rejection shows its message (or "Error" when that is empty). */
    method HandleSubmit(submitted: Outcome<()>) returns (passed: Option<Credentials>)
      modifies this`error
      ensures passed == (if LengthsAcceptable(Entered()) then Some(Entered()) else None)
      ensures passed.None? ==> error == ValidationMessage
      ensures passed.Some? && submitted.Fail? ==> error == ErrorText(submitted.message)
      ensures passed.Some? && submitted.Ok? ==> error == ""
    {
      error := "";
      if Utf16Length(username) < 3 || Utf16Length(password) < 6 {
        error := ValidationMessage;
        passed := None;
        return;
      }
      passed := Some(Credentials(username, password));
      if submitted.Fail? {
        error := ErrorText(submitted.message);
      }
    }
  }

  /** For text within the Basic Multilingual Plane the guard is a plain
      character count: at least 3 for the username and 6 for the password. */
  lemma AcceptableInBmp(c: Credentials)
    requires forall k :: 0 <= k < |c.username| ==> c.username[k] as int < 0x10000
    requires forall k :: 0 <= k < |c.password| ==> c.password[k] as int < 0x10000
    ensures LengthsAcceptable(c) <==> |c.username| >= 3 && |c.password| >= 6
  {
    Utf16LengthInBmp(c.username);
    Utf16LengthInBmp(c.password);
  }

  /** Enough characters always pass; a character outside the Basic
      Multilingual Plane counts twice, so two characters can pass as a
      username. */
  lemma CountsCodeUnits()
    ensures forall c: Credentials :: |c.username| >= 3 && |c.password| >= 6 ==> LengthsAcceptable(c)
    ensures LengthsAcceptable(Credentials("a\U{1F600}", "secret"))
    ensures !LengthsAcceptable(Credentials("ab", "secret1"))
  {
  }
}
