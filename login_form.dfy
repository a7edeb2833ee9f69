/**
 * The login form of the frontend: the form's two fields and their error
 * messages as React state, `validateForm`, which fills a fresh error record
 * step by step, `handleChange`, and `handleSubmit`, which only calls `login`
 * on a valid form. The call to `login` is an outcome of the submission.
 */
module LoginForm {
  import opened Wrappers
  import opened Strings

  const EmailRequired: string := "Email is required"
  const EmailInvalid: string := "Please enter a valid email address"
  const PasswordRequired: string := "Password is required"
  const PasswordTooShort: string := "Password must be at least 6 characters"

  /** The two fields of the form, in both `formData` and `errors`. */
  datatype FieldName = Email | Password

  /** `s[lo..hi]` holds no whitespace. */
  predicate NoSpaceIn(s: string, lo: int, hi: int)
    requires 0 <= lo <= hi <= |s|
  {
    forall k :: lo <= k < hi ==> !IsSpace(s[k])
  }

  /**
   * `/\S+@\S+\.\S+/.test(s)`, which is not anchored: somewhere in `s` a
   * non-space character, an `@`, at least one non-space character, a `.`,
   * and a non-space character follow each other.
   */
  predicate LooksLikeEmail(s: string) {
    exists i, j :: 0 < i < |s| && i + 1 < j < |s| - 1 && !IsSpace(s[i - 1]) && s[i] == '@'
                   && NoSpaceIn(s, i + 1, j) && s[j] == '.' && !IsSpace(s[j + 1])
  }

  /** The message `validateForm` leaves in `newErrors.email`. */
  function EmailError(email: string): (e: string)
    ensures e == [] <==> email != [] && LooksLikeEmail(email)
    ensures email == [] ==> e == EmailRequired
    ensures email != [] && !LooksLikeEmail(email) ==> e == EmailInvalid
  {
    if email == [] then EmailRequired
    else if !LooksLikeEmail(email) then EmailInvalid
    else []
  }

  /** The message `validateForm` leaves in `newErrors.password`. */
  function PasswordError(password: string): (e: string)
    ensures e == [] <==> |password| >= 6
    ensures password == [] ==> e == PasswordRequired
    ensures 0 < |password| < 6 ==> e == PasswordTooShort
  {
    if password == [] then PasswordRequired
    else if |password| < 6 then PasswordTooShort
    else []
  }

  /** The regex accepts an ordinary address. */
  lemma EmailAccepted()
    ensures LooksLikeEmail("a@b.c")
  {
    var s := "a@b.c";
    assert NoSpaceIn(s, 2, 3);
    assert s[0] == 'a' && s[1] == '@' && s[3] == '.' && s[4] == 'c';
  }

  /** The regex refuses an address without a dot after the `@`. */
  lemma EmailWithoutDotRefused()
    ensures !LooksLikeEmail("a@bc")
  {
    var t := "a@bc";
    assert t[0] == 'a' && t[1] == '@' && t[2] == 'b' && t[3] == 'c';
  }

  /** The regex refuses an address with nothing before the `@`. */
  lemma EmailWithoutLocalPartRefused()
    ensures !LooksLikeEmail("@b.c")
  {
    var u := "@b.c";
    assert u[0] == '@' && u[1] == 'b' && u[2] == '.' && u[3] == 'c';
  }

  /** The `formData` and `errors` state of the component. */
  class Form {
    var email: string
    var password: string
    var emailError: string
    var passwordError: string

    constructor ()
      ensures email == [] && password == [] && emailError == [] && passwordError == []
    {
      email, password, emailError, passwordError := [], [], [], [];
    }

    /**
     * `validateForm`: the errors become exactly those of the current fields,
     * the fields are untouched, and the result is true exactly when both
     * errors are empty, that is when the email is present and well formed and
     * the password has at least six characters.
     */
    method ValidateForm() returns (isValid: bool)
      modifies this
      ensures email == old(email) && password == old(password)
      ensures emailError == EmailError(email) && passwordError == PasswordError(password)
      ensures isValid <==> emailError == [] && passwordError == []
      ensures isValid <==> email != [] && LooksLikeEmail(email) && |password| >= 6
    {
      var newEmail: string := [];
      var newPassword: string := [];
      isValid := true;
      if email == [] {
        newEmail := EmailRequired;
        isValid := false;
      } else if !LooksLikeEmail(email) {
        newEmail := EmailInvalid;
        isValid := false;
      }
      if password == [] {
        newPassword := PasswordRequired;
        isValid := false;
      } else if |password| < 6 {
        newPassword := PasswordTooShort;
        isValid := false;
      }
      emailError, passwordError := newEmail, newPassword;
    }

    /** `handleChange`: the named field takes the typed value and its error is cleared; the other field and its error stay. */
    method HandleChange(name: FieldName, value: string)
      modifies this
      ensures name == Email ==> email == value && emailError == [] && password == old(password) && passwordError == old(passwordError)
      ensures name == Password ==> password == value && passwordError == [] && email == old(email) && emailError == old(emailError)
    {
      match name
      case Email =>
        email := value;
        if emailError != [] {
          emailError := [];
        }
      case Password =>
        password := value;
        if passwordError != [] {
          passwordError := [];
        }
    }

    /**
     * `handleSubmit`: the form is validated and `login` is called with the
     * current email and password exactly when it is valid; `attempt` is that
     * call, or nothing when the submission stops early.
     */
    method HandleSubmit() returns (attempt: Option<(string, string)>)
      modifies this
      ensures email == old(email) && password == old(password)
      ensures emailError == EmailError(email) && passwordError == PasswordError(password)
      ensures attempt.Some? <==> EmailError(email) == [] && PasswordError(password) == []
      ensures attempt.Some? ==> attempt.value == (email, password)
    {
      var valid := ValidateForm();
      if !valid {
        return None;
      }
      attempt := Some((email, password));
    }
  }
}
