/** The checks the account web application makes on its forms before it
    touches the database (account/account/util.py): the password rules of
    `check_password` and the validation that `create_account` runs before
    it looks the user name up. The database queries, cookies and e-mail
    are not modelled. */
module Accounts {
  import opened Base

  // ---------------------------------------------------------------------
  // check_password
  // ---------------------------------------------------------------------

  const MinPasswordLength := 8
  const MaxPasswordLength := 25

  const PasswordLengthError := "Passwords should be between 8 and 25 characters long."
  const PasswordMismatchError := "Password check failed. The two passwords are not identical."

  /** `check_password(password, passwordcheck)`: `None` when the password is
      acceptable, otherwise the message to show. The length is checked
      before the two entries are compared. */
  function CheckPassword(password: string, passwordcheck: string): (r: Option<string>)
    ensures r.None? <==> MinPasswordLength <= |password| <= MaxPasswordLength && password == passwordcheck
    ensures r == Some(PasswordLengthError) <==> |password| < MinPasswordLength || |password| > MaxPasswordLength
    ensures r == Some(PasswordMismatchError) <==>
            MinPasswordLength <= |password| <= MaxPasswordLength && password != passwordcheck
  {
    if |password| < MinPasswordLength || |password| > MaxPasswordLength then Some(PasswordLengthError)
    else if password != passwordcheck then Some(PasswordMismatchError)
    else None
  }

  // ---------------------------------------------------------------------
  // create_account
  // ---------------------------------------------------------------------

  /** The fields of the sign-up form. `academic` is a check box, absent
      from the form when it is not ticked. */
  datatype SignUpForm = SignUpForm(
    academic: Option<string>,
    userName: string,
    password: string,
    passwordcheck: string,
    firstName: string,
    lastName: string,
    institution: string,
    email: string,
    modellerKey: string)

  const NotAcademicError := "The Sali Lab servers are only open for the academic community."
  const MissingFieldError := "Please fill out all required form fields."
  const TooLongError := "Form field too long."

  const MaxUserNameLength := 25
  const MaxFieldLength := 40

  /** The fields that must not be empty. */
  function RequiredFields(f: SignUpForm): seq<string> {
    [f.userName, f.firstName, f.lastName, f.institution, f.email]
  }

  /** The fields, other than the user name, limited to 40 characters. */
  function LimitedFields(f: SignUpForm): seq<string> {
    [f.firstName, f.lastName, f.institution, f.email, f.modellerKey]
  }

  /** `f.get('academic')` is true in Python's sense: present and not empty. */
  predicate Ticked(box: Option<string>) {
    box.Some? && box.value != ""
  }

  predicate AllFilled(fields: seq<string>) {
    forall i :: 0 <= i < |fields| ==> fields[i] != ""
  }

  predicate AnyLonger(fields: seq<string>, limit: nat) {
    exists i :: 0 <= i < |fields| && |fields[i]| > limit
  }

  /** The validation at the start of `create_account`: the message it
      returns, or `None` when the form passes and the account is looked up
      and inserted. */
  function ValidateSignUp(f: SignUpForm): Option<string> {
    if !Ticked(f.academic) then Some(NotAcademicError)
    else
      var pw := CheckPassword(f.password, f.passwordcheck);
      if pw.Some? then pw
      else if !AllFilled(RequiredFields(f)) then Some(MissingFieldError)
      else if |f.userName| > MaxUserNameLength || AnyLonger(LimitedFields(f), MaxFieldLength) then Some(TooLongError)
      else None
  }

  lemma RequiredFilled(f: SignUpForm)
    ensures AllFilled(RequiredFields(f)) <==>
            f.userName != "" && f.firstName != "" && f.lastName != "" && f.institution != "" && f.email != ""
  {
    var req := RequiredFields(f);
    assert req[0] == f.userName && req[1] == f.firstName && req[2] == f.lastName;
    assert req[3] == f.institution && req[4] == f.email;
  }

  lemma LimitedLonger(f: SignUpForm)
    ensures AnyLonger(LimitedFields(f), MaxFieldLength) <==>
            |f.firstName| > MaxFieldLength || |f.lastName| > MaxFieldLength ||
            |f.institution| > MaxFieldLength || |f.email| > MaxFieldLength || |f.modellerKey| > MaxFieldLength
  {
    var lim := LimitedFields(f);
    assert lim[0] == f.firstName && lim[1] == f.lastName && lim[2] == f.institution;
    assert lim[3] == f.email && lim[4] == f.modellerKey;
  }

  /** The form passes exactly when the academic box is ticked, the password
      is acceptable, no required field is empty, the user name has at most
      25 characters and every other field at most 40. */
  lemma ValidateSignUpIff(f: SignUpForm)
    ensures ValidateSignUp(f).None? <==>
            Ticked(f.academic) &&
            MinPasswordLength <= |f.password| <= MaxPasswordLength && f.password == f.passwordcheck &&
            f.userName != "" && f.firstName != "" && f.lastName != "" && f.institution != "" && f.email != "" &&
            |f.userName| <= MaxUserNameLength &&
            |f.firstName| <= MaxFieldLength && |f.lastName| <= MaxFieldLength &&
            |f.institution| <= MaxFieldLength && |f.email| <= MaxFieldLength &&
            |f.modellerKey| <= MaxFieldLength
  {
    RequiredFilled(f);
    LimitedLonger(f);
  }

  /** Which message a failing form gets, in the order of the checks: an
      unticked academic box before everything; then the password's own
      message; then an empty required field; then a field that is too
      long. */
  lemma ValidateSignUpOrder(f: SignUpForm)
    ensures !Ticked(f.academic) ==> ValidateSignUp(f) == Some(NotAcademicError)
    ensures Ticked(f.academic) && CheckPassword(f.password, f.passwordcheck).Some? ==>
            ValidateSignUp(f) == CheckPassword(f.password, f.passwordcheck)
    ensures Ticked(f.academic) && CheckPassword(f.password, f.passwordcheck).None? &&
            (f.userName == "" || f.firstName == "" || f.lastName == "" || f.institution == "" || f.email == "") ==>
            ValidateSignUp(f) == Some(MissingFieldError)
    ensures Ticked(f.academic) && CheckPassword(f.password, f.passwordcheck).None? &&
            f.userName != "" && f.firstName != "" && f.lastName != "" && f.institution != "" && f.email != "" &&
            (|f.userName| > MaxUserNameLength || |f.modellerKey| > MaxFieldLength ||
             |f.firstName| > MaxFieldLength || |f.lastName| > MaxFieldLength ||
             |f.institution| > MaxFieldLength || |f.email| > MaxFieldLength) ==>
            ValidateSignUp(f) == Some(TooLongError)
  {
    RequiredFilled(f);
    LimitedLonger(f);
  }
}
