/**
 * register.component.ts: the account creation page. Its form has four
 * required controls; the password must also be 6 to 20 characters and the
 * email look like an address. A group validator compares the password
 * with its confirmation and writes `passwordMismatch` over the
 * confirmation's errors. On submit a valid form sends name, email and
 * password to the auth service and shows its answer; an invalid one shows
 * every field's error.
 */
module Register {
  import opened Common
  import opened Forms
  import opened AuthService

  const UsernameValidators: seq<Validator> := [Required]
  const EmailValidators: seq<Validator> := [Required, Email]
  const PasswordValidators: seq<Validator> := [Required, MinLength(6), MaxLength(20)]
  const ConfirmValidators: seq<Validator> := [Required]

  const Mismatch := "passwordMismatch"
  const UnknownError := "Une erreur inconnue est survenue lors de l'inscription."
  const FixErrors := "Veuillez corriger les erreurs du formulaire."

  datatype Field = Username | EmailAddress | Password | ConfirmPassword

  /** The control names of the form group. */
  function FieldNamed(name: string): (r: Option<Field>)
    ensures r == Some(Username) <==> name == "username"
    ensures r == Some(EmailAddress) <==> name == "email"
    ensures r == Some(Password) <==> name == "password"
    ensures r == Some(ConfirmPassword) <==> name == "confirmPassword"
  {
    if name == "username" then Some(Username)
    else if name == "email" then Some(EmailAddress)
    else if name == "password" then Some(Password)
    else if name == "confirmPassword" then Some(ConfirmPassword)
    else None
  }

  /** The state of `registerForm`: its four controls and the group's own `passwordMismatch` error. */
  datatype RegisterForm = RegisterForm(
    username: Control, email: Control, password: Control, confirmPassword: Control, mismatch: bool)

  function ControlOf(f: RegisterForm, field: Field): Control {
    match field
    case Username => f.username
    case EmailAddress => f.email
    case Password => f.password
    case ConfirmPassword => f.confirmPassword
  }

  /**
   * The group validator: different values put `passwordMismatch`, and
   * only it, on the confirmation and on the group; equal values clear the
   * group, and clear every error of a confirmation that had the mismatch.
   * Nothing else in the form changes.
   */
  function PasswordMatch(f: RegisterForm): (r: RegisterForm)
    ensures r == f.(confirmPassword := f.confirmPassword.(errors := r.confirmPassword.errors), mismatch := r.mismatch)
    ensures r.mismatch <==> f.password.value != f.confirmPassword.value
    ensures r.mismatch ==> r.confirmPassword.errors == {Mismatch}
    ensures !r.mismatch ==> r.confirmPassword.errors == (if Mismatch in f.confirmPassword.errors then {} else f.confirmPassword.errors)
  {
    if f.password.value != f.confirmPassword.value then
      f.(confirmPassword := f.confirmPassword.(errors := {Mismatch}), mismatch := true)
    else if Mismatch in f.confirmPassword.errors then
      f.(confirmPassword := f.confirmPassword.(errors := {}), mismatch := false)
    else
      f.(mismatch := false)
  }

  /**
   * What every reachable form satisfies: three controls carry exactly
   * their validators' errors, the group flags a mismatch exactly when the
   * two passwords differ, and the confirmation then carries only that
   * error; otherwise it carries at most its own validator's error (none,
   * when a change of password cleared the mismatch).
   */
  ghost predicate WellFormed(f: RegisterForm) {
    && f.username.errors == Errors(UsernameValidators, f.username.value)
    && f.email.errors == Errors(EmailValidators, f.email.value)
    && f.password.errors == Errors(PasswordValidators, f.password.value)
    && (f.mismatch <==> f.password.value != f.confirmPassword.value)
    && (f.mismatch ==> f.confirmPassword.errors == {Mismatch})
    && (!f.mismatch ==> f.confirmPassword.errors <= Errors(ConfirmValidators, f.confirmPassword.value))
  }

  /** `registerForm.valid`: no control and not the group has an error. */
  predicate FormValid(f: RegisterForm) {
    && !Invalid(f.username) && !Invalid(f.email)
    && !Invalid(f.password) && !Invalid(f.confirmPassword)
    && !f.mismatch
  }

  /** The group as `ngOnInit` builds it: every control holds '', then the group validator runs. */
  function InitialForm(): (r: RegisterForm)
    ensures WellFormed(r) && !FormValid(r)
  {
    var blank := Some("");
    var r := PasswordMatch(RegisterForm(
      Control(blank, Errors(UsernameValidators, blank), false, false),
      Control(blank, Errors(EmailValidators, blank), false, false),
      Control(blank, Errors(PasswordValidators, blank), false, false),
      Control(blank, Errors(ConfirmValidators, blank), false, false),
      false));
    RequiredFails(UsernameValidators, blank);
    r
  }

  /** The user types `value` into `field`; that control is validated, then the group validator runs. */
  function Entered(f: RegisterForm, field: Field, value: string): (r: RegisterForm)
    ensures ControlOf(r, field).value == Some(value) && ControlOf(r, field).dirty
  {
    PasswordMatch(match field
      case Username => f.(username := Typed(f.username, UsernameValidators, value))
      case EmailAddress => f.(email := Typed(f.email, EmailValidators, value))
      case Password => f.(password := Typed(f.password, PasswordValidators, value))
      case ConfirmPassword => f.(confirmPassword := Typed(f.confirmPassword, ConfirmValidators, value)))
  }

  /** `registerForm.reset()`: every control null, pristine and untouched, then the group validator. */
  function ResetForm(): (r: RegisterForm)
    ensures WellFormed(r) && !FormValid(r)
    ensures forall field :: !ShowsError(ControlOf(r, field))
  {
    var r := PasswordMatch(RegisterForm(
      Reset(UsernameValidators), Reset(EmailValidators),
      Reset(PasswordValidators), Reset(ConfirmValidators), false));
    RequiredFails(UsernameValidators, None);
    r
  }

  /** `registerForm.markAllAsTouched()` */
  function AllTouched(f: RegisterForm): (r: RegisterForm)
    ensures forall field :: ControlOf(r, field) == Touch(ControlOf(f, field))
    ensures r.mismatch == f.mismatch
  {
    RegisterForm(Touch(f.username), Touch(f.email), Touch(f.password), Touch(f.confirmPassword), f.mismatch)
  }

  /** `{ username, email, password }` of the form's value. */
  function Submitted(f: RegisterForm): (r: UserRegister)
    ensures f.username.value.Some? ==> r.username == f.username.value.value
    ensures f.email.value.Some? ==> r.email == f.email.value.value
    ensures f.password.value.Some? ==> r.password == f.password.value.value
  {
    UserRegister(f.username.value.GetOr(""), f.email.value.GetOr(""), f.password.value.GetOr(""))
  }

  /** The success banner names the account's user and address. */
  function Welcome(response: AuthResponse): string
  {
    "Compte créé pour " + response.username + " (" + response.email + ") ! Vous pouvez maintenant vous connecter."
  }

  /** `error.message || ...`: a missing or empty message gives the generic text. */
  function ErrorText(e: Error): (r: string)
    ensures e.message.Some? && e.message.value != "" ==> r == e.message.value
    ensures e.message.None? || e.message.value == "" ==> r == UnknownError
  {
    match e.message
    case Some(m) => if m != "" then m else UnknownError
    case None => UnknownError
  }

  /** A required control with an empty value reports an error. */
  lemma RequiredFails(vs: seq<Validator>, value: Option<string>)
    requires |vs| > 0 && vs[0] == Required && IsEmpty(value)
    ensures Errors(vs, value) != {}
  {
    assert Check(vs[0], value).Some?;
  }

  /** The password control is valid exactly for 6 to 20 characters. */
  lemma PasswordRule(v: string)
    ensures Errors(PasswordValidators, Some(v)) == {} <==> 6 <= |v| <= 20
  {
    if Errors(PasswordValidators, Some(v)) == {} {
      assert Check(PasswordValidators[0], Some(v)).None?;
      assert Check(PasswordValidators[1], Some(v)).None?;
      assert Check(PasswordValidators[2], Some(v)).None?;
    }
  }

  /**
   * A valid form holds a non-empty name, an address-shaped email, a
   * password of 6 to 20 characters, and the same password twice.
   */
  lemma ValidFormContents(f: RegisterForm)
    requires WellFormed(f) && FormValid(f)
    ensures f.username.value.Some? && f.username.value.value != ""
    ensures f.email.value.Some? && EmailShaped(f.email.value.value)
    ensures f.password.value.Some? && 6 <= |f.password.value.value| <= 20
    ensures f.confirmPassword.value == f.password.value
  {
    RequiredHolds(UsernameValidators, f.username.value);
    RequiredHolds(EmailValidators, f.email.value);
    assert Check(EmailValidators[1], f.email.value).None?;
    RequiredHolds(PasswordValidators, f.password.value);
    PasswordRule(f.password.value.value);
  }

  /** Typing into any field keeps the form well formed. */
  lemma EnteredKeepsWellFormed(f: RegisterForm, field: Field, value: string)
    requires WellFormed(f)
    ensures WellFormed(Entered(f, field, value))
  {
  }

  /** Running the group validator a second time changes nothing. */
  lemma PasswordMatchIdempotent(f: RegisterForm)
    ensures PasswordMatch(PasswordMatch(f)) == PasswordMatch(f)
  {
  }

  /** A confirmation that differs from the password shows the mismatch once left or changed. */
  lemma MismatchShows(f: RegisterForm, value: string)
    requires f.password.value != Some(value)
    ensures var r := Entered(f, ConfirmPassword, value);
            r.mismatch && !FormValid(r) && ShowsError(r.confirmPassword)
            && r.confirmPassword.errors == {Mismatch}
  {
  }

  class RegisterComponent {
    var registerForm: RegisterForm
    var errorMessage: Option<string>
    var successMessage: Option<string>

    ghost predicate Valid()
      reads this
    {
      WellFormed(registerForm)
    }

    /** Construction followed by `ngOnInit`: the blank form, and no message. */
    constructor ()
      ensures Valid() && registerForm == InitialForm()
      ensures errorMessage == None && successMessage == None
    {
      registerForm := InitialForm();
      errorMessage := None;
      successMessage := None;
    }

    /** `isFieldInvalid`: a known field that shows its error; false for any other name. */
    function IsFieldInvalid(field: string): (r: bool)
      reads this
      ensures FieldNamed(field).None? ==> !r
      ensures FieldNamed(field).Some? ==> (r <==> ShowsError(ControlOf(registerForm, FieldNamed(field).value)))
    {
      match FieldNamed(field)
      case None => false
      case Some(fd) => ShowsError(ControlOf(registerForm, fd))
    }

    /**
     * `onSubmit`, with `random` the draw behind the simulated id. Both
     * messages are cleared first. A valid form sends name, email and
     * password: a failure shows the error's message, a success the welcome
     * text and resets the form. An invalid form shows the correction
     * message and touches every field.
     */
    method OnSubmit(random: real)
      requires Valid() && 0.0 <= random < 1.0
      modifies this
      ensures Valid()
      ensures !FormValid(old(registerForm)) ==>
                && errorMessage == Some(FixErrors) && successMessage == None
                && registerForm == AllTouched(old(registerForm))
      ensures FormValid(old(registerForm)) ==>
                var sent := Submitted(old(registerForm));
                var answer := Register(sent, random);
                && (answer.Threw? ==> && errorMessage == Some(ErrorText(answer.error)) && successMessage == None
                                      && registerForm == old(registerForm))
                && (answer.Done? ==> && errorMessage == None && successMessage == Some(Welcome(answer.value))
                                     && registerForm == ResetForm())
      ensures FormValid(old(registerForm)) && old(registerForm).email.value == Some(TakenEmail) ==>
                errorMessage == Some(EmailTaken) && successMessage == None
    {
      errorMessage := None;
      successMessage := None;
      if FormValid(registerForm) {
        var userData := Submitted(registerForm);
        var answer := Register(userData, random);
        match answer {
          case Threw(e) =>
            errorMessage := Some(ErrorText(e));
          case Done(response) =>
            successMessage := Some(Welcome(response));
            registerForm := ResetForm();
        }
      } else {
        errorMessage := Some(FixErrors);
        registerForm := AllTouched(registerForm);
      }
    }
  }
}
