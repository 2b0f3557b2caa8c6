/**
 * The part of Angular's reactive forms that the form and register pages
 * rely on. A control holds a text value (null once reset), the errors its
 * validators report (or that a group validator wrote over them), and
 * whether the user has changed it (dirty) or left it (touched). The
 * validators are the built-in `required`, `minLength`, `maxLength` and
 * `email`; like Angular's, the last three say nothing about an empty value.
 */
module Forms {
  import opened Common

  datatype Validator = Required | MinLength(min: nat) | MaxLength(max: nat) | Email

  datatype Control = Control(value: Option<string>, errors: set<string>, dirty: bool, touched: bool)

  /** `control.invalid`: some validator or `setErrors` left an error. */
  predicate Invalid(c: Control) {
    c.errors != {}
  }

  /**
   * `invalid && (dirty || touched)`: the test both pages use to decide
   * whether a field shows its error.
   */
  predicate ShowsError(c: Control) {
    Invalid(c) && (c.dirty || c.touched)
  }

  /** Null or the empty string. */
  predicate IsEmpty(value: Option<string>) {
    value.None? || value.value == ""
  }

  /**
   * Stands in for Angular's email pattern: a local part, an '@' and a
   * domain, none of them empty.
   */
  predicate EmailShaped(s: string) {
    exists i :: 0 < i < |s| - 1 && s[i] == '@'
  }

  /** The error key one validator reports for a value, if any. */
  function Check(v: Validator, value: Option<string>): (r: Option<string>)
    ensures v.Required? ==> (r.Some? <==> IsEmpty(value))
    ensures !v.Required? && IsEmpty(value) ==> r.None?
  {
    match v
    case Required => if IsEmpty(value) then Some("required") else None
    case MinLength(n) => if !IsEmpty(value) && |value.value| < n then Some("minlength") else None
    case MaxLength(n) => if !IsEmpty(value) && |value.value| > n then Some("maxlength") else None
    case Email => if !IsEmpty(value) && !EmailShaped(value.value) then Some("email") else None
  }

  /** The errors a list of validators reports for a value. */
  function Errors(vs: seq<Validator>, value: Option<string>): (r: set<string>)
    ensures r == {} <==> forall i :: 0 <= i < |vs| ==> Check(vs[i], value).None?
  {
    var r := set i | 0 <= i < |vs| && Check(vs[i], value).Some? :: Check(vs[i], value).value;
    assert forall i :: 0 <= i < |vs| && Check(vs[i], value).Some? ==> Check(vs[i], value).value in r;
    r
  }

  /** A required control that passes its validators holds a non-empty text. */
  lemma RequiredHolds(vs: seq<Validator>, value: Option<string>)
    requires Required in vs && Errors(vs, value) == {}
    ensures value.Some? && value.value != ""
  {
    var i :| 0 <= i < |vs| && vs[i] == Required;
    assert Check(vs[i], value).None?;
  }

  /** The user types `value` into the control: it becomes dirty and is validated again. */
  function Typed(c: Control, vs: seq<Validator>, value: string): (r: Control)
    ensures r.value == Some(value) && r.errors == Errors(vs, Some(value))
    ensures r.dirty && r.touched == c.touched
  {
    Control(Some(value), Errors(vs, Some(value)), true, c.touched)
  }

  /** `patchValue`: a new value from code, validated again; dirty and touched are kept. */
  function Patched(c: Control, vs: seq<Validator>, value: string): (r: Control)
    ensures r.value == Some(value) && r.errors == Errors(vs, Some(value))
    ensures r.dirty == c.dirty && r.touched == c.touched
  {
    Control(Some(value), Errors(vs, Some(value)), c.dirty, c.touched)
  }

  /** `reset()`: the value is null, the control pristine and untouched, and validated again. */
  function Reset(vs: seq<Validator>): (r: Control)
    ensures r.value.None? && !r.dirty && !r.touched && r.errors == Errors(vs, None)
  {
    Control(None, Errors(vs, None), false, false)
  }

  /** `markAsTouched()` */
  function Touch(c: Control): (r: Control)
    ensures r.touched && r.value == c.value && r.errors == c.errors && r.dirty == c.dirty
  {
    c.(touched := true)
  }

  /**
   * A reset required control is invalid, yet shows no error until the
   * user changes or leaves it.
   */
  lemma ResetHidesError(vs: seq<Validator>)
    requires Required in vs
    ensures Invalid(Reset(vs)) && !ShowsError(Reset(vs))
  {
    var i :| 0 <= i < |vs| && vs[i] == Required;
    assert Check(vs[i], None).Some?;
  }
}
