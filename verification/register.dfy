/**
  The sign-up form (`src/pages/Register.jsx`). Its submit handler runs
  three checks in order and stops at the first that fails. Fields are
  tested for emptiness without trimming, so a name of spaces passes. Only
  name, email and password are sent.
*/
module Register {
  import opened Forms

  datatype RegisterForm = RegisterForm(name: string, email: string, password: string, confirmPassword: string)

  /** The body of the register request: the confirmation has no field here. */
  datatype RegisterPayload = RegisterPayload(name: string, email: string, password: string)

  const FillInAll := "Please fill in all fields"
  const NoMatch := "Passwords don't match"
  const TooShort := "Password must be at least 6 characters"

  predicate AnyEmpty(f: RegisterForm) {
    f.name == "" || f.email == "" || f.password == "" || f.confirmPassword == ""
  }

  /** `handleSubmit` up to the request. */
  function SubmitRegister(f: RegisterForm): (r: Submit<RegisterPayload>)
    ensures r == Invalid(FillInAll) <==> AnyEmpty(f)
    ensures r == Invalid(NoMatch) <==> !AnyEmpty(f) && f.password != f.confirmPassword
    ensures r == Invalid(TooShort) <==> !AnyEmpty(f) && f.password == f.confirmPassword && |f.password| < 6
    ensures r.Send? <==> !AnyEmpty(f) && f.password == f.confirmPassword && |f.password| >= 6
    ensures r.Send? ==> r.payload.name == f.name && r.payload.email == f.email && r.payload.password == f.password
  {
    if AnyEmpty(f) then Invalid(FillInAll)
    else if f.password != f.confirmPassword then Invalid(NoMatch)
    else if |f.password| < 6 then Invalid(TooShort)
    else Send(RegisterPayload(f.name, f.email, f.password))
  }

  /** Six characters is the shortest password accepted; blank-looking names are not refused. */
  lemma LengthBoundary()
    ensures SubmitRegister(RegisterForm("n", "e", "123456", "123456")).Send?
    ensures SubmitRegister(RegisterForm("n", "e", "12345", "12345")) == Invalid(TooShort)
    ensures SubmitRegister(RegisterForm(" ", "e", "123456", "123456")).Send?
  {
  }

  /** The first failing check decides: an empty field hides a mismatch, and a mismatch hides a short password. */
  lemma FirstFailureWins(f: RegisterForm)
    ensures AnyEmpty(f) && f.password != f.confirmPassword ==> SubmitRegister(f) == Invalid(FillInAll)
    ensures !AnyEmpty(f) && f.password != f.confirmPassword && |f.password| < 6 ==> SubmitRegister(f) == Invalid(NoMatch)
  {
  }
}
