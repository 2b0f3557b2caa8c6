/**
 * auth.service.ts and auth.model.ts: account creation, simulated on the
 * client. One address counts as already registered; any other gets a
 * response with a random id. `Math.random()` is a parameter in [0, 1);
 * the simulated network delay is not modelled.
 */
module AuthService {
  import opened Common

  /** What the register page sends: no confirmation field. */
  datatype UserRegister = UserRegister(username: string, email: string, password: string)

  /** What comes back: no password. */
  datatype AuthResponse = AuthResponse(id: int, username: string, email: string)

  const TakenEmail := "test@example.com"
  const EmailTaken := "Cet email est déjà enregistré."

  /**
   * `register`: the taken address fails with its message; any other
   * address succeeds with `Math.floor(random * 1000) + 100` as id and the
   * name and address it was given.
   */
  function Register(userData: UserRegister, random: real): (r: Outcome<AuthResponse>)
    requires 0.0 <= random < 1.0
    ensures r.Threw? <==> userData.email == TakenEmail
    ensures r.Threw? ==> r.error == Error(Some(EmailTaken))
    ensures r.Done? ==> && r.value.username == userData.username
                        && r.value.email == userData.email
                        && 100 <= r.value.id < 1100
  {
    if userData.email == TakenEmail then Threw(Error(Some(EmailTaken)))
    else Done(AuthResponse(ScaledDraw(random) + 100, userData.username, userData.email))
  }

  /** `Math.floor(random * 1000)` */
  function ScaledDraw(random: real): (n: int)
    requires 0.0 <= random < 1.0
    ensures 0 <= n < 1000
    ensures n as real <= random * 1000.0 < n as real + 1.0
  {
    (random * 1000.0).Floor
  }

  /** Every id in [100, 1100) is the one some draw gives. */
  lemma RegisterReachesEveryId(userData: UserRegister, id: int)
    requires userData.email != TakenEmail && 100 <= id < 1100
    ensures Register(userData, (id - 100) as real / 1000.0).Done?
    ensures Register(userData, (id - 100) as real / 1000.0).value.id == id
  {
    var random := (id - 100) as real / 1000.0;
    assert random * 1000.0 == (id - 100) as real;
  }
}
