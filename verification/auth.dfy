/**
 * Account registration: the client-side check of the form and the profile
 * record written for a new account.
 */
module Auth {
  import opened Wrappers
  import Progression
  import opened Users

  /** The profile stored under `usuarios/<uid>`. */
  datatype Profile = Profile(firstName: string, lastName: string, xp: nat, level: nat, rank: string)

  datatype RegisterForm = RegisterForm(email: string, password: string, firstName: string, lastName: string)

  /** What the user ends up with after pressing "register". */
  datatype RegisterOutcome =
    | Rejected(alert: string)                 // nothing was sent
    | Registered(uid: Uid, profile: Profile)  // account and profile created
    | Orphaned(uid: Uid, alert: string)       // account created, profile write failed

  const MissingDataAlert: string := "Faltan datos importantes"
  const RegisterErrorPrefix: string := "Error al registrar: "
  const NoviceRank: string := "Novato"

  /** The record written for a new account: zero XP at the first level, rank "Novato". */
  function InitialProfile(firstName: string, lastName: string): (p: Profile)
    ensures p.firstName == firstName && p.lastName == lastName
    ensures p.xp == 0 && p.level == Progression.Level(p.xp)
    ensures p.rank == NoviceRank
  {
    Profile(firstName, lastName, 0, 1, NoviceRank)
  }

  /** The form passes when e-mail, password and first name are non-empty; the
      last name is optional. */
  predicate FormComplete(f: RegisterForm) {
    f.email != "" && f.password != "" && f.firstName != ""
  }

  /** `register`: `account` is the identity provider's answer to the account
      creation and `profileWrite` the store's answer to writing the profile. */
  function Register(f: RegisterForm, account: Result<Uid, string>, profileWrite: Outcome<string>): (o: RegisterOutcome)
    ensures o == Rejected(MissingDataAlert) <==> f.email == "" || f.password == "" || f.firstName == ""
    ensures o.Registered? <==> FormComplete(f) && account.Ok? && profileWrite.Pass?
    ensures o.Registered? ==> o.uid == account.value && o.profile == InitialProfile(f.firstName, f.lastName)
    ensures o.Orphaned? ==> account.Ok? && o.uid == account.value && profileWrite.Fail?
    ensures o.Orphaned? ==> o.alert == RegisterErrorPrefix + profileWrite.error
    ensures o.Orphaned? <==> FormComplete(f) && account.Ok? && profileWrite.Fail?
    ensures o.Rejected? && FormComplete(f) ==> account.Err? && o.alert == RegisterErrorPrefix + account.error
  {
    if !FormComplete(f) then Rejected(MissingDataAlert)
    else match account
      case Err(msg) =>
        assert (RegisterErrorPrefix + msg)[0] != MissingDataAlert[0];
        Rejected(RegisterErrorPrefix + msg)
      case Ok(uid) =>
        match profileWrite
        case Pass => Registered(uid, InitialProfile(f.firstName, f.lastName))
        case Fail(msg) => Orphaned(uid, RegisterErrorPrefix + msg)
  }

  /** An incomplete form is rejected before the identity provider or the store is involved. */
  lemma IncompleteFormSendsNothing(f: RegisterForm, a1: Result<Uid, string>, a2: Result<Uid, string>,
                                   w1: Outcome<string>, w2: Outcome<string>)
    requires !FormComplete(f)
    ensures Register(f, a1, w1) == Register(f, a2, w2) == Rejected(MissingDataAlert)
  {
  }
}
