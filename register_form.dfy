/** The sign-up form's checks (ai-notebook/components/auth/register-form.tsx). */
module RegisterForm {
  import opened Text
  import AuthConfig

  /** The four entries of passwordRequirements, each a test with its checklist text. */
  datatype Requirement = AtLeastEight | ContainsUppercase | ContainsLowercase | ContainsDigit

  const PasswordRequirements: seq<Requirement> := [AtLeastEight, ContainsUppercase, ContainsLowercase, ContainsDigit]

  function RequirementText(req: Requirement): string {
    match req
    case AtLeastEight => "至少8个字符"
    case ContainsUppercase => "包含大写字母"
    case ContainsLowercase => "包含小写字母"
    case ContainsDigit => "包含数字"
  }

  /** `req.test(pwd)` */
  predicate Passes(req: Requirement, pwd: string) {
    match req
    case AtLeastEight => |pwd| >= 8
    case ContainsUppercase => HasUpper(pwd)
    case ContainsLowercase => HasLower(pwd)
    case ContainsDigit => HasDigit(pwd)
  }

  /** `passwordRequirements.every(req => req.test(password))` */
  predicate IsPasswordValid(pwd: string)
    ensures IsPasswordValid(pwd) ==> |pwd| >= 8
  {
    var every := forall i :: 0 <= i < |PasswordRequirements| ==> Passes(PasswordRequirements[i], pwd);
    assert every ==> Passes(PasswordRequirements[0], pwd);
    every
  }

  /** `password === confirmPassword && password.length > 0` */
  predicate IsPasswordMatch(pwd: string, confirm: string)
    ensures IsPasswordMatch(pwd, confirm) ==> confirm != ""
  {
    pwd == confirm && |pwd| > 0
  }

  datatype Form = Form(email: string, password: string, confirmPassword: string, displayName: string)

  /** `email && displayName && isPasswordValid && isPasswordMatch` */
  predicate IsFormValid(f: Form)
    ensures IsFormValid(f) ==> |f.password| >= 8 && f.confirmPassword == f.password
  {
    f.email != "" && f.displayName != "" && IsPasswordValid(f.password) && IsPasswordMatch(f.password, f.confirmPassword)
  }

  /** What a submit does: nothing, or one call onRegister(email, password, displayName). */
  datatype Submission = NoCall | OnRegister(email: string, password: string, displayName: string)

  /** handleSubmit: the guard returns early on an invalid form. */
  function HandleSubmit(f: Form): (s: Submission)
    ensures s.OnRegister? <==> IsFormValid(f)
    ensures s.OnRegister? ==> s.email == f.email && s.password == f.password && s.displayName == f.displayName
  {
    if !IsFormValid(f) then NoCall else OnRegister(f.email, f.password, f.displayName)
  }

  /** The checklist accepts exactly the passwords of 8 or more characters with an upper-case
      letter, a lower-case letter and a digit. */
  lemma PasswordValidIff(pwd: string)
    ensures IsPasswordValid(pwd) <==> |pwd| >= 8 && HasUpper(pwd) && HasLower(pwd) && HasDigit(pwd)
  {
    if |pwd| >= 8 && HasUpper(pwd) && HasLower(pwd) && HasDigit(pwd) {
      forall i | 0 <= i < |PasswordRequirements| ensures Passes(PasswordRequirements[i], pwd) {
      }
    }
    if IsPasswordValid(pwd) {
      assert Passes(PasswordRequirements[0], pwd) && Passes(PasswordRequirements[1], pwd);
      assert Passes(PasswordRequirements[2], pwd) && Passes(PasswordRequirements[3], pwd);
    }
  }

  /** The form's rule and validatePassword under the configured policy accept the same passwords. */
  lemma AgreesWithValidatePassword(pwd: string)
    ensures IsPasswordValid(pwd) <==> AuthConfig.PasswordErrors(AuthConfig.Policy, pwd) == []
  {
    PasswordValidIff(pwd);
    AuthConfig.ConfiguredPolicyValidIff(pwd);
  }

  /** A submitted password is always non-empty, confirmed and passes every requirement. */
  lemma SubmittedPasswordIsStrong(f: Form)
    requires HandleSubmit(f).OnRegister?
    ensures f.password == f.confirmPassword && |f.password| >= 8
    ensures HasUpper(f.password) && HasLower(f.password) && HasDigit(f.password)
    ensures f.email != "" && f.displayName != ""
  {
    PasswordValidIff(f.password);
  }
}
