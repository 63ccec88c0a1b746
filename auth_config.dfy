/** Credential rules and user-metadata fallbacks (ai-notebook-github-upload/lib/auth-config.ts). */
module AuthConfig {
  import opened Wrappers
  import opened Text
  import Seqs

  // ---------------------------------------------------------------------------
  // Password policy

  datatype PasswordPolicy = PasswordPolicy(
    minLength: nat,
    requireUppercase: bool,
    requireLowercase: bool,
    requireNumbers: bool,
    requireSpecialChars: bool)

  /** authConfig.passwordPolicy */
  const Policy: PasswordPolicy := PasswordPolicy(8, true, true, true, false)

  /** The class /[!@#$%^&*(),.?":{}|<>]/. */
  const SpecialChars: string := "!@#$%^&*(),.?\":{}|<>"

  predicate HasSpecial(s: string) {
    exists i :: 0 <= i < |s| && s[i] in SpecialChars
  }

  /** The length message: "密码长度至少需要 ", the decimal digits of the minimum, " 个字符". */
  function LengthMessage(minLength: nat): (m: string)
    ensures |m| > 13 && m[..9] == "密码长度至少需要 " && m[|m| - 4..] == " 个字符"
    ensures m[9..|m| - 4] == Decimal(minLength)
  {
    "密码长度至少需要 " + Decimal(minLength) + " 个字符"
  }

  const UppercaseMessage: string := "密码必须包含至少一个大写字母"
  const LowercaseMessage: string := "密码必须包含至少一个小写字母"
  const DigitMessage: string := "密码必须包含至少一个数字"
  const SpecialMessage: string := "密码必须包含至少一个特殊字符"

  /** Every message a policy can produce, in the order the rules are checked. */
  function AllMessages(minLength: nat): seq<string> {
    [LengthMessage(minLength), UppercaseMessage, LowercaseMessage, DigitMessage, SpecialMessage]
  }

  /** The errors of `password` under `policy`: one message per violated rule, in rule order. */
  function PasswordErrors(policy: PasswordPolicy, password: string): (errors: seq<string>)
    ensures |errors| <= 5
  {
    (if |password| < policy.minLength then [LengthMessage(policy.minLength)] else [])
    + (if policy.requireUppercase && !HasUpper(password) then [UppercaseMessage] else [])
    + (if policy.requireLowercase && !HasLower(password) then [LowercaseMessage] else [])
    + (if policy.requireNumbers && !HasDigit(password) then [DigitMessage] else [])
    + (if policy.requireSpecialChars && !HasSpecial(password) then [SpecialMessage] else [])
  }

  datatype PasswordCheck = PasswordCheck(isValid: bool, errors: seq<string>)

  /** validatePassword: pushes one message per violated rule of the configured policy. */
  method ValidatePassword(password: string) returns (r: PasswordCheck)
    ensures r.errors == PasswordErrors(Policy, password)
    ensures r.isValid <==> r.errors == []
  {
    var errors: seq<string> := [];
    if |password| < Policy.minLength {
      errors := errors + [LengthMessage(Policy.minLength)];
    }
    if Policy.requireUppercase && !HasUpper(password) {
      errors := errors + [UppercaseMessage];
    }
    if Policy.requireLowercase && !HasLower(password) {
      errors := errors + [LowercaseMessage];
    }
    if Policy.requireNumbers && !HasDigit(password) {
      errors := errors + [DigitMessage];
    }
    if Policy.requireSpecialChars && !HasSpecial(password) {
      errors := errors + [SpecialMessage];
    }
    r := PasswordCheck(|errors| == 0, errors);
  }

  /** The five messages are pairwise different. */
  lemma MessagesDistinct(minLength: nat)
    ensures forall i, j :: 0 <= i < j < 5 ==> AllMessages(minLength)[i] != AllMessages(minLength)[j]
  {
    var ms := AllMessages(minLength);
    assert ms[1][10] == '大' && ms[2][10] == '小' && ms[3][10] == '数' && ms[4][10] == '特';
    assert ms[0][2] == '长' && ms[1][2] == '必' && ms[2][2] == '必' && ms[3][2] == '必' && ms[4][2] == '必';
  }

  /** Each message is reported exactly when its own rule is violated. */
  lemma ErrorsMatchViolations(policy: PasswordPolicy, password: string)
    ensures var errors := PasswordErrors(policy, password);
      && (LengthMessage(policy.minLength) in errors <==> |password| < policy.minLength)
      && (UppercaseMessage in errors <==> policy.requireUppercase && !HasUpper(password))
      && (LowercaseMessage in errors <==> policy.requireLowercase && !HasLower(password))
      && (DigitMessage in errors <==> policy.requireNumbers && !HasDigit(password))
      && (SpecialMessage in errors <==> policy.requireSpecialChars && !HasSpecial(password))
  {
    MessagesDistinct(policy.minLength);
    var ms := AllMessages(policy.minLength);
    assert ms[0] == LengthMessage(policy.minLength) && ms[1] == UppercaseMessage && ms[2] == LowercaseMessage;
    assert ms[3] == DigitMessage && ms[4] == SpecialMessage;
  }

  /** The messages come in rule order (length, upper, lower, digit, special), each at most once. */
  lemma ErrorsInRuleOrder(policy: PasswordPolicy, password: string)
    ensures Seqs.IsSubseq(PasswordErrors(policy, password), AllMessages(policy.minLength))
  {
    var ms := AllMessages(policy.minLength);
    var e0 := if |password| < policy.minLength then [ms[0]] else [];
    var e1 := if policy.requireUppercase && !HasUpper(password) then [ms[1]] else [];
    var e2 := if policy.requireLowercase && !HasLower(password) then [ms[2]] else [];
    var e3 := if policy.requireNumbers && !HasDigit(password) then [ms[3]] else [];
    var e4 := if policy.requireSpecialChars && !HasSpecial(password) then [ms[4]] else [];
    OptionalSubseq(e0, ms[0]);
    OptionalSubseq(e1, ms[1]);
    OptionalSubseq(e2, ms[2]);
    OptionalSubseq(e3, ms[3]);
    OptionalSubseq(e4, ms[4]);
    Seqs.SubseqConcat(e0, [ms[0]], e1, [ms[1]]);
    Seqs.SubseqConcat(e0 + e1, [ms[0]] + [ms[1]], e2, [ms[2]]);
    Seqs.SubseqConcat(e0 + e1 + e2, [ms[0]] + [ms[1]] + [ms[2]], e3, [ms[3]]);
    Seqs.SubseqConcat(e0 + e1 + e2 + e3, [ms[0]] + [ms[1]] + [ms[2]] + [ms[3]], e4, [ms[4]]);
    assert ms == [ms[0]] + [ms[1]] + [ms[2]] + [ms[3]] + [ms[4]];
  }

  /** A message that may be left out is a subsequence of the message itself. */
  lemma OptionalSubseq(e: seq<string>, m: string)
    requires e == [] || e == [m]
    ensures Seqs.IsSubseq(e, [m])
  {
    if e == [m] {
      assert e[1..] == [];
    }
  }

  /** Under the configured policy special characters are never asked for, so at most four
      messages appear, and the length message reads "at least 8 characters". */
  lemma ConfiguredPolicyAtMostFour(password: string)
    ensures SpecialMessage !in PasswordErrors(Policy, password)
    ensures |PasswordErrors(Policy, password)| <= 4
    ensures LengthMessage(Policy.minLength) == "密码长度至少需要 8 个字符"
  {
    ErrorsMatchViolations(Policy, password);
  }

  /** The configured policy accepts exactly the passwords of 8 or more characters with an
      upper-case letter, a lower-case letter and a digit. */
  lemma ConfiguredPolicyValidIff(password: string)
    ensures PasswordErrors(Policy, password) == [] <==>
      |password| >= 8 && HasUpper(password) && HasLower(password) && HasDigit(password)
  {
  }

  // ---------------------------------------------------------------------------
  // User-metadata fallbacks

  /** `email_confirmed_at`: a property can be missing, hold null, or hold a time. */
  datatype Stamp = Unset | NullStamp | Stamped(at: string)

  /** The parts of a backend user object these helpers read. */
  datatype UserInfo = UserInfo(email: Option<string>, metadata: Option<map<string, string>>, emailConfirmedAt: Stamp)

  /** `user?.user_metadata?.[key]` */
  function MetaField(user: Option<UserInfo>, key: string): (r: Option<string>)
    ensures r.Some? <==> user.Some? && user.value.metadata.Some? && key in user.value.metadata.value
  {
    if user.Some? && user.value.metadata.Some? && key in user.value.metadata.value
    then Some(user.value.metadata.value[key]) else None
  }

  /** `user?.email?.split('@')[0]` */
  function EmailPrefix(user: Option<UserInfo>): (r: Option<string>)
    ensures r.Some? <==> user.Some? && user.value.email.Some?
    ensures r.Some? ==> '@' !in r.value && |r.value| <= |user.value.email.value| && r.value == user.value.email.value[..|r.value|]
  {
    if user.Some? && user.value.email.Some? then Some(UpToFirst(user.value.email.value, '@')) else None
  }

  /** getUserDisplayName: display_name, else full_name, else the e-mail's local part,
      else '用户'; never empty. */
  function GetUserDisplayName(user: Option<UserInfo>): (name: string)
    ensures name != ""
    ensures Truthy(MetaField(user, "display_name")) ==> name == MetaField(user, "display_name").value
    ensures !Truthy(MetaField(user, "display_name")) && Truthy(MetaField(user, "full_name")) ==>
              name == MetaField(user, "full_name").value
    ensures !Truthy(MetaField(user, "display_name")) && !Truthy(MetaField(user, "full_name")) && Truthy(EmailPrefix(user)) ==>
              name == EmailPrefix(user).value
    ensures !Truthy(MetaField(user, "display_name")) && !Truthy(MetaField(user, "full_name")) && !Truthy(EmailPrefix(user)) ==>
              name == "用户"
  {
    var cands := [MetaField(user, "display_name"), MetaField(user, "full_name"), EmailPrefix(user)];
    assert cands[0] == MetaField(user, "display_name") && cands[1] == MetaField(user, "full_name");
    assert cands[2] == EmailPrefix(user);
    FirstTruthy(cands, "用户")
  }

  /** getUserAvatarUrl: avatar_url, else picture, else null. */
  function GetUserAvatarUrl(user: Option<UserInfo>): (url: Option<string>)
    ensures url.Some? <==> Truthy(MetaField(user, "avatar_url")) || Truthy(MetaField(user, "picture"))
    ensures url.Some? ==> url.value != ""
    ensures Truthy(MetaField(user, "avatar_url")) ==> url == MetaField(user, "avatar_url")
    ensures !Truthy(MetaField(user, "avatar_url")) && Truthy(MetaField(user, "picture")) ==> url == MetaField(user, "picture")
  {
    if Truthy(MetaField(user, "avatar_url")) then MetaField(user, "avatar_url")
    else if Truthy(MetaField(user, "picture")) then MetaField(user, "picture")
    else None
  }

  /** isEmailVerified: `user?.email_confirmed_at !== null`, so only an explicit null counts as
      unverified; a missing user and a missing field both count as verified. */
  function IsEmailVerified(user: Option<UserInfo>): (verified: bool)
    ensures !verified <==> user.Some? && user.value.emailConfirmedAt == NullStamp
    ensures user.None? ==> verified
  {
    !(user.Some? && user.value.emailConfirmedAt.NullStamp?)
  }

  // ---------------------------------------------------------------------------
  // Error formatting

  /** The errorMessages table of formatAuthError (the long key is written as two literals
      joined, which is the same string). */
  const AuthErrorMessages: map<string, string> := map[
    "Invalid login credentials" := "邮箱或密码错误",
    "Email not confirmed" := "请先验证您的邮箱",
    "User already registered" := "该邮箱已被注册",
    "Password should be at least 6 characters" := "密码至少需要6个字符",
    "Unable to validate email address" + ": invalid format" := "邮箱格式不正确",
    "Signup is disabled" := "注册功能已禁用",
    "Email rate limit exceeded" := "邮件发送频率过高，请稍后再试",
    "Token has expired or is invalid" := "链接已过期或无效"
  ]

  /** `table[message] || message`: the translation when there is a non-empty one, else the message. */
  function Translate(table: map<string, string>, message: string): string {
    if message in table && table[message] != "" then table[message] else message
  }

  /** The parts of an error object formatAuthError reads. */
  datatype ErrorInfo = ErrorInfo(message: Option<string>, errorDescription: Option<string>)

  /** `error?.message` */
  function MessageOf(error: Option<ErrorInfo>): Option<string> {
    if error.Some? then error.value.message else None
  }

  /** `error?.error_description` */
  function DescriptionOf(error: Option<ErrorInfo>): Option<string> {
    if error.Some? then error.value.errorDescription else None
  }

  /** formatAuthError: the message, else error_description, else '未知错误', then translated;
      the text is never empty. */
  function FormatAuthError(error: Option<ErrorInfo>): (r: string)
    ensures r != ""
    ensures Truthy(MessageOf(error)) ==> r == Translate(AuthErrorMessages, MessageOf(error).value)
    ensures !Truthy(MessageOf(error)) && Truthy(DescriptionOf(error)) ==>
              r == Translate(AuthErrorMessages, DescriptionOf(error).value)
    ensures !Truthy(MessageOf(error)) && !Truthy(DescriptionOf(error)) ==> r == "未知错误"
  {
    var cands := [MessageOf(error), DescriptionOf(error)];
    assert cands[0] == MessageOf(error) && cands[1] == DescriptionOf(error);
    var raw := FirstTruthy(cands, "未知错误");
    FallbackNotAKey();
    Translate(AuthErrorMessages, raw)
  }

  /** No translation is itself a key of the table. */
  lemma TranslationsAreNotKeys()
    ensures forall k :: k in AuthErrorMessages ==> AuthErrorMessages[k] != "" && AuthErrorMessages[k] !in AuthErrorMessages
  {
    forall k | k in AuthErrorMessages
      ensures AuthErrorMessages[k] != "" && AuthErrorMessages[k] !in AuthErrorMessages
    {
      var v := AuthErrorMessages[k];
      assert 0x4E00 <= v[0] as int <= 0x9FFF;
      KeysStartUpper();
    }
  }

  /** The fallback text is not a key of the table, so it is never translated. */
  lemma FallbackNotAKey()
    ensures "未知错误" !in AuthErrorMessages
  {
    KeysStartUpper();
    assert "未知错误"[0] == '未';
  }

  /** Every key of the table starts with an upper-case Latin letter. */
  lemma KeysStartUpper()
    ensures forall k :: k in AuthErrorMessages ==> |k| > 0 && 'A' <= k[0] <= 'Z'
  {
    forall k | k in AuthErrorMessages ensures |k| > 0 && 'A' <= k[0] <= 'Z' {
      if k == "Invalid login credentials" { assert k[0] == 'I'; }
       else if k == "Email not confirmed" { assert k[0] == 'E'; }
       else if k == "User already registered" { assert k[0] == 'U'; }
       else if k == "Password should be at least 6 characters" { assert k[0] == 'P'; }
       else if k == "Unable to validate email address" + ": invalid format" { assert k[0] == 'U'; }
       else if k == "Signup is disabled" { assert k[0] == 'S'; }
       else if k == "Email rate limit exceeded" { assert k[0] == 'E'; }
       else { assert k == "Token has expired or is invalid"; assert k[0] == 'T'; }
    }
  }

  /** formatAuthError never yields an empty text, translates every known message and leaves
      every other message as it is; formatting an already formatted text changes nothing. */
  lemma FormatAuthErrorProperties(message: string)
    ensures FormatAuthError(None) == "未知错误"
    ensures message != "" ==> FormatAuthError(Some(ErrorInfo(Some(message), None))) != ""
    ensures message in AuthErrorMessages ==> FormatAuthError(Some(ErrorInfo(Some(message), None))) == AuthErrorMessages[message]
    ensures message != "" && message !in AuthErrorMessages ==> FormatAuthError(Some(ErrorInfo(Some(message), None))) == message
    ensures var t := FormatAuthError(Some(ErrorInfo(Some(message), None)));
            FormatAuthError(Some(ErrorInfo(Some(t), None))) == t
  {
    TranslationsAreNotKeys();
    FallbackNotAKey();
  }
}
