/** The application's auth-state façade (ai-notebook/lib/auth-service.ts): a state record
    merged by updateState, a listener registry, and the message logic around the backend
    calls, whose outcomes are passed in. */
module AuthService {
  import opened Wrappers
  import opened Text
  import AuthConfig
  import Seqs

  // ---------------------------------------------------------------------------
  // Data model

  /** The backend's user object, as far as createAuthUser reads it. */
  datatype BackendUser = BackendUser(id: string, email: Option<string>, metadata: Option<map<string, string>>, createdAt: string)

  /** A backend session; only its user matters here. */
  datatype Session = Session(accessToken: string, user: Option<BackendUser>)

  datatype AuthUser = AuthUser(id: string, email: string, displayName: string, createdAt: string)

  datatype AuthState = AuthState(user: Option<AuthUser>, session: Option<Session>, isLoading: bool, isAuthenticated: bool)

  /** A `Partial<AuthState>`: None leaves that field as it is. */
  datatype StatePatch = StatePatch(
    user: Option<Option<AuthUser>>,
    session: Option<Option<Session>>,
    isLoading: Option<bool>,
    isAuthenticated: Option<bool>)

  const InitialState: AuthState := AuthState(None, None, true, false)

  function LoadingPatch(loading: bool): StatePatch {
    StatePatch(None, None, Some(loading), None)
  }

  /** `{ ...state, ...patch }` */
  function Apply(state: AuthState, patch: StatePatch): (r: AuthState)
    ensures r.user == if patch.user.Some? then patch.user.value else state.user
    ensures r.session == if patch.session.Some? then patch.session.value else state.session
    ensures r.isLoading == if patch.isLoading.Some? then patch.isLoading.value else state.isLoading
    ensures r.isAuthenticated == if patch.isAuthenticated.Some? then patch.isAuthenticated.value else state.isAuthenticated
  {
    AuthState(
      patch.user.GetOr(state.user),
      patch.session.GetOr(state.session),
      patch.isLoading.GetOr(state.isLoading),
      patch.isAuthenticated.GetOr(state.isAuthenticated))
  }

  /** A patch that supplies nothing changes nothing, and applying the same patch twice is
      applying it once. */
  lemma ApplyLaws(state: AuthState, patch: StatePatch)
    ensures Apply(state, StatePatch(None, None, None, None)) == state
    ensures Apply(Apply(state, patch), patch) == Apply(state, patch)
  {
  }

  /** Signed in means a user is present, and a user always comes with a session. */
  predicate Consistent(s: AuthState) {
    (s.isAuthenticated <==> s.user.Some?) && (s.user.Some? ==> s.session.Some?)
  }

  // ---------------------------------------------------------------------------
  // Pure lookups

  function MetaDisplayName(u: BackendUser): Option<string> {
    if u.metadata.Some? && "display_name" in u.metadata.value then Some(u.metadata.value["display_name"]) else None
  }

  function EmailLocalPart(u: BackendUser): Option<string> {
    if u.email.Some? then Some(UpToFirst(u.email.value, '@')) else None
  }

  /** createAuthUser: displayName is display_name, else the e-mail's local part, else '用户';
      a missing e-mail becomes ''. */
  function CreateAuthUser(u: BackendUser): (a: AuthUser)
    ensures a.id == u.id && a.createdAt == u.createdAt
    ensures a.email == OrElse(u.email, "")
    ensures a.displayName != ""
    ensures Truthy(MetaDisplayName(u)) ==> a.displayName == MetaDisplayName(u).value
    ensures !Truthy(MetaDisplayName(u)) && Truthy(EmailLocalPart(u)) ==> a.displayName == EmailLocalPart(u).value
    ensures !Truthy(MetaDisplayName(u)) && !Truthy(EmailLocalPart(u)) ==> a.displayName == "用户"
  {
    var cands := [MetaDisplayName(u), EmailLocalPart(u)];
    assert cands[0] == MetaDisplayName(u) && cands[1] == EmailLocalPart(u);
    AuthUser(u.id, OrElse(u.email, ""), FirstTruthy(cands, "用户"), u.createdAt)
  }

  /** Without a full_name, createAuthUser picks the same display name as getUserDisplayName. */
  lemma DisplayNameAgreesWithConfig(u: BackendUser)
    requires u.metadata.None? || "full_name" !in u.metadata.value
    ensures CreateAuthUser(u).displayName
         == AuthConfig.GetUserDisplayName(Some(AuthConfig.UserInfo(u.email, u.metadata, AuthConfig.Unset)))
  {
  }

  /** The errorMessages table of getErrorMessage (the long key is written as two literals
      joined, which is the same string). */
  const ErrorMessages: map<string, string> := map[
    "Invalid login credentials" := "邮箱或密码错误",
    "Email not confirmed" := "邮箱未验证，请检查您的邮箱",
    "User already registered" := "该邮箱已被注册",
    "Password should be at least 6 characters" := "密码至少需要6个字符",
    "Unable to validate email address" + ": invalid format" := "邮箱格式无效",
    "Signup requires a valid password" := "请输入有效的密码",
    "User not found" := "用户不存在",
    "Email rate limit exceeded" := "邮件发送频率过高，请稍后再试",
    "Too many requests" := "请求过于频繁，请稍后再试"
  ]

  const FallbackMessage: string := "操作失败，请重试"

  /** getErrorMessage: `errorMessages[error] || error || '操作失败，请重试'`. */
  function GetErrorMessage(error: string): (m: string)
    ensures m != ""
    ensures error in ErrorMessages ==> m == ErrorMessages[error]
    ensures error !in ErrorMessages && error != "" ==> m == error
    ensures error == "" ==> m == FallbackMessage
  {
    if error in ErrorMessages && ErrorMessages[error] != "" then ErrorMessages[error]
    else if error != "" then error
    else FallbackMessage
  }

  /** Every key of the table starts with an upper-case Latin letter. */
  lemma ErrorKeysStartUpper()
    ensures forall k :: k in ErrorMessages ==> |k| > 0 && 'A' <= k[0] <= 'Z'
  {
    forall k | k in ErrorMessages ensures |k| > 0 && 'A' <= k[0] <= 'Z' {
      if k == "Invalid login credentials" { assert k[0] == 'I'; }
      else if k == "Email not confirmed" { assert k[0] == 'E'; }
      else if k == "User already registered" { assert k[0] == 'U'; }
      else if k == "Password should be at least 6 characters" { assert k[0] == 'P'; }
      else if k == "Unable to validate email address" + ": invalid format" { assert k[0] == 'U'; }
      else if k == "Signup requires a valid password" { assert k[0] == 'S'; }
      else if k == "User not found" { assert k[0] == 'U'; }
      else if k == "Email rate limit exceeded" { assert k[0] == 'E'; }
      else { assert k == "Too many requests"; assert k[0] == 'T'; }
    }
  }

  /** Every translation starts with a CJK unified ideograph (U+4E00 to U+9FFF). */
  lemma TranslationsStartCjk()
    ensures forall k :: k in ErrorMessages ==>
              |ErrorMessages[k]| > 0 && 0x4E00 <= ErrorMessages[k][0] as int <= 0x9FFF
  {
  }

  /** A localised message is never translated again: getErrorMessage is idempotent. */
  lemma GetErrorMessageIdempotent(error: string)
    ensures GetErrorMessage(GetErrorMessage(error)) == GetErrorMessage(error)
  {
    ErrorKeysStartUpper();
    var m := GetErrorMessage(error);
    if error in ErrorMessages {
      TranslationsStartCjk();
      assert m == ErrorMessages[error];
      assert m[0] as int >= 0x4E00;
      assert m !in ErrorMessages;
    } else if error == "" {
      assert m[0] as int >= 0x4E00;
      assert m !in ErrorMessages;
    }
  }

  const VerifyEmailMessage: string := "请检查您的邮箱并点击验证链接完成注册"
  const LoginFailedMessage: string := "登录失败，请重试"

  // ---------------------------------------------------------------------------
  // The service object

  /** A subscriber is known by its handle; a call is recorded as a Delivery. */
  type Listener = nat

  datatype Delivery = Delivery(listener: Listener, state: AuthState)

  /** `listeners.forEach(l => l(state))` */
  function Deliveries(ls: seq<Listener>, state: AuthState): (r: seq<Delivery>)
    ensures |r| == |ls|
    ensures forall i :: 0 <= i < |ls| ==> r[i] == Delivery(ls[i], state)
  {
    if ls == [] then [] else Deliveries(ls[..|ls| - 1], state) + [Delivery(ls[|ls| - 1], state)]
  }

  /** What a backend call produced: a returned { data, error }, or an exception. */
  datatype BackendOutcome =
    | Returned(user: Option<BackendUser>, session: Option<Session>, error: Option<string>)
    | Threw(message: string)

  /** A call that resolves, or rejects with a message. */
  datatype Outcome = Done | Failed(message: string)

  /** register's result for a backend outcome: an exception is rethrown, a backend error is
      localised, a user without a session asks for e-mail verification; anything else resolves. */
  function RegisterOutcome(b: BackendOutcome): (r: Outcome)
    ensures r.Failed? <==> b.Threw? || b.error.Some? || (b.user.Some? && b.session.None?)
    ensures b.Threw? ==> r == Failed(b.message)
    ensures b.Returned? && b.error.Some? ==> r == Failed(GetErrorMessage(b.error.value))
    ensures b.Returned? && b.error.None? && b.user.Some? && b.session.None? ==> r == Failed(VerifyEmailMessage)
  {
    match b
    case Threw(m) => Failed(m)
    case Returned(user, session, error) =>
      if error.Some? then Failed(GetErrorMessage(error.value))
      else if user.Some? && session.None? then Failed(VerifyEmailMessage)
      else Done
  }

  /** login's result for a backend outcome: an exception is rethrown, a backend error is
      localised, a missing session fails; only a returned session resolves. */
  function LoginOutcome(b: BackendOutcome): (r: Outcome)
    ensures r.Done? <==> b.Returned? && b.error.None? && b.session.Some?
    ensures b.Threw? ==> r == Failed(b.message)
    ensures b.Returned? && b.error.Some? ==> r == Failed(GetErrorMessage(b.error.value))
    ensures b.Returned? && b.error.None? && b.session.None? ==> r == Failed(LoginFailedMessage)
  {
    match b
    case Threw(m) => Failed(m)
    case Returned(_, session, error) =>
      if error.Some? then Failed(GetErrorMessage(error.value))
      else if session.None? then Failed(LoginFailedMessage)
      else Done
  }

  /** The result of logout, resetPassword and updateProfile: only a backend error (localised)
      or an exception fails the call. */
  function ErrorOutcome(b: BackendOutcome): (r: Outcome)
    ensures r.Failed? <==> b.Threw? || b.error.Some?
    ensures b.Threw? ==> r == Failed(b.message)
    ensures b.Returned? && b.error.Some? ==> r == Failed(GetErrorMessage(b.error.value)) && r.message != ""
  {
    match b
    case Threw(m) => Failed(m)
    case Returned(_, _, error) => if error.Some? then Failed(GetErrorMessage(error.value)) else Done
  }

  /** The registration outcomes: a backend error is localised, a user without a session asks
      for e-mail verification, and only a returned session or a bare success resolves. */
  lemma RegisterOutcomeCases(u: BackendUser, s: Session, msg: string)
    ensures RegisterOutcome(Returned(Some(u), None, None)) == Failed(VerifyEmailMessage)
    ensures RegisterOutcome(Returned(Some(u), Some(s), None)) == Done
    ensures RegisterOutcome(Returned(Some(u), Some(s), Some(msg))) == Failed(GetErrorMessage(msg))
    ensures LoginOutcome(Returned(Some(u), None, None)) == Failed(LoginFailedMessage)
    ensures forall b :: RegisterOutcome(b).Failed? ==> RegisterOutcome(b).message != "" || b.Threw?
  {
  }

  class AuthService {
    var currentState: AuthState
    var listeners: seq<Listener>
    /** Every listener call so far, oldest first. */
    var log: seq<Delivery>

    ghost predicate Valid()
      reads this
    {
      Consistent(currentState)
    }

    constructor ()
      ensures Valid()
      ensures currentState == InitialState && listeners == [] && log == []
    {
      currentState := InitialState;
      listeners := [];
      log := [];
    }

    /** updateState: merge the patch, then call every listener with the new state. */
    method UpdateState(patch: StatePatch)
      modifies this`currentState, this`log
      ensures currentState == Apply(old(currentState), patch)
      ensures log == old(log) + Deliveries(listeners, currentState)
    {
      currentState := Apply(currentState, patch);
      var i := 0;
      while i < |listeners|
        invariant 0 <= i <= |listeners|
        invariant currentState == Apply(old(currentState), patch)
        invariant log == old(log) + Deliveries(listeners[..i], currentState)
      {
        assert listeners[..i + 1][..i] == listeners[..i];
        log := log + [Delivery(listeners[i], currentState)];
        i := i + 1;
      }
      assert listeners[..i] == listeners;
    }

    /** subscribe: register last and receive the current state at once. */
    method Subscribe(listener: Listener)
      modifies this`listeners, this`log
      ensures listeners == old(listeners) + [listener]
      ensures log == old(log) + [Delivery(listener, currentState)]
    {
      listeners := listeners + [listener];
      log := log + [Delivery(listener, currentState)];
    }

    /** The function subscribe returns: drops the first registration of `listener` only. */
    method Unsubscribe(listener: Listener)
      modifies this`listeners
      ensures listeners == Seqs.RemoveFirst(old(listeners), listener)
      ensures Seqs.IsSubseq(listeners, old(listeners))
      ensures listener !in old(listeners) ==> listeners == old(listeners)
    {
      Seqs.RemoveFirstIsSubseq(listeners, listener);
      listeners := Seqs.RemoveFirst(listeners, listener);
    }

    method GetState() returns (s: AuthState)
      ensures s == currentState
    {
      s := currentState;
    }

    /** initialize: the first getSession. A session with a user signs in; an error, an
        exception or no user only clears isLoading and leaves the rest of the state alone. */
    method Initialize(backend: BackendOutcome)
      requires Valid()
      modifies this`currentState, this`log
      ensures Valid() && !currentState.isLoading
      ensures backend.Returned? && backend.error.None? && backend.session.Some? && backend.session.value.user.Some? ==>
        currentState == AuthState(Some(CreateAuthUser(backend.session.value.user.value)), backend.session, false, true)
      ensures !(backend.Returned? && backend.error.None? && backend.session.Some? && backend.session.value.user.Some?) ==>
        currentState == old(currentState).(isLoading := false)
      ensures log == old(log) + Deliveries(listeners, currentState)
    {
      if backend.Returned? && backend.error.None? && backend.session.Some? && backend.session.value.user.Some? {
        var session := backend.session;
        UpdateState(StatePatch(Some(Some(CreateAuthUser(session.value.user.value))), Some(session), Some(false), Some(true)));
      } else {
        UpdateState(LoadingPatch(false));
      }
    }

    /** The backend auth-change handler: a session with a user signs in, anything else signs out. */
    method HandleAuthChange(session: Option<Session>)
      modifies this`currentState, this`log
      ensures Valid() && !currentState.isLoading
      ensures session.Some? && session.value.user.Some? ==>
        currentState == AuthState(Some(CreateAuthUser(session.value.user.value)), session, false, true)
      ensures !(session.Some? && session.value.user.Some?) ==> currentState == AuthState(None, None, false, false)
      ensures log == old(log) + Deliveries(listeners, currentState)
    {
      if session.Some? && session.value.user.Some? {
        UpdateState(StatePatch(Some(Some(CreateAuthUser(session.value.user.value))), Some(session), Some(false), Some(true)));
      } else {
        UpdateState(StatePatch(Some(None), Some(None), Some(false), Some(false)));
      }
    }

    /** Sets isLoading, tells every listener, and on failure clears isLoading and tells them again. */
    method Attempt(result: Outcome)
      requires Valid()
      modifies this`currentState, this`log
      ensures Valid()
      ensures var loading := Apply(old(currentState), LoadingPatch(true));
        && currentState == (if result.Failed? then Apply(loading, LoadingPatch(false)) else loading)
        && log == old(log) + Deliveries(listeners, loading)
                 + (if result.Failed? then Deliveries(listeners, currentState) else [])
    {
      UpdateState(LoadingPatch(true));
      if result.Failed? {
        UpdateState(LoadingPatch(false));
      }
    }

    /** register: isLoading stays true on success (the auth-change handler clears it) and is
        reset before the error is rethrown. */
    method Register(backend: BackendOutcome) returns (r: Outcome)
      requires Valid()
      modifies this`currentState, this`log
      ensures Valid() && r == RegisterOutcome(backend)
      ensures currentState == old(currentState).(isLoading := !r.Failed?)
      ensures log == old(log) + Deliveries(listeners, old(currentState).(isLoading := true))
                    + (if r.Failed? then Deliveries(listeners, currentState) else [])
    {
      r := RegisterOutcome(backend);
      Attempt(r);
    }

    /** login: as register, with '登录失败，请重试' when no session comes back. */
    method Login(backend: BackendOutcome) returns (r: Outcome)
      requires Valid()
      modifies this`currentState, this`log
      ensures Valid() && r == LoginOutcome(backend)
      ensures currentState == old(currentState).(isLoading := !r.Failed?)
      ensures log == old(log) + Deliveries(listeners, old(currentState).(isLoading := true))
                    + (if r.Failed? then Deliveries(listeners, currentState) else [])
    {
      r := LoginOutcome(backend);
      Attempt(r);
    }

    /** logout: as register, failing only on a backend error. */
    method Logout(backend: BackendOutcome) returns (r: Outcome)
      requires Valid()
      modifies this`currentState, this`log
      ensures Valid() && r == ErrorOutcome(backend)
      ensures currentState == old(currentState).(isLoading := !r.Failed?)
      ensures log == old(log) + Deliveries(listeners, old(currentState).(isLoading := true))
                    + (if r.Failed? then Deliveries(listeners, currentState) else [])
    {
      r := ErrorOutcome(backend);
      Attempt(r);
    }
  }
}
