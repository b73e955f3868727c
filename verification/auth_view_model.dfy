/** The authentication state machine: an immutable `AuthState` record and
    the transitions for startup, login, registration, logout and clearing
    the error. The authentication backend is not modelled: its current
    user and the success or failure of a sign-in or sign-up call are
    inputs. */
module AuthViewModel {
  import opened Wrappers
  import opened Seqs
  import opened Text

  datatype UserType = Operator | Client

  datatype AuthState = AuthState(
    isLoading: bool,
    isAuthenticated: bool,
    userType: UserType,
    userId: Option<string>,
    userEmail: Option<string>,
    errorMessage: Option<string>)

  /** `AuthState()` with every field at its default. */
  const DefaultState := AuthState(false, false, Client, None, None, None)

  /** What the backend reports about a signed-in user. */
  datatype BackendUser = BackendUser(uid: string, email: Option<string>)

  /** How a sign-in or sign-up call completed. On success the backend's
      current user is read again, and may in principle be absent; on failure
      the exception message may be absent. */
  datatype BackendResult = Succeeded(user: Option<BackendUser>) | Failed(message: Option<string>)

  /** Local validation either rejects the request, leaving a new state and
      not calling the backend, or submits it, entering the loading state. */
  datatype Request = Rejected(state: AuthState) | Submitted(state: AuthState)

  const EmptyFieldsMessage := "Por favor, preencha todos os campos"
  const BadEmailMessage := "Formato de e-mail inválido"
  const ShortPasswordMessage := "A senha deve ter pelo menos 6 caracteres"
  const MismatchMessage := "As senhas não coincidem"
  const NetworkMessage := "Erro de conexão. Verifique sua internet"
  const MinPasswordLength := 6

  /** Backend messages are translated by the first rule whose key occurs in
      the message ignoring case. */
  datatype ErrorRule = ErrorRule(key: string, translation: string)

  const NoUserMessage := "Usuário não encontrado. Verifique o e-mail"
  const WrongLoginPasswordMessage := "Senha incorreta"
  const DisabledMessage := "Usuário desabilitado. Contate o suporte"

  /** The login table exactly as the view model writes it, and as `Login`
      uses it. Its only rule for a
      bad address looks for "email address is malformed", so the backend's
      "The email address is badly formatted." is shown untranslated (see
      `BadlyFormattedShownRaw`). */
  const LoginErrorRulesAsWritten := [
    ErrorRule("email address is malformed", BadEmailMessage),
    ErrorRule("no user record", NoUserMessage),
    ErrorRule("password is invalid", WrongLoginPasswordMessage),
    ErrorRule("network", NetworkMessage),
    ErrorRule("user is disabled", DisabledMessage)]

  /** The login table as intended, and as `LoginIntended` uses it: a "badly
      formatted" address is translated like a malformed one, which is what
      the view model's unit test expects. */
  const LoginErrorRules := [
    ErrorRule("email address is malformed", BadEmailMessage),
    ErrorRule("badly formatted", BadEmailMessage),
    ErrorRule("no user record", NoUserMessage),
    ErrorRule("password is invalid", WrongLoginPasswordMessage),
    ErrorRule("network", NetworkMessage),
    ErrorRule("user is disabled", DisabledMessage)]
  const LoginFallback := "Erro ao fazer login"

  const EmailInUseMessage := "Este e-mail já está cadastrado"
  const WeakPasswordMessage := "Senha muito fraca. Use pelo menos 6 caracteres"

  const RegisterErrorRules := [
    ErrorRule("email address is already in use", EmailInUseMessage),
    ErrorRule("weak password", WeakPasswordMessage),
    ErrorRule("network", NetworkMessage)]
  const RegisterFallback := "Erro ao criar conta"

  /** The translation of the first rule matching `message`, if any. */
  function FirstMatch(rules: seq<ErrorRule>, message: string): (t: Option<string>)
    ensures t.Some? ==> exists i :: (0 <= i < |rules| && ContainsIgnoreCase(message, rules[i].key)
                                     && t.value == rules[i].translation
                                     && forall j :: 0 <= j < i ==> !ContainsIgnoreCase(message, rules[j].key))
    ensures t.None? ==> forall i :: 0 <= i < |rules| ==> !ContainsIgnoreCase(message, rules[i].key)
  {
    match FindIndex(rules, (r: ErrorRule) => ContainsIgnoreCase(message, r.key))
    case Some(i) => Some(rules[i].translation)
    case None => None
  }

  /** The message shown for a failed backend call: a translation when some
      rule matches, else the raw message, else `fallback`. */
  function MapError(rules: seq<ErrorRule>, fallback: string, message: Option<string>): (shown: string)
    ensures message.None? ==> shown == fallback
    ensures message.Some? && (forall i :: 0 <= i < |rules| ==> !ContainsIgnoreCase(message.value, rules[i].key)) ==>
      shown == message.value
    ensures message.Some? ==>
      forall i :: (0 <= i < |rules| && ContainsIgnoreCase(message.value, rules[i].key)
                   && (forall j :: 0 <= j < i ==> !ContainsIgnoreCase(message.value, rules[j].key)))
                  ==> shown == rules[i].translation
  {
    match message
    case None => fallback
    case Some(m) => FirstMatch(rules, m).GetOr(m)
  }

  /** The initial state: authenticated as the backend's current user when
      there is one, otherwise the default state. */
  function CheckCurrentUser(current: Option<BackendUser>): (s: AuthState)
    ensures s.isAuthenticated <==> current.Some?
    ensures current.None? ==> s == DefaultState
    ensures current.Some? ==> (s.userId == Some(current.value.uid) && s.userEmail == current.value.email
                               && !s.isLoading && s.userType == Client && s.errorMessage.None?)
  {
    match current
    case None => DefaultState
    case Some(u) => DefaultState.(isAuthenticated := true, userId := Some(u.uid), userEmail := u.email)
  }

  /** Start of a login: both fields must be non-empty. */
  function LoginRequest(s: AuthState, email: string, password: string): (req: Request)
    ensures req.Rejected? <==> |email| == 0 || |password| == 0
    ensures req.Rejected? ==> req.state == s.(errorMessage := Some(EmptyFieldsMessage))
    ensures req.Submitted? ==> req.state == s.(isLoading := true, errorMessage := None)
  {
    if |email| == 0 || |password| == 0 then Rejected(s.(errorMessage := Some(EmptyFieldsMessage)))
    else Submitted(s.(isLoading := true, errorMessage := None))
  }

  /** The first failing registration check, in the order the view model
      applies them, or `None` when all pass. `isEmail` is the platform's email pattern. */
  function RegisterValidation(email: string, password: string, confirm: string,
                              isEmail: string -> bool): (err: Option<string>)
    ensures err.None? <==>
      |email| > 0 && |password| > 0 && |confirm| > 0 && isEmail(email)
      && |password| >= MinPasswordLength && password == confirm
    ensures (|email| == 0 || |password| == 0 || |confirm| == 0) ==> err == Some(EmptyFieldsMessage)
    ensures |email| > 0 && |password| > 0 && |confirm| > 0 && !isEmail(email) ==> err == Some(BadEmailMessage)
    ensures |email| > 0 && |password| > 0 && |confirm| > 0 && isEmail(email) && |password| < MinPasswordLength ==>
      err == Some(ShortPasswordMessage)
    ensures (|email| > 0 && |password| > 0 && |confirm| > 0 && isEmail(email)
             && |password| >= MinPasswordLength && password != confirm) ==> err == Some(MismatchMessage)
    ensures err == Some(MismatchMessage) ==>
      isEmail(email) && |password| >= MinPasswordLength && password != confirm
  {
    if |email| == 0 || |password| == 0 || |confirm| == 0 then Some(EmptyFieldsMessage)
    else if !isEmail(email) then Some(BadEmailMessage)
    else if |password| < MinPasswordLength then Some(ShortPasswordMessage)
    else if password != confirm then Some(MismatchMessage)
    else None
  }

  /** Start of a registration: the first failing check sets only the error. */
  function RegisterRequest(s: AuthState, email: string, password: string, confirm: string,
                           isEmail: string -> bool): (req: Request)
    ensures req.Rejected? <==> RegisterValidation(email, password, confirm, isEmail).Some?
    ensures req.Rejected? ==> req.state == s.(errorMessage := RegisterValidation(email, password, confirm, isEmail))
    ensures req.Submitted? ==> req.state == s.(isLoading := true, errorMessage := None)
  {
    match RegisterValidation(email, password, confirm, isEmail)
    case Some(e) => Rejected(s.(errorMessage := Some(e)))
    case None => Submitted(s.(isLoading := true, errorMessage := None))
  }

  /** Completion of a submitted login or registration. */
  function Complete(s: AuthState, result: BackendResult, isOperator: bool,
                    rules: seq<ErrorRule>, fallback: string): (t: AuthState)
    ensures !t.isLoading
    ensures result.Succeeded? ==>
      t.isAuthenticated && t.errorMessage.None? && (t.userType == Operator <==> isOperator)
      && t.userId == (if result.user.Some? then Some(result.user.value.uid) else None)
      && t.userEmail == (if result.user.Some? then result.user.value.email else None)
    ensures result.Failed? ==>
      t == s.(isLoading := false, errorMessage := Some(MapError(rules, fallback, result.message)))
  {
    match result
    case Succeeded(user) =>
      s.(isLoading := false, isAuthenticated := true,
         userType := if isOperator then Operator else Client,
         userId := if user.Some? then Some(user.value.uid) else None,
         userEmail := if user.Some? then user.value.email else None,
         errorMessage := None)
    case Failed(message) =>
      s.(isLoading := false, errorMessage := Some(MapError(rules, fallback, message)))
  }

  /** A whole login as the view model performs it: validation, then (only if
      submitted) the backend's answer, translated by the table as written. */
  function Login(s: AuthState, email: string, password: string, isOperator: bool,
                 result: BackendResult): (t: AuthState)
    ensures (|email| == 0 || |password| == 0) ==> t == s.(errorMessage := Some(EmptyFieldsMessage))
    ensures |email| > 0 && |password| > 0 && result.Succeeded? ==>
      t.isAuthenticated && !t.isLoading && t.errorMessage.None? && (t.userType == Operator <==> isOperator)
      && t.userId == (if result.user.Some? then Some(result.user.value.uid) else None)
      && t.userEmail == (if result.user.Some? then result.user.value.email else None)
    ensures |email| > 0 && |password| > 0 && result.Failed? ==>
      t.isAuthenticated == s.isAuthenticated && !t.isLoading
      && t.userType == s.userType && t.userId == s.userId && t.userEmail == s.userEmail
      && t.errorMessage == Some(MapError(LoginErrorRulesAsWritten, LoginFallback, result.message))
  {
    match LoginRequest(s, email, password)
    case Rejected(r) => r
    case Submitted(p) => Complete(p, result, isOperator, LoginErrorRulesAsWritten, LoginFallback)
  }

  /** A whole login with the intended translation table: the same as `Login`
      except for how a failure's message is shown. */
  function LoginIntended(s: AuthState, email: string, password: string, isOperator: bool,
                         result: BackendResult): (t: AuthState)
    ensures (|email| == 0 || |password| == 0 || result.Succeeded?) ==> t == Login(s, email, password, isOperator, result)
    ensures |email| > 0 && |password| > 0 && result.Failed? ==>
      t == Login(s, email, password, isOperator, result).(errorMessage := t.errorMessage)
      && t.errorMessage == Some(MapError(LoginErrorRules, LoginFallback, result.message))
  {
    match LoginRequest(s, email, password)
    case Rejected(r) => r
    case Submitted(p) => Complete(p, result, isOperator, LoginErrorRules, LoginFallback)
  }

  /** A whole registration: validation, then (only if submitted) the backend's answer. */
  function Register(s: AuthState, email: string, password: string, confirm: string, isOperator: bool,
                    isEmail: string -> bool, result: BackendResult): (t: AuthState)
    ensures RegisterValidation(email, password, confirm, isEmail).Some? ==>
      t == s.(errorMessage := RegisterValidation(email, password, confirm, isEmail))
    ensures RegisterValidation(email, password, confirm, isEmail).None? && result.Succeeded? ==>
      t.isAuthenticated && !t.isLoading && t.errorMessage.None? && (t.userType == Operator <==> isOperator)
      && t.userId == (if result.user.Some? then Some(result.user.value.uid) else None)
      && t.userEmail == (if result.user.Some? then result.user.value.email else None)
    ensures RegisterValidation(email, password, confirm, isEmail).None? && result.Failed? ==>
      t.isAuthenticated == s.isAuthenticated && !t.isLoading
      && t.userType == s.userType && t.userId == s.userId && t.userEmail == s.userEmail
      && t.errorMessage == Some(MapError(RegisterErrorRules, RegisterFallback, result.message))
  {
    match RegisterRequest(s, email, password, confirm, isEmail)
    case Rejected(r) => r
    case Submitted(p) => Complete(p, result, isOperator, RegisterErrorRules, RegisterFallback)
  }

  /** Logout forgets everything, whatever the state was. */
  function Logout(s: AuthState): (t: AuthState)
    ensures !t.isAuthenticated && t.userId.None? && t.userEmail.None? && t.errorMessage.None?
    ensures !t.isLoading && t.userType == Client
  {
    DefaultState
  }

  function ClearError(s: AuthState): (t: AuthState)
    ensures t.errorMessage.None?
    ensures t.isLoading == s.isLoading && t.isAuthenticated == s.isAuthenticated
    ensures t.userType == s.userType && t.userId == s.userId && t.userEmail == s.userEmail
  {
    s.(errorMessage := None)
  }

  // ----------------------------------------------------------------- lemmas

  /** Logging out after any history returns to the state of a fresh start
      with no signed-in user. */
  lemma LogoutIsFreshStart(s: AuthState)
    ensures Logout(s) == CheckCurrentUser(None)
  {
  }

  /** Clearing the error twice is the same as clearing it once, and clearing
      the error of a rejected login restores the state before the attempt
      when it had no error. */
  lemma ClearErrorUndoesRejectedLogin(s: AuthState, email: string, password: string, result: BackendResult)
    requires s.errorMessage.None?
    requires |email| == 0 || |password| == 0
    ensures ClearError(Login(s, email, password, false, result)) == s
    ensures ClearError(ClearError(s)) == ClearError(s)
  {
  }

  /** A login failure whose message contains one of the login keys is never
      shown raw: the first key it contains decides its translation. */
  lemma {:induction false} LoginErrorTranslated(s: AuthState, email: string, password: string, isOperator: bool,
                                                message: string, i: nat)
    requires |email| > 0 && |password| > 0
    requires i < |LoginErrorRulesAsWritten|
    requires ContainsIgnoreCase(message, LoginErrorRulesAsWritten[i].key)
    requires forall j :: 0 <= j < i ==> !ContainsIgnoreCase(message, LoginErrorRulesAsWritten[j].key)
    ensures MapError(LoginErrorRulesAsWritten, LoginFallback, Some(message)) == LoginErrorRulesAsWritten[i].translation
    ensures Login(s, email, password, isOperator, Failed(Some(message))).errorMessage
            == Some(LoginErrorRulesAsWritten[i].translation)
  {
    var k := FindIndex(LoginErrorRulesAsWritten, (r: ErrorRule) => ContainsIgnoreCase(message, r.key));
    assert k.Some?;
    assert k.value == i;
  }

  /** The same for the intended table. */
  lemma {:induction false} IntendedLoginErrorTranslated(message: string, i: nat)
    requires i < |LoginErrorRules|
    requires ContainsIgnoreCase(message, LoginErrorRules[i].key)
    requires forall j :: 0 <= j < i ==> !ContainsIgnoreCase(message, LoginErrorRules[j].key)
    ensures MapError(LoginErrorRules, LoginFallback, Some(message)) == LoginErrorRules[i].translation
  {
    var k := FindIndex(LoginErrorRules, (r: ErrorRule) => ContainsIgnoreCase(message, r.key));
    assert k.Some?;
    assert k.value == i;
  }

  /** A registration error containing one of the registration keys is shown
      as the translation of the first key it contains. */
  lemma {:induction false} RegisterErrorTranslated(message: string, i: nat)
    requires i < |RegisterErrorRules|
    requires ContainsIgnoreCase(message, RegisterErrorRules[i].key)
    requires forall j :: 0 <= j < i ==> !ContainsIgnoreCase(message, RegisterErrorRules[j].key)
    ensures MapError(RegisterErrorRules, RegisterFallback, Some(message)) == RegisterErrorRules[i].translation
  {
    var k := FindIndex(RegisterErrorRules, (r: ErrorRule) => ContainsIgnoreCase(message, r.key));
    assert k.Some?;
    assert k.value == i;
  }

  /** A rejected registration touches nothing but the error: clearing it
      gives back the state as it was, with its error cleared. */
  lemma RegisterRejectionOnlySetsError(s: AuthState, email: string, password: string, confirm: string,
                                       isOperator: bool, isEmail: string -> bool, result: BackendResult)
    requires RegisterValidation(email, password, confirm, isEmail).Some?
    ensures ClearError(Register(s, email, password, confirm, isOperator, isEmail, result)) == ClearError(s)
  {
  }

  /** Whatever passes registration's checks also passes login's. */
  lemma RegisterValidImpliesLoginSubmitted(s: AuthState, email: string, password: string, confirm: string,
                                           isEmail: string -> bool)
    requires RegisterValidation(email, password, confirm, isEmail).None?
    ensures LoginRequest(s, email, password).Submitted?
  {
  }

  /** The message the authentication backend gives for a badly formed address. */
  const BadlyFormattedError := "The email address is badly formatted."

  lemma NoUpperTail()
    ensures var tail := "he email address is badly formatted."; forall i :: 0 <= i < |tail| ==> !IsUpper(tail[i])
  {
  }

  /** The backend's message, lower-cased. */
  lemma LowerBadlyFormatted()
    ensures Lower(BadlyFormattedError) == "t" + "he email address is badly formatted."
  {
    var tail := "he email address is badly formatted.";
    NoUpperTail();
    LowerOfLowercase(tail);
    assert BadlyFormattedError == "T" + tail;
    LowerConcat("T", tail);
    assert Lower("T") == "t";
  }

  /** The keys of the login table as written are already lower case. */
  lemma AsWrittenKeysLowercase(i: nat)
    requires i < |LoginErrorRulesAsWritten|
    ensures Lower(LoginErrorRulesAsWritten[i].key) == LoginErrorRulesAsWritten[i].key
  {
    var k := LoginErrorRulesAsWritten[i].key;
    assert forall c :: 0 <= c < |k| ==> !IsUpper(k[c]);
    LowerOfLowercase(k);
  }

  lemma OnlyFAfterSpace(tail: string)
    requires tail == "he email address is badly formatted."
    ensures forall k :: 0 <= k < |tail| && tail[k] == 'f' ==> k == 26
    ensures |tail| > 26 && tail[25] == ' '
    ensures 'n' !in tail && 'p' !in tail && 'u' !in tail
  {
  }

  /** The lower-cased backend message has no 'n', 'p' or 'u'. */
  lemma BadlyFormattedLacksChars()
    ensures var m := Lower(BadlyFormattedError); 'n' !in m && 'p' !in m && 'u' !in m
  {
    LowerBadlyFormatted();
    var tail := "he email address is badly formatted.";
    OnlyFAfterSpace(tail);
    var m := Lower(BadlyFormattedError);
    assert m == "t" + tail;
    forall c | c in m ensures c != 'n' && c != 'p' && c != 'u' {
      var k :| 0 <= k < |m| && m[k] == c;
      if k > 0 { assert m[k] == tail[k - 1]; }
    }
  }

  /** A string whose only 'f' follows a space does not contain "lf". */
  lemma NoLfWhenFFollowsSpace(m: string, f: nat)
    requires forall k :: 0 <= k < |m| && m[k] == 'f' ==> k == f
    requires 0 < f < |m| && m[f - 1] == ' '
    ensures !Contains(m, "lf")
  {
    forall i | 0 <= i <= |m| - 2 ensures !OccursAt(m, "lf", i) {
      if m[i + 1] == 'f' {
        assert m[i..i + 2][0] == ' ';
      }
    }
  }

  /** The lower-cased backend message has no "lf" in it: its only 'f'
      follows a space. */
  lemma NoLfInBadlyFormatted()
    ensures !Contains(Lower(BadlyFormattedError), "lf")
  {
    LowerBadlyFormatted();
    var tail := "he email address is badly formatted.";
    OnlyFAfterSpace(tail);
    var m := Lower(BadlyFormattedError);
    assert m == "t" + tail;
    assert forall k :: 0 <= k < |m| && m[k] == 'f' ==> k == 27 by {
      forall k | 0 <= k < |m| && m[k] == 'f' ensures k == 27 {
        if k > 0 { assert m[k] == tail[k - 1]; }
      }
    }
    assert m[26] == tail[25];
    NoLfWhenFFollowsSpace(m, 27);
  }

  /** No key of the login table as written occurs in the backend's message
      for a badly formed address. */
  lemma NoAsWrittenKeyInBadlyFormatted(i: nat)
    requires i < |LoginErrorRulesAsWritten|
    ensures !ContainsIgnoreCase(BadlyFormattedError, LoginErrorRulesAsWritten[i].key)
  {
    LowerBadlyFormatted();
    var m := Lower(BadlyFormattedError);
    var key := LoginErrorRulesAsWritten[i].key;
    AsWrittenKeysLowercase(i);
    if i == 0 {
      assert OccursAt(key, "lf", 19);
      if Contains(m, key) {
        ContainsTransitive(m, key, "lf");
        NoLfInBadlyFormatted();
      }
    } else {
      BadlyFormattedLacksChars();
      assert key[0] in "npu";
      if Contains(m, key) {
        ContainsHasChars(m, key, key[0]);
      }
    }
  }

  /** As written, the login table does not recognise the backend's message
      for a badly formed address and shows it raw. */
  lemma BadlyFormattedShownRaw()
    ensures MapError(LoginErrorRulesAsWritten, LoginFallback, Some(BadlyFormattedError)) == BadlyFormattedError
  {
    forall i | 0 <= i < |LoginErrorRulesAsWritten|
      ensures !ContainsIgnoreCase(BadlyFormattedError, LoginErrorRulesAsWritten[i].key)
    {
      NoAsWrittenKeyInBadlyFormatted(i);
    }
  }

  /** With the intended table, a message naming either form of a bad
      address is always shown as "Formato de e-mail inválido". */
  lemma {:induction false} BadEmailTranslated(message: string)
    requires ContainsIgnoreCase(message, "email address is malformed") || ContainsIgnoreCase(message, "badly formatted")
    ensures MapError(LoginErrorRules, LoginFallback, Some(message)) == BadEmailMessage
  {
    if ContainsIgnoreCase(message, LoginErrorRules[0].key) {
      IntendedLoginErrorTranslated(message, 0);
    } else {
      IntendedLoginErrorTranslated(message, 1);
    }
  }

  /** In particular the backend's own message is translated. */
  lemma BadlyFormattedTranslated()
    ensures MapError(LoginErrorRules, LoginFallback, Some(BadlyFormattedError)) == BadEmailMessage
  {
    LowerBadlyFormatted();
    var m := Lower(BadlyFormattedError);
    LowerOfLowercase("badly formatted");
    assert m[21..36] == "badly formatted";
    assert OccursAt(m, "badly formatted", 21);
    BadEmailTranslated(BadlyFormattedError);
  }

  /** The discrepancy on the whole login: the backend's message for a badly
      formed address reaches the screen untranslated as written, and as
      "Formato de e-mail inválido" with the intended table. */
  lemma LoginBadlyFormattedGap(s: AuthState, email: string, password: string, isOperator: bool)
    requires |email| > 0 && |password| > 0
    ensures Login(s, email, password, isOperator, Failed(Some(BadlyFormattedError))).errorMessage
            == Some(BadlyFormattedError)
    ensures LoginIntended(s, email, password, isOperator, Failed(Some(BadlyFormattedError))).errorMessage
            == Some(BadEmailMessage)
  {
    BadlyFormattedShownRaw();
    BadlyFormattedTranslated();
  }
}
