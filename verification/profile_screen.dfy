/** The profile screen: the display name derived from the signed-in email,
    the change-password dialog (its local validation, the confirm handler's
    own checks, and how the reauthentication and update results are shown)
    and the edit-profile dialog's enable rule. The authentication backend's
    answers are inputs. */
module ProfileScreen {
  import opened Wrappers
  import opened Seqs
  import opened Text
  import opened AuthViewModel

  const DefaultUserName := "Usuário"

  /** The email's part before the first '@' (all of it when there is none),
      with a lower-case first letter capitalized; "Usuário" with no email. */
  function UserName(email: Option<string>): (name: string)
    ensures email.None? ==> name == DefaultUserName
    ensures email.Some? ==> |name| == |SubstringBefore(email.value, '@')|
    ensures email.Some? && |name| > 0 ==>
      name[1..] == SubstringBefore(email.value, '@')[1..] && !IsLower(name[0])
      && name[0] == ToUpperChar(SubstringBefore(email.value, '@')[0])
  {
    match email
    case None => DefaultUserName
    case Some(e) =>
      var local := SubstringBefore(e, '@');
      CapitalizeFirst(local)
  }

  /** An address whose local part starts with no lower-case letter shows
      that local part unchanged, whatever the domain. */
  lemma UserNameOfAddress(local: string, domain: string)
    requires '@' !in local
    requires |local| > 0 ==> !IsLower(local[0])
    ensures UserName(Some(local + "@" + domain)) == local
  {
    SubstringBeforeOfAddress(local, domain);
  }

  // ------------------------------------------------- change-password dialog

  const PasswordsDifferMessage := "As senhas não conferem"
  const DialogShortPasswordMessage := "A nova senha deve ter ao menos 6 caracteres"
  const MissingCurrentMessage := "Informe sua senha atual"
  const NotSignedInMessage := "Usuário não autenticado. Faça login novamente."
  const HandlerShortPasswordMessage := "A senha nova deve ter ao menos 6 caracteres"
  const PasswordUpdatedMessage := "Senha atualizada com sucesso"
  const UpdateFallback := "Erro ao atualizar a senha"
  const WrongPasswordMessage := "Senha atual incorreta"
  const ReauthFallback := "Erro ao reautenticar"

  /** The dialog's own check before it calls the confirm handler: the first
      failing rule's message, or `None` when the handler is called. */
  function ValidateDialog(current: string, newPassword: string, confirm: string): (err: Option<string>)
    ensures err.None? <==>
      newPassword == confirm && |newPassword| >= MinPasswordLength && !IsBlank(current)
    ensures newPassword != confirm ==> err == Some(PasswordsDifferMessage)
    ensures newPassword == confirm && |newPassword| < MinPasswordLength ==> err == Some(DialogShortPasswordMessage)
    ensures newPassword == confirm && |newPassword| >= MinPasswordLength && IsBlank(current) ==>
      err == Some(MissingCurrentMessage)
    ensures err == Some(MissingCurrentMessage) ==>
      newPassword == confirm && |newPassword| >= MinPasswordLength && IsBlank(current)
  {
    if newPassword != confirm then Some(PasswordsDifferMessage)
    else if |newPassword| < MinPasswordLength then Some(DialogShortPasswordMessage)
    else if IsBlank(current) then Some(MissingCurrentMessage)
    else None
  }

  /** The screen's state of a password change. */
  datatype PasswordChange = PasswordChange(open: bool, loading: bool, error: Option<string>, success: Option<string>)

  /** The state when the dialog is opened. */
  const OpenedChange := PasswordChange(true, false, None, None)

  /** The confirm handler either stops with an error, before contacting the
      backend, or starts reauthentication. */
  datatype Confirmation = Stopped(state: PasswordChange) | Reauthenticating(state: PasswordChange)

  /** How a backend task completed; a failure may carry no message. */
  datatype TaskResult = Done | Failed(message: Option<string>)

  function OnConfirm(st: PasswordChange, email: Option<string>, newPassword: string): (c: Confirmation)
    ensures c.Stopped? <==> email.None? || |newPassword| < MinPasswordLength
    ensures email.None? ==> c == Stopped(st.(error := Some(NotSignedInMessage)))
    ensures email.Some? && |newPassword| < MinPasswordLength ==>
      c == Stopped(st.(error := Some(HandlerShortPasswordMessage)))
    ensures c.Reauthenticating? ==>
      c.state == st.(loading := true, error := None, success := None)
  {
    if email.None? then Stopped(st.(error := Some(NotSignedInMessage)))
    else if |newPassword| < MinPasswordLength then Stopped(st.(error := Some(HandlerShortPasswordMessage)))
    else Reauthenticating(st.(loading := true, error := None, success := None))
  }

  /** Reauthentication failures are translated case-insensitively, wrong
      password first, then network. */
  const ReauthErrorRules := [
    ErrorRule("The password is invalid", WrongPasswordMessage),
    ErrorRule("invalid password", WrongPasswordMessage),
    ErrorRule("network", NetworkMessage)]

  function OnReauthFailed(st: PasswordChange, message: Option<string>): (t: PasswordChange)
    ensures !t.loading && t.open == st.open && t.success == st.success
    ensures t.error == Some(MapError(ReauthErrorRules, ReauthFallback, message))
  {
    st.(loading := false, error := Some(MapError(ReauthErrorRules, ReauthFallback, message)))
  }

  function OnUpdateDone(st: PasswordChange, result: TaskResult): (t: PasswordChange)
    ensures !t.loading
    ensures result.Done? ==> !t.open && t.success == Some(PasswordUpdatedMessage) && t.error.None?
    ensures result.Failed? ==> (t.open == st.open && t.success.None?
                                && t.error == Some(result.message.GetOr(UpdateFallback)))
  {
    match result
    case Done => st.(loading := false, success := Some(PasswordUpdatedMessage), error := None, open := false)
    case Failed(m) => st.(loading := false, error := Some(m.GetOr(UpdateFallback)), success := None)
  }

  /** Closing the dialog clears both messages. */
  function Dismiss(st: PasswordChange): (t: PasswordChange)
    ensures !t.open && t.error.None? && t.success.None? && t.loading == st.loading
  {
    st.(open := false, error := None, success := None)
  }

  /** A whole press of "Confirmar": the dialog's validation, the handler's
      checks, then (only if started) reauthentication and the update. The
      second field is the dialog's own validation message. */
  function SubmitChange(st: PasswordChange, email: Option<string>, current: string, newPassword: string,
                        confirm: string, reauth: TaskResult, update: TaskResult): (res: (PasswordChange, Option<string>))
    ensures res.1 == ValidateDialog(current, newPassword, confirm)
    ensures res.1.Some? ==> res.0 == st
    ensures res.1.None? && email.None? ==> res.0 == st.(error := Some(NotSignedInMessage))
    ensures res.1.None? && email.Some? ==> !res.0.loading
    ensures res.1.None? && email.Some? && reauth.Failed? ==>
      res.0.error == Some(MapError(ReauthErrorRules, ReauthFallback, reauth.message)) && res.0.success.None?
    ensures res.1.None? && email.Some? && reauth.Done? ==> res.0 == OnUpdateDone(st, update)
  {
    match ValidateDialog(current, newPassword, confirm)
    case Some(e) => (st, Some(e))
    case None =>
      match OnConfirm(st, email, newPassword)
      case Stopped(t) => (t, None)
      case Reauthenticating(t) =>
        match reauth
        case Failed(m) => (OnReauthFailed(t, m), None)
        case Done => (OnUpdateDone(t, update), None)
  }

  /** A new password the dialog accepts is never refused by the handler for
      its length: the only handler refusal left is a missing email. */
  lemma DialogAcceptedHandlerStarts(st: PasswordChange, email: Option<string>, current: string,
                                    newPassword: string, confirm: string)
    requires ValidateDialog(current, newPassword, confirm).None?
    ensures OnConfirm(st, email, newPassword).Stopped? <==> email.None?
    ensures OnConfirm(st, email, newPassword).Stopped? ==>
      OnConfirm(st, email, newPassword).state.error == Some(NotSignedInMessage)
  {
  }

  /** A successful change from a freshly opened dialog closes it showing the
      success message and no error. */
  lemma SuccessfulChangeCloses(email: string, current: string, newPassword: string)
    requires |newPassword| >= MinPasswordLength && !IsBlank(current)
    ensures SubmitChange(OpenedChange, Some(email), current, newPassword, newPassword, Done, Done)
      == (PasswordChange(false, false, None, Some(PasswordUpdatedMessage)), None)
  {
  }

  /** A reauthentication failure mentioning a wrong password, in any letter
      case, is shown as "Senha atual incorreta". */
  lemma {:induction false} WrongPasswordTranslated(message: string)
    requires ContainsIgnoreCase(message, "The password is invalid") || ContainsIgnoreCase(message, "invalid password")
    ensures MapError(ReauthErrorRules, ReauthFallback, Some(message)) == WrongPasswordMessage
  {
    var k := FindIndex(ReauthErrorRules, (r: ErrorRule) => ContainsIgnoreCase(message, r.key));
    assert ContainsIgnoreCase(message, ReauthErrorRules[0].key) || ContainsIgnoreCase(message, ReauthErrorRules[1].key);
  }

  // ---------------------------------------------------- edit-profile dialog

  /** The edit dialog's save button is enabled exactly for a name with some
      non-whitespace character. */
  function EditSaveEnabled(name: string): (enabled: bool)
    ensures enabled <==> |Trim(name)| > 0
  {
    TrimEmptyIffBlank(name);
    !IsBlank(name)
  }
}
