/**
  The password change screen (`ChangePasswordScreen`): live validation of the
  new password and its confirmation while they are typed, and the checks
  that gate the call to `resetPassword`. Lengths are JavaScript lengths, in
  UTF-16 code units.
 */
module PasswordChange {
  import opened Common

  const PasswordRequired: string := "A senha é obrigatória"
  const PasswordTooShort: string := "A senha deve ter no mínimo 6 caracteres"
  const ConfirmRequired: string := "Confirme sua senha"
  const PasswordsDiffer: string := "As senhas não coincidem"

  /** Passwords shorter than this many UTF-16 code units are refused. */
  const MinPasswordLength: nat := 6

  datatype Screen = Screen(senha: string, confirmaSenha: string, senhaError: string, confirmaSenhaError: string)

  const Initial: Screen := Screen("", "", "", "")

  /** A password the screen accepts: present and long enough. */
  predicate AcceptablePassword(p: string) {
    p != "" && Utf16Length(p) >= MinPasswordLength
  }

  /** `handleSenhaChange(text)`. A valid password also re-checks a confirmation
      already typed; an invalid one leaves the confirmation's error alone. */
  function HandleSenhaChange(s: Screen, text: string): (r: Screen)
    ensures r.senha == text && r.confirmaSenha == s.confirmaSenha
    ensures r.senhaError == "" <==> AcceptablePassword(text)
    ensures text == "" ==> r.senhaError == PasswordRequired
    ensures text != "" && !AcceptablePassword(text) ==> r.senhaError == PasswordTooShort
    ensures !AcceptablePassword(text) || s.confirmaSenha == "" ==> r.confirmaSenhaError == s.confirmaSenhaError
    ensures AcceptablePassword(text) && s.confirmaSenha != "" ==>
      r.confirmaSenhaError == (if s.confirmaSenha == text then "" else PasswordsDiffer)
  {
    var t := s.(senha := text);
    if text == "" then t.(senhaError := PasswordRequired)
    else if Utf16Length(text) < MinPasswordLength then t.(senhaError := PasswordTooShort)
    else
      var u := t.(senhaError := "");
      if s.confirmaSenha != "" && s.confirmaSenha != text then u.(confirmaSenhaError := PasswordsDiffer)
      else if s.confirmaSenha != "" then u.(confirmaSenhaError := "")
      else u
  }

  /** `handleConfirmaSenhaChange(text)`: the confirmation's error clears
      exactly when the text is present and equals the password. */
  function HandleConfirmaSenhaChange(s: Screen, text: string): (r: Screen)
    ensures r.confirmaSenha == text && r.senha == s.senha && r.senhaError == s.senhaError
    ensures r.confirmaSenhaError == "" <==> text != "" && text == s.senha
    ensures text == "" ==> r.confirmaSenhaError == ConfirmRequired
    ensures text != "" && text != s.senha ==> r.confirmaSenhaError == PasswordsDiffer
  {
    var t := s.(confirmaSenha := text);
    if text == "" then t.(confirmaSenhaError := ConfirmRequired)
    else if text != s.senha then t.(confirmaSenhaError := PasswordsDiffer)
    else t.(confirmaSenhaError := "")
  }

  /** The screen after a submission attempt, and whether `resetPassword` was
      called with the new password. */
  datatype Submission = Submission(screen: Screen, submitted: bool)

  /** `handleChangePassword`: the password is checked first, then the
      confirmation; the first failing check sets its field's error and stops. */
  function HandleChangePassword(s: Screen): (r: Submission)
    ensures r.submitted <==> AcceptablePassword(s.senha) && s.confirmaSenha == s.senha
    ensures r.submitted ==> r.screen == s
    ensures s.senha == "" ==> r.screen == s.(senhaError := PasswordRequired)
    ensures s.senha != "" && !AcceptablePassword(s.senha) ==> r.screen == s.(senhaError := PasswordTooShort)
    ensures AcceptablePassword(s.senha) && s.confirmaSenha == "" ==> r.screen == s.(confirmaSenhaError := ConfirmRequired)
    ensures AcceptablePassword(s.senha) && s.confirmaSenha != "" && s.confirmaSenha != s.senha ==>
      r.screen == s.(confirmaSenhaError := PasswordsDiffer)
  {
    if s.senha == "" then Submission(s.(senhaError := PasswordRequired), false)
    else if Utf16Length(s.senha) < MinPasswordLength then Submission(s.(senhaError := PasswordTooShort), false)
    else if s.confirmaSenha == "" then Submission(s.(confirmaSenhaError := ConfirmRequired), false)
    else if s.senha != s.confirmaSenha then Submission(s.(confirmaSenhaError := PasswordsDiffer), false)
    else Submission(s, true)
  }

  /** The live errors and the submit check agree: after typing a password and
      then its confirmation, the submission goes through exactly when neither
      field shows an error. */
  lemma LiveErrorsPredictSubmission(s: Screen, password: string, confirmation: string)
    ensures var t := HandleConfirmaSenhaChange(HandleSenhaChange(s, password), confirmation);
      HandleChangePassword(t).submitted <==> t.senhaError == "" && t.confirmaSenhaError == ""
  {
  }

  /** A password of six characters from outside the Basic Multilingual Plane
      is twelve code units long, so three of them already pass the length
      check. */
  lemma LengthCountsCodeUnits()
    ensures AcceptablePassword("\U{1F600}\U{1F600}\U{1F600}")
  {
    var p := "\U{1F600}\U{1F600}\U{1F600}";
    assert p[1..][1..][1..] == [];
  }
}
