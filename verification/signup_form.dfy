/**
  The user sign-up screen (`CadastroUsuarioScreen`): `validarCampos`, which
  checks every field and sets every field's error in one pass, and the gate
  in `handleRegister` that calls `register` only after it. The e-mail check
  `validarEmail` is defined outside this screen and is a parameter here.
 */
module SignupForm {
  import opened Common
  import AuthService

  const NameRequired: string := "Nome é obrigatório"
  const PhoneInvalid: string := "Celular inválido"
  const EmailRequired: string := "Email é obrigatório"
  const EmailInvalid: string := "Formato de email inválido"
  const PasswordRequired: string := "Senha é obrigatória"
  const PasswordTooShort: string := "A senha deve ter no mínimo 6 caracteres"
  const PasswordsDiffer: string := "As senhas não coincidem"
  const TermsRequired: string := "É necessário aceitar os termos de uso e política de privacidade."

  /** An error toast: its title line and its detail line. */
  datatype Toast = Toast(text1: string, text2: string)

  /** The toast for terms not accepted. */
  const TermsToast: Toast := Toast("Erro ao cadastrar usuário", TermsRequired)

  /** Phone numbers shorter than this many UTF-16 code units are refused. */
  const MinPhoneLength: nat := 11
  /** Passwords shorter than this many UTF-16 code units are refused. */
  const MinPasswordLength: nat := 6

  datatype Screen = Screen(
    nome: string,
    celular: string,
    email: string,
    senha: string,
    confirmaSenha: string,
    termoAceite: bool,
    nomeError: string,
    celularError: string,
    emailError: string,
    senhaError: string,
    confirmaSenhaError: string)

  /** The name's check: required once trimmed. */
  function NomeError(nome: string): (e: string)
    ensures e == "" <==> Trim(nome) != []
    ensures e != "" ==> e == NameRequired
  {
    if Trim(nome) == [] then NameRequired else ""
  }

  /** The phone's check: present and at least eleven code units long. */
  function CelularError(celular: string): (e: string)
    ensures e == "" <==> Utf16Length(celular) >= MinPhoneLength
    ensures e != "" ==> e == PhoneInvalid
  {
    if celular == "" || Utf16Length(celular) < MinPhoneLength then PhoneInvalid else ""
  }

  /** The e-mail's check: required once trimmed, then `validarEmail`. */
  function EmailError(email: string, validarEmail: string -> bool): (e: string)
    ensures e == "" <==> Trim(email) != [] && validarEmail(email)
    ensures Trim(email) == [] ==> e == EmailRequired
    ensures Trim(email) != [] && e != "" ==> e == EmailInvalid
  {
    if Trim(email) == [] then EmailRequired else if !validarEmail(email) then EmailInvalid else ""
  }

  /** The password's check: required, then at least six code units long. */
  function SenhaError(senha: string): (e: string)
    ensures e == "" <==> Utf16Length(senha) >= MinPasswordLength
    ensures senha == "" ==> e == PasswordRequired
    ensures senha != "" && e != "" ==> e == PasswordTooShort
  {
    if senha == "" then PasswordRequired
    else if Utf16Length(senha) < MinPasswordLength then PasswordTooShort
    else ""
  }

  /** The confirmation's check: equal to the password. */
  function ConfirmaSenhaError(senha: string, confirmaSenha: string): (e: string)
    ensures e == "" <==> senha == confirmaSenha
    ensures e != "" ==> e == PasswordsDiffer
  {
    if senha != confirmaSenha then PasswordsDiffer else ""
  }

  /** The screen after `validarCampos`, its verdict, and the error toasts it
      showed. */
  datatype Checked = Checked(screen: Screen, valid: bool, toasts: seq<Toast>)

  /** `validarCampos`: every check runs and sets its own field's error, with
      no check skipped after a failure; the terms, which have no field, raise
      a toast instead. */
  function ValidarCampos(f: Screen, validarEmail: string -> bool): (r: Checked)
    ensures r.screen == f.(nomeError := NomeError(f.nome), celularError := CelularError(f.celular),
                           emailError := EmailError(f.email, validarEmail), senhaError := SenhaError(f.senha),
                           confirmaSenhaError := ConfirmaSenhaError(f.senha, f.confirmaSenha))
    ensures r.toasts == (if f.termoAceite then [] else [TermsToast])
    ensures r.valid <==>
      && r.screen.nomeError == "" && r.screen.celularError == "" && r.screen.emailError == ""
      && r.screen.senhaError == "" && r.screen.confirmaSenhaError == "" && r.toasts == []
  {
    var screen := f.(
      nomeError := NomeError(f.nome),
      celularError := CelularError(f.celular),
      emailError := EmailError(f.email, validarEmail),
      senhaError := SenhaError(f.senha),
      confirmaSenhaError := ConfirmaSenhaError(f.senha, f.confirmaSenha));
    var valid :=
      && screen.nomeError == "" && screen.celularError == "" && screen.emailError == ""
      && screen.senhaError == "" && screen.confirmaSenhaError == "" && f.termoAceite;
    Checked(screen, valid, if f.termoAceite then [] else [TermsToast])
  }

  /** The screen as a whole is valid exactly when each field is. */
  lemma ValidMeansEveryField(f: Screen, validarEmail: string -> bool)
    ensures ValidarCampos(f, validarEmail).valid <==>
      && Trim(f.nome) != []
      && Utf16Length(f.celular) >= MinPhoneLength
      && Trim(f.email) != [] && validarEmail(f.email)
      && Utf16Length(f.senha) >= MinPasswordLength
      && f.confirmaSenha == f.senha
      && f.termoAceite
  {
  }

  /** One field's error depends on that field alone: changing the phone
      number leaves every other error as it was. */
  lemma ErrorsAreIndependent(f: Screen, phone: string, validarEmail: string -> bool)
    ensures var a := ValidarCampos(f, validarEmail).screen;
            var b := ValidarCampos(f.(celular := phone), validarEmail).screen;
      && a.nomeError == b.nomeError && a.emailError == b.emailError
      && a.senhaError == b.senhaError && a.confirmaSenhaError == b.confirmaSenhaError
  {
  }

  /** `handleRegister`'s gate: the screen after validation, and whether
      `register` was called. */
  datatype Attempt = Attempt(screen: Screen, registerCalled: bool)

  function HandleRegister(f: Screen, validarEmail: string -> bool): (r: Attempt)
    ensures r.registerCalled <==> ValidarCampos(f, validarEmail).valid
    ensures r.screen == ValidarCampos(f, validarEmail).screen
  {
    var c := ValidarCampos(f, validarEmail);
    Attempt(c.screen, c.valid)
  }

  /** A screen that passes its own checks never meets `register`'s "all
      fields required" or "passwords differ" refusals; when `validarEmail`
      implies `register`'s e-mail pattern, `register` goes on to the server. */
  lemma ScreenChecksCoverRegister(f: Screen, validarEmail: string -> bool)
    ensures HandleRegister(f, validarEmail).registerCalled ==>
      var p := AuthService.RegisterPrecheck(f.nome, f.email, f.celular, f.senha, f.confirmaSenha);
      && p != AuthService.Refused(AuthService.Message(AuthService.AllFieldsRequired, None, AuthService.Warning))
      && (p.Refused? ==> p.message.text == AuthService.InvalidEmailFormat)
      && (AuthService.EmailShaped(f.email) ==> p == AuthService.Proceeds)
  {
    if HandleRegister(f, validarEmail).registerCalled {
      assert f.nome != [] && f.email != [];
      assert f.celular != [] && f.senha != [];
    }
  }
}
