/**
  The participant registration screen (`CadastroParticipanteScreen`): the
  name and age validators, the gate in front of the confirmation modal, the
  payload sent to the server, and the reset for registering another
  participant. Field errors are strings, `""` meaning no error, as in the
  screen's state.
 */
module ParticipantForm {
  import opened Common
  import opened Numerals

  /** A validator's verdict and the error text it stores for the field. */
  datatype Verdict = Verdict(ok: bool, error: string)

  const NameRequired: string := "O nome é obrigatório"
  const NameLettersOnly: string := "O nome deve conter apenas letras e espaços"
  const AgeRequired: string := "A idade é obrigatória"
  const AgeOutOfRange: string := "Idade deve estar entre 1 e 99 anos"

  const DefaultGender: string := "Masculino"
  const DefaultSupportLevel: string := "1"
  const DefaultWordCount: string := "Não pronuncia nenhuma palavra"
  const UnknownSupportLevel: string := "Não sei informar"

  // ---------------------------------------------------------------------------
  // The name
  // ---------------------------------------------------------------------------

  /** One character of the class `[a-zA-ZÀ-ÿ\s]` as written: the range `À-ÿ`
      is every code point from U+00C0 to U+00FF. */
  predicate NameCharAsWritten(c: char) {
    ('a' <= c <= 'z') || ('A' <= c <= 'Z') || ('\U{00C0}' <= c <= '\U{00FF}') || IsWhitespace(c)
  }

  /** The class as evidently intended, letters and spaces only: the range
      without the multiplication sign U+00D7 and the division sign U+00F7. */
  predicate NameChar(c: char) {
    NameCharAsWritten(c) && c != '\U{00D7}' && c != '\U{00F7}'
  }

  /** An independent description of the intended alphabet: the ASCII letters
      and the letters of the Latin-1 Supplement from À on. */
  predicate IsLatinLetter(c: char) {
    || ('a' <= c <= 'z') || ('A' <= c <= 'Z')
    || ('\U{00C0}' <= c <= '\U{00D6}') || ('\U{00D8}' <= c <= '\U{00F6}') || ('\U{00F8}' <= c <= '\U{00FF}')
  }

  /** `validateNome`, with the character class as written. */
  function ValidateNomeAsWritten(value: string): (v: Verdict)
    ensures v.ok <==> Trim(value) != [] && forall i :: 0 <= i < |value| ==> NameCharAsWritten(value[i])
    ensures v.ok <==> v.error == ""
  {
    if Trim(value) == [] then Verdict(false, NameRequired)
    else if !(forall i :: 0 <= i < |value| ==> NameCharAsWritten(value[i])) then Verdict(false, NameLettersOnly)
    else Verdict(true, "")
  }

  /** `validateNome`: a name blank after trimming is required, and every
      character must be a letter or white space. */
  function ValidateNome(value: string): (v: Verdict)
    ensures v.ok <==> v.error == ""
    ensures Trim(value) == [] ==> v == Verdict(false, NameRequired)
    ensures Trim(value) != [] && !v.ok ==> v.error == NameLettersOnly
  {
    if Trim(value) == [] then Verdict(false, NameRequired)
    else if !(forall i :: 0 <= i < |value| ==> NameChar(value[i])) then Verdict(false, NameLettersOnly)
    else Verdict(true, "")
  }

  /** Character by character, the corrected class is the letters and the
      white space, which do not overlap. */
  lemma NameCharIsLetterOrSpace(c: char)
    ensures NameChar(c) <==> IsLatinLetter(c) || IsWhitespace(c)
    ensures IsLatinLetter(c) ==> !IsWhitespace(c)
  {
  }

  /** The corrected validator accepts exactly the names made of letters and
      white space with at least one letter. */
  lemma ValidateNomeMeansLetters(value: string)
    ensures ValidateNome(value).ok <==>
      (exists i :: 0 <= i < |value| && IsLatinLetter(value[i]))
      && forall i :: 0 <= i < |value| ==> IsLatinLetter(value[i]) || IsWhitespace(value[i])
  {
    TrimEmptyIffBlank(value);
    forall i | 0 <= i < |value|
      ensures NameChar(value[i]) <==> IsLatinLetter(value[i]) || IsWhitespace(value[i])
      ensures IsLatinLetter(value[i]) ==> !IsWhitespace(value[i])
    {
      NameCharIsLetterOrSpace(value[i]);
    }
    if ValidateNome(value).ok {
      var i :| 0 <= i < |value| && !IsWhitespace(value[i]);
      assert IsLatinLetter(value[i]);
    }
  }

  /** As written, the class lets arithmetic signs through: "Ana × Bia" passes
      the screen's check, and the corrected check refuses it. */
  lemma NameAcceptsMultiplicationSign()
    ensures ValidateNomeAsWritten("Ana \U{00D7} Bia").ok
    ensures !ValidateNome("Ana \U{00D7} Bia").ok
  {
    var s := "Ana \U{00D7} Bia";
    assert !IsWhitespace(s[0]);
    TrimEmptyIffBlank(s);
    assert !NameChar(s[4]);
  }

  // ---------------------------------------------------------------------------
  // The age
  // ---------------------------------------------------------------------------

  /** `validateIdade`: a blank age is required; otherwise `parseInt` must read
      a number from 1 to 99. */
  function ValidateIdade(value: string): (v: Verdict)
    ensures v.ok <==> v.error == ""
    ensures v.ok <==> Trim(value) != [] && ParseInt(value).Some? && 1 <= ParseInt(value).value <= 99
    ensures Trim(value) == [] ==> v == Verdict(false, AgeRequired)
    ensures Trim(value) != [] && !v.ok ==> v.error == AgeOutOfRange
  {
    if Trim(value) == [] then Verdict(false, AgeRequired)
    else
      var n := ParseInt(value);
      if n.None? || n.value < 1 || n.value > 99 then Verdict(false, AgeOutOfRange)
      else Verdict(true, "")
  }

  /** An age typed as a plain number is accepted exactly when it is 1 to 99. */
  lemma ValidateIdadeOfNumber(n: nat)
    ensures ValidateIdade(NatToString(n)).ok <==> 1 <= n <= 99
  {
    var s := NatToString(n);
    assert !IsWhitespace(s[0]);
    TrimEmptyIffBlank(s);
    ParseIntNatToString(n);
  }

  /** `parseInt` reads only the leading digits, so text after the number is
      not refused: "12 anos" is a valid age. */
  lemma ValidateIdadeIgnoresTrailingText()
    ensures ValidateIdade("12 anos").ok
  {
    ParseIntTwelveAnos();
    NotBlank("12 anos");
  }

  lemma ParseIntTwelveAnos()
    ensures ParseInt("12 anos") == Some(12)
  {
    assert "12" + " anos" == "12 anos";
    assert ValueIn("12", 10) == 12 by {
      assert "12"[..1] == "1";
    }
    ParseIntStopsAtNonDigit("12", " anos");
  }

  /** Text that starts with a character other than white space is not blank. */
  lemma NotBlank(s: string)
    requires s != [] && !IsWhitespace(s[0])
    ensures Trim(s) != []
  {
    TrimEmptyIffBlank(s);
  }

  // ---------------------------------------------------------------------------
  // The screen
  // ---------------------------------------------------------------------------

  datatype Screen = Screen(
    nome: string,
    genero: string,
    nivelSuporte: string,
    qtdPalavras: string,
    idade: string,
    idadeError: string,
    nomeError: string,
    modalVisible: bool,
    successModalVisible: bool,
    participantId: Option<string>)

  const Initial: Screen :=
    Screen("", DefaultGender, DefaultSupportLevel, DefaultWordCount, "", "", "", false, false, None)

  /** The gate of `handleOpenModal` given the name's verdict: the age is
      checked first; only a valid age lets the name verdict be stored, and
      only a valid name then opens the modal. */
  function OpenModalWith(f: Screen, name: Verdict): (r: Screen)
    ensures r.idadeError == ValidateIdade(f.idade).error
    ensures !ValidateIdade(f.idade).ok ==> r == f.(idadeError := r.idadeError)
    ensures ValidateIdade(f.idade).ok ==> r.nomeError == name.error
    ensures r.modalVisible <==> f.modalVisible || (ValidateIdade(f.idade).ok && name.ok)
    ensures r.nome == f.nome && r.idade == f.idade && r.genero == f.genero
  {
    var age := ValidateIdade(f.idade);
    var f1 := f.(idadeError := age.error);
    if !age.ok then f1
    else
      var f2 := f1.(nomeError := name.error);
      if !name.ok then f2 else f2.(modalVisible := true)
  }

  /** `handleOpenModal` as the screen runs it, with the name class as written. */
  function HandleOpenModal(f: Screen): (r: Screen)
    ensures r.idadeError == ValidateIdade(f.idade).error
    ensures !ValidateIdade(f.idade).ok ==> r == f.(idadeError := r.idadeError)
    ensures ValidateIdade(f.idade).ok ==> r.nomeError == ValidateNomeAsWritten(f.nome).error
    ensures r.modalVisible <==> f.modalVisible || (ValidateIdade(f.idade).ok && ValidateNomeAsWritten(f.nome).ok)
    ensures r.nome == f.nome && r.idade == f.idade && r.genero == f.genero
  {
    OpenModalWith(f, ValidateNomeAsWritten(f.nome))
  }

  /** `handleOpenModal` with the corrected name class. */
  function HandleOpenModalCorrected(f: Screen): (r: Screen)
    ensures r.idadeError == ValidateIdade(f.idade).error
    ensures !ValidateIdade(f.idade).ok ==> r == f.(idadeError := r.idadeError)
    ensures ValidateIdade(f.idade).ok ==> r.nomeError == ValidateNome(f.nome).error
    ensures r.modalVisible <==> f.modalVisible || (ValidateIdade(f.idade).ok && ValidateNome(f.nome).ok)
    ensures r.nome == f.nome && r.idade == f.idade && r.genero == f.genero
  {
    OpenModalWith(f, ValidateNome(f.nome))
  }

  /** The body `createParticipante` receives. `None` stands for `NaN`. */
  datatype Payload = Payload(genero: string, idade: Option<int>, nivelSuporte: Option<int>, qtdPalavras: string, nome: string)

  /** The support level sent: 0 for "Não sei informar", otherwise the number
      `parseInt` reads. */
  function SupportLevel(nivel: string): (n: Option<int>)
    ensures nivel == UnknownSupportLevel ==> n == Some(0)
  {
    if nivel == UnknownSupportLevel then Some(0) else ParseInt(nivel)
  }

  function PayloadOf(f: Screen): (p: Payload)
    ensures p.genero == f.genero && p.qtdPalavras == f.qtdPalavras && p.nome == f.nome
    ensures p.idade == ParseInt(f.idade) && p.nivelSuporte == SupportLevel(f.nivelSuporte)
  {
    Payload(f.genero, ParseInt(f.idade), SupportLevel(f.nivelSuporte), f.qtdPalavras, f.nome)
  }

  /** Whenever the screen's handler opens the confirmation modal, the payload
      it will send carries an age from 1 to 99 and a name that is not blank
      and is drawn from the class as written, signs included. */
  lemma OpenModalMeansValidPayload(f: Screen)
    ensures !f.modalVisible && HandleOpenModal(f).modalVisible ==>
      && PayloadOf(f).idade.Some? && 1 <= PayloadOf(f).idade.value <= 99
      && Trim(PayloadOf(f).nome) != []
      && forall i :: 0 <= i < |PayloadOf(f).nome| ==> NameCharAsWritten(PayloadOf(f).nome[i])
  {
  }

  /** Whenever the corrected handler opens the confirmation modal, the payload
      carries an age from 1 to 99 and a name of letters and spaces. */
  lemma OpenModalCorrectedMeansValidPayload(f: Screen)
    ensures !f.modalVisible && HandleOpenModalCorrected(f).modalVisible ==>
      && PayloadOf(f).idade.Some? && 1 <= PayloadOf(f).idade.value <= 99
      && (exists i :: 0 <= i < |PayloadOf(f).nome| && IsLatinLetter(PayloadOf(f).nome[i]))
      && forall i :: 0 <= i < |PayloadOf(f).nome| ==>
           IsLatinLetter(PayloadOf(f).nome[i]) || IsWhitespace(PayloadOf(f).nome[i])
  {
    ValidateNomeMeansLetters(f.nome);
  }

  /** With the age "12 anos", the screen opens the modal for "Ana × Bia";
      the corrected handler shows the letters-only error instead. */
  lemma OpenModalAcceptsMultiplicationSign()
    ensures var f := Initial.(nome := "Ana \U{00D7} Bia", idade := "12 anos");
      && HandleOpenModal(f).modalVisible
      && !HandleOpenModalCorrected(f).modalVisible
      && HandleOpenModalCorrected(f).nomeError == NameLettersOnly
  {
    ValidateIdadeIgnoresTrailingText();
    NameAcceptsMultiplicationSign();
  }

  /** The levels the form's select offers, "1" to "3" and "0" for "Não sei
      informar", are sent as those numbers; the label itself would be sent as
      0 too. */
  lemma SupportLevelOfOptions()
    ensures SupportLevel("1") == Some(1) && SupportLevel("2") == Some(2) && SupportLevel("3") == Some(3)
    ensures SupportLevel("0") == Some(0) == SupportLevel(UnknownSupportLevel)
  {
    ParseIntNatToString(1);
    ParseIntNatToString(2);
    ParseIntNatToString(3);
    ParseIntNatToString(0);
  }

  /** `handleCreateAnother`: the success modal closes and the participant's
      fields return to the screen's initial values; field errors and the
      confirmation modal are left as they are. */
  function HandleCreateAnother(f: Screen): (r: Screen)
    ensures r.(idadeError := Initial.idadeError, nomeError := Initial.nomeError, modalVisible := Initial.modalVisible) == Initial
    ensures r.idadeError == f.idadeError && r.nomeError == f.nomeError && r.modalVisible == f.modalVisible
  {
    f.(successModalVisible := false, nome := "", idade := "", qtdPalavras := DefaultWordCount,
       genero := DefaultGender, nivelSuporte := DefaultSupportLevel, participantId := None)
  }

  /** Registering another participant twice is registering another once. */
  lemma CreateAnotherIdempotent(f: Screen)
    ensures HandleCreateAnother(HandleCreateAnother(f)) == HandleCreateAnother(f)
  {
  }
}
