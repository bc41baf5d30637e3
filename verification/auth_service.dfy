/**
  The session helpers of `authService`: the checks `register` makes before it
  calls the server, the e-mail pattern `^\S+@\S+\.\S+$`, the storage of the
  token and its expiry, and the periodic token refresher with at most one
  interval running. Storage is a map from key to value; the server's answer
  to a refresh and the interval handle the runtime hands out are parameters.
 */
module AuthService {
  import opened Common
  import opened Numerals

  datatype MessageKind = Warning | Danger

  /** A flash message: its text, an optional description, and its kind. */
  datatype Message = Message(text: string, description: Option<string>, kind: MessageKind)

  const AllFieldsRequired: string := "Todos os campos são obrigatórios."
  const InvalidEmailFormat: string := "Formato do email é inválido."
  const PasswordsDiffer: string := "As senhas não coincidem."

  // ---------------------------------------------------------------------------
  // The e-mail pattern
  // ---------------------------------------------------------------------------

  /** `^\S+@\S+\.\S+$`: no white space anywhere, and an `@` with something
      before it, then a `.` with something between them and after it. */
  predicate EmailShaped(s: string) {
    && NoWhitespace(s)
    && exists a :: 1 <= a < |s| && s[a] == '@' &&
         exists d :: a + 2 <= d < |s| - 1 && s[d] == '.'
  }

  /** One scan of the string matches the pattern: it remembers the first `@`
      that has something before it, and looks for a `.` far enough after it
      with something still to come. */
  method MatchesEmail(s: string) returns (ok: bool)
    ensures ok <==> EmailShaped(s)
  {
    var at: int := -1;
    var found := false;
    var blank := false;
    for i := 0 to |s|
      invariant blank <==> exists k :: 0 <= k < i && IsWhitespace(s[k])
      invariant at == -1 ==> forall k :: 1 <= k < i ==> s[k] != '@'
      invariant at != -1 ==> 1 <= at < i && s[at] == '@' && forall k :: 1 <= k < at ==> s[k] != '@'
      invariant found <==> exists a :: 1 <= a < i && s[a] == '@' &&
                             exists d :: a + 2 <= d < i && d < |s| - 1 && s[d] == '.'
    {
      if IsWhitespace(s[i]) {
        blank := true;
      }
      if s[i] == '.' && at != -1 && at + 2 <= i && i < |s| - 1 {
        found := true;
      }
      if s[i] == '@' && i >= 1 && at == -1 {
        at := i;
      }
    }
    ok := found && !blank;
  }

  lemma EmailExamples()
    ensures EmailShaped("ana@exemplo.com")
    ensures !EmailShaped("ana@exemplo")
    ensures !EmailShaped("@exemplo.com")
    ensures !EmailShaped("ana@.com")
    ensures !EmailShaped("ana @exemplo.com")
  {
    var good := "ana@exemplo.com";
    assert good[3] == '@' && good[11] == '.';
    var blank := "ana @exemplo.com";
    assert IsWhitespace(blank[3]);
    var noSep := "ana@.com";
    assert forall a :: 1 <= a < |noSep| && noSep[a] == '@' ==> a == 3;
  }

  // ---------------------------------------------------------------------------
  // register, up to the request
  // ---------------------------------------------------------------------------

  /** What `register` does before any request: refuse with a message, or go
      on to call the server. */
  datatype Precheck = Refused(message: Message) | Proceeds

  /** The checks of `register`, in order: every field present, the e-mail
      matching the pattern, the two passwords equal. */
  function RegisterPrecheck(nome: string, email: string, celular: string, senha: string, confirmaSenha: string): (r: Precheck)
    ensures r == Proceeds <==>
      nome != "" && celular != "" && email != "" && senha != "" && confirmaSenha != ""
      && EmailShaped(email) && senha == confirmaSenha
    ensures nome == "" || celular == "" || email == "" || senha == "" || confirmaSenha == "" ==>
      r == Refused(Message(AllFieldsRequired, None, Warning))
    ensures nome != "" && celular != "" && email != "" && senha != "" && confirmaSenha != "" && !EmailShaped(email) ==>
      r == Refused(Message(InvalidEmailFormat, None, Danger))
    ensures (nome != "" && celular != "" && email != "" && senha != "" && confirmaSenha != ""
             && EmailShaped(email) && senha != confirmaSenha) ==>
      r == Refused(Message(PasswordsDiffer, None, Warning))
  {
    if nome == "" || celular == "" || email == "" || senha == "" || confirmaSenha == "" then
      Refused(Message(AllFieldsRequired, None, Warning))
    else if !EmailShaped(email) then Refused(Message(InvalidEmailFormat, None, Danger))
    else if senha != confirmaSenha then Refused(Message(PasswordsDiffer, None, Warning))
    else Proceeds
  }

  // ---------------------------------------------------------------------------
  // Token storage
  // ---------------------------------------------------------------------------

  /** AsyncStorage, key to value. */
  type Store = map<string, string>

  /** The claims read from a token. `exp` is in seconds since the epoch. */
  datatype Claims = Claims(exp: int, role: string, sub: string)

  /** `saveTokens`: the token, its expiry in milliseconds, the role and the
      user id, written together; every other key is kept. */
  function SaveTokens(store: Store, accessToken: string, claims: Claims): (r: Store)
    ensures r.Keys == store.Keys + {"token", "tokenExpires", "role", "userId"}
    ensures r["token"] == accessToken && r["role"] == claims.role && r["userId"] == claims.sub
    ensures forall k :: k in store && k !in {"token", "tokenExpires", "role", "userId"} ==> r[k] == store[k]
  {
    store["token" := accessToken]["tokenExpires" := IntToString(claims.exp * 1000)]
         ["role" := claims.role]["userId" := claims.sub]
  }

  /** JavaScript `Number(v)` on the values read back here: `null` and blank
      strings are 0, an optionally signed run of decimal digits (white space
      around it ignored) is its value. `None` stands for every other result. */
  function NumberOf(v: Option<string>): (n: Option<int>)
    ensures v.None? ==> n == Some(0)
    ensures v.Some? && Trim(v.value) == [] ==> n == Some(0)
  {
    match v
    case None => Some(0)
    case Some(x) => DecimalValue(Trim(x))
  }

  /** The value of trimmed text that is empty or an optionally signed run of
      decimal digits. */
  function DecimalValue(t: string): (n: Option<int>)
    ensures t == [] ==> n == Some(0)
    ensures n.Some? && t != [] ==> IsDigit(t[|t| - 1])
  {
    if t == [] then Some(0)
    else if AllRadixDigits(t, 10) then Some(ValueIn(t, 10))
    else if |t| >= 2 && (t[0] == '-' || t[0] == '+') && AllRadixDigits(t[1..], 10) then
      var magnitude: int := ValueIn(t[1..], 10);
      Some(if t[0] == '-' then -magnitude else magnitude)
    else None
  }

  /** `getExpirationTime`: the stored expiry read as a number. */
  function GetExpirationTime(store: Store): (n: Option<int>)
    ensures "tokenExpires" !in store ==> n == Some(0)
  {
    NumberOf(if "tokenExpires" in store then Some(store["tokenExpires"]) else None)
  }

  /** A rendered integer has no white space to trim. */
  lemma TrimIntToString(i: int)
    ensures Trim(IntToString(i)) == IntToString(i)
  {
    var s := IntToString(i);
    assert !IsWhitespace(s[0]);
    assert TrimStart(s) == s;
    assert !IsWhitespace(s[|s| - 1]);
  }

  /** `Number` reads back what `toString` wrote for an integer. */
  lemma NumberOfIntToString(i: int)
    ensures NumberOf(Some(IntToString(i))) == Some(i)
  {
    TrimIntToString(i);
    DecimalValueOfIntToString(i);
  }

  lemma DecimalValueOfIntToString(i: int)
    ensures DecimalValue(IntToString(i)) == Some(i)
  {
    if i < 0 {
      DecimalValueOfNegative(-i);
    } else {
      DecimalValueOfNat(i);
    }
  }

  lemma DecimalValueOfNat(n: nat)
    ensures DecimalValue(NatToString(n)) == Some(n)
  {
    NatToStringRoundTrip(n);
  }

  lemma DecimalValueOfNegative(n: nat)
    requires n > 0
    ensures DecimalValue("-" + NatToString(n)) == Some(-(n as int))
  {
    var s := "-" + NatToString(n);
    assert s[1..] == NatToString(n);
    NatToStringRoundTrip(n);
    assert !IsRadixDigit(s[0], 10);
  }

  /** The expiry read back after `saveTokens` is the token's `exp` scaled to
      milliseconds. */
  lemma ExpiryRoundTrip(store: Store, accessToken: string, claims: Claims)
    ensures GetExpirationTime(SaveTokens(store, accessToken, claims)) == Some(claims.exp * 1000)
  {
    NumberOfIntToString(claims.exp * 1000);
  }

  // ---------------------------------------------------------------------------
  // The refresher
  // ---------------------------------------------------------------------------

  /** The module's two variables: the interval handle (`null` when none) and
      `isUpdatingToken`. */
  datatype Refresher = Refresher(interval: Option<Handle>, isUpdating: bool)

  /** An interval handle. Runtimes number their timers from 1, so a handle is
      never 0 and always truthy: the `=== null` test that starts the routine
      and the truthiness test that stops it see the same thing. */
  type Handle = h: nat | h > 0 witness 1

  const Idle: Refresher := Refresher(None, false)

  /** The flag tells whether an interval is running. */
  predicate Consistent(r: Refresher) {
    r.interval.Some? <==> r.isUpdating
  }

  /** Milliseconds between two refreshes. */
  const UpdateIntervalMs: nat := 3000 * 1000

  /** `tokenUpdateRoutine`: schedules `updateToken` every `UpdateIntervalMs`
      under the handle the runtime returns, unless an interval already runs. */
  function TokenUpdateRoutine(r: Refresher, handle: Handle): (r': Refresher)
    ensures r.interval.Some? ==> r' == r
    ensures r.interval.None? ==> r' == Refresher(Some(handle), true)
    ensures Consistent(r) ==> Consistent(r')
  {
    if r.interval.None? then Refresher(Some(handle), true) else r
  }

  /** `stopTokenUpdateRoutine`: clears the running interval, if any. */
  function StopTokenUpdateRoutine(r: Refresher): (r': Refresher)
    ensures r'.interval.None?
    ensures r.interval.Some? ==> !r'.isUpdating
    ensures r.interval.None? ==> r' == r
    ensures Consistent(r) ==> r' == Idle
  {
    if r.interval.Some? then Idle else r
  }

  /** Starting twice runs one interval, the first; stopping twice is stopping
      once; and a stopped refresher starts afresh. */
  lemma RoutineAtMostOnce(r: Refresher, h1: Handle, h2: Handle)
    requires Consistent(r)
    ensures TokenUpdateRoutine(TokenUpdateRoutine(r, h1), h2) == TokenUpdateRoutine(r, h1)
    ensures StopTokenUpdateRoutine(StopTokenUpdateRoutine(r)) == StopTokenUpdateRoutine(r)
    ensures TokenUpdateRoutine(StopTokenUpdateRoutine(r), h2) == Refresher(Some(h2), true)
  {
  }

  /** The server's answer to `/auth/refresh`: a token (possibly empty) and
      the claims decoded from it, or a failure with its message. */
  datatype RefreshResult = Refreshed(accessToken: string, claims: Claims) | RefreshFailed(message: string)

  /** What `updateToken` leaves behind. */
  datatype Session = Session(store: Store, refresher: Refresher, messages: seq<Message>, toLogin: bool)

  /** `updateToken`. Without a stored token the refresher stops and the user
      is sent to the login screen, with no request; otherwise the server's
      answer decides. */
  function UpdateToken(s: Session, refresh: RefreshResult, handle: Handle): (r: Session)
    ensures !("token" in s.store && s.store["token"] != "") ==>
      r == s.(refresher := StopTokenUpdateRoutine(s.refresher), toLogin := true)
    ensures "token" in s.store && s.store["token"] != "" && refresh.Refreshed? && refresh.accessToken != "" ==>
      && "token" in r.store && r.store["token"] == refresh.accessToken
      && GetExpirationTime(r.store) == Some(refresh.claims.exp * 1000)
      && (Consistent(s.refresher) ==> r.refresher.isUpdating) && r.toLogin == s.toLogin
    ensures "token" in s.store && s.store["token"] != "" && refresh.RefreshFailed? ==>
      r == s.(messages := s.messages + [Message("Erro ao atualizar o token:" + refresh.message, None, Danger)],
              toLogin := true)
    ensures "token" in s.store && s.store["token"] != "" && refresh.Refreshed? && refresh.accessToken == "" ==>
      r == s.(messages := s.messages + [Message("Erro ao atualizar a sessão", Some("Token inválido"), Danger)])
    ensures Consistent(s.refresher) ==> Consistent(r.refresher)
  {
    var token := if "token" in s.store then s.store["token"] else "";
    if token == "" then
      s.(refresher := StopTokenUpdateRoutine(s.refresher), toLogin := true)
    else match refresh
      case RefreshFailed(msg) =>
        s.(messages := s.messages + [Message("Erro ao atualizar o token:" + msg, None, Danger)], toLogin := true)
      case Refreshed(at, claims) =>
        if at != "" then
          var store := SaveTokens(s.store, at, claims);
          ExpiryRoundTrip(s.store, at, claims);
          s.(store := store,
             refresher := if !s.refresher.isUpdating then TokenUpdateRoutine(s.refresher, handle) else s.refresher)
        else
          s.(messages := s.messages + [Message("Erro ao atualizar a sessão", Some("Token inválido"), Danger)])
  }
}
