/** The catch blocks of the order pages and of the login page: which text
    each one puts in the page's error banner for a caught failure, and
    which failures send the user back to the login page. */
module ErrorMessages {
  import opened Wrappers
  import opened Failures

  /** The session-expired text. Its first word is a separate literal, so that
      GarbledSessionText can compare `SessionExpired[4]` with the letter
      written in its place. */
  const SessionExpired: string := "Sessão" + " expirada. Por favor, recarregue a página e tente novamente."
  /** The session-expired text as src/app/orders/new/page.tsx spells it:
      the two accented letters are plain spaces there. */
  const SessionExpiredAsWritten: string := "Sess o" + " expirada. Por favor, recarregue a p gina e tente novamente."
  const OrderNotCreated: string := "Erro ao criar pedido."
  /** The fallback of src/app/orders/create/page.tsx, without the final period. */
  const OrderNotCreatedBare: string := "Erro ao criar pedido"
  const DataNotLoaded: string := "Erro ao carregar dados"
  const LoginRejected: string := "Credenciais inválidas ou erro no servidor."
  const LoginPath: string := "/login"

  /** `err.response?.status === 419`: Laravel's answer to a stale CSRF token. */
  predicate SessionExpiredStatus(f: Failure) {
    f.response.Some? && f.response.value.status == 419
  }

  /** `err.response?.status === 401` */
  predicate UnauthorizedStatus(f: Failure) {
    f.response.Some? && f.response.value.status == 401
  }

  /** `err.response?.data?.message` when it is truthy (present and not empty). */
  function ServerMessage(f: Failure): (m: Option<string>)
    ensures m.Some? <==> f.response.Some? && Truthy(f.response.value.message)
    ensures m.Some? ==> m.value != "" && m.value == f.response.value.message.value
  {
    if f.response.Some? && Truthy(f.response.value.message) then f.response.value.message else None
  }

  /** The choice made by the catch block of handleSubmit in
      src/app/orders/new/page.tsx, given the text it uses for status 419. */
  function NewOrderChoice(f: Failure, expired: string): string {
    if f.response.Some? then
      if f.response.value.status == 419 then expired
      else if Truthy(f.response.value.message) then f.response.value.message.value
      else OrderNotCreated
    else OrderNotCreated
  }

  /** The new-order page's message as written, with the garbled 419 text. */
  function NewOrderMessageAsWritten(f: Failure): (m: string)
    ensures SessionExpiredStatus(f) ==> m == SessionExpiredAsWritten
  {
    NewOrderChoice(f, SessionExpiredAsWritten)
  }

  /** The new-order page's message: status 419 wins over anything the server
      says; otherwise the server's message; otherwise the fixed fallback. The
      text of the thrown error itself is never shown. */
  function NewOrderMessage(f: Failure): (m: string)
    ensures m != ""
    ensures SessionExpiredStatus(f) ==> m == SessionExpired
    ensures !SessionExpiredStatus(f) && ServerMessage(f).Some? ==> m == ServerMessage(f).value
    ensures !SessionExpiredStatus(f) && ServerMessage(f).None? ==> m == OrderNotCreated
  {
    NewOrderChoice(f, SessionExpired)
  }

  /** The client-and-order page's message: the server's message when there is
      one, otherwise the fixed fallback; status 419 is not singled out. */
  function ClientOrderMessage(f: Failure): (m: string)
    ensures m != ""
    ensures ServerMessage(f).Some? ==> m == ServerMessage(f).value
    ensures ServerMessage(f).None? ==> m == OrderNotCreated
  {
    ServerMessage(f).GetOr(OrderNotCreated)
  }

  /** The create-order page's submit message: `message || "Erro ao criar pedido"`. */
  function CreateOrderMessage(f: Failure): (m: string)
    ensures m != ""
    ensures ServerMessage(f).Some? ==> m == ServerMessage(f).value
    ensures ServerMessage(f).None? ==> m == OrderNotCreatedBare
  {
    ServerMessage(f).GetOr(OrderNotCreatedBare)
  }

  /** The create-order page's load message: `message || "Erro ao carregar dados"`. */
  function LoadMessage(f: Failure): (m: string)
    ensures m != ""
    ensures ServerMessage(f).Some? ==> m == ServerMessage(f).value
    ensures ServerMessage(f).None? ==> m == DataNotLoaded
  {
    ServerMessage(f).GetOr(DataNotLoaded)
  }

  /** Where the create-order page navigates after a failure: to the login
      page on status 401, nowhere otherwise. */
  function FailureRedirect(f: Failure): (r: Option<string>)
    ensures r.Some? <==> UnauthorizedStatus(f)
    ensures r.Some? ==> r.value == LoginPath
  {
    if UnauthorizedStatus(f) then Some(LoginPath) else None
  }

  /** The login page's message. With a response: 419 first, then the
      server's message, then the fixed fallback; the error's own text is
      ignored. Without a response (a network error, or an error thrown by the
      page itself): the error's own text when it is not empty, else the
      fallback. */
  function LoginMessage(f: Failure): (m: string)
    ensures m != ""
    ensures SessionExpiredStatus(f) ==> m == SessionExpired
    ensures f.response.Some? && !SessionExpiredStatus(f) ==> m == ServerMessage(f).GetOr(LoginRejected)
    ensures f.response.None? && f.message != "" ==> m == f.message
    ensures f.response.None? && f.message == "" ==> m == LoginRejected
  {
    var errorMessage :=
      if f.response.Some? then
        if f.response.value.status == 419 then SessionExpired
        else if Truthy(f.response.value.message) then f.response.value.message.value
        else LoginRejected
      else if f.message != "" then f.message
      else LoginRejected;
    errorMessage
  }

  /** The order pages never show the text of the error itself: two failures
      with the same response get the same message. */
  lemma OrderMessagesIgnoreErrorText(f: Failure, g: Failure)
    requires f.response == g.response
    ensures NewOrderMessage(f) == NewOrderMessage(g)
    ensures ClientOrderMessage(f) == ClientOrderMessage(g)
    ensures CreateOrderMessage(f) == CreateOrderMessage(g)
    ensures LoadMessage(f) == LoadMessage(g)
  {
  }

  /** On a failure with a response, the login page's message depends only on
      that response; without one, only on the error's own text. */
  lemma LoginMessageSources(f: Failure, g: Failure)
    requires (f.response.Some? && f.response == g.response) || (f.response.None? && g.response.None? && f.message == g.message)
    ensures LoginMessage(f) == LoginMessage(g)
  {
  }

  /** The new-order page and the login page agree whenever the response
      decides the message (status 419 or a server message); they differ only
      in their fallback texts. */
  lemma NewOrderAgreesWithLogin(f: Failure)
    requires f.response.Some?
    requires SessionExpiredStatus(f) || ServerMessage(f).Some?
    ensures NewOrderMessage(f) == LoginMessage(f)
  {
  }

  /** A 419 that carries a server message (Laravel's "CSRF token mismatch.")
      reads differently on the two order pages that post an order with a
      client: the new-order page shows the session text, the client-and-order
      page shows the server's words. */
  lemma SessionExpiryOnlyOnNewOrderPage(f: Failure)
    requires SessionExpiredStatus(f) && ServerMessage(f).Some?
    ensures NewOrderMessage(f) == SessionExpired
    ensures ClientOrderMessage(f) == ServerMessage(f).value
    ensures ClientOrderMessage(f) != NewOrderMessage(f) <==> ServerMessage(f).value != SessionExpired
  {
  }

  /** The two pages that both fall back to "Erro ao criar pedido" differ
      exactly in the final period of the fallback. */
  lemma OrderFallbacksDifferByPeriod(f: Failure)
    ensures ServerMessage(f).Some? ==> ClientOrderMessage(f) == CreateOrderMessage(f)
    ensures ServerMessage(f).None? ==> ClientOrderMessage(f) == CreateOrderMessage(f) + "."
  {
  }

  /** The new-order page as written shows, for status 419, a text that is
      not the session-expired text of the login page: its fifth character is
      a space where the login page has `ã`. Every other failure reads the same. */
  lemma {:induction false} GarbledSessionText(f: Failure)
    ensures SessionExpiredStatus(f) ==> NewOrderMessageAsWritten(f) != LoginMessage(f)
    ensures SessionExpiredStatus(f) ==> NewOrderMessage(f) == LoginMessage(f)
    ensures !SessionExpiredStatus(f) ==> NewOrderMessageAsWritten(f) == NewOrderMessage(f)
  {
    if SessionExpiredStatus(f) {
      assert SessionExpiredAsWritten[4] == ' ' && SessionExpired[4] == 'ã';
    }
  }
}
