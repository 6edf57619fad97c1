# Order-entry front end: CSRF handling, line items and error messages

This project models the logic of a Next.js front end for a Laravel order
system. The model covers three parts.

- **The API module.** `extractCsrfToken` reads the `XSRF-TOKEN` cookie out of
  `document.cookie` with an unanchored pattern and decodes it with
  `decodeURIComponent`. `getCsrfToken` reuses a token or asks Sanctum for one
  and reads the cookie again. `setAuthToken`, `clearAuthToken` and the start-up
  block keep the bearer token in the common headers and in `localStorage`.
- **The order lines** of the three order pages. This covers adding a line,
  editing one field of one line, the order total, the payload each page posts,
  and the guards that refuse to submit.
- **The catch blocks** of the order pages and of the login page. They decide
  which text the error banner shows and when a 401 sends the user back to
  `/login`.

HTTP is abstract. The `ApiClient` class records every request, with the
headers it carries, in `sent`. The caller supplies the outcome of each request:
the response data, or a `Failure` with an optional status and server message.
`document.cookie` and `localStorage` are fields of the same class. Router
navigation and `alert` are recorded as fields of each page's form class.
`Number()` and `parseFloat()` are passed in as functions from text to a real.

Modules:

- `Wrappers`: Option and Result.
- `Failures`: what a catch block sees.
- `PercentCoding`: `decodeURIComponent` over UTF-8 (section 2.1 of RFC 3986,
  RFC 3629), with `encodeURIComponent` as its partner.
- `CsrfCookie`: the cookie pattern.
- `Api`: the axios instance and token state.
- `LineItems`: lines, total and edits shared by the pages.
- `Payloads`: the posted bodies.
- `NumberText`: the decimal text of an id.
- `ErrorMessages`: the banner texts.
- One module per page: `NewOrderPage`, `ClientOrderPage`, `CreateOrderPage`
  and `LoginPage`.

## Model

| member | source | states |
|---|---|---|
| CsrfCookie.ValueEnd | src/lib/api.ts:33 | the `[^;]+` run stops at the next `;` or at the end of the cookie string, and holds no `;` |
| CsrfCookie.FirstMatch | src/lib/api.ts:33 | the regex finds the leftmost position where `XSRF-TOKEN=` is followed by a character other than `;`, and no earlier position matches |
| CsrfCookie.Capture | src/lib/api.ts:33 | `match` is null exactly when no position matches; a capture is non-empty and holds no `;` |
| CsrfCookie.ExtractCsrfToken | src/lib/api.ts:31-35 | null without a document; null exactly when nothing matches; the only error is the URIError of a malformed escape; a returned token is never empty |
| CsrfCookie.CaptureOfLeftmostMatch | src/lib/api.ts:33 | with the leftmost match at p, the capture is the whole run of non-`;` characters after the prefix |
| CsrfCookie.NoMatchInEarlierCookies | src/lib/api.ts:33 | the pattern cannot match across a `; ` cookie separator |
| CsrfCookie.CaptureOfCookieValue | src/lib/api.ts:33 | in a `name=value; name=value` cookie string, the capture is the XSRF-TOKEN cookie's value when no earlier cookie contains the pattern |
| CsrfCookie.ExtractEncodedToken | src/lib/api.ts:33-34 | a cookie holding the percent-encoded form of a token t yields exactly t |
| CsrfCookie.UnanchoredNameMatches | src/lib/api.ts:33 | a cookie named `X-XSRF-TOKEN` is also read, because the pattern is not anchored |
| CsrfCookie.EmptyValueSkipped | src/lib/api.ts:33 | an empty `XSRF-TOKEN=` value does not match, so a later occurrence is used |
| PercentCoding.DecodeSequence | src/lib/api.ts:34 | an accepted escaped UTF-8 sequence decodes to one character and is exactly the shortest UTF-8 form of it: 3, 6, 9 or 12 characters, three per byte |
| PercentCoding.RejectsOverlongForm | src/lib/api.ts:34 | the overlong form `%C0%80` is a URIError |
| PercentCoding.RejectsSurrogate | src/lib/api.ts:34 | the encoded surrogate `%ED%A0%80` is a URIError |
| PercentCoding.RejectsBeyondUnicode | src/lib/api.ts:34 | `%F4%90%80%80`, above U+10FFFF, is a URIError |
| PercentCoding.Decode | src/lib/api.ts:34 | decoding never lengthens the text, and the text is empty exactly when the input is |
| PercentCoding.DecodeWithoutEscapes | src/lib/api.ts:34 | text without `%` decodes to itself |
| PercentCoding.Escape | src/lib/api.ts:34 | every byte takes exactly three characters, none of them `;` |
| PercentCoding.EscapeAt | src/lib/api.ts:34 | byte i of a sequence is written at position 3·i as `%` and its two hex digits |
| PercentCoding.EscapedByteOfEscape | src/lib/api.ts:34 | the `%XY` at position 3·i of an escaped sequence reads back as byte i, whatever text follows |
| PercentCoding.Encode | src/lib/api.ts:34 | the encoding holds no `;`, is never shorter than the text, and is empty only for empty text |
| PercentCoding.DecodeSequenceOfEscape | src/lib/api.ts:34 | decoding the escaped UTF-8 bytes of a character gives back that character and consumes all of its escapes |
| PercentCoding.DecodeEncode | src/lib/api.ts:34 | `decodeURIComponent(encodeURIComponent(s)) == s` for every string |
| Api.WithBearer | src/lib/api.ts:38-39 | Authorization becomes `Bearer <token>`; every other header keeps its value |
| Api.WithoutBearer | src/lib/api.ts:45-46 | Authorization is removed; every other header keeps its value |
| Api.ClearUndoesSet | src/lib/api.ts:38-50 | set followed by clear gives the same headers as clear alone, and the headers from before the set when none was set |
| Api.LastTokenWins | src/lib/api.ts:38-39 | setting a second token replaces the first |
| Api.Outgoing | src/lib/api.ts:3-11 | a request carries the common defaults, the instance headers and its own headers; its own override the instance headers, which override the common defaults |
| Api.BearerOnEveryRequest | src/lib/api.ts:6-10 | after setAuthToken every request carries the bearer header, and after clearAuthToken none carries an Authorization header |
| Api.TokenOrNotFound | src/lib/api.ts:22-24 | a token read is returned; a missing one fails with "CSRF token not found"; an error passes through |
| Api.ApiClient.constructor | src/lib/api.ts:52-57 | at start-up a stored token is applied only when there is a window and the stored value is non-empty |
| Api.ApiClient.SetAuthToken | src/lib/api.ts:38-43 | the common headers gain the bearer token; `auth_token` is stored only when there is a window; cookie and requests are unchanged |
| Api.ApiClient.ClearAuthToken | src/lib/api.ts:45-50 | the Authorization header is removed; `auth_token` is removed only when there is a window |
| Api.ApiClient.Send | src/lib/api.ts:3-11 | one request is appended with the headers it carries; its outcome is the supplied one |
| Api.CsrfRequests | src/lib/api.ts:17-21 | getCsrfToken issues at most one request, GET /sanctum/csrf-cookie, and exactly when the cookie holds no token |
| Api.CsrfOutcome | src/lib/api.ts:14-29 | a token in the cookie is the result; otherwise the bootstrap's error, or the new cookie's token; a token is never empty and the only errors are the URIError, the bootstrap's error and "CSRF token not found" |
| Api.ApiClient.GetCsrfToken | src/lib/api.ts:14-29 | the result is CsrfOutcome, the log grows by exactly CsrfRequests, the cookie changes only through the bootstrap response, and a returned token is what the cookie now holds |
| Api.ApiClient.PostWithCsrf | src/app/login/page.tsx:22-38 | the post is sent exactly when getCsrfToken succeeds, right after its requests and carrying its token in X-XSRF-TOKEN; otherwise nothing else is sent and its error is the result |
| LineItems.TotalAppend | src/app/orders/new/page.tsx:75-78 | the total is additive over concatenation (and therefore 0 for no lines) |
| LineItems.TotalUpdate | src/app/orders/new/page.tsx:75-78 | replacing one line changes the total by the difference of the two amounts |
| LineItems.TotalNonNegative | src/app/clients/create/page.tsx:84-87 | non-negative quantities and prices give a non-negative total |
| LineItems.TotalExample | src/app/orders/new/page.tsx:75-78 | 2 × 10.5 + 1 × 5 is 26 |
| LineItems.Apply | src/app/orders/new/page.tsx:64-71 | only the named field changes; quantity and unit price receive the numeric coercion of the text |
| LineItems.ChangeItem | src/app/orders/create/page.tsx:54-68 | the length is kept, every other line is unchanged, and the line at the index is edited |
| LineItems.ChangeItemTotal | src/app/orders/new/page.tsx:59-78 | an edit moves the total by the edited line's change only |
| LineItems.ProductChoiceKeepsTotal | src/app/orders/new/page.tsx:59-78 | choosing another product for a line leaves the total unchanged |
| NumberText.NatToString | src/app/orders/new/page.tsx:51 | the text is a non-empty string of decimal digits |
| NumberText.IntToStringRoundTrip | src/app/orders/new/page.tsx:51 | `id.toString()` reads back as the id |
| NewOrderPage.AddItem | src/app/orders/new/page.tsx:47-57 | no change without products; otherwise exactly one line (quantity 1, price 0) is appended after the unchanged earlier lines, and the total is unchanged |
| NewOrderPage.AddedLineNamesFirstProduct | src/app/orders/new/page.tsx:49-52 | the appended line's product id is the text of the first product's id |
| NewOrderPage.NewOrderForm.HandleSubmit | src/app/orders/new/page.tsx:80-117 | an empty name or email, or no lines, raises the alert and sends nothing; otherwise POST /orders, with the client, the lines and the token, is sent exactly when the CSRF step succeeds; success navigates to /orders; a failure, the CSRF step's included, sets the banner; `saving` ends false |
| ClientOrderPage.PriceOrZero | src/app/clients/create/page.tsx:66 | a missing price counts as 0 |
| ClientOrderPage.AddItem | src/app/clients/create/page.tsx:59-69 | no change without products; otherwise one line for the first product at its price is appended, and the total rises by that price |
| ClientOrderPage.Values | src/app/clients/create/page.tsx:84-87 | the values of the line objects, one per object, in order |
| ClientOrderPage.ClientOrderForm.HandleAddItem | src/app/clients/create/page.tsx:59-69 | a fresh line object is appended after the same objects as before |
| ClientOrderPage.ClientOrderForm.HandleChangeItem | src/app/clients/create/page.tsx:71-82 | the list keeps the very same objects; only the object at the index changes, and the values change as ChangeItem says |
| ClientOrderPage.ClientOrderForm.HandleSubmit | src/app/clients/create/page.tsx:89-122 | a null or 0 client id, or no lines, raises the alert and sends nothing; otherwise POST /orders, with `client_id` and the current lines, is sent exactly when the CSRF step succeeds; the line objects are left untouched; the outcome decides navigation and banner |
| CreateOrderPage.AddItem | src/app/orders/create/page.tsx:50-52 | exactly one blank line is appended whatever the products are; the total is unchanged |
| CreateOrderPage.NumberItems | src/app/orders/create/page.tsx:79-85 | the payload lines keep the length and order; each product id is converted and quantity and price are copied |
| CreateOrderPage.NumberItemsTotal | src/app/orders/create/page.tsx:79-85 | the payload adds up to the same total as the form |
| CreateOrderPage.FetchLists | src/app/orders/create/page.tsx:24-34 | a failed CSRF step requests no list and is the result; otherwise GET /clients is sent, GET /products follows exactly when it succeeded, and the first failure is the result, else both lists |
| CreateOrderPage.CreateOrderForm.Load | src/app/orders/create/page.tsx:22-48 | the failure is the first of the CSRF step, GET /clients and GET /products to fail; with none, both lists are set; a failure keeps them, sets the banner and, for 401, navigates to /login; `loading` ends false |
| CreateOrderPage.PostOrder | src/app/orders/create/page.tsx:87-89 | POST /orders, without an X-XSRF-TOKEN header, is sent exactly when getCsrfToken succeeds; otherwise its error is the result |
| CreateOrderPage.CreateOrderForm.HandleSubmit | src/app/orders/create/page.tsx:70-100 | no client id raises "Selecione um cliente." and sends nothing, even when there are no lines; otherwise the numbered payload is posted exactly when the CSRF step succeeds; a failure sets the banner and 401 navigates to /login |
| ErrorMessages.ServerMessage | src/app/clients/create/page.tsx:115-116 | the server's message is used only when a response exists and its message is non-empty |
| ErrorMessages.NewOrderMessageAsWritten | src/app/orders/new/page.tsx:105-112 | the message as written, with the garbled text for 419 |
| ErrorMessages.NewOrderMessage | src/app/orders/new/page.tsx:105-112 | 419 gives the session-expired text even when the server sent a message; otherwise the server's message; otherwise "Erro ao criar pedido."; never empty |
| ErrorMessages.ClientOrderMessage | src/app/clients/create/page.tsx:114-117 | the server's message, else "Erro ao criar pedido."; 419 is not singled out |
| ErrorMessages.CreateOrderMessage | src/app/orders/create/page.tsx:93 | the server's message, else "Erro ao criar pedido" with no period |
| ErrorMessages.LoadMessage | src/app/orders/create/page.tsx:37 | the server's message, else "Erro ao carregar dados" |
| ErrorMessages.FailureRedirect | src/app/orders/create/page.tsx:94-96 | navigate to /login exactly when the status is 401 |
| ErrorMessages.LoginMessage | src/app/login/page.tsx:47-60 | with a response: 419 first, then the server's message, then the credentials fallback; without one: the error's own text when non-empty, else the fallback |
| ErrorMessages.OrderMessagesIgnoreErrorText | src/app/orders/new/page.tsx:105-112 | the order pages' messages depend on the response alone, never on the error's own text |
| ErrorMessages.LoginMessageSources | src/app/login/page.tsx:50-58 | with a response, the login message depends only on it; without one, only on the error's text |
| ErrorMessages.NewOrderAgreesWithLogin | src/app/login/page.tsx:50-55 | the new-order and login pages show the same text whenever the response decides it |
| ErrorMessages.SessionExpiryOnlyOnNewOrderPage | src/app/clients/create/page.tsx:114-117 | a 419 with a server message shows the session text on the new-order page but the server's words on the client-order page |
| ErrorMessages.OrderFallbacksDifferByPeriod | src/app/orders/create/page.tsx:93 | the client-order and create-order pages differ only in the final period of their fallback |
| ErrorMessages.GarbledSessionText | src/app/orders/new/page.tsx:108 | as written, the 419 text differs from the login page's; corrected, it is the same; all other failures read alike |
| LoginPage.LoginForm.HandleLogin | src/app/login/page.tsx:15-64 | POST /login is sent exactly when the CSRF step succeeds, else its error sets the banner; success happens exactly when the response holds a token, and installs it, then navigates to /home; any failure leaves headers and storage untouched; `loading` ends false on every path |
| LoginPage.MissingTokenMessage | src/app/login/page.tsx:25-28 | errors the page throws itself are shown with their own text |

## Left out

- NewOrderPage.NewOrderForm.HandleSubmit: for status 419 the banner holds the corrected session-expired text of ErrorMessages.NewOrderMessage, not the text with two spaces that src/app/orders/new/page.tsx:108 holds (see Findings).
- Api.ApiClient.PostWithCsrf: the second `extractCsrfToken()` of the pages reads the cookie that getCsrfToken just read, so its `throw` of a missing token cannot happen here. A cookie changed by another script between the two reads is not modelled.
- The line list of src/app/orders/create/page.tsx (lines 15-17, one blank line at first) is passed to its handlers as a parameter rather than held by the form.
- HTTP transport is not modelled: the base URL, `withCredentials`, and the real axios request. The caller supplies each request's outcome.
- axios's own `X-XSRF-TOKEN` header, which axios adds from the cookie, is not modelled. A request records only the headers this code sets.
- Api.ApiClient.Send: a response never changes the cookie string, except the CSRF bootstrap in GetCsrfToken, whose new cookie string is given.
- `console.error` logging is not modelled.
- `document.cookie`, `typeof window` and `localStorage` are fields of `ApiClient`, not browser state.
- The product-loading effect of src/app/orders/new/page.tsx (lines 24-45) is not part of this model.
- The data-loading effect of src/app/clients/create/page.tsx (lines 34-57) is not part of this model. Its point is two parallel requests under `Promise.all`.
- Handlers run to completion one at a time. Interleaving of async handlers and React's batching of state updates are not modelled.
- React rendering, the loading screens and the form inputs are not modelled. Handlers receive the render's values as parameters.
- JavaScript numbers are reals. NaN, infinities and the `toFixed(2)` display of the total are not modelled.
- `Number()` and `parseFloat()` are parameters of type `string -> real`.
- ClientOrderPage.CanSubmit: a NaN client id is not modelled. In the source NaN is falsy; here ids are integers, so only null and 0 are refused.
- CreateOrderPage.CanSubmit: a NaN client id is not modelled, for the same reason.
- Strings are sequences of Unicode scalar values, not UTF-16 code units. Lone surrogates cannot occur, so `decodeURIComponent` is modelled over whole code points.
- src/app/products/new/page.tsx is not part of this model. Its only logic is float parsing.
- src/app/home/page.tsx, src/app/orders/page.tsx, src/app/page.tsx and src/app/orders/[id]/edit are not part of this model. They only fetch, render or redirect.
- The hooks in src/hooks are not part of this model. They are React effect lifecycle.
- src/types/index.ts only shapes the datatypes.

## Findings

| source | as written | input that shows it | evidently intended | confidence | as-written member | corrected member |
|---|---|---|---|---|---|---|
| src/app/orders/new/page.tsx:108 | For status 419 the banner reads "Sess o expirada. Por favor, recarregue a p gina e tente novamente.". The two accented letters are plain spaces. | any failure whose response has status 419 | the text of src/app/login/page.tsx:52, "Sessão expirada. Por favor, recarregue a página e tente novamente." | not executed; medium, because the letters may have been lost in an encoding conversion of the file | ErrorMessages.NewOrderMessageAsWritten, ErrorMessages.GarbledSessionText | ErrorMessages.NewOrderMessage |
