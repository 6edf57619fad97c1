/** src/app/orders/create/page.tsx: an order for a chosen client. Lines start
    blank and hold the product select's text; the payload converts it with
    Number(). Failures of status 401 send the user to the login page. */
module CreateOrderPage {
  import opened Wrappers
  import opened Failures
  import opened LineItems
  import opened Payloads
  import opened Api
  import ErrorMessages

  /** `{ id: number; name: string }`, the shape of the listed clients and products. */
  datatype Summary = Summary(id: int, name: string)

  const ClientsPath: string := "/clients"
  const ProductsPath: string := "/products"
  const SelectClient: string := "Selecione um cliente."

  /** `{ product_id: "", quantity: 1, unit_price: 0 }` */
  const Blank: LineItem<string> := LineItem("", 1.0, 0.0)

  /** handleAddItem: one blank line is appended, whatever the products are;
      the total does not move. */
  function AddItem(items: seq<LineItem<string>>): (r: seq<LineItem<string>>)
    ensures |r| == |items| + 1 && r[..|items|] == items && r[|items|] == Blank
    ensures Total(r) == Total(items)
  {
    assert (items + [Blank])[..|items|] == items;
    items + [Blank]
  }

  /** `{ ...item, product_id: Number(item.product_id) }` */
  function Numbered(item: LineItem<string>, toNumber: string -> real): LineItem<real> {
    LineItem(toNumber(item.productId), item.quantity, item.unitPrice)
  }

  /** `items.map(...)` of the payload: same length and order; each product
      id converted, quantity and unit price copied. */
  function NumberItems(items: seq<LineItem<string>>, toNumber: string -> real): (r: seq<LineItem<real>>)
    ensures |r| == |items|
    ensures forall i :: 0 <= i < |items| ==>
      r[i].productId == toNumber(items[i].productId)
      && r[i].quantity == items[i].quantity && r[i].unitPrice == items[i].unitPrice
  {
    if items == [] then [] else NumberItems(items[..|items| - 1], toNumber) + [Numbered(items[|items| - 1], toNumber)]
  }

  /** The payload's lines add up to the same total as the form's. */
  lemma {:induction false} NumberItemsTotal(items: seq<LineItem<string>>, toNumber: string -> real)
    ensures Total(NumberItems(items, toNumber)) == Total(items)
  {
    if items != [] {
      var init := items[..|items| - 1];
      var r := NumberItems(items, toNumber);
      assert r[..|r| - 1] == NumberItems(init, toNumber);
      assert Amount(r[|r| - 1]) == Amount(items[|items| - 1]);
      NumberItemsTotal(init, toNumber);
      assert Total(r) == Total(NumberItems(init, toNumber)) + Amount(r[|r| - 1]);
    }
  }

  /** The guard of handleSubmit: `!clientId` is true for null and for 0. An
      order without lines is not refused. */
  predicate CanSubmit(clientId: Option<int>) {
    clientId.Some? && clientId.value != 0
  }

  /** A failure leaves navigation as it was, except that 401 goes to the
      login page. */
  function NavigationAfter(f: Failure, before: Option<string>): Option<string> {
    if ErrorMessages.FailureRedirect(f).Some? then ErrorMessages.FailureRedirect(f) else before
  }

  /** GET of one of the two lists, with no headers of its own. */
  function ListRequest(common: map<string, string>, path: string): Request {
    Request(Get, path, Outgoing(common, map[]), NoBody)
  }

  /** The try block of the load effect: the CSRF bootstrap, then GET
      /clients, then GET /products, one after the other, each only when the
      step before it succeeded: when the CSRF step fails no list is requested
      and its error is the result; otherwise GET /clients is issued, GET
      /products follows only when it succeeded, and the first failure is the
      result. */
  method FetchLists(api: ApiClient, issued: Result<string, Failure>,
                    clientsOutcome: Result<seq<Summary>, Failure>, productsOutcome: Result<seq<Summary>, Failure>)
    returns (r: Result<(seq<Summary>, seq<Summary>), Failure>)
    modifies api
    ensures api.common == old(api.common) && api.storage == old(api.storage)
    ensures CsrfOutcome(old(api.cookie), issued).Err? ==>
      && api.sent == old(api.sent) + CsrfRequests(old(api.cookie), api.common)
      && r == Err(CsrfOutcome(old(api.cookie), issued).error)
    ensures CsrfOutcome(old(api.cookie), issued).Ok? ==>
      && api.sent == old(api.sent) + CsrfRequests(old(api.cookie), api.common) + [ListRequest(api.common, ClientsPath)]
                     + (if clientsOutcome.Ok? then [ListRequest(api.common, ProductsPath)] else [])
      && r == (if clientsOutcome.Err? then Err(clientsOutcome.error)
               else if productsOutcome.Err? then Err(productsOutcome.error)
               else Ok((clientsOutcome.value, productsOutcome.value)))
  {
    var token := api.GetCsrfToken(issued);
    if token.Err? {
      return Err(token.error);
    }
    var clientsRes := api.Send(Get, ClientsPath, map[], NoBody, clientsOutcome);
    if clientsRes.Err? {
      return Err(clientsRes.error);
    }
    var productsRes := api.Send(Get, ProductsPath, map[], NoBody, productsOutcome);
    if productsRes.Err? {
      return Err(productsRes.error);
    }
    r := Ok((clientsRes.value, productsRes.value));
  }

  /** The try block of handleSubmit after the payload is built:
      getCsrfToken(), then POST /orders with no explicit X-XSRF-TOKEN header.
      The post is sent exactly when the CSRF step succeeds; otherwise the CSRF
      step's error is the result. */
  method PostOrder(api: ApiClient, payload: Body, issued: Result<string, Failure>, outcome: Result<(), Failure>)
    returns (r: Result<(), Failure>, posted: bool)
    modifies api
    ensures api.common == old(api.common) && api.storage == old(api.storage)
    ensures posted <==> CsrfOutcome(old(api.cookie), issued).Ok?
    ensures posted ==>
      && api.sent == old(api.sent) + CsrfRequests(old(api.cookie), api.common)
                     + [Request(Post, OrdersPath, Outgoing(api.common, map[]), payload)]
      && r == outcome
    ensures !posted ==>
      && api.sent == old(api.sent) + CsrfRequests(old(api.cookie), api.common)
      && r == Err(CsrfOutcome(old(api.cookie), issued).error)
  {
    var token := api.GetCsrfToken(issued);
    if token.Err? {
      return Err(token.error), false;
    }
    r := api.Send(Post, OrdersPath, map[], payload, outcome);
    posted := true;
  }

  class CreateOrderForm {
    var clients: seq<Summary>
    var products: seq<Summary>
    var loading: bool
    var error: string
    var alerted: Option<string>
    var navigation: Option<string>

    constructor ()
      ensures clients == [] && products == [] && !loading && error == "" && alerted.None? && navigation.None?
    {
      clients := [];
      products := [];
      loading := false;
      error := "";
      alerted := None;
      navigation := None;
    }

    /** The load effect: `loading` is on while FetchLists runs; both lists are
        set only when it succeeds; a failure sets the error banner and, for
        401, navigates to the login page. */
    method Load(api: ApiClient, issued: Result<string, Failure>,
                clientsOutcome: Result<seq<Summary>, Failure>, productsOutcome: Result<seq<Summary>, Failure>)
      returns (failure: Option<Failure>)
      modifies this, api
      ensures !loading && alerted == old(alerted)
      ensures api.common == old(api.common) && api.storage == old(api.storage)
      ensures failure == (if CsrfOutcome(old(api.cookie), issued).Err? then Some(CsrfOutcome(old(api.cookie), issued).error)
                          else if clientsOutcome.Err? then Some(clientsOutcome.error)
                          else if productsOutcome.Err? then Some(productsOutcome.error)
                          else None)
      ensures failure.None? ==>
        && clientsOutcome.Ok? && productsOutcome.Ok?
        && clients == clientsOutcome.value && products == productsOutcome.value
        && error == "" && navigation == old(navigation)
      ensures failure.Some? ==>
        && clients == old(clients) && products == old(products)
        && error == ErrorMessages.LoadMessage(failure.value)
        && navigation == NavigationAfter(failure.value, old(navigation))
    {
      loading := true;
      error := "";
      var lists := FetchLists(api, issued, clientsOutcome, productsOutcome);
      if lists.Ok? {
        clients, products := lists.value.0, lists.value.1;
        failure := None;
      } else {
        error := ErrorMessages.LoadMessage(lists.error);
        navigation := NavigationAfter(lists.error, navigation);
        failure := Some(lists.error);
      }
      loading := false;
    }

    /** handleSubmit. The payload is built before any request; the post carries
        no explicit X-XSRF-TOKEN header. `posted` tells whether it was sent. */
    method HandleSubmit(api: ApiClient, clientId: Option<int>, items: seq<LineItem<string>>, toNumber: string -> real,
                        issued: Result<string, Failure>, outcome: Result<(), Failure>)
      returns (r: SubmitOutcome, posted: bool)
      modifies this, api
      ensures clients == old(clients) && products == old(products)
      ensures api.common == old(api.common) && api.storage == old(api.storage)
      ensures !CanSubmit(clientId) ==>
        && r == Refused && !posted && alerted == Some(SelectClient)
        && api.sent == old(api.sent) && api.cookie == old(api.cookie)
        && loading == old(loading) && error == old(error) && navigation == old(navigation)
      ensures CanSubmit(clientId) ==> r != Refused && !loading && alerted == old(alerted)
      ensures posted <==> CanSubmit(clientId) && CsrfOutcome(old(api.cookie), issued).Ok?
      ensures posted ==>
        && api.sent == old(api.sent) + CsrfRequests(old(api.cookie), api.common)
                       + [Request(Post, OrdersPath, Outgoing(api.common, map[]), OrderPayload(clientId.value, NumberItems(items, toNumber)))]
        && r == (if outcome.Ok? then Succeeded else Failed(outcome.error))
      ensures CanSubmit(clientId) && !posted ==>
        && api.sent == old(api.sent) + CsrfRequests(old(api.cookie), api.common)
        && r == Failed(CsrfOutcome(old(api.cookie), issued).error)
      ensures r.Succeeded? ==> navigation == Some(OrdersPath) && error == ""
      ensures r.Failed? ==>
        error == ErrorMessages.CreateOrderMessage(r.failure) && navigation == NavigationAfter(r.failure, old(navigation))
    {
      if !CanSubmit(clientId) {
        alerted := Some(SelectClient);
        return Refused, false;
      }
      loading := true;
      error := "";
      var payload := OrderPayload(clientId.value, NumberItems(items, toNumber));
      var response;
      response, posted := PostOrder(api, payload, issued, outcome);
      if response.Ok? {
        navigation := Some(OrdersPath);
        r := Succeeded;
      } else {
        error := ErrorMessages.CreateOrderMessage(response.error);
        navigation := NavigationAfter(response.error, navigation);
        r := Failed(response.error);
      }
      loading := false;
    }
  }
}
