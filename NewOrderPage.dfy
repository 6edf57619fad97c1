/** src/app/orders/new/page.tsx: an order for a new client. The lines hold
    the product id as the text of the product select; submitting posts the
    client and the lines together. */
module NewOrderPage {
  import opened Wrappers
  import opened Failures
  import opened LineItems
  import opened Payloads
  import opened Api
  import NumberText
  import ErrorMessages

  /** Product of src/types/index.ts. */
  datatype Product = Product(id: int, name: string)

  const FillAllFields: string := "Preencha todos os campos"
  const CsrfMissing: Failure := Thrown("CSRF token não encontrado")

  /** The line handleAddItem appends: the first product, as text, once, at price 0. */
  function NewLine(first: Product): LineItem<string> {
    LineItem(NumberText.IntToString(first.id), 1.0, 0.0)
  }

  /** handleAddItem: nothing without products; otherwise one line for the
      first product is appended and the total does not move. */
  function AddItem(items: seq<LineItem<string>>, products: seq<Product>): (r: seq<LineItem<string>>)
    ensures |products| == 0 ==> r == items
    ensures |products| > 0 ==> |r| == |items| + 1 && r[..|items|] == items
    ensures |products| > 0 ==> r[|items|].quantity == 1.0 && r[|items|].unitPrice == 0.0
    ensures Total(r) == Total(items)
  {
    if |products| == 0 then items
    else
      var line := NewLine(products[0]);
      assert (items + [line])[..|items|] == items;
      items + [line]
  }

  /** The product select of the appended line reads back as the first
      product's id. */
  lemma AddedLineNamesFirstProduct(items: seq<LineItem<string>>, products: seq<Product>)
    requires |products| > 0
    ensures NumberText.ParseInt(AddItem(items, products)[|items|].productId) == Some(products[0].id)
  {
    NumberText.IntToStringRoundTrip(products[0].id);
  }

  /** The guard of handleSubmit: a name, an email and at least one line. */
  predicate CanSubmit(client: ClientInput, items: seq<LineItem<string>>) {
    client.name != "" && client.email != "" && |items| > 0
  }

  class NewOrderForm {
    var saving: bool
    /** the text of the error banner */
    var error: string
    /** the last `alert` shown */
    var alerted: Option<string>
    /** the last `router.push` target */
    var navigation: Option<string>

    constructor ()
      ensures !saving && error == "" && alerted.None? && navigation.None?
    {
      saving := false;
      error := "";
      alerted := None;
      navigation := None;
    }

    /** handleSubmit. `issued` is the outcome of a CSRF bootstrap request, if
        one is needed; `outcome` that of POST /orders. `posted` tells whether
        the order was sent. */
    method HandleSubmit(api: ApiClient, client: ClientInput, items: seq<LineItem<string>>,
                        issued: Result<string, Failure>, outcome: Result<(), Failure>)
      returns (r: SubmitOutcome, posted: bool)
      modifies this, api
      ensures api.common == old(api.common) && api.storage == old(api.storage)
      ensures !CanSubmit(client, items) ==>
        && r == Refused && !posted && alerted == Some(FillAllFields)
        && api.sent == old(api.sent) && api.cookie == old(api.cookie)
        && saving == old(saving) && error == old(error) && navigation == old(navigation)
      ensures CanSubmit(client, items) ==> r != Refused && !saving && alerted == old(alerted)
      ensures posted <==> CanSubmit(client, items) && CsrfOutcome(old(api.cookie), issued).Ok?
      ensures posted ==>
        && api.sent == old(api.sent) + CsrfRequests(old(api.cookie), api.common)
                       + [Request(Post, OrdersPath, Outgoing(api.common, map[XsrfHeader := CsrfOutcome(old(api.cookie), issued).value]),
                                  OrderWithClient(client, items))]
        && r == (if outcome.Ok? then Succeeded else Failed(outcome.error))
      ensures CanSubmit(client, items) && !posted ==>
        && api.sent == old(api.sent) + CsrfRequests(old(api.cookie), api.common)
        && r == Failed(CsrfOutcome(old(api.cookie), issued).error)
      ensures r.Succeeded? ==> navigation == Some(OrdersPath) && error == ""
      ensures r.Failed? ==> navigation == old(navigation) && error == ErrorMessages.NewOrderMessage(r.failure)
    {
      if !CanSubmit(client, items) {
        alerted := Some(FillAllFields);
        return Refused, false;
      }
      saving := true;
      error := "";
      var response;
      response, posted := api.PostWithCsrf(OrdersPath, OrderWithClient(client, items), CsrfMissing, issued, outcome);
      if response.Ok? {
        navigation := Some(OrdersPath);
        r := Succeeded;
      } else {
        error := ErrorMessages.NewOrderMessage(response.error);
        r := Failed(response.error);
      }
      saving := false;
    }
  }
}
