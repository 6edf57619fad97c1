/** src/app/clients/create/page.tsx: an order for an existing client. Its
    lines are objects that handleChangeItem updates in place, so they are
    modelled as cells shared between successive versions of the list. */
module ClientOrderPage {
  import opened Wrappers
  import opened Failures
  import opened LineItems
  import opened Payloads
  import opened Api
  import ErrorMessages

  /** The page's own Product: the price may be missing (None). */
  datatype Product = Product(id: int, name: string, price: Option<real>)

  const FillAllFields: string := "Preencha todos os campos"
  const CsrfMissing: Failure := Thrown("CSRF token não encontrado")

  /** `products[0].price || 0` */
  function PriceOrZero(p: Product): (price: real)
    ensures p.price.Some? ==> price == p.price.value
    ensures p.price.None? ==> price == 0.0
  {
    p.price.GetOr(0.0)
  }

  /** The list of values handleAddItem produces: nothing without products;
      otherwise one line for the first product, once, at its price (0 when it
      has none), which raises the total by that price. */
  function AddItem(items: seq<LineItem<int>>, products: seq<Product>): (r: seq<LineItem<int>>)
    ensures |products| == 0 ==> r == items
    ensures |products| > 0 ==> |r| == |items| + 1 && r[..|items|] == items
    ensures |products| > 0 ==> r[|items|].productId == products[0].id && r[|items|].quantity == 1.0
    ensures |products| > 0 ==> r[|items|].unitPrice == PriceOrZero(products[0])
    ensures |products| > 0 ==> Total(r) == Total(items) + PriceOrZero(products[0])
  {
    if |products| == 0 then items
    else
      var line := LineItem(products[0].id, 1.0, PriceOrZero(products[0]));
      assert (items + [line])[..|items|] == items;
      items + [line]
  }

  /** One line object `{ product_id, quantity, unit_price }`. */
  class ItemCell {
    var productId: int
    var quantity: real
    var unitPrice: real

    constructor (line: LineItem<int>)
      ensures Value() == line
    {
      productId := line.productId;
      quantity := line.quantity;
      unitPrice := line.unitPrice;
    }

    function Value(): LineItem<int>
      reads this
    {
      LineItem(productId, quantity, unitPrice)
    }
  }

  /** The current values of a list of line objects. */
  function Values(cells: seq<ItemCell>): (r: seq<LineItem<int>>)
    reads cells
    ensures |r| == |cells|
    ensures forall i :: 0 <= i < |cells| ==> r[i] == cells[i].Value()
  {
    if cells == [] then [] else Values(cells[..|cells| - 1]) + [cells[|cells| - 1].Value()]
  }

  /** The guard of handleSubmit: `!clientId` is true for null and for 0. */
  predicate CanSubmit(clientId: Option<int>, count: nat) {
    clientId.Some? && clientId.value != 0 && count > 0
  }

  class ClientOrderForm {
    /** `items`: the line objects, in order */
    var items: seq<ItemCell>
    var saving: bool
    var error: string
    var alerted: Option<string>
    var navigation: Option<string>

    /** No line object appears twice in the list. */
    ghost predicate Valid()
      reads this
    {
      forall i, j :: 0 <= i < j < |items| ==> items[i] != items[j]
    }

    /** The values the page renders and sums. */
    function Lines(): seq<LineItem<int>>
      reads this, items
    {
      Values(items)
    }

    constructor ()
      ensures Valid() && items == [] && !saving && error == "" && alerted.None? && navigation.None?
    {
      items := [];
      saving := false;
      error := "";
      alerted := None;
      navigation := None;
    }

    /** handleAddItem: a fresh line object is appended after the existing ones. */
    method HandleAddItem(products: seq<Product>)
      requires Valid()
      modifies this
      ensures Valid()
      ensures Lines() == AddItem(old(Lines()), products)
      ensures |products| == 0 ==> items == old(items)
      ensures |products| > 0 ==> |items| == |old(items)| + 1 && items[..|old(items)|] == old(items) && fresh(items[|old(items)|])
      ensures saving == old(saving) && error == old(error) && alerted == old(alerted) && navigation == old(navigation)
    {
      if |products| == 0 {
        return;
      }
      var cell := new ItemCell(LineItem(products[0].id, 1.0, PriceOrZero(products[0])));
      items := items + [cell];
      assert Lines() == old(Lines()) + [cell.Value()];
    }

    /** handleChangeItem: `[...items]` copies the list, not the objects, so
        the assignment to `updated[index][field]` edits the very object the
        previous list holds. The list keeps the same objects; only the object
        at index changes, and its values change exactly as ChangeItem says.
        Product ids arrive already converted by Number(); quantity and price
        arrive as text and go through parseFloat. */
    method HandleChangeItem(index: nat, edit: Edit<int>, parseFloat: string -> real)
      requires Valid() && index < |items|
      modifies this, items[index]
      ensures Valid()
      ensures items == old(items)
      ensures Lines() == ChangeItem(old(Lines()), index, edit, parseFloat)
      ensures saving == old(saving) && error == old(error) && alerted == old(alerted) && navigation == old(navigation)
    {
      var updated := items;
      var cell := updated[index];
      match edit
      case SetProduct(p) =>
        cell.productId := p;
      case SetQuantity(text) =>
        cell.quantity := parseFloat(text);
      case SetUnitPrice(text) =>
        cell.unitPrice := parseFloat(text);
      items := updated;
      assert forall j :: 0 <= j < |items| && j != index ==> items[j].Value() == old(items[j].Value());
    }

    /** handleSubmit. `issued` is the outcome of a CSRF bootstrap request, if
        one is needed; `outcome` that of POST /orders. The line objects are
        left as they are, so the lines are too. */
    method HandleSubmit(api: ApiClient, clientId: Option<int>, issued: Result<string, Failure>, outcome: Result<(), Failure>)
      returns (r: SubmitOutcome, posted: bool)
      modifies this, api
      ensures items == old(items) && unchanged(items)
      ensures api.common == old(api.common) && api.storage == old(api.storage)
      ensures !CanSubmit(clientId, |items|) ==>
        && r == Refused && !posted && alerted == Some(FillAllFields)
        && api.sent == old(api.sent) && api.cookie == old(api.cookie)
        && saving == old(saving) && error == old(error) && navigation == old(navigation)
      ensures CanSubmit(clientId, |items|) ==> r != Refused && !saving && alerted == old(alerted)
      ensures posted <==> CanSubmit(clientId, |items|) && CsrfOutcome(old(api.cookie), issued).Ok?
      ensures posted ==>
        && api.sent == old(api.sent) + CsrfRequests(old(api.cookie), api.common)
                       + [Request(Post, OrdersPath, Outgoing(api.common, map[XsrfHeader := CsrfOutcome(old(api.cookie), issued).value]),
                                  OrderForClient(clientId.value, old(Lines())))]
        && r == (if outcome.Ok? then Succeeded else Failed(outcome.error))
      ensures CanSubmit(clientId, |items|) && !posted ==>
        && api.sent == old(api.sent) + CsrfRequests(old(api.cookie), api.common)
        && r == Failed(CsrfOutcome(old(api.cookie), issued).error)
      ensures r.Succeeded? ==> navigation == Some(OrdersPath) && error == ""
      ensures r.Failed? ==> navigation == old(navigation) && error == ErrorMessages.ClientOrderMessage(r.failure)
    {
      if !CanSubmit(clientId, |items|) {
        alerted := Some(FillAllFields);
        return Refused, false;
      }
      var payload := OrderForClient(clientId.value, Values(items));
      saving := true;
      error := "";
      var response;
      response, posted := api.PostWithCsrf(OrdersPath, payload, CsrfMissing, issued, outcome);
      if response.Ok? {
        navigation := Some(OrdersPath);
        r := Succeeded;
      } else {
        error := ErrorMessages.ClientOrderMessage(response.error);
        r := Failed(response.error);
      }
      saving := false;
    }
  }
}
