/** The line items of the three order forms (OrderItemInput of
    src/types/index.ts, and the local OrderItem of the client-order page) and
    what the pages share about them: the order total and editing one field of
    one line. */
module LineItems {

  /** One order line. P is the type of the product reference: the value of a
      form select (a string) on two pages, a number on the third. */
  datatype LineItem<P> = LineItem(productId: P, quantity: real, unitPrice: real)

  function Amount<P>(item: LineItem<P>): real {
    item.quantity * item.unitPrice
  }

  /** `items.reduce((acc, item) => acc + item.quantity * item.unit_price, 0)`:
      a left fold from 0. */
  function Total<P>(items: seq<LineItem<P>>): real
  {
    if items == [] then 0.0 else Total(items[..|items| - 1]) + Amount(items[|items| - 1])
  }

  /** The total is additive: the total of two lists one after the other is the
      sum of their totals. */
  lemma {:induction false} TotalAppend<P>(a: seq<LineItem<P>>, b: seq<LineItem<P>>)
    ensures Total(a + b) == Total(a) + Total(b)
    decreases |b|
  {
    if b == [] {
      assert a + b == a;
    } else {
      var init := b[..|b| - 1];
      assert (a + b)[..|a + b| - 1] == a + init;
      TotalAppend(a, init);
    }
  }

  /** Replacing one line changes the total by the difference of the two lines'
      amounts and by nothing else. */
  lemma TotalUpdate<P>(items: seq<LineItem<P>>, i: nat, x: LineItem<P>)
    requires i < |items|
    ensures Total(items[i := x]) == Total(items) - Amount(items[i]) + Amount(x)
  {
    var before, after := items[..i], items[i + 1..];
    assert items == before + [items[i]] + after;
    assert items[i := x] == before + [x] + after;
    TotalAppend(before + [items[i]], after);
    TotalAppend(before, [items[i]]);
    TotalAppend(before + [x], after);
    TotalAppend(before, [x]);
  }

  /** Lines with non-negative quantities and prices give a non-negative total. */
  lemma {:induction false} TotalNonNegative<P>(items: seq<LineItem<P>>)
    requires forall i :: 0 <= i < |items| ==> items[i].quantity >= 0.0 && items[i].unitPrice >= 0.0
    ensures Total(items) >= 0.0
  {
    if items != [] {
      var last := items[|items| - 1];
      TotalNonNegative(items[..|items| - 1]);
      assert last.quantity * last.unitPrice >= 0.0;
    }
  }

  /** The worked example: 2 x 10.5 plus 1 x 5 is 26. */
  lemma TotalExample()
    ensures Total([LineItem("1", 2.0, 10.5), LineItem("2", 1.0, 5.0)]) == 26.0
  {
    var items := [LineItem("1", 2.0, 10.5), LineItem("2", 1.0, 5.0)];
    assert items[..1] == [items[0]];
    assert [items[0]][..0] == [];
  }

  /** handleChangeItem(index, field, value): the field to set and its value.
      Quantity and unit price arrive as the text of a number input. */
  datatype Edit<P> = SetProduct(productId: P) | SetQuantity(text: string) | SetUnitPrice(text: string)

  /** `{ ...item, [field]: value }`: only the named field changes; quantity and
      unit price receive the numeric coercion of the text (Number() or
      parseFloat(), passed in as toNumber). */
  function Apply<P>(item: LineItem<P>, edit: Edit<P>, toNumber: string -> real): (r: LineItem<P>)
    ensures r.productId == (if edit.SetProduct? then edit.productId else item.productId)
    ensures r.quantity == (if edit.SetQuantity? then toNumber(edit.text) else item.quantity)
    ensures r.unitPrice == (if edit.SetUnitPrice? then toNumber(edit.text) else item.unitPrice)
  {
    match edit
    case SetProduct(p) => item.(productId := p)
    case SetQuantity(text) => item.(quantity := toNumber(text))
    case SetUnitPrice(text) => item.(unitPrice := toNumber(text))
  }

  /** The list handleChangeItem passes to setItems: same length, every other
      line as it was, the line at index edited. */
  function ChangeItem<P>(items: seq<LineItem<P>>, index: nat, edit: Edit<P>, toNumber: string -> real): (r: seq<LineItem<P>>)
    requires index < |items|
    ensures |r| == |items|
    ensures forall j :: 0 <= j < |items| && j != index ==> r[j] == items[j]
    ensures r[index] == Apply(items[index], edit, toNumber)
  {
    items[index := Apply(items[index], edit, toNumber)]
  }

  /** Editing a line moves the total by that line's change and by nothing else. */
  lemma ChangeItemTotal<P>(items: seq<LineItem<P>>, index: nat, edit: Edit<P>, toNumber: string -> real)
    requires index < |items|
    ensures Total(ChangeItem(items, index, edit, toNumber))
         == Total(items) - Amount(items[index]) + Amount(Apply(items[index], edit, toNumber))
  {
    var x := Apply(items[index], edit, toNumber);
    assert ChangeItem(items, index, edit, toNumber) == items[index := x];
    TotalUpdate(items, index, x);
  }

  /** Choosing another product for a line leaves the total as it was. */
  lemma ProductChoiceKeepsTotal<P>(items: seq<LineItem<P>>, index: nat, productId: P, toNumber: string -> real)
    requires index < |items|
    ensures Total(ChangeItem(items, index, SetProduct(productId), toNumber)) == Total(items)
  {
    var x := Apply(items[index], SetProduct(productId), toNumber);
    assert Amount(x) == Amount(items[index]) by {
      assert x.quantity == items[index].quantity && x.unitPrice == items[index].unitPrice;
    }
    ChangeItemTotal(items, index, SetProduct(productId), toNumber);
  }
}
