/**
Pricing a cart: what the cart view shows and what checkout charges.  Amounts are integer cents.
Both read the same tables; only checkout fails when a line is unavailable.
*/
module Pricing {
  import opened Wrappers

  datatype PriceRow = PriceRow(size: nat, diameter: nat, price: nat, active: bool)

  datatype Line = Line(item: nat, pizza: nat, size: nat, quantity: nat, toppings: seq<nat>)

  /** The read model as both operations see it: names, prices per pizza as listed, extras of the restaurant. */
  datatype Tables = Tables(names: map<nat, string>, prices: map<nat, seq<PriceRow>>, extras: map<nat, nat>)

  datatype ToppingView = ToppingView(topping: nat, extra: Option<nat>)

  datatype LineView = LineView(
    item: nat, pizza: nat, name: string, size: nat, diameter: nat, quantity: nat,
    toppings: seq<ToppingView>, unitPrice: Option<nat>, lineTotal: Option<nat>, available: bool)

  datatype OrderItem = OrderItem(
    pizza: nat, size: nat, name: string, diameter: nat, toppings: seq<nat>,
    quantity: nat, unitPrice: nat, totalPrice: nat)

  function Prices(t: Tables, pizza: nat): seq<PriceRow> {
    if pizza in t.prices then t.prices[pizza] else []
  }

  // ---- an independent description of a line's price ----

  /** The first active row of the size. */
  ghost predicate Offered(rows: seq<PriceRow>, size: nat, k: int) {
    && 0 <= k < |rows| && rows[k].size == size && rows[k].active
    && forall j :: 0 <= j < k ==> !(rows[j].size == size && rows[j].active)
  }

  ghost predicate NotOffered(rows: seq<PriceRow>, size: nat) {
    forall j :: 0 <= j < |rows| ==> !(rows[j].size == size && rows[j].active)
  }

  ghost predicate Available(t: Tables, line: Line) {
    && line.pizza in t.names
    && !NotOffered(Prices(t, line.pizza), line.size)
    && forall k :: 0 <= k < |line.toppings| ==> line.toppings[k] in t.extras
  }

  function Extras(t: Tables, toppings: seq<nat>): nat
    requires forall k :: 0 <= k < |toppings| ==> toppings[k] in t.extras
  {
    if toppings == [] then 0 else Extras(t, toppings[..|toppings| - 1]) + t.extras[toppings[|toppings| - 1]]
  }

  /** The base price in the chosen size plus the extra price of every topping, with repetition. */
  ghost predicate Priced(t: Tables, line: Line, price: nat, diameter: nat) {
    && Available(t, line)
    && exists k :: Offered(Prices(t, line.pizza), line.size, k)
                   && price == Prices(t, line.pizza)[k].price + Extras(t, line.toppings)
                   && diameter == Prices(t, line.pizza)[k].diameter
  }

  /** An order of toppings costs what its parts cost. */
  lemma {:induction false} ExtrasOfParts(t: Tables, a: seq<nat>, b: seq<nat>)
    requires forall k :: 0 <= k < |a| ==> a[k] in t.extras
    requires forall k :: 0 <= k < |b| ==> b[k] in t.extras
    ensures forall k :: 0 <= k < |a + b| ==> (a + b)[k] in t.extras
    ensures Extras(t, a + b) == Extras(t, a) + Extras(t, b)
    ensures |b| == 1 ==> Extras(t, b) == t.extras[b[0]]
  {
    if b == [] {
      assert a + b == a;
    } else {
      var n := |b| - 1;
      ExtrasOfParts(t, a, b[..n]);
      assert (a + b)[..|a + b| - 1] == a + b[..n];
      assert n == 0 ==> b[..n] == [];
    }
  }

  lemma OfferedIsUnique(rows: seq<PriceRow>, size: nat, a: int, b: int)
    requires Offered(rows, size, a) && Offered(rows, size, b)
    ensures a == b
  {
  }

  lemma PricedIsUnique(t: Tables, line: Line, a: nat, da: nat, b: nat, db: nat)
    requires Priced(t, line, a, da) && Priced(t, line, b, db)
    ensures a == b && da == db
  {
    var rows := Prices(t, line.pizza);
    var j :| Offered(rows, line.size, j) && a == rows[j].price + Extras(t, line.toppings) && da == rows[j].diameter;
    var k :| Offered(rows, line.size, k) && b == rows[k].price + Extras(t, line.toppings) && db == rows[k].diameter;
    OfferedIsUnique(rows, line.size, j, k);
  }

  /** The loop both operations run over a pizza's prices. */
  method FindPrice(rows: seq<PriceRow>, size: nat) returns (found: bool, row: PriceRow)
    ensures found <==> exists k :: 0 <= k < |rows| && rows[k].size == size && rows[k].active
    ensures found ==> row.size == size && row.active
    ensures found ==>
              exists k :: 0 <= k < |rows| && rows[k] == row
                          && forall j :: 0 <= j < k ==> rows[j].size != size || !rows[j].active
    ensures found <==> !NotOffered(rows, size)
    ensures found ==> exists k :: Offered(rows, size, k) && row == rows[k]
  {
    row := PriceRow(size, 0, 0, false);
    for k := 0 to |rows|
      invariant forall j :: 0 <= j < k ==> !(rows[j].size == size && rows[j].active)
    {
      if rows[k].size == size && rows[k].active {
        assert Offered(rows, size, k);
        return true, rows[k];
      }
    }
    return false, row;
  }

  // ---- checkout ----

  ghost predicate ItemFor(t: Tables, line: Line, item: OrderItem) {
    && Priced(t, line, item.unitPrice, item.diameter) && item.totalPrice == item.unitPrice * line.quantity
    && item.quantity == line.quantity && item.pizza == line.pizza && item.size == line.size
    && item.toppings == line.toppings && item.name == t.names[line.pizza]
  }

  /** One line of the order, or None if it is unavailable. */
  method ResolveOrderItem(t: Tables, line: Line) returns (item: Option<OrderItem>)
    ensures item.Some? <==>
            && line.pizza in t.names && line.pizza in t.prices
            && (exists k :: 0 <= k < |t.prices[line.pizza]|
                            && t.prices[line.pizza][k].size == line.size && t.prices[line.pizza][k].active)
            && forall k :: 0 <= k < |line.toppings| ==> line.toppings[k] in t.extras
    ensures item.Some? ==>
              exists k :: Offered(t.prices[line.pizza], line.size, k)
                          && item.value.unitPrice == t.prices[line.pizza][k].price + Extras(t, line.toppings)
                          && item.value.diameter == t.prices[line.pizza][k].diameter
    ensures item.Some? ==>
              && item.value.totalPrice == item.value.unitPrice * line.quantity
              && item.value.quantity == line.quantity && item.value.pizza == line.pizza
              && item.value.size == line.size && item.value.toppings == line.toppings
              && item.value.name == t.names[line.pizza]
    ensures item.None? <==> !Available(t, line)
    ensures item.Some? ==> ItemFor(t, line, item.value)
  {
    if line.pizza !in t.names {
      return None;
    }
    var found, row := FindPrice(Prices(t, line.pizza), line.size);
    if !found {
      return None;
    }
    var unitPrice := row.price;
    for k := 0 to |line.toppings|
      invariant forall j :: 0 <= j < k ==> line.toppings[j] in t.extras
      invariant unitPrice == row.price + Extras(t, line.toppings[..k])
    {
      if line.toppings[k] !in t.extras {
        return None;
      }
      assert line.toppings[..k + 1][..k] == line.toppings[..k];
      unitPrice := unitPrice + t.extras[line.toppings[k]];
    }
    assert line.toppings[..|line.toppings|] == line.toppings;
    return Some(OrderItem(line.pizza, line.size, t.names[line.pizza], row.diameter, line.toppings,
                          line.quantity, unitPrice, unitPrice * line.quantity));
  }

  function TotalOf(items: seq<OrderItem>): nat {
    if items == [] then 0 else TotalOf(items[..|items| - 1]) + items[|items| - 1].totalPrice
  }

  lemma {:induction false} TotalOfParts(a: seq<OrderItem>, b: seq<OrderItem>)
    ensures TotalOf(a + b) == TotalOf(a) + TotalOf(b)
    ensures |b| == 1 ==> TotalOf(b) == b[0].totalPrice
  {
    if b == [] {
      assert a + b == a;
    } else {
      var n := |b| - 1;
      TotalOfParts(a, b[..n]);
      assert (a + b)[..|a + b| - 1] == a + b[..n];
      assert n == 0 ==> b[..n] == [];
    }
  }

  /** Checkout's loop: it fails exactly when some line is unavailable. */
  method ResolveOrder(t: Tables, lines: seq<Line>) returns (items: Option<seq<OrderItem>>, subtotal: nat)
    ensures items.None? <==> exists k :: 0 <= k < |lines| && !Available(t, lines[k])
    ensures items.Some? ==>
              && |items.value| == |lines| && subtotal == TotalOf(items.value)
              && forall k :: 0 <= k < |lines| ==> ItemFor(t, lines[k], items.value[k])
  {
    var resolved: seq<OrderItem> := [];
    subtotal := 0;
    for k := 0 to |lines|
      invariant |resolved| == k && subtotal == TotalOf(resolved)
      invariant forall j :: 0 <= j < k ==> Available(t, lines[j]) && ItemFor(t, lines[j], resolved[j])
    {
      var item := ResolveOrderItem(t, lines[k]);
      if item.None? {
        return None, subtotal;
      }
      assert (resolved + [item.value])[..k] == resolved;
      resolved := resolved + [item.value];
      subtotal := subtotal + item.value.totalPrice;
    }
    return Some(resolved), subtotal;
  }

  // ---- the cart view ----

  ghost predicate ViewFor(t: Tables, line: Line, view: LineView) {
    && (view.available <==> Available(t, line))
    && (view.available ==>
          && view.unitPrice.Some? && Priced(t, line, view.unitPrice.value, view.diameter)
          && view.name == t.names[line.pizza]
          && view.lineTotal == Some(view.unitPrice.value * line.quantity))
    && (!view.available ==> view.unitPrice.None? && view.lineTotal.None?)
  }

  /** The view's topping loop: it goes on after an unknown topping. */
  method AddToppings(t: Tables, toppings: seq<nat>, base: nat)
    returns (views: seq<ToppingView>, unitPrice: nat, known: bool)
    ensures |views| == |toppings|
    ensures forall k :: 0 <= k < |toppings| ==>
              && views[k].topping == toppings[k]
              && (views[k].extra.Some? <==> toppings[k] in t.extras)
              && (toppings[k] in t.extras ==> views[k].extra.value == t.extras[toppings[k]])
    ensures known <==> forall k :: 0 <= k < |toppings| ==> toppings[k] in t.extras
    ensures known ==> unitPrice == base + Extras(t, toppings)
  {
    views, unitPrice, known := [], base, true;
    for k := 0 to |toppings|
      invariant |views| == k
      invariant forall j :: 0 <= j < k ==>
                  views[j] == ToppingView(toppings[j], if toppings[j] in t.extras then Some(t.extras[toppings[j]]) else None)
      invariant known <==> forall j :: 0 <= j < k ==> toppings[j] in t.extras
      invariant known ==> unitPrice == base + Extras(t, toppings[..k])
    {
      if toppings[k] !in t.extras {
        views := views + [ToppingView(toppings[k], None)];
        known := false;
        continue;
      }
      views := views + [ToppingView(toppings[k], Some(t.extras[toppings[k]]))];
      assert toppings[..k + 1][..k] == toppings[..k];
      unitPrice := unitPrice + t.extras[toppings[k]];
    }
    assert toppings[..|toppings|] == toppings;
  }

  method ResolveItemView(t: Tables, line: Line) returns (view: LineView, lineTotal: nat)
    ensures view.available <==>
            && line.pizza in t.names && line.pizza in t.prices
            && (exists k :: 0 <= k < |t.prices[line.pizza]|
                            && t.prices[line.pizza][k].size == line.size && t.prices[line.pizza][k].active)
            && forall k :: 0 <= k < |line.toppings| ==> line.toppings[k] in t.extras
    ensures view.available ==>
              && view.lineTotal == Some(lineTotal) && view.unitPrice.Some?
              && lineTotal == view.unitPrice.value * line.quantity
              && exists k :: Offered(t.prices[line.pizza], line.size, k)
                             && view.unitPrice.value == t.prices[line.pizza][k].price + Extras(t, line.toppings)
                             && view.diameter == t.prices[line.pizza][k].diameter
    ensures !view.available ==> view.unitPrice.None? && view.lineTotal.None? && lineTotal == 0
    ensures view.name == if line.pizza in t.names then t.names[line.pizza] else ""
    ensures ViewFor(t, line, view)
    ensures view.item == line.item && view.pizza == line.pizza && view.size == line.size && view.quantity == line.quantity
    ensures |view.toppings| == |line.toppings|
    ensures forall k :: 0 <= k < |line.toppings| ==>
              && view.toppings[k].topping == line.toppings[k]
              && (view.toppings[k].extra.Some? <==> line.toppings[k] in t.extras)
              && (line.toppings[k] in t.extras ==> view.toppings[k].extra.value == t.extras[line.toppings[k]])
  {
    view := LineView(line.item, line.pizza, "", line.size, 0, line.quantity, [], None, None, false);
    var unitPrice := 0;
    var available := line.pizza in t.names;
    if available {
      view := view.(name := t.names[line.pizza]);
      var found, row := FindPrice(Prices(t, line.pizza), line.size);
      if found {
        unitPrice := row.price;
        view := view.(diameter := row.diameter);
      }
      available := found;
    }
    var toppingViews, price, known := AddToppings(t, line.toppings, unitPrice);
    available := available && known;
    view := view.(toppings := toppingViews, available := available);
    if !available {
      return view, 0;
    }
    lineTotal := price * line.quantity;
    view := view.(unitPrice := Some(price), lineTotal := Some(lineTotal));
  }

  function SumOf(views: seq<LineView>): nat {
    if views == [] then 0
    else
      var last := views[|views| - 1];
      SumOf(views[..|views| - 1]) + if last.lineTotal.Some? then last.lineTotal.value else 0
  }

  method ViewCart(t: Tables, lines: seq<Line>) returns (views: seq<LineView>, subtotal: nat)
    ensures |views| == |lines| && subtotal == SumOf(views)
    ensures forall k :: 0 <= k < |lines| ==> ViewFor(t, lines[k], views[k])
  {
    views := [];
    subtotal := 0;
    for k := 0 to |lines|
      invariant |views| == k && subtotal == SumOf(views)
      invariant forall j :: 0 <= j < k ==> ViewFor(t, lines[j], views[j])
    {
      var view, lineTotal := ResolveItemView(t, lines[k]);
      assert (views + [view])[..k] == views;
      views := views + [view];
      subtotal := subtotal + lineTotal;
    }
  }

  // ---- they agree ----

  ghost predicate Agree(view: LineView, item: OrderItem) {
    && view.unitPrice == Some(item.unitPrice) && view.lineTotal == Some(item.totalPrice)
    && view.diameter == item.diameter && view.name == item.name
  }

  lemma SameLine(t: Tables, line: Line, view: LineView, item: OrderItem)
    requires ViewFor(t, line, view) && ItemFor(t, line, item)
    ensures Agree(view, item)
  {
    PricedIsUnique(t, line, view.unitPrice.value, view.diameter, item.unitPrice, item.diameter);
  }

  lemma {:induction false} SameSubtotal(views: seq<LineView>, items: seq<OrderItem>)
    requires |views| == |items| && forall k :: 0 <= k < |views| ==> Agree(views[k], items[k])
    ensures SumOf(views) == TotalOf(items)
  {
    if views != [] {
      SameSubtotal(views[..|views| - 1], items[..|items| - 1]);
    }
  }

  /**
  The cart view and checkout on the same tables: checkout is refused exactly when the view shows
  an unavailable line, and otherwise both give the same unit prices, line totals and subtotal.
  */
  method ViewAndCheckoutAgree(t: Tables, lines: seq<Line>)
    returns (views: seq<LineView>, shown: nat, items: Option<seq<OrderItem>>, charged: nat)
    ensures |views| == |lines|
    ensures items.None? <==> exists k :: 0 <= k < |views| && !views[k].available
    ensures items.Some? ==>
              && charged == shown && |items.value| == |views|
              && forall k :: 0 <= k < |views| ==> Agree(views[k], items.value[k])
  {
    views, shown := ViewCart(t, lines);
    items, charged := ResolveOrder(t, lines);
    assert forall k :: 0 <= k < |lines| ==> (views[k].available <==> Available(t, lines[k]));
    if items.Some? {
      forall k | 0 <= k < |views| ensures Agree(views[k], items.value[k]) {
        SameLine(t, lines[k], views[k], items.value[k]);
      }
      SameSubtotal(views, items.value);
    }
  }

  // ---- the order's total ----

  datatype Fulfillment = Delivery | Pickup

  datatype Restaurant = Restaurant(
    pickup: bool, delivers: bool, minimumOrder: nat, deliveryFee: nat, hasRadius: bool)

  /** The request and what the environment answers: address and phone present, geocoding, distance. */
  datatype Request = Request(
    fulfillment: Fulfillment, hasAddress: bool, hasPhone: bool, geocoded: bool, withinRadius: bool)

  datatype CheckoutError =
    | CartEmpty | FulfillmentNotSupported | AddressRequired | PhoneRequired | ItemUnavailable
    | BelowMinimum | GeocodingUnavailable | OutsideRadius

  datatype Order = Order(items: seq<OrderItem>, subtotal: nat, deliveryFee: nat, total: nat)

  /**
  Checkout up to the order: its total is the sum of its line totals plus the delivery fee, which
  is zero for pickup.
  */
  method PriceOrder(t: Tables, r: Restaurant, q: Request, lines: seq<Line>)
    returns (result: Result<Order, CheckoutError>, ghost priced: seq<OrderItem>)
    ensures result == Err(CartEmpty) <==> lines == []
    ensures result == Err(FulfillmentNotSupported) <==>
            && lines != []
            && (q.fulfillment.Pickup? ==> !r.pickup) && (q.fulfillment.Delivery? ==> !r.delivers)
    ensures result == Err(AddressRequired) <==>
            lines != [] && q.fulfillment.Delivery? && r.delivers && !q.hasAddress
    ensures result == Err(PhoneRequired) <==>
            lines != [] && q.fulfillment.Delivery? && r.delivers && q.hasAddress && !q.hasPhone
    ensures result == Err(ItemUnavailable) <==>
            && (q.fulfillment.Pickup? ==> r.pickup)
            && (q.fulfillment.Delivery? ==> r.delivers && q.hasAddress && q.hasPhone)
            && exists k :: 0 <= k < |lines| && !Available(t, lines[k])
    ensures result.Ok? || result.error in {BelowMinimum, GeocodingUnavailable, OutsideRadius} ==>
              && |priced| == |lines| && (forall k :: 0 <= k < |lines| ==> ItemFor(t, lines[k], priced[k]))
              && (result == Err(BelowMinimum) <==> TotalOf(priced) < r.minimumOrder)
              && (result == Err(GeocodingUnavailable) <==>
                  TotalOf(priced) >= r.minimumOrder && q.fulfillment.Delivery? && !q.geocoded)
              && (result == Err(OutsideRadius) <==>
                  && TotalOf(priced) >= r.minimumOrder && q.fulfillment.Delivery? && q.geocoded
                  && !(r.hasRadius && q.withinRadius))
    ensures result.Ok? ==>
              && result.value.items == priced && result.value.subtotal == TotalOf(priced)
              && result.value.total == result.value.subtotal + result.value.deliveryFee
              && (q.fulfillment.Pickup? ==> result.value.deliveryFee == 0)
              && (q.fulfillment.Delivery? ==> result.value.deliveryFee == r.deliveryFee)
  {
    priced := [];
    if lines == [] {
      return Err(CartEmpty), priced;
    }
    if q.fulfillment.Pickup? && !r.pickup {
      return Err(FulfillmentNotSupported), priced;
    }
    if q.fulfillment.Delivery? {
      if !r.delivers {
        return Err(FulfillmentNotSupported), priced;
      }
      if !q.hasAddress {
        return Err(AddressRequired), priced;
      }
    }
    if q.fulfillment.Delivery? && !q.hasPhone {
      return Err(PhoneRequired), priced;
    }
    var items, subtotal := ResolveOrder(t, lines);
    if items.None? {
      return Err(ItemUnavailable), priced;
    }
    priced := items.value;
    if subtotal < r.minimumOrder {
      return Err(BelowMinimum), priced;
    }
    var deliveryFee := 0;
    if q.fulfillment.Delivery? {
      if !q.geocoded {
        return Err(GeocodingUnavailable), priced;
      }
      if !r.hasRadius {
        return Err(OutsideRadius), priced;
      }
      if !q.withinRadius {
        return Err(OutsideRadius), priced;
      }
      deliveryFee := r.deliveryFee;
    }
    return Ok(Order(items.value, subtotal, deliveryFee, subtotal + deliveryFee)), priced;
  }
}
