/**
Carts and their lines.  A line is stored once per cart, pizza, size and sorted topping list;
adding it again adds to its quantity.  Quantities are 16-bit integers.
*/
module Cart {
  import opened Wrappers
  import opened Toppings

  const MAX_QUANTITY: int := 32767

  datatype CartRow = CartRow(id: nat, restaurant: nat)

  datatype Item = Item(cart: nat, pizza: nat, size: nat, quantity: int, toppings: seq<nat>)

  datatype Db = Db(carts: map<nat, CartRow>, items: map<nat, Item>)   // by customer, by item id

  predicate CartExists(db: Db, cart: nat) {
    exists c :: c in db.carts && db.carts[c].id == cart
  }

  /** The unique key of a line. */
  predicate SameLine(a: Item, b: Item) {
    a.cart == b.cart && a.pizza == b.pizza && a.size == b.size && a.toppings == b.toppings
  }

  predicate Fits(quantity: int) {
    0 < quantity <= MAX_QUANTITY
  }

  /** Line i is the item's, its quantity grew by the item's, and nothing else changed. */
  ghost predicate AddedTo(items: map<nat, Item>, items': map<nat, Item>, i: nat, item: Item)
    requires i in items'
  {
    && items' == items[i := items'[i]]
    && items'[i].cart == item.cart && items'[i].pizza == item.pizza
    && items'[i].size == item.size && items'[i].toppings == item.toppings
    && items'[i].quantity == item.quantity + (if i in items then items[i].quantity else 0)
    && 0 < items'[i].quantity <= 32767
    && (if i in items then items[i].(quantity := 0) == items'[i].(quantity := 0)
        else forall j :: j in items ==> items[j].(quantity := 0) != items'[i].(quantity := 0))
  }

  // ---- the statements ----

  /** Adding an item: merged into line i, inserted, or failed without effect. */
  ghost predicate MergedInto(db: Db, db': Db, i: nat, item: Item, ok: bool) {
    && i in db.items && SameLine(db.items[i], item)
    && var quantity := db.items[i].quantity + item.quantity;
       && (ok <==> Fits(quantity))
       && db' == if ok then db.(items := db.items[i := db.items[i].(quantity := quantity)]) else db
  }

  ghost predicate Inserted(db: Db, db': Db, newId: nat, item: Item, ok: bool) {
    && (forall i :: i in db.items ==> !SameLine(db.items[i], item))
    && (ok <==> CartExists(db, item.cart) && Fits(item.quantity))
    && db' == if ok then db.(items := db.items[newId := item]) else db
  }

  ghost predicate Adds(db: Db, db': Db, newId: nat, item: Item, ok: bool) {
    (exists i :: MergedInto(db, db', i, item, ok)) || Inserted(db, db', newId, item, ok)
  }

  function SetQuantity(db: Db, cart: nat, id: nat, quantity: int): (Db, bool) {
    if id in db.items && db.items[id].cart == cart && Fits(quantity) then
      (db.(items := db.items[id := db.items[id].(quantity := quantity)]), true)
    else (db, false)
  }

  predicate IsEmpty(items: map<nat, Item>, cart: nat) {
    forall i :: i in items ==> items[i].cart != cart
  }

  function WithoutCart(carts: map<nat, CartRow>, cart: nat): map<nat, CartRow> {
    map c | c in carts && carts[c].id != cart :: carts[c]
  }

  function WithoutItems(items: map<nat, Item>, cart: nat): map<nat, Item> {
    map i | i in items && items[i].cart != cart :: items[i]
  }

  /** Deleting a cart deletes its items. */
  function Cleared(db: Db, cart: nat): Db {
    Db(WithoutCart(db.carts, cart), WithoutItems(db.items, cart))
  }

  /** Removing the last item removes the cart. */
  function Removed(db: Db, cart: nat, id: nat): (Db, bool) {
    if id !in db.items || db.items[id].cart != cart then (db, false)
    else
      var items := db.items - {id};
      if IsEmpty(items, cart) then (Cleared(db.(items := items), cart), true)
      else (db.(items := items), true)
  }

  /** What the read model says about a pizza: its restaurant, its active sizes, and the toppings sold there. */
  datatype Menu = Menu(restaurantOf: map<nat, nat>, sizes: map<nat, seq<(nat, bool)>>, toppings: map<nat, seq<nat>>)

  predicate SizeActive(menu: Menu, pizza: nat, size: nat) {
    pizza in menu.sizes && exists k :: 0 <= k < |menu.sizes[pizza]| && menu.sizes[pizza][k] == (size, true)
  }

  predicate ToppingSold(menu: Menu, restaurant: nat, topping: nat) {
    restaurant in menu.toppings && topping in menu.toppings[restaurant]
  }

  predicate ToppingsSold(menu: Menu, restaurant: nat, ids: seq<nat>) {
    forall k :: 0 <= k < |ids| ==> ToppingSold(menu, restaurant, ids[k])
  }

  datatype Added = Done | PizzaNotFound | SizeNotAvailable | ToppingNotFound | OtherRestaurant | NotStored

  datatype Request = Request(pizza: nat, size: nat, quantity: int, toppings: seq<nat>)

  class CartStore {
    var carts: map<nat, CartRow>
    var items: map<nat, Item>

    ghost function View(): Db
      reads this
    {
      Db(carts, items)
    }

    method FindLine(item: Item) returns (found: Option<nat>)
      ensures found.Some? ==> found.value in items && SameLine(items[found.value], item)
      ensures found.None? ==> forall i :: i in items ==> !SameLine(items[i], item)
    {
      if i :| i in items && SameLine(items[i], item) {
        return Some(i);
      }
      return None;
    }

    method AddOrMergeItem(newId: nat, item: Item) returns (ok: bool)
      requires newId !in items
      modifies this`items
      ensures !ok ==> items == old(items)
      ensures ok ==> exists i :: i in items && AddedTo(old(items), items, i, item)
      ensures ok && (forall c :: c in carts ==> carts[c].id != item.cart) ==>
                exists i :: i in old(items) && SameLine(old(items)[i], item)
      ensures !ok ==>
                || (exists i :: i in items && SameLine(items[i], item)
                                && !(0 < items[i].quantity + item.quantity <= 32767))
                || ((forall i :: i in items ==> !SameLine(items[i], item))
                    && ((forall c :: c in carts ==> carts[c].id != item.cart) || !(0 < item.quantity <= 32767)))
      ensures Adds(old(View()), View(), newId, item, ok)
    {
      var line := FindLine(item);
      if line.Some? {
        var quantity := items[line.value].quantity + item.quantity;
        ok := Fits(quantity);
        if ok {
          items := items[line.value := items[line.value].(quantity := quantity)];
          assert AddedTo(old(items), items, line.value, item) && SameLine(old(items)[line.value], item);
        }
        assert MergedInto(old(View()), View(), line.value, item, ok);
      } else {
        ok := CartExists(Db(carts, items), item.cart) && Fits(item.quantity);
        if ok {
          items := items[newId := item];
          assert AddedTo(old(items), items, newId, item);
          assert exists c :: c in carts && carts[c].id == item.cart;
        }
      }
    }

    method UpdateItemQuantity(cart: nat, id: nat, quantity: int) returns (ok: bool)
      modifies this`items
      ensures ok <==> id in old(items) && old(items)[id].cart == cart && 0 < quantity <= 32767
      ensures items == if ok then old(items)[id := old(items)[id].(quantity := quantity)] else old(items)
      ensures (View(), ok) == SetQuantity(old(View()), cart, id, quantity)
    {
      ok := id in items && items[id].cart == cart && Fits(quantity);
      if ok {
        items := items[id := items[id].(quantity := quantity)];
      }
    }

    method RemoveItem(cart: nat, id: nat) returns (ok: bool)
      modifies this
      ensures ok <==> id in old(items) && old(items)[id].cart == cart
      ensures items == if ok then old(items) - {id} else old(items)
      ensures forall c :: c in carts ==> c in old(carts) && carts[c] == old(carts)[c]
      ensures forall c :: c in old(carts) && c !in carts ==>
                ok && old(carts)[c].id == cart && forall i :: i in items ==> items[i].cart != cart
      ensures ok && (forall i :: i in items ==> items[i].cart != cart) ==> forall c :: c in carts ==> carts[c].id != cart
      ensures (View(), ok) == Removed(old(View()), cart, id)
    {
      if id !in items || items[id].cart != cart {
        return false;
      }
      items := items - {id};
      if IsEmpty(items, cart) {
        Clear(cart);
        assert items == old(items) - {id};
      }
      return true;
    }

    method Clear(cart: nat)
      modifies this
      ensures forall c :: c in carts <==> c in old(carts) && old(carts)[c].id != cart
      ensures forall c :: c in carts ==> carts[c] == old(carts)[c]
      ensures forall i :: i in items <==> i in old(items) && old(items)[i].cart != cart
      ensures forall i :: i in items ==> items[i] == old(items)[i]
      ensures View() == Cleared(old(View()), cart)
    {
      carts := map c | c in carts && carts[c].id != cart :: carts[c];
      items := map i | i in items && items[i].cart != cart :: items[i];
    }

    /**
    Adds an item to the customer's cart, creating the cart if there is none.  The line stored has
    the request's toppings in sorted order, as `line` shows.
    */
    method AddItem(menu: Menu, customer: nat, r: Request, newCart: nat, newId: nat)
      returns (outcome: Added, line: Item)
      requires newId !in items && !CartExists(View(), newCart)
      modifies this
      ensures outcome == PizzaNotFound <==> r.pizza !in menu.restaurantOf
      ensures outcome == SizeNotAvailable <==>
              && r.pizza in menu.restaurantOf
              && (r.pizza in menu.sizes ==> (r.size, true) !in menu.sizes[r.pizza])
      ensures outcome == ToppingNotFound <==>
              && r.pizza in menu.restaurantOf && r.pizza in menu.sizes && (r.size, true) in menu.sizes[r.pizza]
              && exists k :: 0 <= k < |r.toppings| && !ToppingSold(menu, menu.restaurantOf[r.pizza], r.toppings[k])
      ensures outcome == OtherRestaurant <==>
              && r.pizza in menu.restaurantOf && r.pizza in menu.sizes && (r.size, true) in menu.sizes[r.pizza]
              && (forall k :: 0 <= k < |r.toppings| ==> ToppingSold(menu, menu.restaurantOf[r.pizza], r.toppings[k]))
              && customer in old(carts) && old(carts)[customer].restaurant != menu.restaurantOf[r.pizza]
      ensures outcome !in {Done, NotStored} ==> View() == old(View())
      ensures outcome in {Done, NotStored} ==>
                && customer in carts && carts[customer].restaurant == menu.restaurantOf[r.pizza]
                && (customer in old(carts) ==> carts == old(carts))
                && (customer !in old(carts) ==>
                      carts == old(carts)[customer := carts[customer]] && carts[customer].id == newCart)
                && line == Item(carts[customer].id, r.pizza, r.size, r.quantity, line.toppings)
                && Ascending(line.toppings) && multiset(line.toppings) == multiset(r.toppings)
                && Adds(Db(carts, old(items)), View(), newId, line, outcome == Done)
    {
      line := Item(newCart, r.pizza, r.size, r.quantity, r.toppings);
      if r.pizza !in menu.restaurantOf {
        return PizzaNotFound, line;
      }
      var restaurant := menu.restaurantOf[r.pizza];
      var priceFound := FindSize(menu, r.pizza, r.size);
      if !priceFound {
        return SizeNotAvailable, line;
      }
      var sold := AllSold(menu, restaurant, r.toppings);
      if !sold {
        return ToppingNotFound, line;
      }
      if customer !in carts {
        carts := carts[customer := CartRow(newCart, restaurant)];
      } else if carts[customer].restaurant != restaurant {
        return OtherRestaurant, line;
      }
      var sorted := SortedCopy(r.toppings);
      line := Item(carts[customer].id, r.pizza, r.size, r.quantity, sorted);
      var ok := AddOrMergeItem(newId, line);
      return if ok then Done else NotStored, line;
    }
  }

  method FindSize(menu: Menu, pizza: nat, size: nat) returns (found: bool)
    ensures found == SizeActive(menu, pizza, size)
  {
    if pizza !in menu.sizes {
      return false;
    }
    var prices := menu.sizes[pizza];
    for k := 0 to |prices|
      invariant forall j :: 0 <= j < k ==> prices[j] != (size, true)
    {
      if prices[k].0 == size && prices[k].1 {
        return true;
      }
    }
    return false;
  }

  method AllSold(menu: Menu, restaurant: nat, ids: seq<nat>) returns (all: bool)
    ensures all <==>
            || ids == []
            || (restaurant in menu.toppings && forall k :: 0 <= k < |ids| ==> ids[k] in menu.toppings[restaurant])
    ensures all == ToppingsSold(menu, restaurant, ids)
  {
    if ids == [] {
      return true;
    }
    var valid: set<nat> := {};
    if restaurant in menu.toppings {
      var sold := menu.toppings[restaurant];
      for k := 0 to |sold|
        invariant forall t :: t in valid <==> t in sold[..k]
      {
        valid := valid + {sold[k]};
      }
    }
    assert forall t :: t in valid <==> ToppingSold(menu, restaurant, t);
    for k := 0 to |ids|
      invariant forall j :: 0 <= j < k ==> ToppingSold(menu, restaurant, ids[j])
    {
      if ids[k] !in valid {
        return false;
      }
    }
    assert ToppingSold(menu, restaurant, ids[0]);
    return true;
  }
}
