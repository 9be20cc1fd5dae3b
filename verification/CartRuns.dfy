/**
Whole runs of the cart statements, in any order and from any number of concurrent requests.  A
request to add an item looks the customer's cart up and checks its restaurant, or finds none and
creates one, and only later stores the item; anything may happen in between.  The state keeps a
log of the statements that took effect.

Assumption: a pizza stays with its restaurant, and a new cart's id was never used before.
*/
module CartRuns {
  import opened Wrappers
  import opened Toppings
  import opened Cart

  /** A line as the customer thinks of it: toppings in any order. */
  datatype LineKey = LineKey(cart: nat, pizza: nat, size: nat, toppings: multiset<nat>)

  function KeyOf(item: Item): LineKey {
    LineKey(item.cart, item.pizza, item.size, multiset(item.toppings))
  }

  datatype Op = Add(key: LineKey, quantity: int) | Set(key: LineKey, quantity: int) | Drop(key: LineKey) | DropCart(cart: nat)

  /** A request to add an item between two of its statements; toppings are sorted already. */
  datatype Task = NeedsCart(customer: nat, choice: Request) | Ready(item: Item)

  datatype State = State(
    db: Db,
    log: seq<Op>,
    filled: set<nat>,    // carts that have ever had an item
    issued: set<nat>,    // cart ids in use so far
    tasks: map<nat, Task>)

  datatype Step =
    | FindCart(task: nat, customer: nat, choice: Request)
    | CreateCart(task: nat, cart: nat)
    | AddItem(task: nat, newId: nat, after: Db, ok: bool)
    | Abandon(task: nat)
    | SetItem(cart: nat, id: nat, quantity: int)
    | RemoveItem(cart: nat, id: nat)
    | ClearCart(cart: nat)

  function ItemFor(cart: nat, r: Request): Item {
    Item(cart, r.pizza, r.size, r.quantity, r.toppings)
  }

  /** `home` tells the restaurant of each pizza. */
  ghost predicate Enabled(s: State, home: map<nat, nat>, step: Step) {
    match step
    case FindCart(t, customer, r) =>
      && t !in s.tasks && r.pizza in home && Ascending(r.toppings) && Fits(r.quantity)
      && (customer in s.db.carts ==> s.db.carts[customer].restaurant == home[r.pizza])
    case CreateCart(t, cart) =>
      && t in s.tasks && s.tasks[t].NeedsCart? && s.tasks[t].choice.pizza in home
      && s.tasks[t].customer !in s.db.carts && cart !in s.issued
    case AddItem(t, newId, after, ok) =>
      && t in s.tasks && s.tasks[t].Ready? && newId !in s.db.items && Adds(s.db, after, newId, s.tasks[t].item, ok)
    case Abandon(t) => t in s.tasks
    case _ => true
  }

  function Apply(s: State, home: map<nat, nat>, step: Step): State
    requires Enabled(s, home, step)
  {
    match step
    case FindCart(t, customer, r) =>
      s.(tasks := s.tasks[t := if customer in s.db.carts then Ready(ItemFor(s.db.carts[customer].id, r))
                               else NeedsCart(customer, r)])
    case CreateCart(t, cart) =>
      var r := s.tasks[t].choice;
      s.(db := s.db.(carts := s.db.carts[s.tasks[t].customer := CartRow(cart, home[r.pizza])]),
         issued := s.issued + {cart}, tasks := s.tasks[t := Ready(ItemFor(cart, r))])
    case AddItem(t, _, after, ok) =>
      var item := s.tasks[t].item;
      if ok then s.(db := after, log := s.log + [Add(KeyOf(item), item.quantity)], filled := s.filled + {item.cart},
                    tasks := s.tasks - {t})
      else s.(db := after, tasks := s.tasks - {t})
    case Abandon(t) => s.(tasks := s.tasks - {t})
    case SetItem(cart, id, quantity) =>
      if SetQuantity(s.db, cart, id, quantity).1 then
        s.(db := SetQuantity(s.db, cart, id, quantity).0, log := s.log + [Set(KeyOf(s.db.items[id]), quantity)])
      else s
    case RemoveItem(cart, id) =>
      if Removed(s.db, cart, id).1 then
        s.(db := Removed(s.db, cart, id).0, log := s.log + [Drop(KeyOf(s.db.items[id]))])
      else s
    case ClearCart(cart) => s.(db := Cleared(s.db, cart), log := s.log + [DropCart(cart)])
  }

  function Start(): State {
    State(Db(map[], map[]), [], {}, {}, map[])
  }

  ghost predicate Next(s: State, home: map<nat, nat>, s': State) {
    exists step :: Enabled(s, home, step) && s' == Apply(s, home, step)
  }

  ghost predicate Run(home: map<nat, nat>, trace: seq<State>) {
    && |trace| > 0 && trace[0] == Start()
    && forall i :: 0 <= i < |trace| - 1 ==> Next(trace[i], home, trace[i + 1])
  }

  // ---- what the log says about a line ----

  predicate Resets(op: Op, key: LineKey) {
    match op
    case Add(_, _) => false
    case Set(k, _) => k == key
    case Drop(k) => k == key
    case DropCart(cart) => cart == key.cart
  }

  function AddedBy(op: Op, key: LineKey): int {
    if op.Add? && op.key == key then op.quantity else 0
  }

  /** The quantities added to the line from place n of the log on. */
  function Sum(log: seq<Op>, n: nat, key: LineKey): int
    decreases |log|
  {
    if |log| <= n then 0 else Sum(log[..|log| - 1], n, key) + AddedBy(log[|log| - 1], key)
  }

  /** n is the place after the last statement that set, removed or cleared the line. */
  ghost predicate LastReset(log: seq<Op>, key: LineKey, n: nat) {
    && n <= |log| && (n > 0 ==> Resets(log[n - 1], key))
    && forall i :: n <= i < |log| ==> !Resets(log[i], key)
  }

  /** The last set value plus all later adds; None if there is no line. */
  ghost predicate Accounts(log: seq<Op>, key: LineKey, n: nat, value: Option<int>) {
    && LastReset(log, key, n)
    && var sum := Sum(log, n, key);
       if n > 0 && log[n - 1].Set? then sum >= 0 && value == Some(log[n - 1].quantity + sum)
       else if sum > 0 then value == Some(sum)
       else sum == 0 && value == None
  }

  ghost predicate LineValue(items: map<nat, Item>, key: LineKey, value: Option<int>) {
    if value.Some? then exists i :: i in items && KeyOf(items[i]) == key && items[i].quantity == value.value
    else forall i :: i in items ==> KeyOf(items[i]) != key
  }

  ghost predicate KeyOk(s: State, key: LineKey) {
    exists n: nat, value: Option<int> :: Accounts(s.log, key, n, value) && LineValue(s.db.items, key, value)
  }

  ghost predicate ItemOk(s: State, home: map<nat, nat>, i: nat)
    requires i in s.db.items
  {
    && Ascending(s.db.items[i].toppings) && s.db.items[i].cart in s.filled
    && CartExists(s.db, s.db.items[i].cart)
    && AtHome(s, home, s.db.items[i])
  }

  /** The cart with the item's cart id, if it is there, is of the restaurant of the item's pizza. */
  ghost predicate AtHome(s: State, home: map<nat, nat>, item: Item) {
    forall c :: c in s.db.carts && s.db.carts[c].id == item.cart ==>
      item.pizza in home && home[item.pizza] == s.db.carts[c].restaurant
  }

  ghost predicate TaskOk(s: State, home: map<nat, nat>, t: nat)
    requires t in s.tasks
  {
    match s.tasks[t]
    case NeedsCart(_, r) => Ascending(r.toppings) && Fits(r.quantity)
    case Ready(item) => item.cart in s.issued && Ascending(item.toppings) && Fits(item.quantity) && AtHome(s, home, item)
  }

  ghost predicate OneLinePerKey(items: map<nat, Item>) {
    forall i, j :: i in items && j in items && KeyOf(items[i]) == KeyOf(items[j]) ==> i == j
  }

  ghost predicate CartsOk(s: State) {
    && (forall c :: c in s.db.carts ==> s.db.carts[c].id in s.issued)
    && (forall c, d :: c in s.db.carts && d in s.db.carts && s.db.carts[c].id == s.db.carts[d].id ==> c == d)
    && s.filled <= s.issued
    && (forall c :: c in s.db.carts && s.db.carts[c].id in s.filled ==> !IsEmpty(s.db.items, s.db.carts[c].id))
  }

  ghost predicate LinesInv(s: State, home: map<nat, nat>) {
    && (forall i :: i in s.db.items ==> ItemOk(s, home, i))
    && OneLinePerKey(s.db.items)
    && CartsOk(s)
    && (forall key :: KeyOk(s, key))
  }

  ghost predicate Inv(s: State, home: map<nat, nat>) {
    LinesInv(s, home) && forall t :: t in s.tasks ==> TaskOk(s, home, t)
  }

  // ---- the log grows ----

  lemma SumNext(log: seq<Op>, op: Op, n: nat, key: LineKey)
    requires n <= |log|
    ensures Sum(log + [op], n, key) == Sum(log, n, key) + AddedBy(op, key)
  {
    assert (log + [op])[..|log|] == log;
  }

  /** An entry that says nothing about the line. */
  lemma AccountsSame(log: seq<Op>, op: Op, key: LineKey, n: nat, value: Option<int>)
    requires Accounts(log, key, n, value) && !Resets(op, key) && AddedBy(op, key) == 0
    ensures Accounts(log + [op], key, n, value)
  {
    SumNext(log, op, n, key);
  }

  lemma AccountsAdd(log: seq<Op>, key: LineKey, n: nat, value: Option<int>, quantity: int)
    requires Accounts(log, key, n, value) && quantity > 0
    ensures Accounts(log + [Add(key, quantity)], key, n, Some(quantity + if value.Some? then value.value else 0))
  {
    SumNext(log, Add(key, quantity), n, key);
  }

  lemma AccountsReset(log: seq<Op>, op: Op, key: LineKey)
    requires Resets(op, key)
    ensures Accounts(log + [op], key, |log| + 1, if op.Set? then Some(op.quantity) else None)
  {
  }

  // ---- steps ----

  /** Lines other than the one with this key are as before. */
  ghost predicate OtherLinesSame(items: map<nat, Item>, items': map<nat, Item>, key: LineKey) {
    && (forall i :: i in items && KeyOf(items[i]) != key ==> i in items' && items'[i] == items[i])
    && (forall i :: i in items' && KeyOf(items'[i]) != key ==> i in items && items[i] == items'[i])
  }

  lemma OtherKeyOk(s: State, s': State, op: Op, key: LineKey, other: LineKey)
    requires KeyOk(s, other) && other != key && s'.log == s.log + [op]
    requires OtherLinesSame(s.db.items, s'.db.items, key) && !Resets(op, other) && AddedBy(op, other) == 0
    ensures KeyOk(s', other)
  {
    var n: nat, value: Option<int> :| Accounts(s.log, other, n, value) && LineValue(s.db.items, other, value);
    AccountsSame(s.log, op, other, n, value);
    if value.Some? {
      var i :| i in s.db.items && KeyOf(s.db.items[i]) == other && s.db.items[i].quantity == value.value;
      assert s'.db.items[i] == s.db.items[i];
    }
    assert LineValue(s'.db.items, other, value);
  }

  lemma SameKeySameLine(a: Item, b: Item)
    requires Ascending(a.toppings) && Ascending(b.toppings)
    ensures KeyOf(a) == KeyOf(b) <==> SameLine(a, b)
  {
    if KeyOf(a) == KeyOf(b) {
      SortedIsCanonical(a.toppings, b.toppings);
    }
  }

  /** The added item ended up in line i: merged into it, or as a new line. */
  ghost predicate AddedAt(s: State, after: Db, item: Item, i: nat) {
    && i in after.items && after.carts == s.db.carts && CartExists(s.db, item.cart)
    && KeyOf(after.items[i]) == KeyOf(item) && Ascending(after.items[i].toppings)
    && after.items == s.db.items[i := after.items[i]]
    && (if i in s.db.items
        then KeyOf(s.db.items[i]) == KeyOf(item)
             && after.items[i].quantity == s.db.items[i].quantity + item.quantity
        else after.items[i].quantity == item.quantity
             && forall j :: j in s.db.items ==> KeyOf(s.db.items[j]) != KeyOf(item))
  }

  /** What adding does to the line it is about. */
  lemma AddedLine(s: State, home: map<nat, nat>, newId: nat, item: Item, after: Db)
    requires LinesInv(s, home) && newId !in s.db.items && Ascending(item.toppings) && Adds(s.db, after, newId, item, true)
    ensures exists i :: AddedAt(s, after, item, i)
  {
    if i :| MergedInto(s.db, after, i, item, true) {
      assert ItemOk(s, home, i);
      assert KeyOf(after.items[i]) == KeyOf(item);
      assert AddedAt(s, after, item, i);
    } else {
      assert Inserted(s.db, after, newId, item, true);
      forall j | j in s.db.items ensures KeyOf(s.db.items[j]) != KeyOf(item) {
        assert ItemOk(s, home, j);
        SameKeySameLine(s.db.items[j], item);
      }
      assert AddedAt(s, after, item, newId);
    }
  }

  /** The line of x is stored under id i, and the entry says how it got its quantity. */
  ghost predicate Puts(s: State, s': State, i: nat, x: Item, op: Op) {
    && s'.db.items == s.db.items[i := x] && s'.log == s.log + [op]
    && (i in s.db.items ==> KeyOf(s.db.items[i]) == KeyOf(x))
    && (i !in s.db.items ==> forall j :: j in s.db.items ==> KeyOf(s.db.items[j]) != KeyOf(x))
    && (|| (op.Add? && op.key == KeyOf(x) && op.quantity > 0
            && x.quantity == op.quantity + if i in s.db.items then s.db.items[i].quantity else 0)
        || (op == Set(KeyOf(x), x.quantity) && i in s.db.items))
  }

  lemma PutKeyOk(s: State, s': State, i: nat, x: Item, op: Op)
    requires OneLinePerKey(s.db.items) && KeyOk(s, KeyOf(x)) && Puts(s, s', i, x, op)
    ensures KeyOk(s', KeyOf(x))
  {
    var key := KeyOf(x);
    var n: nat, value: Option<int> :| Accounts(s.log, key, n, value) && LineValue(s.db.items, key, value);
    assert value == if i in s.db.items then Some(s.db.items[i].quantity) else None;
    if op.Add? {
      AccountsAdd(s.log, key, n, value, op.quantity);
    } else {
      AccountsReset(s.log, op, key);
    }
    assert s'.db.items[i] == x;
    assert LineValue(s'.db.items, key, Some(x.quantity));
  }

  lemma PutLine(s: State, home: map<nat, nat>, s': State, i: nat, x: Item, op: Op)
    requires LinesInv(s, home) && Puts(s, s', i, x, op)
    ensures OneLinePerKey(s'.db.items)
    ensures forall key :: KeyOk(s', key)
  {
    forall key ensures KeyOk(s', key) {
      assert KeyOk(s, key);
      if key == KeyOf(x) {
        PutKeyOk(s, s', i, x, op);
      } else {
        OtherKeyOk(s, s', op, KeyOf(x), key);
      }
    }
  }

  lemma DropLine(s: State, home: map<nat, nat>, s': State, i: nat)
    requires LinesInv(s, home) && i in s.db.items
    requires s'.db.items == s.db.items - {i} && s'.log == s.log + [Drop(KeyOf(s.db.items[i]))]
    ensures OneLinePerKey(s'.db.items)
    ensures forall key :: KeyOk(s', key)
  {
    var dropped := KeyOf(s.db.items[i]);
    forall key ensures KeyOk(s', key) {
      assert KeyOk(s, key);
      if key == dropped {
        AccountsReset(s.log, Drop(dropped), dropped);
        assert LineValue(s'.db.items, dropped, None);
      } else {
        OtherKeyOk(s, s', Drop(dropped), dropped, key);
      }
    }
  }

  lemma DropCartLines(s: State, home: map<nat, nat>, s': State, cart: nat)
    requires LinesInv(s, home)
    requires s'.db.items == WithoutItems(s.db.items, cart) && s'.log == s.log + [DropCart(cart)]
    ensures OneLinePerKey(s'.db.items)
    ensures forall key :: KeyOk(s', key)
  {
    forall key ensures KeyOk(s', key) {
      if key.cart == cart {
        AccountsReset(s.log, DropCart(cart), key);
        assert LineValue(s'.db.items, key, None);
      } else {
        assert KeyOk(s, key);
        var n: nat, value: Option<int> :| Accounts(s.log, key, n, value) && LineValue(s.db.items, key, value);
        AccountsSame(s.log, DropCart(cart), key, n, value);
        if value.Some? {
          var i :| i in s.db.items && KeyOf(s.db.items[i]) == key && s.db.items[i].quantity == value.value;
          assert s'.db.items[i] == s.db.items[i];
        }
        assert LineValue(s'.db.items, key, value);
      }
    }
  }

  /** The cart rows stay or go, or one with an id never used before is new. */
  ghost predicate CartsOnward(s: State, s': State) {
    && s.issued <= s'.issued
    && forall c :: c in s'.db.carts ==> (c in s.db.carts && s'.db.carts[c] == s.db.carts[c]) || s'.db.carts[c].id !in s.issued
  }

  lemma AtHomeStays(s: State, s': State, home: map<nat, nat>, item: Item)
    requires AtHome(s, home, item) && CartsOnward(s, s') && item.cart in s.issued
    ensures AtHome(s', home, item)
  {
  }

  lemma TasksStay(s: State, s': State, home: map<nat, nat>)
    requires Inv(s, home) && CartsOnward(s, s')
    requires forall t :: t in s'.tasks && (t !in s.tasks || s'.tasks[t] != s.tasks[t]) ==> TaskOk(s', home, t)
    ensures forall t :: t in s'.tasks ==> TaskOk(s', home, t)
  {
    forall t | t in s'.tasks ensures TaskOk(s', home, t) {
      if t in s.tasks && s'.tasks[t] == s.tasks[t] {
        assert TaskOk(s, home, t);
        if s.tasks[t].Ready? {
          AtHomeStays(s, s', home, s.tasks[t].item);
        }
      }
    }
  }

  lemma TaskLines(s: State, s': State, home: map<nat, nat>)
    requires LinesInv(s, home) && s'.db == s.db && s'.log == s.log && s'.filled == s.filled && s'.issued == s.issued
    ensures LinesInv(s', home)
  {
    forall i | i in s'.db.items ensures ItemOk(s', home, i) {
      assert ItemOk(s, home, i);
    }
    forall key ensures KeyOk(s', key) {
      assert KeyOk(s, key);
    }
  }

  lemma FindCartInv(s: State, home: map<nat, nat>, t: nat, customer: nat, r: Request)
    requires Inv(s, home) && Enabled(s, home, FindCart(t, customer, r))
    ensures Inv(Apply(s, home, FindCart(t, customer, r)), home)
  {
    var s' := Apply(s, home, FindCart(t, customer, r));
    TaskLines(s, s', home);
    TasksStay(s, s', home);
  }

  lemma AbandonInv(s: State, home: map<nat, nat>, t: nat)
    requires Inv(s, home) && Enabled(s, home, Abandon(t))
    ensures Inv(Apply(s, home, Abandon(t)), home)
  {
    TaskLines(s, Apply(s, home, Abandon(t)), home);
    TasksStay(s, Apply(s, home, Abandon(t)), home);
  }

  lemma CreateCartLines(s: State, home: map<nat, nat>, t: nat, cart: nat)
    requires LinesInv(s, home) && Enabled(s, home, CreateCart(t, cart))
    ensures LinesInv(Apply(s, home, CreateCart(t, cart)), home)
  {
    var s' := Apply(s, home, CreateCart(t, cart));
    forall i | i in s'.db.items ensures ItemOk(s', home, i) {
      assert ItemOk(s, home, i);
      var c :| c in s.db.carts && s.db.carts[c].id == s.db.items[i].cart;
      assert s'.db.carts[c].id == s.db.items[i].cart;
    }
    forall key ensures KeyOk(s', key) {
      assert KeyOk(s, key);
    }
  }

  lemma CreateCartInv(s: State, home: map<nat, nat>, t: nat, cart: nat)
    requires Inv(s, home) && Enabled(s, home, CreateCart(t, cart))
    ensures Inv(Apply(s, home, CreateCart(t, cart)), home)
  {
    var s' := Apply(s, home, CreateCart(t, cart));
    assert TaskOk(s, home, t);
    CreateCartLines(s, home, t, cart);
    forall c | c in s'.db.carts && s'.db.carts[c].id == cart ensures c == s.tasks[t].customer {
    }
    assert TaskOk(s', home, t);
    TasksStay(s, s', home);
  }

  lemma AddItemLines(s: State, home: map<nat, nat>, step: Step)
    requires Inv(s, home) && Enabled(s, home, step) && step.AddItem? && step.ok
    ensures LinesInv(Apply(s, home, step), home)
  {
    var s', item := Apply(s, home, step), s.tasks[step.task].item;
    assert TaskOk(s, home, step.task);
    AddedLine(s, home, step.newId, item, step.after);
    var i :| AddedAt(s, step.after, item, i);
    PutLine(s, home, s', i, step.after.items[i], Add(KeyOf(item), item.quantity));
    PutItemsOk(s, home, s', i, step.after.items[i]);
    PutCartsOk(s, home, s', i, step.after.items[i]);
  }

  lemma PutItemsOk(s: State, home: map<nat, nat>, s': State, i: nat, x: Item)
    requires LinesInv(s, home) && s'.db.carts == s.db.carts && s'.db.items == s.db.items[i := x]
    requires s'.filled == s.filled + {x.cart} && CartExists(s.db, x.cart) && AtHome(s, home, x) && Ascending(x.toppings)
    ensures forall j :: j in s'.db.items ==> ItemOk(s', home, j)
  {
    forall j | j in s'.db.items ensures ItemOk(s', home, j) {
      if j != i {
        assert ItemOk(s, home, j);
      }
    }
  }

  lemma AddItemInv(s: State, home: map<nat, nat>, step: Step)
    requires Inv(s, home) && Enabled(s, home, step) && step.AddItem?
    ensures Inv(Apply(s, home, step), home)
  {
    var s' := Apply(s, home, step);
    if step.ok {
      AddItemLines(s, home, step);
      assert s'.db.carts == s.db.carts;
    } else {
      assert s'.db == s.db;
      TaskLines(s, s', home);
    }
    TasksStay(s, s', home);
  }

  lemma PutCartsOk(s: State, home: map<nat, nat>, s': State, i: nat, x: Item)
    requires LinesInv(s, home) && s'.db.carts == s.db.carts && s'.db.items == s.db.items[i := x]
    requires i in s.db.items ==> s.db.items[i].cart == x.cart
    requires s'.issued == s.issued && x.cart in s.issued && s'.filled == s.filled + {x.cart}
    ensures CartsOk(s')
  {
    forall c | c in s'.db.carts && s'.db.carts[c].id in s'.filled ensures !IsEmpty(s'.db.items, s'.db.carts[c].id) {
      var cart := s'.db.carts[c].id;
      if cart == x.cart {
        assert s'.db.items[i].cart == cart;
      } else {
        var j :| j in s.db.items && s.db.items[j].cart == cart;
        assert s'.db.items[j].cart == cart;
      }
    }
  }

  lemma SetItemInv(s: State, home: map<nat, nat>, cart: nat, id: nat, quantity: int)
    requires Inv(s, home)
    ensures Inv(Apply(s, home, SetItem(cart, id, quantity)), home)
  {
    if SetQuantity(s.db, cart, id, quantity).1 {
      var s' := Apply(s, home, SetItem(cart, id, quantity));
      var x := s.db.items[id].(quantity := quantity);
      assert ItemOk(s, home, id);
      PutLine(s, home, s', id, x, Set(KeyOf(x), quantity));
      assert s.filled + {x.cart} == s.filled;
      PutItemsOk(s, home, s', id, x);
      PutCartsOk(s, home, s', id, x);
      TasksStay(s, s', home);
    }
  }

  lemma RemoveItemInv(s: State, home: map<nat, nat>, cart: nat, id: nat)
    requires Inv(s, home)
    ensures Inv(Apply(s, home, RemoveItem(cart, id)), home)
  {
    if Removed(s.db, cart, id).1 {
      var s' := Apply(s, home, RemoveItem(cart, id));
      RemovedDb(s, cart, id);
      DropLine(s, home, s', id);
      RemovedItemsOk(s, home, s', cart, id);
      RemovedCartsOk(s, s', cart, id);
      TasksStay(s, s', home);
    }
  }

  lemma RemovedDb(s: State, cart: nat, id: nat)
    requires Removed(s.db, cart, id).1
    ensures var db := Removed(s.db, cart, id).0;
            && db.items == s.db.items - {id}
            && db.carts == if IsEmpty(db.items, cart) then WithoutCart(s.db.carts, cart) else s.db.carts
  {
    var rest := s.db.items - {id};
    assert IsEmpty(rest, cart) ==> WithoutItems(rest, cart) == rest;
  }

  lemma RemovedItemsOk(s: State, home: map<nat, nat>, s': State, cart: nat, id: nat)
    requires LinesInv(s, home) && id in s.db.items && s.db.items[id].cart == cart
    requires s'.db.items == s.db.items - {id} && s'.filled == s.filled
    requires s'.db.carts == if IsEmpty(s'.db.items, cart) then WithoutCart(s.db.carts, cart) else s.db.carts
    ensures forall j :: j in s'.db.items ==> ItemOk(s', home, j)
  {
    forall j | j in s'.db.items ensures ItemOk(s', home, j) {
      assert ItemOk(s, home, j);
      var c :| c in s.db.carts && s.db.carts[c].id == s.db.items[j].cart;
      assert c in s'.db.carts;
    }
  }

  lemma RemovedCartsOk(s: State, s': State, cart: nat, id: nat)
    requires CartsOk(s) && id in s.db.items && s.db.items[id].cart == cart
    requires s'.db.items == s.db.items - {id} && s'.filled == s.filled && s'.issued == s.issued
    requires s'.db.carts == if IsEmpty(s'.db.items, cart) then WithoutCart(s.db.carts, cart) else s.db.carts
    ensures CartsOk(s')
  {
    forall c | c in s'.db.carts && s'.db.carts[c].id in s'.filled ensures !IsEmpty(s'.db.items, s'.db.carts[c].id) {
      if s.db.carts[c].id != cart {
        var j :| j in s.db.items && s.db.items[j].cart == s.db.carts[c].id;
        assert s'.db.items[j].cart == s.db.carts[c].id;
      }
    }
  }

  lemma ClearCartLines(s: State, home: map<nat, nat>, cart: nat)
    requires LinesInv(s, home)
    ensures LinesInv(Apply(s, home, ClearCart(cart)), home)
  {
    var s' := Apply(s, home, ClearCart(cart));
    DropCartLines(s, home, s', cart);
    forall j | j in s'.db.items ensures ItemOk(s', home, j) {
      assert ItemOk(s, home, j);
      var c :| c in s.db.carts && s.db.carts[c].id == s.db.items[j].cart;
      assert c in s'.db.carts;
    }
    forall c | c in s'.db.carts && s'.db.carts[c].id in s'.filled ensures !IsEmpty(s'.db.items, s'.db.carts[c].id) {
      var j :| j in s.db.items && s.db.items[j].cart == s.db.carts[c].id;
      assert s'.db.items[j].cart == s.db.carts[c].id;
    }
  }

  lemma StepInv(s: State, home: map<nat, nat>, step: Step)
    requires Inv(s, home) && Enabled(s, home, step)
    ensures Inv(Apply(s, home, step), home)
  {
    match step
    case FindCart(t, customer, r) => FindCartInv(s, home, t, customer, r);
    case CreateCart(t, cart) => CreateCartInv(s, home, t, cart);
    case AddItem(_, _, _, _) => AddItemInv(s, home, step);
    case Abandon(t) => AbandonInv(s, home, t);
    case SetItem(cart, id, quantity) => SetItemInv(s, home, cart, id, quantity);
    case RemoveItem(cart, id) => RemoveItemInv(s, home, cart, id);
    case ClearCart(cart) =>
      ClearCartLines(s, home, cart);
      TasksStay(s, Apply(s, home, step), home);
  }

  lemma StartInv(home: map<nat, nat>)
    ensures Inv(Start(), home)
  {
    var s := Start();
    forall key ensures KeyOk(s, key) {
      assert Accounts(s.log, key, 0, None) && LineValue(s.db.items, key, None);
    }
  }

  lemma {:induction false} RunInv(home: map<nat, nat>, trace: seq<State>, i: nat)
    requires Run(home, trace) && i < |trace|
    ensures Inv(trace[i], home)
  {
    if i == 0 {
      StartInv(home);
    } else {
      RunInv(home, trace, i - 1);
      assert Next(trace[i - 1], home, trace[i - 1 + 1]);
      var step :| Enabled(trace[i - 1], home, step) && trace[i] == Apply(trace[i - 1], home, step);
      StepInv(trace[i - 1], home, step);
    }
  }

  // ---- one request without interruption ----

  /** Adding an item in one go is the same as its steps one after the other. */
  lemma AddItemIsItsSteps(s: State, home: map<nat, nat>, t: nat, customer: nat, r: Request,
                          newCart: nat, newId: nat, after: Db, ok: bool)
    requires t !in s.tasks && r.pizza in home && Ascending(r.toppings) && 0 < r.quantity <= 32767
    requires newId !in s.db.items && newCart !in s.issued
    requires var carts := if customer in s.db.carts then s.db.carts
                          else s.db.carts[customer := CartRow(newCart, home[r.pizza])];
             Adds(Db(carts, s.db.items), after, newId, ItemFor(carts[customer].id, r), ok)
    ensures Enabled(s, home, FindCart(t, customer, r)) <==>
            customer !in s.db.carts || s.db.carts[customer].restaurant == home[r.pizza]
    ensures Enabled(s, home, FindCart(t, customer, r)) ==>
              var found := Apply(s, home, FindCart(t, customer, r));
              && (customer !in s.db.carts ==> Enabled(found, home, CreateCart(t, newCart)))
              && var ready := if customer in s.db.carts then found else Apply(found, home, CreateCart(t, newCart));
                 && Enabled(ready, home, AddItem(t, newId, after, ok))
                 && Apply(ready, home, AddItem(t, newId, after, ok)).db == after
                 && Apply(ready, home, AddItem(t, newId, after, ok)).tasks == s.tasks
  {
    assert Db(s.db.carts, s.db.items) == s.db;
  }

  // ---- the theorems ----

  /** There is at most one line per cart, pizza, size and choice of toppings, in whatever order they were given. */
  lemma OneLinePerChoice(home: map<nat, nat>, trace: seq<State>, n: nat, i: nat, j: nat)
    requires Run(home, trace) && n < |trace| && i in trace[n].db.items && j in trace[n].db.items
    requires var a, b := trace[n].db.items[i], trace[n].db.items[j];
             a.cart == b.cart && a.pizza == b.pizza && a.size == b.size && multiset(a.toppings) == multiset(b.toppings)
    ensures i == j
  {
    RunInv(home, trace, n);
  }

  /** A line's quantity is its last set value plus all later additions; without either there is no line. */
  lemma QuantityIsLastSetPlusAdds(home: map<nat, nat>, trace: seq<State>, n: nat, key: LineKey)
    requires Run(home, trace) && n < |trace|
    ensures exists k: nat, value: Option<int> ::
              Accounts(trace[n].log, key, k, value) && LineValue(trace[n].db.items, key, value)
  {
    RunInv(home, trace, n);
    assert KeyOk(trace[n], key);
  }

  /** A cart that is there without items never had any: removing the last line deletes the cart. */
  lemma EmptyCartsWereNeverFilled(home: map<nat, nat>, trace: seq<State>, n: nat, c: nat)
    requires Run(home, trace) && n < |trace| && c in trace[n].db.carts
    ensures IsEmpty(trace[n].db.items, trace[n].db.carts[c].id) ==> trace[n].db.carts[c].id !in trace[n].filled
  {
    RunInv(home, trace, n);
  }

  /**
  All lines of a cart are of one restaurant, the cart's, although a request stores its line some
  time after it checked the cart.
  */
  lemma OneRestaurantPerCart(home: map<nat, nat>, trace: seq<State>, n: nat, i: nat)
    requires Run(home, trace) && n < |trace| && i in trace[n].db.items
    ensures exists c :: c in trace[n].db.carts && trace[n].db.carts[c].id == trace[n].db.items[i].cart
                        && trace[n].db.items[i].pizza in home
                        && home[trace[n].db.items[i].pizza] == trace[n].db.carts[c].restaurant
  {
    RunInv(home, trace, n);
    assert ItemOk(trace[n], home, i);
  }
}
