/**
The order service's copy of restaurants, pizzas, prices and topping prices, kept up to date from
events of the restaurant service.  Each statement is its own transaction; an upsert does nothing
when the stored row is not older, and a foreign key that does not hold fails the statement.
An event is a plan of statements that its handler carries out up to the first one that fails.

Timestamps are taken at the precision the database stores.  A number the payload holds as text
is None if it cannot be parsed.
*/
module ReadModel {
  import opened Wrappers

  datatype Restaurant = Restaurant(
    owner: nat, name: string, ownerEmail: string, deliveryKm: Option<nat>, deliveryFee: nat, minimumOrder: nat,
    pickup: bool, deliveryType: string, at: int)

  datatype Pizza = Pizza(restaurant: nat, name: string, status: string, at: int)

  datatype PizzaPrice = PizzaPrice(diameter: nat, price: nat, active: bool, at: int)

  datatype ToppingPrice = ToppingPrice(name: string, extra: nat, at: int)

  datatype Db = Db(
    restaurants: map<nat, Restaurant>,
    pizzas: map<nat, Pizza>,
    prices: map<(nat, nat), PizzaPrice>,       // by pizza and size
    toppings: map<(nat, nat), ToppingPrice>)   // by restaurant and topping

  datatype Stmt =
    | PutRestaurant(restaurant: nat, row: Restaurant)
    | PutPizza(pizza: nat, pizzaRow: Pizza)
    | DropPizza(pizza: nat, at: int)
    | PutPrice(pizza: nat, size: nat, price: PizzaPrice)
    | PutTopping(restaurant: nat, topping: nat, toppingRow: ToppingPrice)
    | Malformed   // a payload the handler gives up on

  function Empty(): Db {
    Db(map[], map[], map[], map[])
  }

  /** The prices that are left when a pizza is deleted: its own go with it. */
  function WithoutPricesOf(prices: map<(nat, nat), PizzaPrice>, pizza: nat): map<(nat, nat), PizzaPrice> {
    map k | k in prices && k.0 != pizza :: prices[k]
  }

  /** One statement: the new tables, and whether it succeeded. */
  function Exec(db: Db, st: Stmt): (Db, bool) {
    match st
    case PutRestaurant(id, row) =>
      if id in db.restaurants && !(db.restaurants[id].at < row.at) then (db, true)
      else (db.(restaurants := db.restaurants[id := row]), true)
    case PutPizza(id, row) =>
      if id in db.pizzas && !(db.pizzas[id].at < row.at) then (db, true)
      else if row.restaurant !in db.restaurants then (db, false)
      else (db.(pizzas := db.pizzas[id := row]), true)
    case DropPizza(id, at) =>
      if id in db.pizzas && db.pizzas[id].at < at then
        (db.(pizzas := db.pizzas - {id}, prices := WithoutPricesOf(db.prices, id)), true)
      else (db, true)
    case PutPrice(pizza, size, row) =>
      if (pizza, size) in db.prices && !(db.prices[(pizza, size)].at < row.at) then (db, true)
      else if pizza !in db.pizzas then (db, false)
      else (db.(prices := db.prices[(pizza, size) := row]), true)
    case PutTopping(restaurant, topping, row) =>
      if (restaurant, topping) in db.toppings && !(db.toppings[(restaurant, topping)].at < row.at) then (db, true)
      else if restaurant !in db.restaurants then (db, false)
      else (db.(toppings := db.toppings[(restaurant, topping) := row]), true)
    case Malformed => (db, false)
  }

  /** Statements in order, up to the first one that fails. */
  function ExecAll(db: Db, plan: seq<Stmt>): (Db, bool)
    decreases |plan|
  {
    if plan == [] then (db, true)
    else
      var r := Exec(db, plan[0]);
      if r.1 then ExecAll(r.0, plan[1..]) else r
  }

  lemma {:induction false} ExecAppend(db: Db, first: seq<Stmt>, second: seq<Stmt>)
    ensures ExecAll(db, first + second)
         == var r := ExecAll(db, first); if r.1 then ExecAll(r.0, second) else r
    decreases |first|
  {
    if first == [] {
      assert first + second == second;
    } else {
      assert (first + second)[1..] == first[1..] + second;
      ExecAppend(Exec(db, first[0]).0, first[1..], second);
    }
  }

  // ---- events and their plans ----

  datatype RestaurantWire = RestaurantWire(
    id: nat, owner: nat, name: string, email: Option<string>, deliveryKm: Option<nat>,
    deliveryFee: Option<nat>, minimumOrder: Option<nat>, pickup: bool, deliveryType: string, at: int)

  datatype PriceWire = PriceWire(size: nat, diameter: nat, amount: Option<nat>, active: bool)

  datatype PizzaWire = PizzaWire(id: nat, name: string, status: string, prices: seq<PriceWire>, updatedAt: Option<int>)

  datatype ToppingWire = ToppingWire(topping: nat, name: string, extra: Option<nat>)

  datatype Event =
    | Launched(restaurant: RestaurantWire, pizzas: seq<PizzaWire>, toppings: seq<ToppingWire>)
    | Updated(restaurant: RestaurantWire)
    | PizzaUpdated(owner: nat, pizza: PizzaWire, at: int)
    | ToppingsUpdated(owner: nat, toppings: seq<ToppingWire>, at: int)

  predicate HasActive(prices: seq<PriceWire>) {
    exists i :: 0 <= i < |prices| && prices[i].active
  }

  /** Only a pizza that is not archived and has an active price can be ordered and is kept. */
  predicate Orderable(p: PizzaWire) {
    p.status != "archived" && HasActive(p.prices)
  }

  function RestaurantRow(r: RestaurantWire): Restaurant
    requires r.email.Some? && r.deliveryFee.Some? && r.minimumOrder.Some?
  {
    Restaurant(r.owner, r.name, r.email.value, r.deliveryKm, r.deliveryFee.value, r.minimumOrder.value,
               r.pickup, r.deliveryType, r.at)
  }

  function RestaurantPlan(r: RestaurantWire): seq<Stmt> {
    if r.email.None? || r.deliveryFee.None? || r.minimumOrder.None? then [Malformed]
    else [PutRestaurant(r.id, RestaurantRow(r))]
  }

  function PriceStmt(pizza: nat, p: PriceWire, at: int): Stmt {
    if p.amount.None? then Malformed
    else PutPrice(pizza, p.size, PizzaPrice(p.diameter, p.amount.value, p.active, at))
  }

  function PricesPlan(pizza: nat, prices: seq<PriceWire>, at: int): seq<Stmt> {
    seq(|prices|, i requires 0 <= i < |prices| => PriceStmt(pizza, prices[i], at))
  }

  function PizzaPlan(restaurant: nat, p: PizzaWire, at: int): seq<Stmt> {
    [PutPizza(p.id, Pizza(restaurant, p.name, p.status, at))] + PricesPlan(p.id, p.prices, at)
  }

  function LaunchedPizzasPlan(restaurant: nat, pizzas: seq<PizzaWire>): seq<Stmt> {
    if pizzas == [] then []
    else
      var p := pizzas[0];
      (if !Orderable(p) then []
       else if p.updatedAt.None? then [Malformed]
       else PizzaPlan(restaurant, p, p.updatedAt.value))
      + LaunchedPizzasPlan(restaurant, pizzas[1..])
  }

  /** The plan of a snapshot, pizza by pizza. */
  lemma SnapshotStep(db: Db, restaurant: nat, pizzas: seq<PizzaWire>)
    requires pizzas != []
    ensures var p, rest := pizzas[0], LaunchedPizzasPlan(restaurant, pizzas[1..]);
            ExecAll(db, LaunchedPizzasPlan(restaurant, pizzas))
            == if !Orderable(p) then ExecAll(db, rest)
               else if p.updatedAt.None? then (db, false)
               else var r := ExecAll(db, PizzaPlan(restaurant, p, p.updatedAt.value));
                    if r.1 then ExecAll(r.0, rest) else r
  {
    var p, rest := pizzas[0], LaunchedPizzasPlan(restaurant, pizzas[1..]);
    if !Orderable(p) {
      assert [] + rest == rest;
    } else if p.updatedAt.None? {
      ExecAppend(db, [Malformed], rest);
    } else {
      ExecAppend(db, PizzaPlan(restaurant, p, p.updatedAt.value), rest);
    }
  }

  function ToppingStmt(restaurant: nat, t: ToppingWire, at: int): Stmt {
    if t.extra.None? then Malformed
    else PutTopping(restaurant, t.topping, ToppingPrice(t.name, t.extra.value, at))
  }

  function ToppingsPlan(restaurant: nat, toppings: seq<ToppingWire>, at: int): seq<Stmt> {
    seq(|toppings|, i requires 0 <= i < |toppings| => ToppingStmt(restaurant, toppings[i], at))
  }

  function Plan(e: Event): seq<Stmt> {
    match e
    case Launched(r, pizzas, toppings) =>
      RestaurantPlan(r) + LaunchedPizzasPlan(r.id, pizzas) + ToppingsPlan(r.id, toppings, r.at)
    case Updated(r) => RestaurantPlan(r)
    case PizzaUpdated(owner, p, at) =>
      if !Orderable(p) then [DropPizza(p.id, at)] else PizzaPlan(owner, p, at)
    case ToppingsUpdated(owner, toppings, at) => ToppingsPlan(owner, toppings, at)
  }

  // ---- what carrying out a plan does, in the rows' fields ----

  /** A pizza row that a plan changed is one it puts. */
  lemma {:induction false} ChangedIsPut(db: Db, plan: seq<Stmt>, id: nat)
    ensures var pizzas := ExecAll(db, plan).0.pizzas;
            id in pizzas && (id !in db.pizzas || pizzas[id] != db.pizzas[id]) ==> PutPizza(id, pizzas[id]) in plan
    decreases |plan|
  {
    if plan != [] && Exec(db, plan[0]).1 {
      ChangedIsPut(Exec(db, plan[0]).0, plan[1..], id);
    }
  }

  /** Without a deletion rows stay, and no older one replaces them. */
  lemma {:induction false} RowsStay(db: Db, plan: seq<Stmt>, id: nat)
    requires id in db.pizzas && forall i :: 0 <= i < |plan| ==> !plan[i].DropPizza?
    ensures id in ExecAll(db, plan).0.pizzas && db.pizzas[id].at <= ExecAll(db, plan).0.pizzas[id].at
    decreases |plan|
  {
    if plan != [] && Exec(db, plan[0]).1 {
      RowsStay(Exec(db, plan[0]).0, plan[1..], id);
    }
  }

  /** What a plan puts, and carries out to its end without a deletion, is there. */
  lemma {:induction false} PutIsThere(db: Db, plan: seq<Stmt>, id: nat, row: Pizza)
    requires ExecAll(db, plan).1 && PutPizza(id, row) in plan && forall i :: 0 <= i < |plan| ==> !plan[i].DropPizza?
    ensures id in ExecAll(db, plan).0.pizzas && row.at <= ExecAll(db, plan).0.pizzas[id].at
    decreases |plan|
  {
    var next := Exec(db, plan[0]).0;
    if plan[0] == PutPizza(id, row) {
      RowsStay(next, plan[1..], id);
    } else {
      PutIsThere(next, plan[1..], id, row);
    }
  }

  /** A malformed statement ends a plan. */
  lemma {:induction false} MalformedFails(db: Db, plan: seq<Stmt>)
    requires Malformed in plan
    ensures !ExecAll(db, plan).1
    decreases |plan|
  {
    if plan[0] != Malformed && Exec(db, plan[0]).1 {
      MalformedFails(Exec(db, plan[0]).0, plan[1..]);
    }
  }

  predicate OnlyPrices(plan: seq<Stmt>) {
    forall i :: 0 <= i < |plan| ==> plan[i].PutPrice? || plan[i].Malformed?
  }

  lemma {:induction false} PricesOnly(db: Db, plan: seq<Stmt>)
    requires OnlyPrices(plan)
    ensures var r := ExecAll(db, plan).0; r.pizzas == db.pizzas && r.restaurants == db.restaurants && r.toppings == db.toppings
    decreases |plan|
  {
    if plan != [] && Exec(db, plan[0]).1 {
      PricesOnly(Exec(db, plan[0]).0, plan[1..]);
    }
  }

  lemma {:induction false} OtherPrices(db: Db, pizza: nat, wires: seq<PriceWire>, at: int, key: (nat, nat))
    requires key.0 != pizza || forall j :: 0 <= j < |wires| ==> wires[j].size != key.1
    ensures var prices := ExecAll(db, PricesPlan(pizza, wires, at)).0.prices;
            (key in prices <==> key in db.prices) && (key in prices ==> prices[key] == db.prices[key])
    decreases |wires|
  {
    if wires != [] {
      var plan := PricesPlan(pizza, wires, at);
      assert plan[1..] == PricesPlan(pizza, wires[1..], at);
      if Exec(db, plan[0]).1 {
        OtherPrices(Exec(db, plan[0]).0, pizza, wires[1..], at, key);
      }
    }
  }

  predicate DistinctWires(wires: seq<PriceWire>) {
    forall i, j :: 0 <= i < j < |wires| ==> wires[i].size != wires[j].size
  }

  /** Each listed price is stored, unless a price at least as new is. */
  lemma {:induction false} PriceStored(db: Db, pizza: nat, wires: seq<PriceWire>, at: int, j: nat)
    requires ExecAll(db, PricesPlan(pizza, wires, at)).1 && DistinctWires(wires) && j < |wires|
    ensures var prices, key := ExecAll(db, PricesPlan(pizza, wires, at)).0.prices, (pizza, wires[j].size);
            && wires[j].amount.Some? && key in prices
            && (key in db.prices && db.prices[key].at >= at ==> prices[key] == db.prices[key])
            && (key !in db.prices || db.prices[key].at < at ==>
                  && prices[key].diameter == wires[j].diameter && prices[key].price == wires[j].amount.value
                  && prices[key].active == wires[j].active && prices[key].at == at)
    decreases |wires|
  {
    var plan := PricesPlan(pizza, wires, at);
    assert plan[1..] == PricesPlan(pizza, wires[1..], at);
    var next := Exec(db, plan[0]).0;
    if j == 0 {
      OtherPrices(next, pizza, wires[1..], at, (pizza, wires[0].size));
    } else {
      PriceStored(next, pizza, wires[1..], at, j - 1);
    }
  }

  lemma {:induction false} ToppingsOnly(db: Db, restaurant: nat, wires: seq<ToppingWire>, at: int)
    ensures var r := ExecAll(db, ToppingsPlan(restaurant, wires, at)).0;
            r.pizzas == db.pizzas && r.restaurants == db.restaurants && r.prices == db.prices
    decreases |wires|
  {
    if wires != [] {
      var plan := ToppingsPlan(restaurant, wires, at);
      assert plan[1..] == ToppingsPlan(restaurant, wires[1..], at);
      if Exec(db, plan[0]).1 {
        ToppingsOnly(Exec(db, plan[0]).0, restaurant, wires[1..], at);
      }
    }
  }

  lemma {:induction false} OtherToppings(db: Db, restaurant: nat, wires: seq<ToppingWire>, at: int, key: (nat, nat))
    requires key.0 != restaurant || forall j :: 0 <= j < |wires| ==> wires[j].topping != key.1
    ensures var toppings := ExecAll(db, ToppingsPlan(restaurant, wires, at)).0.toppings;
            (key in toppings <==> key in db.toppings) && (key in toppings ==> toppings[key] == db.toppings[key])
    decreases |wires|
  {
    if wires != [] {
      var plan := ToppingsPlan(restaurant, wires, at);
      assert plan[1..] == ToppingsPlan(restaurant, wires[1..], at);
      if Exec(db, plan[0]).1 {
        OtherToppings(Exec(db, plan[0]).0, restaurant, wires[1..], at, key);
      }
    }
  }

  predicate DistinctToppings(wires: seq<ToppingWire>) {
    forall i, j :: 0 <= i < j < |wires| ==> wires[i].topping != wires[j].topping
  }

  /** Each listed topping is stored with its extra price, unless one at least as new is. */
  lemma {:induction false} ToppingStored(db: Db, restaurant: nat, wires: seq<ToppingWire>, at: int, j: nat)
    requires ExecAll(db, ToppingsPlan(restaurant, wires, at)).1 && DistinctToppings(wires) && j < |wires|
    ensures var toppings, key := ExecAll(db, ToppingsPlan(restaurant, wires, at)).0.toppings, (restaurant, wires[j].topping);
            && wires[j].extra.Some? && key in toppings
            && (key in db.toppings && db.toppings[key].at >= at ==> toppings[key] == db.toppings[key])
            && (key !in db.toppings || db.toppings[key].at < at ==>
                  && toppings[key].name == wires[j].name && toppings[key].extra == wires[j].extra.value
                  && toppings[key].at == at)
    decreases |wires|
  {
    var plan := ToppingsPlan(restaurant, wires, at);
    assert plan[1..] == ToppingsPlan(restaurant, wires[1..], at);
    var next := Exec(db, plan[0]).0;
    if j == 0 {
      OtherToppings(next, restaurant, wires[1..], at, (restaurant, wires[0].topping));
    } else {
      ToppingStored(next, restaurant, wires[1..], at, j - 1);
    }
  }

  /** A snapshot deletes nothing, and the pizzas it puts are its orderable ones with their own data. */
  lemma {:induction false} SnapshotPuts(restaurant: nat, pizzas: seq<PizzaWire>, st: Stmt)
    requires st in LaunchedPizzasPlan(restaurant, pizzas)
    ensures !st.DropPizza? && !st.PutRestaurant?
    ensures st.PutPizza? ==>
              exists k :: && 0 <= k < |pizzas| && pizzas[k].id == st.pizza && pizzas[k].updatedAt.Some?
                          && pizzas[k].status != "archived"
                          && (exists j :: 0 <= j < |pizzas[k].prices| && pizzas[k].prices[j].active)
                          && st.pizzaRow.restaurant == restaurant && st.pizzaRow.name == pizzas[k].name
                          && st.pizzaRow.status == pizzas[k].status && st.pizzaRow.at == pizzas[k].updatedAt.value
    decreases |pizzas|
  {
    var p := pizzas[0];
    if Orderable(p) && (if p.updatedAt.None? then st == Malformed else st in PizzaPlan(restaurant, p, p.updatedAt.value)) {
      assert st.PutPizza? ==> st == PutPizza(p.id, Pizza(restaurant, p.name, p.status, p.updatedAt.value));
      assert pizzas[0] == p;
    } else {
      SnapshotPuts(restaurant, pizzas[1..], st);
      if st.PutPizza? {
        var k :| && 0 <= k < |pizzas[1..]| && pizzas[1..][k].id == st.pizza && pizzas[1..][k].updatedAt.Some?
                 && pizzas[1..][k].status != "archived"
                 && (exists j :: 0 <= j < |pizzas[1..][k].prices| && pizzas[1..][k].prices[j].active)
                 && st.pizzaRow.restaurant == restaurant && st.pizzaRow.name == pizzas[1..][k].name
                 && st.pizzaRow.status == pizzas[1..][k].status && st.pizzaRow.at == pizzas[1..][k].updatedAt.value;
        assert pizzas[k + 1] == pizzas[1..][k];
      }
    }
  }

  /** Every pizza of a snapshot that is not archived and has an active price is put, or ends the plan. */
  lemma {:induction false} SnapshotPutsAll(restaurant: nat, pizzas: seq<PizzaWire>, k: nat)
    requires k < |pizzas| && pizzas[k].status != "archived"
    requires exists j :: 0 <= j < |pizzas[k].prices| && pizzas[k].prices[j].active
    ensures var p, plan := pizzas[k], LaunchedPizzasPlan(restaurant, pizzas);
            if p.updatedAt.None? then Malformed in plan
            else PutPizza(p.id, Pizza(restaurant, p.name, p.status, p.updatedAt.value)) in plan
    decreases |pizzas|
  {
    if k > 0 {
      SnapshotPutsAll(restaurant, pizzas[1..], k - 1);
    } else if pizzas[0].updatedAt.Some? {
      var p := pizzas[0];
      assert PizzaPlan(restaurant, p, p.updatedAt.value)[0] == PutPizza(p.id, Pizza(restaurant, p.name, p.status, p.updatedAt.value));
    }
  }

  lemma {:induction false} NothingElse(db: Db, plan: seq<Stmt>)
    requires forall i :: 0 <= i < |plan| ==> !plan[i].PutRestaurant? && !plan[i].PutTopping?
    ensures ExecAll(db, plan).0.restaurants == db.restaurants && ExecAll(db, plan).0.toppings == db.toppings
    decreases |plan|
  {
    if plan != [] && Exec(db, plan[0]).1 {
      NothingElse(Exec(db, plan[0]).0, plan[1..]);
    }
  }

  lemma {:induction false} SnapshotPutsPizzas(restaurant: nat, pizzas: seq<PizzaWire>, st: Stmt)
    requires st in LaunchedPizzasPlan(restaurant, pizzas)
    ensures !st.DropPizza? && !st.PutRestaurant? && !st.PutTopping?
    decreases |pizzas|
  {
    var p := pizzas[0];
    if !(Orderable(p) && (if p.updatedAt.None? then st == Malformed else st in PizzaPlan(restaurant, p, p.updatedAt.value))) {
      SnapshotPutsPizzas(restaurant, pizzas[1..], st);
    }
  }

  /** What a snapshot's pizzas do to the pizza rows. */
  lemma SnapshotEffect(db: Db, restaurant: nat, snapshot: seq<PizzaWire>)
    ensures var r := ExecAll(db, LaunchedPizzasPlan(restaurant, snapshot));
            var pizzas := r.0.pizzas;
            && r.0.restaurants == db.restaurants && r.0.toppings == db.toppings
            && (forall id :: id in db.pizzas ==> id in pizzas && db.pizzas[id].at <= pizzas[id].at)
            && (forall id :: id in pizzas && (id !in db.pizzas || pizzas[id] != db.pizzas[id]) ==>
                  exists k :: && 0 <= k < |snapshot| && snapshot[k].id == id && snapshot[k].updatedAt.Some?
                              && snapshot[k].status != "archived"
                              && (exists j :: 0 <= j < |snapshot[k].prices| && snapshot[k].prices[j].active)
                              && pizzas[id].restaurant == restaurant && pizzas[id].name == snapshot[k].name
                              && pizzas[id].status == snapshot[k].status && pizzas[id].at == snapshot[k].updatedAt.value)
            && (r.1 ==>
                  forall k :: && 0 <= k < |snapshot| && snapshot[k].status != "archived"
                              && (exists j :: 0 <= j < |snapshot[k].prices| && snapshot[k].prices[j].active) ==>
                    && snapshot[k].updatedAt.Some? && snapshot[k].id in pizzas
                    && snapshot[k].updatedAt.value <= pizzas[snapshot[k].id].at)
  {
    var plan := LaunchedPizzasPlan(restaurant, snapshot);
    var r := ExecAll(db, plan);
    forall i | 0 <= i < |plan| ensures !plan[i].DropPizza? && !plan[i].PutRestaurant? && !plan[i].PutTopping? {
      SnapshotPutsPizzas(restaurant, snapshot, plan[i]);
    }
    NothingElse(db, plan);
    forall id | id in db.pizzas ensures id in r.0.pizzas && db.pizzas[id].at <= r.0.pizzas[id].at {
      RowsStay(db, plan, id);
    }
    forall id | id in r.0.pizzas && (id !in db.pizzas || r.0.pizzas[id] != db.pizzas[id])
      ensures exists k :: && 0 <= k < |snapshot| && snapshot[k].id == id && snapshot[k].updatedAt.Some?
                          && snapshot[k].status != "archived"
                          && (exists j :: 0 <= j < |snapshot[k].prices| && snapshot[k].prices[j].active)
                          && r.0.pizzas[id].restaurant == restaurant && r.0.pizzas[id].name == snapshot[k].name
                          && r.0.pizzas[id].status == snapshot[k].status
                          && r.0.pizzas[id].at == snapshot[k].updatedAt.value
    {
      ChangedIsPut(db, plan, id);
      SnapshotPuts(restaurant, snapshot, PutPizza(id, r.0.pizzas[id]));
    }
    if r.1 {
      forall k | && 0 <= k < |snapshot| && snapshot[k].status != "archived"
                 && (exists j :: 0 <= j < |snapshot[k].prices| && snapshot[k].prices[j].active)
        ensures && snapshot[k].updatedAt.Some? && snapshot[k].id in r.0.pizzas
                && snapshot[k].updatedAt.value <= r.0.pizzas[snapshot[k].id].at
      {
        SnapshotEntry(db, restaurant, snapshot, k);
      }
    }
  }

  lemma SnapshotEntry(db: Db, restaurant: nat, snapshot: seq<PizzaWire>, k: nat)
    requires ExecAll(db, LaunchedPizzasPlan(restaurant, snapshot)).1
    requires k < |snapshot| && snapshot[k].status != "archived"
    requires exists j :: 0 <= j < |snapshot[k].prices| && snapshot[k].prices[j].active
    ensures snapshot[k].updatedAt.Some?
    ensures var pizzas := ExecAll(db, LaunchedPizzasPlan(restaurant, snapshot)).0.pizzas;
            snapshot[k].id in pizzas && snapshot[k].updatedAt.value <= pizzas[snapshot[k].id].at
  {
    var plan, p := LaunchedPizzasPlan(restaurant, snapshot), snapshot[k];
    SnapshotPutsAll(restaurant, snapshot, k);
    if p.updatedAt.None? {
      MalformedFails(db, plan);
    } else {
      forall i | 0 <= i < |plan| ensures !plan[i].DropPizza? {
        SnapshotPutsPizzas(restaurant, snapshot, plan[i]);
      }
      PutIsThere(db, plan, p.id, Pizza(restaurant, p.name, p.status, p.updatedAt.value));
    }
  }

  // ---- the handlers ----

  class Store {
    var restaurants: map<nat, Restaurant>
    var pizzas: map<nat, Pizza>
    var prices: map<(nat, nat), PizzaPrice>
    var toppings: map<(nat, nat), ToppingPrice>

    ghost function View(): Db
      reads this
    {
      Db(restaurants, pizzas, prices, toppings)
    }

    method UpsertRestaurant(id: nat, row: Restaurant)
      modifies this
      ensures (View(), true) == Exec(old(View()), PutRestaurant(id, row))
      ensures restaurants
           == if id in old(restaurants) && old(restaurants)[id].at >= row.at then old(restaurants)
              else old(restaurants)[id := row]
      ensures pizzas == old(pizzas) && prices == old(prices) && toppings == old(toppings)
    {
      if id !in restaurants || restaurants[id].at < row.at {
        restaurants := restaurants[id := row];
      }
    }

    method UpsertPizza(id: nat, row: Pizza) returns (ok: bool)
      modifies this
      ensures (View(), ok) == Exec(old(View()), PutPizza(id, row))
      ensures ok <==> (id in old(pizzas) && old(pizzas)[id].at >= row.at) || row.restaurant in restaurants
      ensures pizzas
           == if (id in old(pizzas) && old(pizzas)[id].at >= row.at) || row.restaurant !in restaurants then old(pizzas)
              else old(pizzas)[id := row]
      ensures restaurants == old(restaurants) && prices == old(prices) && toppings == old(toppings)
    {
      ok := true;
      if id !in pizzas || pizzas[id].at < row.at {
        ok := row.restaurant in restaurants;
        if ok {
          pizzas := pizzas[id := row];
        }
      }
    }

    method DeletePizza(id: nat, at: int)
      modifies this
      ensures (View(), true) == Exec(old(View()), DropPizza(id, at))
      ensures id in old(pizzas) && old(pizzas)[id].at < at ==>
                && pizzas == old(pizzas) - {id} && (forall k :: k in prices <==> k in old(prices) && k.0 != id)
                && (forall k :: k in prices ==> prices[k] == old(prices)[k])
      ensures id !in old(pizzas) || old(pizzas)[id].at >= at ==> pizzas == old(pizzas) && prices == old(prices)
      ensures restaurants == old(restaurants) && toppings == old(toppings)
    {
      if id in pizzas && pizzas[id].at < at {
        pizzas := pizzas - {id};
        prices := map k | k in prices && k.0 != id :: prices[k];
      }
    }

    method UpsertPrice(pizza: nat, size: nat, row: PizzaPrice) returns (ok: bool)
      modifies this
      ensures (View(), ok) == Exec(old(View()), PutPrice(pizza, size, row))
      ensures ok <==> ((pizza, size) in old(prices) && old(prices)[(pizza, size)].at >= row.at) || pizza in pizzas
      ensures prices
           == if ((pizza, size) in old(prices) && old(prices)[(pizza, size)].at >= row.at) || pizza !in pizzas then old(prices)
              else old(prices)[(pizza, size) := row]
      ensures restaurants == old(restaurants) && pizzas == old(pizzas) && toppings == old(toppings)
    {
      ok := true;
      if (pizza, size) !in prices || prices[(pizza, size)].at < row.at {
        ok := pizza in pizzas;
        if ok {
          prices := prices[(pizza, size) := row];
        }
      }
    }

    method UpsertTopping(restaurant: nat, topping: nat, row: ToppingPrice) returns (ok: bool)
      modifies this
      ensures (View(), ok) == Exec(old(View()), PutTopping(restaurant, topping, row))
      ensures ok <==>
                || ((restaurant, topping) in old(toppings) && old(toppings)[(restaurant, topping)].at >= row.at)
                || restaurant in restaurants
      ensures toppings
           == if || ((restaurant, topping) in old(toppings) && old(toppings)[(restaurant, topping)].at >= row.at)
                 || restaurant !in restaurants then old(toppings)
              else old(toppings)[(restaurant, topping) := row]
      ensures restaurants == old(restaurants) && pizzas == old(pizzas) && prices == old(prices)
    {
      ok := true;
      if (restaurant, topping) !in toppings || toppings[(restaurant, topping)].at < row.at {
        ok := restaurant in restaurants;
        if ok {
          toppings := toppings[(restaurant, topping) := row];
        }
      }
    }

    method HandleUpdated(r: RestaurantWire) returns (ok: bool)
      modifies this
      ensures (View(), ok) == ExecAll(old(View()), Plan(Updated(r)))
      ensures ok <==> r.email.Some? && r.deliveryFee.Some? && r.minimumOrder.Some?
      // the payload's own fields, unless the stored row is at least as new
      ensures ok && !(r.id in old(restaurants) && old(restaurants)[r.id].at >= r.at) ==>
                && r.id in restaurants
                && var row := restaurants[r.id];
                   && row.owner == r.owner && row.name == r.name && row.ownerEmail == r.email.value
                   && row.deliveryKm == r.deliveryKm && row.deliveryFee == r.deliveryFee.value
                   && row.minimumOrder == r.minimumOrder.value && row.pickup == r.pickup
                   && row.deliveryType == r.deliveryType && row.at == r.at
                   && restaurants == old(restaurants)[r.id := row]
      ensures !ok || (r.id in old(restaurants) && old(restaurants)[r.id].at >= r.at) ==> restaurants == old(restaurants)
      ensures pizzas == old(pizzas) && prices == old(prices) && toppings == old(toppings)
    {
      if r.email.None? || r.deliveryFee.None? || r.minimumOrder.None? {
        return false;
      }
      UpsertRestaurant(r.id, RestaurantRow(r));
      return true;
    }

    method PutPrices(pizza: nat, wires: seq<PriceWire>, at: int) returns (ok: bool)
      modifies this
      ensures (View(), ok) == ExecAll(old(View()), PricesPlan(pizza, wires, at))
      ensures pizzas == old(pizzas) && restaurants == old(restaurants) && toppings == old(toppings)
      ensures ok && DistinctWires(wires) ==>
                forall j :: 0 <= j < |wires| ==>
                  var key := (pizza, wires[j].size);
                  && wires[j].amount.Some? && key in prices
                  && (!(key in old(prices) && old(prices)[key].at >= at) ==>
                        && prices[key].diameter == wires[j].diameter && prices[key].price == wires[j].amount.value
                        && prices[key].active == wires[j].active && prices[key].at == at)
    {
      ghost var plan := PricesPlan(pizza, wires, at);
      PricesOnly(View(), plan);
      if ExecAll(View(), plan).1 && DistinctWires(wires) {
        forall j | 0 <= j < |wires|
          ensures var stored, key := ExecAll(old(View()), plan).0.prices, (pizza, wires[j].size);
                  && wires[j].amount.Some? && key in stored
                  && (!(key in old(prices) && old(prices)[key].at >= at) ==>
                        && stored[key].diameter == wires[j].diameter && stored[key].price == wires[j].amount.value
                        && stored[key].active == wires[j].active && stored[key].at == at)
        {
          PriceStored(View(), pizza, wires, at, j);
        }
      }
      for i := 0 to |wires|
        invariant ExecAll(View(), plan[i..]) == ExecAll(old(View()), plan)
      {
        assert plan[i..][1..] == plan[i + 1..];
        if wires[i].amount.None? {
          return false;
        }
        var row := PizzaPrice(wires[i].diameter, wires[i].amount.value, wires[i].active, at);
        ok := UpsertPrice(pizza, wires[i].size, row);
        if !ok {
          return false;
        }
      }
      return true;
    }

    method PutToppings(restaurant: nat, wires: seq<ToppingWire>, at: int) returns (ok: bool)
      modifies this
      ensures (View(), ok) == ExecAll(old(View()), ToppingsPlan(restaurant, wires, at))
      ensures pizzas == old(pizzas) && restaurants == old(restaurants) && prices == old(prices)
      ensures ok && (forall i, j :: 0 <= i < j < |wires| ==> wires[i].topping != wires[j].topping) ==>
                forall j :: 0 <= j < |wires| ==>
                  var key := (restaurant, wires[j].topping);
                  && wires[j].extra.Some? && key in toppings
                  && (!(key in old(toppings) && old(toppings)[key].at >= at) ==>
                        && toppings[key].name == wires[j].name && toppings[key].extra == wires[j].extra.value
                        && toppings[key].at == at)
    {
      ghost var plan := ToppingsPlan(restaurant, wires, at);
      ToppingsOnly(View(), restaurant, wires, at);
      if ExecAll(View(), plan).1 && DistinctToppings(wires) {
        forall j | 0 <= j < |wires|
          ensures var stored, key := ExecAll(old(View()), plan).0.toppings, (restaurant, wires[j].topping);
                  && wires[j].extra.Some? && key in stored
                  && (!(key in old(toppings) && old(toppings)[key].at >= at) ==>
                        && stored[key].name == wires[j].name && stored[key].extra == wires[j].extra.value
                        && stored[key].at == at)
        {
          ToppingStored(View(), restaurant, wires, at, j);
        }
      }
      for i := 0 to |wires|
        invariant ExecAll(View(), plan[i..]) == ExecAll(old(View()), plan)
      {
        assert plan[i..][1..] == plan[i + 1..];
        if wires[i].extra.None? {
          return false;
        }
        ok := UpsertTopping(restaurant, wires[i].topping, ToppingPrice(wires[i].name, wires[i].extra.value, at));
        if !ok {
          return false;
        }
      }
      return true;
    }

    /** A pizza is stored with its prices, or deleted if it cannot be ordered. */
    method HandlePizza(owner: nat, p: PizzaWire, at: int) returns (ok: bool)
      modifies this
      ensures (View(), ok) == ExecAll(old(View()), Plan(PizzaUpdated(owner, p, at)))
      // archived, or without an active price: a pizza that is not newer goes, with all its prices
      ensures p.status == "archived" || (forall i :: 0 <= i < |p.prices| ==> !p.prices[i].active) ==>
                && ok
                && (p.id in old(pizzas) && old(pizzas)[p.id].at < at ==>
                      p.id !in pizzas && forall k :: k in prices ==> k.0 != p.id)
                && (!(p.id in old(pizzas) && old(pizzas)[p.id].at < at) ==> pizzas == old(pizzas) && prices == old(prices))
      // neither, and carried out to the end: the pizza is there, this version of it or one as new
      ensures ok && p.status != "archived" && (exists i :: 0 <= i < |p.prices| && p.prices[i].active) ==>
                && p.id in pizzas && pizzas[p.id].at >= at
                && (!(p.id in old(pizzas) && old(pizzas)[p.id].at >= at) ==>
                      && pizzas[p.id].restaurant == owner && pizzas[p.id].name == p.name
                      && pizzas[p.id].status == p.status && pizzas[p.id].at == at)
      ensures && ok && p.status != "archived" && (exists i :: 0 <= i < |p.prices| && p.prices[i].active)
              && (forall i, j :: 0 <= i < j < |p.prices| ==> p.prices[i].size != p.prices[j].size) ==>
                forall j :: 0 <= j < |p.prices| ==>
                  var key := (p.id, p.prices[j].size);
                  && key in prices && p.prices[j].amount.Some?
                  && (!(key in old(prices) && old(prices)[key].at >= at) ==>
                        && prices[key].diameter == p.prices[j].diameter && prices[key].price == p.prices[j].amount.value
                        && prices[key].active == p.prices[j].active && prices[key].at == at)
      // nothing else changes
      ensures restaurants == old(restaurants) && toppings == old(toppings)
      ensures forall id :: id != p.id ==>
                (id in pizzas <==> id in old(pizzas)) && (id in pizzas ==> pizzas[id] == old(pizzas)[id])
    {
      var active := AnyActive(p.prices);
      if p.status == "archived" || !active {
        DeletePizza(p.id, at);
        return true;
      }
      ok := PutPizzaAndPrices(owner, p, at);
    }

    method PutPizzaAndPrices(owner: nat, p: PizzaWire, at: int) returns (ok: bool)
      modifies this
      ensures (View(), ok) == ExecAll(old(View()), PizzaPlan(owner, p, at))
      ensures restaurants == old(restaurants) && toppings == old(toppings)
      ensures !(p.id in old(pizzas) && old(pizzas)[p.id].at >= at) && owner in restaurants ==>
                pizzas == old(pizzas)[p.id := Pizza(owner, p.name, p.status, at)]
      ensures (p.id in old(pizzas) && old(pizzas)[p.id].at >= at) || owner !in restaurants ==> pizzas == old(pizzas)
      ensures ok ==> (p.id in old(pizzas) && old(pizzas)[p.id].at >= at) || owner in restaurants
      ensures ok && DistinctWires(p.prices) ==>
                forall j :: 0 <= j < |p.prices| ==>
                  var key := (p.id, p.prices[j].size);
                  && p.prices[j].amount.Some? && key in prices
                  && (!(key in old(prices) && old(prices)[key].at >= at) ==>
                        && prices[key].diameter == p.prices[j].diameter && prices[key].price == p.prices[j].amount.value
                        && prices[key].active == p.prices[j].active && prices[key].at == at)
    {
      ghost var put := [PutPizza(p.id, Pizza(owner, p.name, p.status, at))];
      ExecAppend(View(), put, PricesPlan(p.id, p.prices, at));
      ok := UpsertPizza(p.id, Pizza(owner, p.name, p.status, at));
      if ok {
        ok := PutPrices(p.id, p.prices, at);
      }
    }

    method HandleToppings(owner: nat, wires: seq<ToppingWire>, at: int) returns (ok: bool)
      modifies this
      ensures (View(), ok) == ExecAll(old(View()), Plan(ToppingsUpdated(owner, wires, at)))
      ensures pizzas == old(pizzas) && restaurants == old(restaurants) && prices == old(prices)
      ensures ok && (forall i, j :: 0 <= i < j < |wires| ==> wires[i].topping != wires[j].topping) ==>
                forall j :: 0 <= j < |wires| ==>
                  var key := (owner, wires[j].topping);
                  && wires[j].extra.Some? && key in toppings
                  && (!(key in old(toppings) && old(toppings)[key].at >= at) ==>
                        && toppings[key].name == wires[j].name && toppings[key].extra == wires[j].extra.value
                        && toppings[key].at == at)
    {
      ok := PutToppings(owner, wires, at);
    }

    /** The launch snapshot: the restaurant, its orderable pizzas with their prices, its topping prices. */
    method HandleLaunched(r: RestaurantWire, snapshot: seq<PizzaWire>, wires: seq<ToppingWire>) returns (ok: bool)
      modifies this
      ensures (View(), ok) == ExecAll(old(View()), Plan(Launched(r, snapshot, wires)))
      // the restaurant
      ensures ok ==> r.email.Some? && r.deliveryFee.Some? && r.minimumOrder.Some? && r.id in restaurants
      ensures r.email.None? || r.deliveryFee.None? || r.minimumOrder.None? ==> !ok && View() == old(View())
      ensures ok && !(r.id in old(restaurants) && old(restaurants)[r.id].at >= r.at) ==>
                var row := restaurants[r.id];
                && row.owner == r.owner && row.name == r.name && row.ownerEmail == r.email.value
                && row.deliveryKm == r.deliveryKm && row.deliveryFee == r.deliveryFee.value
                && row.minimumOrder == r.minimumOrder.value && row.pickup == r.pickup
                && row.deliveryType == r.deliveryType && row.at == r.at
      // no pizza goes, and one that changes is an entry that is not archived and has an active price
      ensures forall id :: id in old(pizzas) ==> id in pizzas && old(pizzas)[id].at <= pizzas[id].at
      ensures forall id :: id in pizzas && (id !in old(pizzas) || pizzas[id] != old(pizzas)[id]) ==>
                exists k :: && 0 <= k < |snapshot| && snapshot[k].id == id && snapshot[k].updatedAt.Some?
                            && snapshot[k].status != "archived"
                            && (exists j :: 0 <= j < |snapshot[k].prices| && snapshot[k].prices[j].active)
                            && pizzas[id].restaurant == r.id && pizzas[id].name == snapshot[k].name
                            && pizzas[id].status == snapshot[k].status && pizzas[id].at == snapshot[k].updatedAt.value
      ensures ok ==>
                forall k :: && 0 <= k < |snapshot| && snapshot[k].status != "archived"
                            && (exists j :: 0 <= j < |snapshot[k].prices| && snapshot[k].prices[j].active) ==>
                  && snapshot[k].updatedAt.Some? && snapshot[k].id in pizzas
                  && snapshot[k].updatedAt.value <= pizzas[snapshot[k].id].at
      // its topping prices
      ensures ok && (forall i, j :: 0 <= i < j < |wires| ==> wires[i].topping != wires[j].topping) ==>
                forall j :: 0 <= j < |wires| ==>
                  var key := (r.id, wires[j].topping);
                  && wires[j].extra.Some? && key in toppings
                  && (!(key in old(toppings) && old(toppings)[key].at >= r.at) ==>
                        && toppings[key].name == wires[j].name && toppings[key].extra == wires[j].extra.value
                        && toppings[key].at == r.at)
    {
      ghost var pizzasPlan := LaunchedPizzasPlan(r.id, snapshot);
      ghost var toppingsPlan := ToppingsPlan(r.id, wires, r.at);
      ExecAppend(View(), RestaurantPlan(r) + pizzasPlan, toppingsPlan);
      ExecAppend(View(), RestaurantPlan(r), pizzasPlan);
      ok := HandleUpdated(r);
      if !ok {
        return;
      }
      ok := PutSnapshot(r.id, snapshot);
      if ok {
        ok := PutToppings(r.id, wires, r.at);
      }
    }

    method PutSnapshot(restaurant: nat, snapshot: seq<PizzaWire>) returns (ok: bool)
      modifies this
      ensures (View(), ok) == ExecAll(old(View()), LaunchedPizzasPlan(restaurant, snapshot))
      ensures restaurants == old(restaurants) && toppings == old(toppings)
      // no pizza goes, and one that changes is an entry that is not archived and has an active price
      ensures forall id :: id in old(pizzas) ==> id in pizzas && old(pizzas)[id].at <= pizzas[id].at
      ensures forall id :: id in pizzas && (id !in old(pizzas) || pizzas[id] != old(pizzas)[id]) ==>
                exists k :: && 0 <= k < |snapshot| && snapshot[k].id == id && snapshot[k].updatedAt.Some?
                            && snapshot[k].status != "archived"
                            && (exists j :: 0 <= j < |snapshot[k].prices| && snapshot[k].prices[j].active)
                            && pizzas[id].restaurant == restaurant && pizzas[id].name == snapshot[k].name
                            && pizzas[id].status == snapshot[k].status && pizzas[id].at == snapshot[k].updatedAt.value
      ensures ok ==>
                forall k :: && 0 <= k < |snapshot| && snapshot[k].status != "archived"
                            && (exists j :: 0 <= j < |snapshot[k].prices| && snapshot[k].prices[j].active) ==>
                  && snapshot[k].updatedAt.Some? && snapshot[k].id in pizzas
                  && snapshot[k].updatedAt.value <= pizzas[snapshot[k].id].at
    {
      SnapshotEffect(View(), restaurant, snapshot);
      assert snapshot[0..] == snapshot;
      for i := 0 to |snapshot|
        invariant ExecAll(View(), LaunchedPizzasPlan(restaurant, snapshot[i..]))
               == ExecAll(old(View()), LaunchedPizzasPlan(restaurant, snapshot))
      {
        var p := snapshot[i];
        assert snapshot[i..][1..] == snapshot[i + 1..];
        SnapshotStep(View(), restaurant, snapshot[i..]);
        var active := AnyActive(p.prices);
        if p.status == "archived" || !active {
          continue;
        }
        if p.updatedAt.None? {
          return false;
        }
        ok := PutPizzaAndPrices(restaurant, p, p.updatedAt.value);
        if !ok {
          return false;
        }
      }
      return true;
    }
  }

  method AnyActive(prices: seq<PriceWire>) returns (found: bool)
    ensures found == HasActive(prices)
  {
    for i := 0 to |prices|
      invariant forall j :: 0 <= j < i ==> !prices[j].active
    {
      if prices[i].active {
        return true;
      }
    }
    return false;
  }
}
