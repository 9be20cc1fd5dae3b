/**
Reordered and repeated deliveries.  A run is any sequence of statements taken from the plans of
some events, so handlers may interleave, stop half-way and be repeated; statements that fail
change nothing.
*/
module Convergence {
  import opened Wrappers
  import opened ReadModel

  /** The tables after the first n statements of a run. */
  function At(stmts: seq<Stmt>, n: nat): Db
    requires n <= |stmts|
  {
    if n == 0 then Empty() else Exec(At(stmts, n - 1), stmts[n - 1]).0
  }

  function Final(stmts: seq<Stmt>): Db {
    At(stmts, |stmts|)
  }

  predicate Succeeds(stmts: seq<Stmt>, i: nat) {
    i < |stmts| && Exec(At(stmts, i), stmts[i]).1
  }

  ghost predicate Executed(stmts: seq<Stmt>, st: Stmt) {
    exists i: nat :: Succeeds(stmts, i) && stmts[i] == st
  }

  /** Every statement of the run is one of these, and each of these succeeded at some time. */
  ghost predicate Covers(stmts: seq<Stmt>, writes: set<Stmt>) {
    && (forall i :: 0 <= i < |stmts| ==> stmts[i] in writes)
    && (forall st {:trigger Executed(stmts, st)} :: st in writes ==> Executed(stmts, st))
  }

  /** Equal key and timestamp imply equal content. */
  ghost predicate Consistent(writes: set<Stmt>) {
    && (forall k, x, y :: PutRestaurant(k, x) in writes && PutRestaurant(k, y) in writes && x.at == y.at ==> x == y)
    && (forall k, l, x, y :: PutTopping(k, l, x) in writes && PutTopping(k, l, y) in writes && x.at == y.at ==> x == y)
  }

  // ---- one statement ----

  lemma StepRestaurant(db: Db, st: Stmt, k: nat)
    ensures k in db.restaurants ==>
              k in Exec(db, st).0.restaurants && db.restaurants[k].at <= Exec(db, st).0.restaurants[k].at
    ensures k in Exec(db, st).0.restaurants ==>
              || (k in db.restaurants && Exec(db, st).0.restaurants[k] == db.restaurants[k])
              || st == PutRestaurant(k, Exec(db, st).0.restaurants[k])
    ensures st.PutRestaurant? && st.restaurant == k ==>
              k in Exec(db, st).0.restaurants && st.row.at <= Exec(db, st).0.restaurants[k].at
  {
  }

  lemma StepTopping(db: Db, st: Stmt, k: nat, l: nat)
    ensures (k, l) in db.toppings ==>
              (k, l) in Exec(db, st).0.toppings && db.toppings[(k, l)].at <= Exec(db, st).0.toppings[(k, l)].at
    ensures (k, l) in Exec(db, st).0.toppings ==>
              || ((k, l) in db.toppings && Exec(db, st).0.toppings[(k, l)] == db.toppings[(k, l)])
              || st == PutTopping(k, l, Exec(db, st).0.toppings[(k, l)])
    ensures st.PutTopping? && st.restaurant == k && st.topping == l && Exec(db, st).1 ==>
              (k, l) in Exec(db, st).0.toppings && st.toppingRow.at <= Exec(db, st).0.toppings[(k, l)].at
  {
  }

  // ---- runs ----

  lemma {:induction false} RestaurantComesFrom(stmts: seq<Stmt>, n: nat, k: nat)
    requires n <= |stmts| && k in At(stmts, n).restaurants
    ensures exists i :: 0 <= i < n && stmts[i] == PutRestaurant(k, At(stmts, n).restaurants[k])
  {
    if n > 0 {
      StepRestaurant(At(stmts, n - 1), stmts[n - 1], k);
      if stmts[n - 1] != PutRestaurant(k, At(stmts, n).restaurants[k]) {
        RestaurantComesFrom(stmts, n - 1, k);
      }
    }
  }

  lemma {:induction false} RestaurantAtLeast(stmts: seq<Stmt>, i: nat, n: nat, k: nat, row: Restaurant)
    requires i < n <= |stmts| && stmts[i] == PutRestaurant(k, row)
    ensures k in At(stmts, n).restaurants && row.at <= At(stmts, n).restaurants[k].at
  {
    if i < n - 1 {
      RestaurantAtLeast(stmts, i, n - 1, k, row);
    }
    StepRestaurant(At(stmts, n - 1), stmts[n - 1], k);
  }

  lemma {:induction false} ToppingComesFrom(stmts: seq<Stmt>, n: nat, k: nat, l: nat)
    requires n <= |stmts| && (k, l) in At(stmts, n).toppings
    ensures exists i :: 0 <= i < n && stmts[i] == PutTopping(k, l, At(stmts, n).toppings[(k, l)])
  {
    if n > 0 {
      StepTopping(At(stmts, n - 1), stmts[n - 1], k, l);
      if stmts[n - 1] != PutTopping(k, l, At(stmts, n).toppings[(k, l)]) {
        ToppingComesFrom(stmts, n - 1, k, l);
      }
    }
  }

  lemma {:induction false} ToppingAtLeast(stmts: seq<Stmt>, i: nat, n: nat, k: nat, l: nat, row: ToppingPrice)
    requires i < n <= |stmts| && stmts[i] == PutTopping(k, l, row) && Succeeds(stmts, i)
    ensures (k, l) in At(stmts, n).toppings && row.at <= At(stmts, n).toppings[(k, l)].at
  {
    if i < n - 1 {
      ToppingAtLeast(stmts, i, n - 1, k, l, row);
    }
    StepTopping(At(stmts, n - 1), stmts[n - 1], k, l);
  }

  /** What one run stores for a restaurant the other run stores too, and not older. */
  lemma RestaurantCarriesOver(a: seq<Stmt>, b: seq<Stmt>, writes: set<Stmt>, k: nat)
    requires Covers(a, writes) && Covers(b, writes) && k in Final(a).restaurants
    ensures PutRestaurant(k, Final(a).restaurants[k]) in writes
    ensures k in Final(b).restaurants && Final(a).restaurants[k].at <= Final(b).restaurants[k].at
  {
    RestaurantComesFrom(a, |a|, k);
    var st := PutRestaurant(k, Final(a).restaurants[k]);
    assert Executed(b, st);
    var i: nat :| Succeeds(b, i) && b[i] == st;
    RestaurantAtLeast(b, i, |b|, k, st.row);
  }

  lemma ToppingCarriesOver(a: seq<Stmt>, b: seq<Stmt>, writes: set<Stmt>, k: nat, l: nat)
    requires Covers(a, writes) && Covers(b, writes) && (k, l) in Final(a).toppings
    ensures PutTopping(k, l, Final(a).toppings[(k, l)]) in writes
    ensures (k, l) in Final(b).toppings && Final(a).toppings[(k, l)].at <= Final(b).toppings[(k, l)].at
  {
    ToppingComesFrom(a, |a|, k, l);
    var st := PutTopping(k, l, Final(a).toppings[(k, l)]);
    assert Executed(b, st);
    var i: nat :| Succeeds(b, i) && b[i] == st;
    ToppingAtLeast(b, i, |b|, k, l, st.toppingRow);
  }

  lemma SameRestaurants(a: seq<Stmt>, b: seq<Stmt>, writes: set<Stmt>)
    requires Covers(a, writes) && Covers(b, writes) && Consistent(writes)
    ensures Final(a).restaurants == Final(b).restaurants
  {
    forall k | k in Final(a).restaurants || k in Final(b).restaurants
      ensures k in Final(a).restaurants && k in Final(b).restaurants && Final(a).restaurants[k] == Final(b).restaurants[k]
    {
      if k in Final(a).restaurants { RestaurantCarriesOver(a, b, writes, k); }
      if k in Final(b).restaurants { RestaurantCarriesOver(b, a, writes, k); }
    }
  }

  lemma SameToppings(a: seq<Stmt>, b: seq<Stmt>, writes: set<Stmt>)
    requires Covers(a, writes) && Covers(b, writes) && Consistent(writes)
    ensures Final(a).toppings == Final(b).toppings
  {
    forall key: (nat, nat) | key in Final(a).toppings || key in Final(b).toppings
      ensures key in Final(a).toppings && key in Final(b).toppings && Final(a).toppings[key] == Final(b).toppings[key]
    {
      var (k, l) := key;
      if (k, l) in Final(a).toppings { ToppingCarriesOver(a, b, writes, k, l); }
      if (k, l) in Final(b).toppings { ToppingCarriesOver(b, a, writes, k, l); }
    }
  }

  // ---- events ----

  /** All statements of these events' plans. */
  function Writes(events: set<Event>): set<Stmt> {
    set e, st | e in events && st in Plan(e) :: st
  }

  // ---- what is never stored ----

  /** A pizza that some handler puts is not archived. */
  lemma PutsOrderable(e: Event, st: Stmt)
    requires st in Plan(e) && st.PutPizza?
    ensures st.pizzaRow.status != "archived"
  {
    match e
    case Launched(r, pizzas, toppings) =>
      assert st in LaunchedPizzasPlan(r.id, pizzas);
      SnapshotPuts(r.id, pizzas, st);
    case PizzaUpdated(_, _, _) =>
    case _ =>
  }

  lemma {:induction false} StoredWasPut(stmts: seq<Stmt>, n: nat, p: nat)
    requires n <= |stmts| && p in At(stmts, n).pizzas
    ensures exists i :: 0 <= i < n && stmts[i] == PutPizza(p, At(stmts, n).pizzas[p])
  {
    if n > 0 && stmts[n - 1] != PutPizza(p, At(stmts, n).pizzas[p]) {
      StoredWasPut(stmts, n - 1, p);
    }
  }

  /** Whatever handlers of these events interleave, stop and are repeated, no stored pizza is archived. */
  lemma NoArchivedPizzaStored(stmts: seq<Stmt>, events: set<Event>, n: nat, p: nat)
    requires (forall i :: 0 <= i < |stmts| ==> stmts[i] in Writes(events)) && n <= |stmts| && p in At(stmts, n).pizzas
    ensures At(stmts, n).pizzas[p].status != "archived"
  {
    StoredWasPut(stmts, n, p);
    var i :| 0 <= i < n && stmts[i] == PutPizza(p, At(stmts, n).pizzas[p]);
    assert stmts[i] in Writes(events);
    var e :| e in events && stmts[i] in Plan(e);
    PutsOrderable(e, stmts[i]);
  }

  /**
  Convergence: the restaurants and topping prices stored in the end depend only on which events
  were delivered, not on the order, the number of repetitions or the interleaving.
  */
  lemma SameEventsSameTables(a: seq<Stmt>, b: seq<Stmt>, events: set<Event>)
    requires Covers(a, Writes(events)) && Covers(b, Writes(events)) && Consistent(Writes(events))
    ensures Final(a).restaurants == Final(b).restaurants
    ensures Final(a).toppings == Final(b).toppings
  {
    SameRestaurants(a, b, Writes(events));
    SameToppings(a, b, Writes(events));
  }

  // ---- whole handlers ----

  /** The statements of handlers that run one after the other, each to its end. */
  function Concatenated(plans: seq<seq<Stmt>>): seq<Stmt> {
    if plans == [] then [] else Concatenated(plans[..|plans| - 1]) + plans[|plans| - 1]
  }

  /** The tables after these handler calls, or None once one of them fails. */
  function HandleAll(plans: seq<seq<Stmt>>): Option<Db> {
    if plans == [] then Some(Empty())
    else
      var before := HandleAll(plans[..|plans| - 1]);
      if before.None? then None
      else
        var r := ExecAll(before.value, plans[|plans| - 1]);
        if r.1 then Some(r.0) else None
  }

  lemma {:induction false} AtPrefix(stmts: seq<Stmt>, more: seq<Stmt>, n: nat)
    requires n <= |stmts|
    ensures At(stmts + more, n) == At(stmts, n)
  {
    if n > 0 {
      AtPrefix(stmts, more, n - 1);
    }
  }

  lemma OneMoreStatement(stmts: seq<Stmt>, st: Stmt)
    ensures Final(stmts + [st]) == Exec(Final(stmts), st).0
  {
    AtPrefix(stmts, [st], |stmts|);
  }

  lemma {:induction false} ExecAllFinal(stmts: seq<Stmt>, plan: seq<Stmt>)
    requires ExecAll(Final(stmts), plan).1
    ensures Final(stmts + plan) == ExecAll(Final(stmts), plan).0
    ensures forall i :: |stmts| <= i < |stmts + plan| ==> Succeeds(stmts + plan, i)
    decreases |plan|
  {
    if plan == [] {
      assert stmts + plan == stmts;
    } else {
      var longer := stmts + [plan[0]];
      AtPrefix(stmts, [plan[0]], |stmts|);
      assert longer + plan[1..] == stmts + plan;
      AtPrefix(stmts, plan, |stmts|);
      ExecAllFinal(longer, plan[1..]);
    }
  }

  lemma {:induction false} HandledRun(plans: seq<seq<Stmt>>)
    requires HandleAll(plans).Some?
    ensures Final(Concatenated(plans)) == HandleAll(plans).value
    ensures forall i :: 0 <= i < |Concatenated(plans)| ==> Succeeds(Concatenated(plans), i)
  {
    if plans != [] {
      var n := |plans| - 1;
      var before := Concatenated(plans[..n]);
      HandledRun(plans[..n]);
      ExecAllFinal(before, plans[n]);
      forall i | 0 <= i < |before| ensures Succeeds(before + plans[n], i) {
        assert Succeeds(before, i);
        AtPrefix(before, plans[n], i);
      }
    }
  }

  lemma {:induction false} ConcatenatedHas(plans: seq<seq<Stmt>>, st: Stmt)
    ensures st in Concatenated(plans) <==> exists k :: 0 <= k < |plans| && st in plans[k]
  {
    if plans != [] {
      var n := |plans| - 1;
      ConcatenatedHas(plans[..n], st);
      assert forall k :: 0 <= k < n ==> plans[..n][k] == plans[k];
    }
  }

  function Plans(delivered: seq<Event>): (plans: seq<seq<Stmt>>)
    ensures |plans| == |delivered| && forall k :: 0 <= k < |delivered| ==> plans[k] == Plan(delivered[k])
  {
    seq(|delivered|, k requires 0 <= k < |delivered| => Plan(delivered[k]))
  }

  lemma HandledCovers(plans: seq<seq<Stmt>>, writes: set<Stmt>)
    requires HandleAll(plans).Some?
    requires forall st :: st in writes <==> exists k :: 0 <= k < |plans| && st in plans[k]
    ensures Covers(Concatenated(plans), writes)
  {
    var stmts := Concatenated(plans);
    HandledRun(plans);
    forall i | 0 <= i < |stmts| ensures stmts[i] in writes {
      ConcatenatedHas(plans, stmts[i]);
    }
    forall st | st in writes ensures Executed(stmts, st) {
      ConcatenatedHas(plans, st);
      var i :| 0 <= i < |stmts| && stmts[i] == st;
      assert Succeeds(stmts, i);
    }
  }

  lemma WritesOf(delivered: seq<Event>, events: set<Event>)
    requires forall e :: e in events <==> e in delivered
    ensures forall st :: st in Writes(events) <==> exists k :: 0 <= k < |Plans(delivered)| && st in Plans(delivered)[k]
  {
    forall st | st in Writes(events) ensures exists k :: 0 <= k < |Plans(delivered)| && st in Plans(delivered)[k] {
      var e :| e in events && st in Plan(e);
      var k :| 0 <= k < |delivered| && delivered[k] == e;
      assert st in Plans(delivered)[k];
    }
  }

  /**
  Handlers that each run to their end: any order and any repetition of the same events gives the
  same restaurants and topping prices.
  */
  lemma PermutedDeliveries(a: seq<Event>, b: seq<Event>, events: set<Event>)
    requires forall e :: e in events <==> e in a
    requires forall e :: e in events <==> e in b
    requires HandleAll(Plans(a)).Some? && HandleAll(Plans(b)).Some? && Consistent(Writes(events))
    ensures HandleAll(Plans(a)).value.restaurants == HandleAll(Plans(b)).value.restaurants
    ensures HandleAll(Plans(a)).value.toppings == HandleAll(Plans(b)).value.toppings
  {
    WritesOf(a, events);
    WritesOf(b, events);
    HandledCovers(Plans(a), Writes(events));
    HandledCovers(Plans(b), Writes(events));
    HandledRun(Plans(a));
    HandledRun(Plans(b));
    SameEventsSameTables(Concatenated(Plans(a)), Concatenated(Plans(b)), events);
  }
}
