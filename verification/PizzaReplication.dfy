/**
The replica of one pizza: whatever the order, repetition and interleaving of deliveries, once the
newest version has been delivered and it is an upsert, the replica has that version's row and its
sizes at its prices.  Nothing is ever taken away from an upserted pizza, so it shows exactly that
version if and only if no other version has a size that the newest one lacks.  Deletes leave no
tombstone, so an older version may come back in between; it does not outlive the newest one.
*/
module PizzaReplication {
  import opened Wrappers
  import opened ReadModel
  import opened Convergence

  /** A pizza as one event describes it. */
  datatype Version = Version(restaurant: nat, name: string, status: string, prices: seq<PriceWire>, at: int)

  function PizzaRow(v: Version): Pizza {
    Pizza(v.restaurant, v.name, v.status, v.at)
  }

  predicate Mentions(prices: seq<PriceWire>, size: nat) {
    exists j :: 0 <= j < |prices| && prices[j].size == size
  }

  predicate HasSize(v: Version, size: nat) {
    Mentions(v.prices, size)
  }

  predicate About(st: Stmt, p: nat) {
    match st
    case PutPizza(id, _) => id == p
    case DropPizza(id, _) => id == p
    case PutPrice(id, _, _) => id == p
    case _ => false
  }

  /** The statement could be one of a handler that carries this version. */
  ghost predicate OfVersion(st: Stmt, p: nat, v: Version) {
    match st
    case PutPizza(id, row) => id == p && row == PizzaRow(v)
    case DropPizza(id, at) => id == p && at == v.at
    case PutPrice(_, _, _) => exists j :: 0 <= j < |v.prices| && st == PriceStmt(p, v.prices[j], v.at)
    case _ => false
  }

  ghost predicate FromVersions(stmts: seq<Stmt>, p: nat, versions: set<Version>) {
    forall i :: 0 <= i < |stmts| && About(stmts[i], p) ==> exists v :: v in versions && OfVersion(stmts[i], p, v)
  }

  /** The version with the greatest timestamp, the only one that has it. */
  ghost predicate Latest(versions: set<Version>, v: Version) {
    && v in versions
    && (forall u :: u in versions ==> u.at <= v.at)
    && (forall u :: u in versions && u.at == v.at ==> u == v)
  }

  /** No version has a size that v lacks.  A version whose prices were listed too early may well lack one. */
  ghost predicate SizesKept(versions: set<Version>, v: Version) {
    forall u, s :: u in versions && HasSize(u, s) ==> HasSize(v, s)
  }

  predicate DistinctSizes(v: Version) {
    forall i, j :: 0 <= i < j < |v.prices| ==> v.prices[i].size != v.prices[j].size
  }

  predicate Readable(v: Version) {
    forall j :: 0 <= j < |v.prices| ==> v.prices[j].amount.Some?
  }

  function PriceRow(w: PriceWire, at: int): PizzaPrice
    requires w.amount.Some?
  {
    PizzaPrice(w.diameter, w.amount.value, w.active, at)
  }

  /** The version's pizza was put at i0, and after that each of its prices was put. */
  ghost predicate DeliveredFrom(stmts: seq<Stmt>, p: nat, v: Version, i0: nat) {
    && Succeeds(stmts, i0) && stmts[i0] == PutPizza(p, PizzaRow(v))
    && forall j :: 0 <= j < |v.prices| ==> PutAfter(stmts, PriceStmt(p, v.prices[j], v.at), i0)
  }

  ghost predicate PutAfter(stmts: seq<Stmt>, st: Stmt, i0: nat) {
    exists i :: i0 < i < |stmts| && stmts[i] == st
  }

  /** The replica has this version's row, and its sizes at its prices; it may have more sizes. */
  ghost predicate ShowsOwn(db: Db, p: nat, v: Version)
    requires Readable(v)
  {
    && p in db.pizzas && db.pizzas[p] == PizzaRow(v)
    && (forall j :: 0 <= j < |v.prices| ==>
          (p, v.prices[j].size) in db.prices && db.prices[(p, v.prices[j].size)] == PriceRow(v.prices[j], v.at))
  }

  /** The replica of the pizza is this version: its row, and for exactly its sizes its prices. */
  ghost predicate Shows(db: Db, p: nat, v: Version)
    requires Readable(v)
  {
    ShowsOwn(db, p, v) && forall s :: (p, s) in db.prices ==> HasSize(v, s)
  }

  // ---- one statement ----

  lemma StepPizza(db: Db, st: Stmt, p: nat)
    ensures p in Exec(db, st).0.pizzas ==>
              || (p in db.pizzas && Exec(db, st).0.pizzas[p] == db.pizzas[p])
              || st == PutPizza(p, Exec(db, st).0.pizzas[p])
  {
  }

  lemma StepPrice(db: Db, st: Stmt, p: nat, s: nat)
    ensures (p, s) in Exec(db, st).0.prices ==>
              || ((p, s) in db.prices && Exec(db, st).0.prices[(p, s)] == db.prices[(p, s)])
              || st == PutPrice(p, s, Exec(db, st).0.prices[(p, s)])
  {
  }

  // ---- what is stored comes from some version ----

  ghost predicate PizzaFrom(db: Db, p: nat, versions: set<Version>) {
    p in db.pizzas ==> exists v :: v in versions && db.pizzas[p] == PizzaRow(v)
  }

  ghost predicate PriceOf(row: PizzaPrice, s: nat, v: Version, j: int) {
    0 <= j < |v.prices| && v.prices[j].size == s && v.prices[j].amount.Some? && row == PriceRow(v.prices[j], v.at)
  }

  ghost predicate PriceFrom(db: Db, p: nat, s: nat, versions: set<Version>) {
    (p, s) in db.prices ==> exists v, j :: v in versions && PriceOf(db.prices[(p, s)], s, v, j)
  }

  lemma {:induction false} PizzaProvenance(stmts: seq<Stmt>, p: nat, versions: set<Version>, n: nat)
    requires FromVersions(stmts, p, versions) && n <= |stmts|
    ensures PizzaFrom(At(stmts, n), p, versions)
  {
    if n > 0 {
      PizzaProvenance(stmts, p, versions, n - 1);
      StepPizza(At(stmts, n - 1), stmts[n - 1], p);
    }
  }

  lemma {:induction false} PriceProvenance(stmts: seq<Stmt>, p: nat, s: nat, versions: set<Version>, n: nat)
    requires FromVersions(stmts, p, versions) && n <= |stmts|
    ensures PriceFrom(At(stmts, n), p, s, versions)
  {
    if n > 0 {
      PriceProvenance(stmts, p, s, versions, n - 1);
      var db, st := At(stmts, n - 1), stmts[n - 1];
      StepPrice(db, st, p, s);
      if st.PutPrice? && st.pizza == p && st.size == s {
        assert About(st, p);
        var v :| v in versions && OfVersion(st, p, v);
        var j :| 0 <= j < |v.prices| && st == PriceStmt(p, v.prices[j], v.at);
        assert PriceOf(st.price, s, v, j);
      }
    }
  }

  // ---- the newest version stays ----

  /** No statement of a version that is not newer changes the pizza. */
  lemma PizzaUntouched(db: Db, st: Stmt, p: nat, versions: set<Version>, v: Version)
    requires Latest(versions, v) && p in db.pizzas && db.pizzas[p] == PizzaRow(v)
    requires About(st, p) ==> exists u :: u in versions && OfVersion(st, p, u)
    ensures p in Exec(db, st).0.pizzas && Exec(db, st).0.pizzas[p] == PizzaRow(v)
    ensures st.DropPizza? && st.pizza == p ==> Exec(db, st).0 == db
  {
    if About(st, p) {
      var u :| u in versions && OfVersion(st, p, u);
    }
  }

  lemma {:induction false} PizzaStays(stmts: seq<Stmt>, p: nat, versions: set<Version>, v: Version, i0: nat, n: nat)
    requires FromVersions(stmts, p, versions) && Latest(versions, v)
    requires Succeeds(stmts, i0) && stmts[i0] == PutPizza(p, PizzaRow(v)) && i0 < n <= |stmts|
    ensures p in At(stmts, n).pizzas && At(stmts, n).pizzas[p] == PizzaRow(v)
  {
    if n - 1 == i0 {
      PizzaProvenance(stmts, p, versions, i0);
    } else {
      PizzaStays(stmts, p, versions, v, i0, n - 1);
      PizzaUntouched(At(stmts, n - 1), stmts[n - 1], p, versions, v);
    }
  }

  /** The newest version's price is stored, if the pizza is there. */
  lemma PriceArrives(db: Db, p: nat, versions: set<Version>, v: Version, j: nat)
    requires Latest(versions, v) && DistinctSizes(v) && Readable(v) && j < |v.prices|
    requires p in db.pizzas && PriceFrom(db, p, v.prices[j].size, versions)
    ensures var db' := Exec(db, PriceStmt(p, v.prices[j], v.at)).0;
            (p, v.prices[j].size) in db'.prices && db'.prices[(p, v.prices[j].size)] == PriceRow(v.prices[j], v.at)
  {
  }

  lemma PriceUntouched(db: Db, st: Stmt, p: nat, versions: set<Version>, v: Version, j: nat)
    requires Latest(versions, v) && DistinctSizes(v) && Readable(v) && j < |v.prices|
    requires p in db.pizzas && db.pizzas[p] == PizzaRow(v)
    requires (p, v.prices[j].size) in db.prices && db.prices[(p, v.prices[j].size)] == PriceRow(v.prices[j], v.at)
    requires About(st, p) ==> exists u :: u in versions && OfVersion(st, p, u)
    ensures var db' := Exec(db, st).0;
            (p, v.prices[j].size) in db'.prices && db'.prices[(p, v.prices[j].size)] == PriceRow(v.prices[j], v.at)
  {
    PizzaUntouched(db, st, p, versions, v);
    if st.PutPrice? && st.pizza == p && st.size == v.prices[j].size {
      assert About(st, p);
      var u :| u in versions && OfVersion(st, p, u);
    }
  }

  lemma {:induction false} PriceStays(stmts: seq<Stmt>, p: nat, versions: set<Version>, v: Version,
                                      i0: nat, i: nat, n: nat, j: nat)
    requires FromVersions(stmts, p, versions) && Latest(versions, v) && DistinctSizes(v) && Readable(v)
    requires Succeeds(stmts, i0) && stmts[i0] == PutPizza(p, PizzaRow(v)) && i0 < i < n <= |stmts|
    requires j < |v.prices| && stmts[i] == PriceStmt(p, v.prices[j], v.at)
    ensures (p, v.prices[j].size) in At(stmts, n).prices
    ensures At(stmts, n).prices[(p, v.prices[j].size)] == PriceRow(v.prices[j], v.at)
    decreases n
  {
    PizzaStays(stmts, p, versions, v, i0, n - 1);
    if n - 1 == i {
      PriceProvenance(stmts, p, v.prices[j].size, versions, i);
      PriceArrives(At(stmts, i), p, versions, v, j);
    } else {
      PriceStays(stmts, p, versions, v, i0, i, n - 1, j);
      PriceUntouched(At(stmts, n - 1), stmts[n - 1], p, versions, v, j);
    }
  }

  /**
  What holds without any condition on sizes: after any run of statements of these versions, in
  which the newest one was delivered, the replica has its row, and its sizes at its prices.
  */
  lemma NewestUpsertShown(stmts: seq<Stmt>, p: nat, versions: set<Version>, v: Version, i0: nat)
    requires FromVersions(stmts, p, versions) && Latest(versions, v) && DistinctSizes(v) && Readable(v)
    requires DeliveredFrom(stmts, p, v, i0)
    ensures ShowsOwn(Final(stmts), p, v)
  {
    var n := |stmts|;
    PizzaStays(stmts, p, versions, v, i0, n);
    forall j | 0 <= j < |v.prices|
      ensures (p, v.prices[j].size) in Final(stmts).prices
      ensures Final(stmts).prices[(p, v.prices[j].size)] == PriceRow(v.prices[j], v.at)
    {
      assert PutAfter(stmts, PriceStmt(p, v.prices[j], v.at), i0);
      var i :| i0 < i < n && stmts[i] == PriceStmt(p, v.prices[j], v.at);
      PriceStays(stmts, p, versions, v, i0, i, n, j);
    }
  }

  predicate PutsSize(st: Stmt, p: nat, s: nat) {
    st.PutPrice? && st.pizza == p && st.size == s
  }

  /** A stored price was written. */
  lemma {:induction false} PriceWritten(stmts: seq<Stmt>, p: nat, s: nat, n: nat)
    requires n <= |stmts| && (p, s) in At(stmts, n).prices
    ensures exists i :: 0 <= i < n && PutsSize(stmts[i], p, s)
  {
    StepPrice(At(stmts, n - 1), stmts[n - 1], p, s);
    if !PutsSize(stmts[n - 1], p, s) {
      PriceWritten(stmts, p, s, n - 1);
    }
  }

  /**
  Newest upsert wins: if moreover no version has a size that the newest one lacks, the replica
  shows exactly the newest version.
  */
  lemma NewestUpsertWins(stmts: seq<Stmt>, p: nat, versions: set<Version>, v: Version, i0: nat)
    requires FromVersions(stmts, p, versions) && Latest(versions, v) && SizesKept(versions, v)
    requires DistinctSizes(v) && Readable(v) && DeliveredFrom(stmts, p, v, i0)
    ensures Shows(Final(stmts), p, v)
  {
    NewestUpsertShown(stmts, p, versions, v, i0);
    forall s | (p, s) in Final(stmts).prices ensures HasSize(v, s) {
      PriceWritten(stmts, p, s, |stmts|);
      var i :| 0 <= i < |stmts| && PutsSize(stmts[i], p, s);
      assert About(stmts[i], p);
      var u :| u in versions && OfVersion(stmts[i], p, u);
      assert HasSize(u, s);
    }
  }

  // ---- exactly when the newest version is shown exactly ----

  /** A run of statements of these versions in which this one was delivered. */
  ghost predicate Delivers(stmts: seq<Stmt>, p: nat, versions: set<Version>, v: Version) {
    FromVersions(stmts, p, versions) && exists i0 :: DeliveredFrom(stmts, p, v, i0)
  }

  function Wire(p: nat, v: Version): PizzaWire {
    PizzaWire(p, v.name, v.status, v.prices, Some(v.at))
  }

  /** Delivering nothing but this one version. */
  function Alone(p: nat, v: Version): seq<Stmt> {
    [PutRestaurant(v.restaurant, Restaurant(0, "", "", None, 0, 0, false, "", 0))] + PizzaPlan(v.restaurant, Wire(p, v), v.at)
  }

  predicate OnePlan(p: nat, stmts: seq<Stmt>, v: Version) {
    && |stmts| == 2 + |v.prices| && stmts[0].PutRestaurant? && stmts[1] == PutPizza(p, PizzaRow(v))
    && forall i :: 2 <= i < |stmts| ==> stmts[i] == PriceStmt(p, v.prices[i - 2], v.at)
  }

  lemma AloneSucceeds(p: nat, v: Version)
    ensures Succeeds(Alone(p, v), 1)
  {
    var stmts := Alone(p, v);
    assert At(stmts, 0) == Empty();
    assert At(stmts, 1) == Exec(Empty(), stmts[0]).0;
  }

  lemma PlanOfVersion(p: nat, stmts: seq<Stmt>, v: Version, versions: set<Version>)
    requires OnePlan(p, stmts, v) && v in versions
    ensures FromVersions(stmts, p, versions)
  {
    forall i | 0 <= i < |stmts| && About(stmts[i], p) ensures OfVersion(stmts[i], p, v) {
      assert i >= 2 ==> stmts[i] == PriceStmt(p, v.prices[i - 2], v.at);
    }
  }

  lemma PlanDelivers(p: nat, stmts: seq<Stmt>, v: Version, i0: nat)
    requires OnePlan(p, stmts, v) && i0 == 1 && Succeeds(stmts, i0)
    ensures DeliveredFrom(stmts, p, v, i0)
  {
    forall j | 0 <= j < |v.prices| ensures PutAfter(stmts, PriceStmt(p, v.prices[j], v.at), i0) {
      assert stmts[2 + j] == PriceStmt(p, v.prices[j], v.at);
    }
  }

  lemma AloneDelivers(p: nat, v: Version, versions: set<Version>)
    requires v in versions
    ensures FromVersions(Alone(p, v), p, versions) && DeliveredFrom(Alone(p, v), p, v, 1)
    ensures Delivers(Alone(p, v), p, versions, v)
  {
    AloneSucceeds(p, v);
    PlanOfVersion(p, Alone(p, v), v, versions);
    PlanDelivers(p, Alone(p, v), v, 1);
    assert DeliveredFrom(Alone(p, v), p, v, 1);
  }

  /** Delivered alone, a version is shown exactly. */
  lemma AloneShows(p: nat, v: Version)
    requires DistinctSizes(v) && Readable(v)
    ensures Shows(Final(Alone(p, v)), p, v) && v.restaurant in Final(Alone(p, v)).restaurants
  {
    AloneDelivers(p, v, {v});
    NewestUpsertWins(Alone(p, v), p, {v}, v, 1);
    RestaurantAtLeast(Alone(p, v), 0, |Alone(p, v)|, v.restaurant, Alone(p, v)[0].row);
  }

  lemma DeliveredBefore(stmts: seq<Stmt>, more: seq<Stmt>, p: nat, v: Version, i0: nat)
    requires DeliveredFrom(stmts, p, v, i0)
    ensures DeliveredFrom(stmts + more, p, v, i0)
  {
    AtPrefix(stmts, more, i0);
    forall j | 0 <= j < |v.prices| ensures PutAfter(stmts + more, PriceStmt(p, v.prices[j], v.at), i0) {
      assert PutAfter(stmts, PriceStmt(p, v.prices[j], v.at), i0);
      var i :| i0 < i < |stmts| && stmts[i] == PriceStmt(p, v.prices[j], v.at);
      assert (stmts + more)[i] == stmts[i];
    }
  }

  /** Delivering a version after whatever else. */
  lemma DeliveredAfter(before: seq<Stmt>, p: nat, v: Version, versions: set<Version>)
    requires FromVersions(before, p, versions) && v in versions
    ensures Delivers(before + Alone(p, v), p, versions, v)
  {
    PlanOfVersion(p, Alone(p, v), v, versions);
    TwoRuns(before, Alone(p, v), p, versions);
    PlanAfter(before, Alone(p, v), p, v, |before| + 1);
  }

  lemma PlanAfter(before: seq<Stmt>, plan: seq<Stmt>, p: nat, v: Version, i0: nat)
    requires OnePlan(p, plan, v) && plan[0].restaurant == v.restaurant && i0 == |before| + 1
    ensures DeliveredFrom(before + plan, p, v, i0)
  {
    var stmts := before + plan;
    RestaurantAtLeast(stmts, i0 - 1, i0, v.restaurant, plan[0].row);
    forall j | 0 <= j < |v.prices| ensures PutAfter(stmts, PriceStmt(p, v.prices[j], v.at), i0) {
      assert stmts[i0 + 1 + j] == plan[2 + j];
    }
  }

  lemma TwoRuns(a: seq<Stmt>, b: seq<Stmt>, p: nat, versions: set<Version>)
    requires FromVersions(a, p, versions) && FromVersions(b, p, versions)
    ensures FromVersions(a + b, p, versions)
  {
    forall i | 0 <= i < |a + b| && About((a + b)[i], p) ensures exists v :: v in versions && OfVersion((a + b)[i], p, v) {
      assert (a + b)[i] == if i < |a| then a[i] else b[i - |a|];
    }
  }

  /** A price of another size, written late, stays beside the newest version. */
  lemma ExtraSizeStays(stmts: seq<Stmt>, p: nat, v: Version, st: Stmt)
    requires Readable(v) && ShowsOwn(Final(stmts), p, v) && st.PutPrice? && st.pizza == p && !HasSize(v, st.size)
    ensures (p, st.size) in Final(stmts + [st]).prices && !Shows(Final(stmts + [st]), p, v)
  {
    OneMoreStatement(stmts, st);
  }

  /** A statement that neither deletes the pizza nor writes this price. */
  predicate Leaves(st: Stmt, p: nat, size: nat) {
    !(st.DropPizza? && st.pizza == p) && !PutsSize(st, p, size)
  }

  lemma PriceLeftBy(db: Db, st: Stmt, p: nat, size: nat)
    requires (p, size) in db.prices && Leaves(st, p, size)
    ensures (p, size) in Exec(db, st).0.prices && Exec(db, st).0.prices[(p, size)] == db.prices[(p, size)]
  {
  }

  lemma {:induction false} PriceLeft(stmts: seq<Stmt>, more: seq<Stmt>, p: nat, size: nat)
    requires (p, size) in Final(stmts).prices && forall i :: 0 <= i < |more| ==> Leaves(more[i], p, size)
    ensures (p, size) in Final(stmts + more).prices
    ensures Final(stmts + more).prices[(p, size)] == Final(stmts).prices[(p, size)]
    decreases |more|
  {
    if more == [] {
      assert stmts + more == stmts;
    } else {
      var n := |more| - 1;
      PriceLeft(stmts, more[..n], p, size);
      assert stmts + more == (stmts + more[..n]) + [more[n]];
      OneMoreStatement(stmts + more[..n], more[n]);
      PriceLeftBy(Final(stmts + more[..n]), more[n], p, size);
    }
  }

  /** The plain way to keep a size too many: a version that has it is delivered, and then one that lacks it. */
  lemma WiderThenNarrower(p: nat, u: Version, v: Version, versions: set<Version>, j: nat)
    requires u in versions && v in versions && DistinctSizes(u) && Readable(u) && Readable(v)
    requires j < |u.prices| && !HasSize(v, u.prices[j].size)
    ensures var stmts, size := Alone(p, u) + Alone(p, v), u.prices[j].size;
            && Delivers(stmts, p, versions, v)
            && (p, size) in Final(stmts).prices && Final(stmts).prices[(p, size)] == PriceRow(u.prices[j], u.at)
            && !Shows(Final(stmts), p, v)
  {
    AloneShows(p, u);
    AloneDelivers(p, u, versions);
    DeliveredAfter(Alone(p, u), p, v, versions);
    AloneLeaves(p, v, u.prices[j].size);
    SizeTooMany(Alone(p, u), Alone(p, v), p, u, v, j);
  }

  lemma AloneLeaves(p: nat, v: Version, size: nat)
    requires !HasSize(v, size)
    ensures forall i :: 0 <= i < |Alone(p, v)| ==> Leaves(Alone(p, v)[i], p, size)
  {
    forall i | 0 <= i < |Alone(p, v)| ensures Leaves(Alone(p, v)[i], p, size) {
      assert i >= 2 ==> Alone(p, v)[i] == PriceStmt(p, v.prices[i - 2], v.at);
    }
  }

  lemma SizeTooMany(a: seq<Stmt>, b: seq<Stmt>, p: nat, u: Version, v: Version, j: nat)
    requires Readable(u) && Readable(v) && Shows(Final(a), p, u) && j < |u.prices| && !HasSize(v, u.prices[j].size)
    requires forall i :: 0 <= i < |b| ==> Leaves(b[i], p, u.prices[j].size)
    ensures (p, u.prices[j].size) in Final(a + b).prices
    ensures Final(a + b).prices[(p, u.prices[j].size)] == PriceRow(u.prices[j], u.at)
    ensures !Shows(Final(a + b), p, v)
  {
    PriceLeft(a, b, p, u.prices[j].size);
  }

  /** The newest version, and after it one price of another version. */
  lemma LatePriceSpoils(p: nat, versions: set<Version>, v: Version, u: Version, j: nat)
    requires Latest(versions, v) && DistinctSizes(v) && Readable(v) && Readable(u)
    requires u in versions && j < |u.prices| && !HasSize(v, u.prices[j].size)
    ensures var stmts := Alone(p, v) + [PriceStmt(p, u.prices[j], u.at)];
            Delivers(stmts, p, versions, v) && !Shows(Final(stmts), p, v)
  {
    var st := PriceStmt(p, u.prices[j], u.at);
    AloneDelivers(p, v, versions);
    NewestUpsertShown(Alone(p, v), p, versions, v, 1);
    DeliveredBefore(Alone(p, v), [st], p, v, 1);
    ExtraSizeStays(Alone(p, v), p, v, st);
    assert OfVersion(st, p, u);
    OneMore(Alone(p, v), p, versions, st, u);
  }

  lemma OneMore(stmts: seq<Stmt>, p: nat, versions: set<Version>, st: Stmt, u: Version)
    requires FromVersions(stmts, p, versions) && u in versions && OfVersion(st, p, u)
    ensures FromVersions(stmts + [st], p, versions)
  {
  }

  /**
  Exactly when every delivery of the newest version leaves the replica with exactly that version:
  if and only if no version has a size that the newest one lacks.
  */
  lemma ShownIffSizesKept(p: nat, versions: set<Version>, v: Version)
    requires Latest(versions, v) && DistinctSizes(v) && forall u :: u in versions ==> Readable(u)
    ensures (forall stmts :: Delivers(stmts, p, versions, v) ==> Shows(Final(stmts), p, v)) <==> SizesKept(versions, v)
  {
    if !SizesKept(versions, v) {
      var u, s :| u in versions && HasSize(u, s) && !HasSize(v, s);
      var j :| 0 <= j < |u.prices| && u.prices[j].size == s;
      LatePriceSpoils(p, versions, v, u, j);
    } else {
      forall stmts | Delivers(stmts, p, versions, v) ensures Shows(Final(stmts), p, v) {
        var i0 :| DeliveredFrom(stmts, p, v, i0);
        NewestUpsertWins(stmts, p, versions, v, i0);
      }
    }
  }

  // ---- events ----

  /** The versions of a pizza that an event's handler writes or deletes by. */
  function VersionsOf(e: Event, p: nat): set<Version> {
    match e
    case PizzaUpdated(owner, w, at) =>
      if w.id == p then {Version(owner, w.name, w.status, w.prices, at)} else {}
    case Launched(r, pizzas, _) =>
      set k | 0 <= k < |pizzas| && pizzas[k].id == p && pizzas[k].updatedAt.Some?
        :: SnapshotVersion(r.id, pizzas[k])
    case _ => {}
  }

  function SnapshotVersion(restaurant: nat, w: PizzaWire): Version
    requires w.updatedAt.Some?
  {
    Version(restaurant, w.name, w.status, w.prices, w.updatedAt.value)
  }

  lemma PizzaPlanOfVersion(owner: nat, w: PizzaWire, at: int, st: Stmt)
    requires st in PizzaPlan(owner, w, at) && st != Malformed
    ensures About(st, w.id) && OfVersion(st, w.id, Version(owner, w.name, w.status, w.prices, at))
    ensures forall p :: About(st, p) ==> p == w.id
  {
    var i :| 0 <= i < |PizzaPlan(owner, w, at)| && PizzaPlan(owner, w, at)[i] == st;
    if i > 0 {
      assert st == PriceStmt(w.id, w.prices[i - 1], at);
    }
  }

  lemma {:induction false} SnapshotOfVersions(restaurant: nat, pizzas: seq<PizzaWire>, st: Stmt, p: nat)
    requires st in LaunchedPizzasPlan(restaurant, pizzas) && About(st, p)
    ensures exists k :: 0 <= k < |pizzas| && pizzas[k].id == p && pizzas[k].updatedAt.Some?
                        && OfVersion(st, p, SnapshotVersion(restaurant, pizzas[k]))
  {
    var w := pizzas[0];
    if Orderable(w) && w.updatedAt.Some? && st in PizzaPlan(restaurant, w, w.updatedAt.value) {
      PizzaPlanOfVersion(restaurant, w, w.updatedAt.value, st);
      assert OfVersion(st, p, SnapshotVersion(restaurant, pizzas[0]));
    } else {
      SnapshotOfVersions(restaurant, pizzas[1..], st, p);
      var k :| 0 <= k < |pizzas[1..]| && pizzas[1..][k].id == p && pizzas[1..][k].updatedAt.Some?
               && OfVersion(st, p, SnapshotVersion(restaurant, pizzas[1..][k]));
      assert pizzas[k + 1] == pizzas[1..][k];
    }
  }

  lemma PlanOfVersions(e: Event, st: Stmt, p: nat)
    requires st in Plan(e) && About(st, p)
    ensures exists v :: v in VersionsOf(e, p) && OfVersion(st, p, v)
  {
    match e
    case Launched(r, pizzas, toppings) =>
      assert st in LaunchedPizzasPlan(r.id, pizzas);
      SnapshotOfVersions(r.id, pizzas, st, p);
      var k :| 0 <= k < |pizzas| && pizzas[k].id == p && pizzas[k].updatedAt.Some?
               && OfVersion(st, p, SnapshotVersion(r.id, pizzas[k]));
      assert SnapshotVersion(r.id, pizzas[k]) in VersionsOf(e, p);
    case PizzaUpdated(owner, w, at) =>
      var v := Version(owner, w.name, w.status, w.prices, at);
      if Orderable(w) {
        PizzaPlanOfVersion(owner, w, at, st);
      }
      assert v in VersionsOf(e, p) && OfVersion(st, p, v);
    case _ =>
  }

  ghost function AllVersions(events: set<Event>, p: nat): set<Version> {
    set e, v | e in events && v in VersionsOf(e, p) :: v
  }

  lemma WritesFromVersions(stmts: seq<Stmt>, events: set<Event>, p: nat)
    requires forall i :: 0 <= i < |stmts| ==> stmts[i] in Writes(events)
    ensures FromVersions(stmts, p, AllVersions(events, p))
  {
    forall i | 0 <= i < |stmts| && About(stmts[i], p)
      ensures exists v :: v in AllVersions(events, p) && OfVersion(stmts[i], p, v)
    {
      assert stmts[i] in Writes(events);
      var e :| e in events && stmts[i] in Plan(e);
      PlanOfVersions(e, stmts[i], p);
      var v :| v in VersionsOf(e, p) && OfVersion(stmts[i], p, v);
      assert v in AllVersions(events, p);
    }
  }

  /** Handlers of these events, interleaved, stopped and repeated in any way, that deliver this version. */
  ghost predicate EventsDeliver(stmts: seq<Stmt>, events: set<Event>, p: nat, v: Version) {
    && (forall i :: 0 <= i < |stmts| ==> stmts[i] in Writes(events))
    && exists i0 :: DeliveredFrom(stmts, p, v, i0)
  }

  /** No handler of these events writes a price in a size that v lacks. */
  ghost predicate WritesKept(events: set<Event>, p: nat, v: Version) {
    forall st :: st in Writes(events) && st.PutPrice? && st.pizza == p ==> HasSize(v, st.size)
  }

  /**
  What the newest event of the pizza, delivered as an upsert, always brings: its row, and its
  sizes at its prices.
  */
  lemma NewestEventShown(stmts: seq<Stmt>, events: set<Event>, p: nat, v: Version)
    requires EventsDeliver(stmts, events, p, v) && Latest(AllVersions(events, p), v) && DistinctSizes(v) && Readable(v)
    ensures ShowsOwn(Final(stmts), p, v)
  {
    WritesFromVersions(stmts, events, p);
    var i0 :| DeliveredFrom(stmts, p, v, i0);
    NewestUpsertShown(stmts, p, AllVersions(events, p), v, i0);
  }

  /** And if no handler writes a price in a size it lacks, the replica shows exactly that event. */
  lemma NewestEventWins(stmts: seq<Stmt>, events: set<Event>, p: nat, v: Version)
    requires EventsDeliver(stmts, events, p, v) && Latest(AllVersions(events, p), v) && DistinctSizes(v) && Readable(v)
    requires WritesKept(events, p, v)
    ensures Shows(Final(stmts), p, v)
  {
    NewestEventShown(stmts, events, p, v);
    forall s | (p, s) in Final(stmts).prices ensures HasSize(v, s) {
      PriceWritten(stmts, p, s, |stmts|);
      var i :| 0 <= i < |stmts| && PutsSize(stmts[i], p, s);
      assert stmts[i] in Writes(events);
    }
  }

  /**
  Exactly: if the newest event can be delivered at all, all its deliveries show it exactly if and
  only if no handler writes another size.
  */
  lemma EventShownIffWritesKept(some: seq<Stmt>, events: set<Event>, p: nat, v: Version)
    requires EventsDeliver(some, events, p, v) && Latest(AllVersions(events, p), v) && DistinctSizes(v) && Readable(v)
    ensures (forall stmts :: EventsDeliver(stmts, events, p, v) ==> Shows(Final(stmts), p, v)) <==> WritesKept(events, p, v)
  {
    if !WritesKept(events, p, v) {
      var st :| st in Writes(events) && st.PutPrice? && st.pizza == p && !HasSize(v, st.size);
      NewestEventShown(some, events, p, v);
      ExtraSizeStays(some, p, v, st);
      var i0 :| DeliveredFrom(some, p, v, i0);
      DeliveredBefore(some, [st], p, v, i0);
      assert EventsDeliver(some + [st], events, p, v);
    } else {
      forall stmts | EventsDeliver(stmts, events, p, v) ensures Shows(Final(stmts), p, v) {
        NewestEventWins(stmts, events, p, v);
      }
    }
  }

  /** A handler that carries this version to its end delivers it, whatever ran before and runs after. */
  lemma HandlerDelivers(before: seq<Stmt>, after: seq<Stmt>, p: nat, w: PizzaWire, owner: nat, at: int)
    requires w.id == p && Orderable(w)
    requires ExecAll(Final(before), Plan(PizzaUpdated(owner, w, at))).1
    ensures DeliveredFrom(before + Plan(PizzaUpdated(owner, w, at)) + after, p,
                          Version(owner, w.name, w.status, w.prices, at), |before|)
  {
    var plan := Plan(PizzaUpdated(owner, w, at));
    var stmts := before + plan + after;
    ExecAllFinal(before, plan);
    AtPrefix(before + plan, after, |before|);
    assert Succeeds(before + plan, |before|);
    assert stmts[|before|] == plan[0] == PutPizza(p, Pizza(owner, w.name, w.status, at));
    forall j | 0 <= j < |w.prices| ensures stmts[|before| + 1 + j] == PriceStmt(p, w.prices[j], at) {
      assert stmts[|before| + 1 + j] == plan[1 + j];
    }
  }
}
