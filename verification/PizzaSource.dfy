/**
The restaurant service's side of pizza prices: setting them replaces the whole active list but
never forgets a size, and each published event carries a full list.  Setting prices lists them
inside its transaction; changing the details lists them before its own and may publish a list
that prices set in between have overtaken.  A process takes the timestamp of a save before the
database has made it wait, so later saves may carry earlier timestamps.  What all this means for
the replica is in ShownIffListed and PublishedShownIff, and which saves keep it so in the
theorems that end in ThroughoutIff.

Assumption: no two published versions of one pizza have the same timestamp.
*/
module PizzaSource {
  import opened Wrappers
  import R = ReadModel
  import C = Convergence
  import P = PizzaReplication

  datatype PriceInput = PriceInput(size: nat, price: nat)

  datatype PriceRow = PriceRow(price: nat, active: bool, updatedAt: Option<int>)

  datatype NewPrice = NewPrice(size: nat, price: nat, active: bool, updatedAt: Option<int>)

  type Rows = map<(nat, nat), PriceRow>   // by pizza and size

  // ---- the request ----

  datatype RequestError = UnknownSize(size: nat) | DuplicateSize(size: nat)

  predicate Repeats(inputs: seq<PriceInput>, i: nat)
    requires i < |inputs|
  {
    exists j :: 0 <= j < i && inputs[j].size == inputs[i].size
  }

  predicate Acceptable(inputs: seq<PriceInput>, sizes: map<nat, nat>, i: nat)
    requires i < |inputs|
  {
    inputs[i].size in sizes && !Repeats(inputs, i)
  }

  /** Builds the price list of a request, or reports the first size that is unknown or repeated. */
  method BuildPrices(inputs: seq<PriceInput>, sizes: map<nat, nat>)
    returns (r: Result<seq<NewPrice>, RequestError>)
    ensures r.Ok? ==> forall i :: 0 <= i < |inputs| ==> inputs[i].size in sizes
    ensures r.Ok? ==> forall i, j :: 0 <= i < j < |inputs| ==> inputs[i].size != inputs[j].size
    ensures r.Err? && r.error.UnknownSize? ==>
              exists i :: 0 <= i < |inputs| && inputs[i].size == r.error.size && r.error.size !in sizes
    ensures r.Err? && r.error.DuplicateSize? ==>
              exists i, j :: 0 <= i < j < |inputs| && inputs[i].size == inputs[j].size == r.error.size
    ensures r.Ok? <==> forall i :: 0 <= i < |inputs| ==> Acceptable(inputs, sizes, i)
    ensures r.Ok? ==>
              && |r.value| == |inputs|
              && forall i :: 0 <= i < |inputs| ==> r.value[i] == NewPrice(inputs[i].size, inputs[i].price, true, None)
    ensures r.Err? ==>
              exists i :: 0 <= i < |inputs| && !Acceptable(inputs, sizes, i)
                && (forall j :: 0 <= j < i ==> Acceptable(inputs, sizes, j))
                && r.error == if inputs[i].size !in sizes then UnknownSize(inputs[i].size) else DuplicateSize(inputs[i].size)
  {
    var seen: set<nat> := {};
    var prices: seq<NewPrice> := [];
    for i := 0 to |inputs|
      invariant forall j :: 0 <= j < i ==> inputs[j].size in sizes
      invariant forall j, k :: 0 <= j < k < i ==> inputs[j].size != inputs[k].size
      invariant forall j :: 0 <= j < i ==> Acceptable(inputs, sizes, j)
      invariant forall s :: s in seen <==> exists j :: 0 <= j < i && inputs[j].size == s
      invariant |prices| == i
      invariant forall j :: 0 <= j < i ==> prices[j] == NewPrice(inputs[j].size, inputs[j].price, true, None)
    {
      if inputs[i].size !in sizes {
        assert !Acceptable(inputs, sizes, i);
        return Err(UnknownSize(inputs[i].size));
      }
      if inputs[i].size in seen {
        assert Repeats(inputs, i) && !Acceptable(inputs, sizes, i);
        return Err(DuplicateSize(inputs[i].size));
      }
      seen := seen + {inputs[i].size};
      prices := prices + [NewPrice(inputs[i].size, inputs[i].price, true, None)];
    }
    return Ok(prices);
  }

  // ---- the table ----

  predicate Requests(inputs: seq<PriceInput>, size: nat) {
    exists i :: 0 <= i < |inputs| && inputs[i].size == size
  }

  predicate Distinct(inputs: seq<PriceInput>) {
    forall i, j :: 0 <= i < j < |inputs| ==> inputs[i].size != inputs[j].size
  }

  /** What replacing the prices of a pizza means: requested sizes active at their price, the others inactive. */
  ghost predicate Replaces(rows: Rows, rows': Rows, pizza: nat, inputs: seq<PriceInput>) {
    && (forall k :: k in rows' <==> k in rows || (k.0 == pizza && Requests(inputs, k.1)))
    && (forall k :: k in rows && k.0 != pizza ==> rows'[k] == rows[k])
    && (forall i :: 0 <= i < |inputs| ==>
          && (pizza, inputs[i].size) in rows'
          && rows'[(pizza, inputs[i].size)].active && rows'[(pizza, inputs[i].size)].price == inputs[i].price)
    && (forall k :: k in rows && k.0 == pizza && !Requests(inputs, k.1) ==>
          !rows'[k].active && rows'[k].price == rows[k].price)
  }

  function InputsOf(prices: seq<NewPrice>): (inputs: seq<PriceInput>)
    ensures |inputs| == |prices| && forall i :: 0 <= i < |prices| ==> inputs[i] == PriceInput(prices[i].size, prices[i].price)
  {
    seq(|prices|, i requires 0 <= i < |prices| => PriceInput(prices[i].size, prices[i].price))
  }

  predicate Priced(prices: seq<NewPrice>, size: nat) {
    exists i :: 0 <= i < |prices| && prices[i].size == size
  }

  function RowOf(p: NewPrice): PriceRow {
    PriceRow(p.price, p.active, p.updatedAt)
  }

  /** What the bulk upsert means: the listed sizes get the listed rows, nothing else changes. */
  ghost predicate Upserted(rows: Rows, rows': Rows, pizza: nat, prices: seq<NewPrice>) {
    && (forall k :: k in rows' <==> k in rows || (k.0 == pizza && Priced(prices, k.1)))
    && (forall k :: k in rows && (k.0 != pizza || !Priced(prices, k.1)) ==> rows'[k] == rows[k])
    && (forall i :: 0 <= i < |prices| ==>
          (pizza, prices[i].size) in rows' && rows'[(pizza, prices[i].size)] == RowOf(prices[i]))
  }

  lemma PricedOneMore(prices: seq<NewPrice>, i: nat, size: nat)
    requires i < |prices|
    ensures Priced(prices[..i + 1], size) <==> Priced(prices[..i], size) || size == prices[i].size
  {
    if Priced(prices[..i], size) {
      var j :| 0 <= j < i && prices[..i][j].size == size;
      assert prices[..i + 1][j].size == size;
    }
    assert prices[..i + 1][i] == prices[i];
  }

  lemma UpsertOne(rows0: Rows, rows: Rows, pizza: nat, prices: seq<NewPrice>, i: nat)
    requires i < |prices| && Distinct(InputsOf(prices)) && Upserted(rows0, rows, pizza, prices[..i])
    ensures Upserted(rows0, rows[(pizza, prices[i].size) := RowOf(prices[i])], pizza, prices[..i + 1])
  {
    var rows' := rows[(pizza, prices[i].size) := RowOf(prices[i])];
    forall k: (nat, nat) ensures Priced(prices[..i + 1], k.1) <==> Priced(prices[..i], k.1) || k.1 == prices[i].size {
      PricedOneMore(prices, i, k.1);
    }
    var listed := prices[..i + 1];
    forall j | 0 <= j < |listed|
      ensures (pizza, listed[j].size) in rows' && rows'[(pizza, listed[j].size)] == RowOf(listed[j])
    {
      if j < i {
        assert listed[j] == prices[..i][j];
        assert InputsOf(prices)[j].size != InputsOf(prices)[i].size;
      }
    }
  }

  /** Deactivating what was not listed turns the upsert into the replacement. */
  lemma ReplacedBy(rows0: Rows, rows: Rows, rows': Rows, pizza: nat, prices: seq<NewPrice>)
    requires Upserted(rows0, rows, pizza, prices) && forall i :: 0 <= i < |prices| ==> prices[i].active
    requires rows'.Keys == rows.Keys
    requires forall k :: k in rows ==>
               rows'[k] == if k.0 == pizza && !Priced(prices, k.1) then rows[k].(active := false) else rows[k]
    ensures Replaces(rows0, rows', pizza, InputsOf(prices))
  {
    var inputs := InputsOf(prices);
    forall size ensures Priced(prices, size) <==> Requests(inputs, size) {
      if Priced(prices, size) {
        var i :| 0 <= i < |prices| && prices[i].size == size;
        assert inputs[i].size == size;
      }
    }
    forall i | 0 <= i < |inputs|
      ensures (pizza, inputs[i].size) in rows'
      ensures rows'[(pizza, inputs[i].size)].active && rows'[(pizza, inputs[i].size)].price == inputs[i].price
    {
      assert prices[i].size == inputs[i].size && Priced(prices, prices[i].size);
    }
  }

  class PriceTable {
    var rows: Rows

    /** Stamps the list in place, upserts it, and deactivates every other size of the pizza. */
    method ReplacePrices(pizza: nat, prices: array<NewPrice>, now: int)
      requires Distinct(InputsOf(prices[..])) && forall i :: 0 <= i < prices.Length ==> prices[i].active
      modifies this, prices
      ensures forall i :: 0 <= i < prices.Length ==> prices[i] == old(prices[i]).(updatedAt := Some(now))
      ensures forall i :: 0 <= i < prices.Length ==>
                && (pizza, old(prices[i]).size) in rows
                && rows[(pizza, old(prices[i]).size)] == PriceRow(old(prices[i]).price, true, Some(now))
      ensures forall k :: k in old(rows) && k.0 == pizza && (forall i :: 0 <= i < prices.Length ==> old(prices[i]).size != k.1)
                ==> k in rows && rows[k] == old(rows)[k].(active := false)
      ensures forall k :: k in old(rows) && k.0 != pizza ==> k in rows && rows[k] == old(rows)[k]
      ensures forall k :: k in rows && k !in old(rows) ==>
                k.0 == pizza && exists i :: 0 <= i < prices.Length && old(prices[i]).size == k.1
      ensures Replaces(old(rows), rows, pizza, InputsOf(old(prices[..])))
    {
      var sizes: set<nat> := {};
      ghost var inputs := InputsOf(prices[..]);
      for i := 0 to prices.Length
        invariant rows == old(rows)
        invariant forall j :: 0 <= j < i ==> prices[j] == old(prices[j]).(updatedAt := Some(now))
        invariant forall j :: i <= j < prices.Length ==> prices[j] == old(prices[j])
        invariant forall s :: s in sizes <==> Priced(prices[..i], s)
      {
        prices[i] := prices[i].(updatedAt := Some(now));
        forall s ensures Priced(prices[..i + 1], s) <==> Priced(prices[..i], s) || s == prices[i].size {
          assert prices[..][..i + 1] == prices[..i + 1] && prices[..][..i] == prices[..i];
          PricedOneMore(prices[..], i, s);
        }
        sizes := sizes + {prices[i].size};
      }
      assert prices[..prices.Length] == prices[..] && InputsOf(prices[..]) == inputs;
      Upsert(pizza, prices);
      ghost var upserted := rows;
      rows := map k | k in rows :: if k.0 == pizza && k.1 !in sizes then rows[k].(active := false) else rows[k];
      ReplacedBy(old(rows), upserted, rows, pizza, prices[..]);
    }

    /** The bulk upsert of a stamped list without repeated sizes. */
    method Upsert(pizza: nat, prices: array<NewPrice>)
      requires Distinct(InputsOf(prices[..]))
      modifies this
      ensures Upserted(old(rows), rows, pizza, prices[..])
    {
      for i := 0 to prices.Length
        invariant Upserted(old(rows), rows, pizza, prices[..i])
      {
        UpsertOne(old(rows), rows, pizza, prices[..], i);
        assert prices[..][..i] == prices[..i] && prices[..][..i + 1] == prices[..i + 1];
        rows := rows[(pizza, prices[i].size) := PriceRow(prices[i].price, prices[i].active, prices[i].updatedAt)];
      }
      assert prices[..prices.Length] == prices[..];
    }
  }

  // ---- what is published ----

  /** A command between its reads and its transaction; `active` is the restaurant's state it read first. */
  datatype Task =
    | PricesRead(active: bool, name: string, status: string)
    | DetailsRead(active: bool, name: string, status: string)   // the changed details
    | UpdateReady(active: bool, name: string, status: string, listing: seq<R.PriceWire>)

  /** The restaurant service's state of one pizza, with the versions it has published so far. */
  datatype State = State(
    rows: Rows, name: string, status: string, updatedAt: Option<int>, launched: bool,
    published: set<P.Version>, tasks: map<nat, Task>)

  /** The pizza and restaurant looked at, and the diameters of the sizes. */
  datatype World = World(pizza: nat, restaurant: nat, diameters: map<nat, nat>)

  datatype Step =
    | ReadForPrices(task: nat)
    | SavePrices(task: nat, inputs: seq<PriceInput>, newRows: Rows, listing: seq<R.PriceWire>, now: int)
    | ReadForUpdate(task: nat, name: string, status: Option<string>)
    | ListForUpdate(task: nat, listing: seq<R.PriceWire>)
    | SaveUpdate(task: nat, now: int)
    | Abandon(task: nat)
    | Launch(listing: seq<R.PriceWire>)

  function Diameter(w: World, size: nat): nat {
    if size in w.diameters then w.diameters[size] else 0
  }

  predicate Shown(w: World, rows: Rows, wire: R.PriceWire) {
    && (w.pizza, wire.size) in rows
    && wire == R.PriceWire(wire.size, Diameter(w, wire.size), Some(rows[(w.pizza, wire.size)].price),
                           rows[(w.pizza, wire.size)].active)
  }

  /** A listing of the pizza's price rows: all of them, each once, in any order. */
  ghost predicate Lists(w: World, rows: Rows, listing: seq<R.PriceWire>) {
    && (forall j :: 0 <= j < |listing| ==> Shown(w, rows, listing[j]))
    && (forall i, j :: 0 <= i < j < |listing| ==> listing[i].size != listing[j].size)
    && (forall size: nat :: (w.pizza, size) in rows ==> P.Mentions(listing, size))
  }

  /** What the pizza looks like now, in an event with this listing. */
  function Current(w: World, s: State, listing: seq<R.PriceWire>): P.Version
    requires s.updatedAt.Some?
  {
    P.Version(w.restaurant, s.name, s.status, listing, s.updatedAt.value)
  }

  function Publish(w: World, s: State, active: bool, listing: seq<R.PriceWire>): State
    requires s.updatedAt.Some?
  {
    if active then s.(published := s.published + {Current(w, s, listing)}) else s
  }

  /** No published version carries this timestamp. */
  ghost predicate Unused(s: State, now: int) {
    forall v :: v in s.published ==> v.at != now
  }

  ghost predicate Enabled(w: World, s: State, step: Step) {
    match step
    case ReadForPrices(t) => t !in s.tasks
    case SavePrices(t, inputs, rows, listing, now) =>
      && t in s.tasks && s.tasks[t].PricesRead? && Unused(s, now)
      && Distinct(inputs) && (forall i :: 0 <= i < |inputs| ==> inputs[i].size in w.diameters)
      && Replaces(s.rows, rows, w.pizza, inputs) && Lists(w, rows, listing)
    case ReadForUpdate(t, _, _) => t !in s.tasks
    case ListForUpdate(t, listing) => t in s.tasks && s.tasks[t].DetailsRead? && Lists(w, s.rows, listing)
    case SaveUpdate(t, now) => t in s.tasks && s.tasks[t].UpdateReady? && Unused(s, now)
    case Abandon(t) => t in s.tasks
    // the snapshot is taken once; a pizza never updated cannot be in it as an upsert
    case Launch(listing) => !s.launched && Lists(w, s.rows, listing)
  }

  function Put(s: State, t: nat, task: Task): State {
    s.(tasks := s.tasks[t := task])
  }

  /** The transaction of a command: it saves the whole pizza as the task has it. */
  function Saved(s: State, t: nat, now: int): State
    requires t in s.tasks
  {
    s.(name := s.tasks[t].name, status := s.tasks[t].status, updatedAt := Some(now), tasks := s.tasks - {t})
  }

  function Apply(w: World, s: State, step: Step): State
    requires Enabled(w, s, step)
  {
    match step
    case ReadForPrices(t) => Put(s, t, PricesRead(s.launched, s.name, s.status))
    case SavePrices(t, _, rows, listing, now) => Publish(w, Saved(s, t, now).(rows := rows), s.tasks[t].active, listing)
    case ReadForUpdate(t, name, status) =>
      Put(s, t, DetailsRead(s.launched, name, if status.Some? then status.value else s.status))
    case ListForUpdate(t, listing) => Put(s, t, UpdateReady(s.tasks[t].active, s.tasks[t].name, s.tasks[t].status, listing))
    case SaveUpdate(t, now) => Publish(w, Saved(s, t, now), s.tasks[t].active, s.tasks[t].listing)
    case Abandon(t) => s.(tasks := s.tasks - {t})
    case Launch(listing) =>
      if s.updatedAt.None? then s.(launched := true) else Publish(w, s.(launched := true), true, listing)
  }

  ghost predicate Start(w: World, s: State) {
    && !s.launched && s.published == {} && s.tasks == map[]
    && s.updatedAt.None? && forall size: nat :: (w.pizza, size) !in s.rows
  }

  /** A run with the steps it takes. */
  ghost predicate Run(w: World, trace: seq<State>, steps: seq<Step>) {
    && |trace| == |steps| + 1 && Start(w, trace[0])
    && forall i :: 0 <= i < |steps| ==> StepAt(w, trace, steps, i)
  }

  ghost predicate StepAt(w: World, trace: seq<State>, steps: seq<Step>, i: nat)
    requires i < |steps| < |trace|
  {
    Enabled(w, trace[i], steps[i]) && trace[i + 1] == Apply(w, trace[i], steps[i])
  }

  // ---- what every run keeps ----

  /** A listing that was right once: sizes without repetition, all of them still there. */
  ghost predicate OnceListed(w: World, rows: Rows, listing: seq<R.PriceWire>) {
    && (forall i, j :: 0 <= i < j < |listing| ==> listing[i].size != listing[j].size)
    && (forall j :: 0 <= j < |listing| ==>
          && listing[j].amount.Some? && (w.pizza, listing[j].size) in rows
          && listing[j].diameter == Diameter(w, listing[j].size))
  }

  lemma ListedOnce(w: World, rows: Rows, listing: seq<R.PriceWire>)
    requires Lists(w, rows, listing)
    ensures OnceListed(w, rows, listing)
  {
    forall j | 0 <= j < |listing| ensures listing[j].amount.Some? && (w.pizza, listing[j].size) in rows {
      assert Shown(w, rows, listing[j]);
    }
  }

  ghost predicate VersionOk(w: World, s: State, v: P.Version) {
    && s.updatedAt.Some? && v.restaurant == w.restaurant
    && OnceListed(w, s.rows, v.prices)
    && (v.at == s.updatedAt.value ==> v == Current(w, s, v.prices))
  }

  ghost predicate TaskOk(w: World, s: State, t: nat)
    requires t in s.tasks
  {
    && (s.tasks[t].active ==> s.launched)
    && (s.tasks[t].UpdateReady? ==> OnceListed(w, s.rows, s.tasks[t].listing))
  }

  ghost predicate Inv(w: World, s: State) {
    && (forall v :: v in s.published ==> VersionOk(w, s, v))
    && (forall u, v :: u in s.published && v in s.published && u.at == v.at ==> u == v)
    && (forall t :: t in s.tasks ==> TaskOk(w, s, t))
    && (!s.launched ==> s.published == {})
  }

  /** A later state of the pizza, with the tables no smaller and the remaining tasks as they were. */
  ghost predicate Onward(w: World, s: State, s': State) {
    && (forall size: nat :: (w.pizza, size) in s.rows ==> (w.pizza, size) in s'.rows)
    && (s.launched ==> s'.launched)
    && (forall t :: t in s'.tasks ==> t in s.tasks && s'.tasks[t] == s.tasks[t])
  }

  lemma TasksOnward(w: World, s: State, s': State)
    requires Inv(w, s) && Onward(w, s, s')
    ensures forall t :: t in s'.tasks ==> TaskOk(w, s', t)
  {
    forall t | t in s'.tasks ensures TaskOk(w, s', t) {
      assert TaskOk(w, s, t);
    }
  }

  /**
  After a save nothing published before has the new timestamp, so a version published now is the
  only one that does.
  */
  lemma SavedInv(w: World, s: State, s': State, active: bool, listing: seq<R.PriceWire>)
    requires Inv(w, s) && Onward(w, s, s') && s'.published == s.published && s'.updatedAt.Some?
    requires Unused(s, s'.updatedAt.value) && OnceListed(w, s'.rows, listing) && (active ==> s'.launched)
    requires !s'.launched ==> !s.launched
    ensures Inv(w, Publish(w, s', active, listing))
  {
    var after := Publish(w, s', active, listing);
    TasksOnward(w, s, after);
    forall v | v in s.published ensures VersionOk(w, after, v) && v.at != after.updatedAt.value {
      assert VersionOk(w, s, v);
    }
  }

  lemma LaunchInv(w: World, s: State, listing: seq<R.PriceWire>)
    requires Inv(w, s) && Enabled(w, s, Launch(listing))
    ensures Inv(w, Apply(w, s, Launch(listing)))
  {
    ListedOnce(w, s.rows, listing);
    TasksOnward(w, s, Apply(w, s, Launch(listing)));
  }

  lemma TaskStepInv(w: World, s: State, step: Step)
    requires Inv(w, s) && Enabled(w, s, step)
    requires step.ReadForPrices? || step.ReadForUpdate? || step.ListForUpdate? || step.Abandon?
    ensures Inv(w, Apply(w, s, step))
  {
    var s' := Apply(w, s, step);
    if step.ListForUpdate? {
      ListedOnce(w, s.rows, step.listing);
    }
    forall v | v in s'.published ensures VersionOk(w, s', v) {
      assert VersionOk(w, s, v);
    }
    forall t | t in s'.tasks ensures TaskOk(w, s', t) {
      assert t in s.tasks ==> TaskOk(w, s, t);
    }
  }

  lemma StepInv(w: World, s: State, step: Step)
    requires Inv(w, s) && Enabled(w, s, step)
    ensures Inv(w, Apply(w, s, step))
  {
    match step
    case SavePrices(t, _, rows, listing, now) =>
      assert TaskOk(w, s, t);
      ListedOnce(w, rows, listing);
      SavedInv(w, s, Saved(s, t, now).(rows := rows), s.tasks[t].active, listing);
    case SaveUpdate(t, now) =>
      assert TaskOk(w, s, t);
      SavedInv(w, s, Saved(s, t, now), s.tasks[t].active, s.tasks[t].listing);
    case Launch(listing) => LaunchInv(w, s, listing);
    case _ => TaskStepInv(w, s, step);
  }

  lemma {:induction false} RunInv(w: World, trace: seq<State>, steps: seq<Step>, i: nat)
    requires Run(w, trace, steps) && i < |trace|
    ensures Inv(w, trace[i])
  {
    if i > 0 {
      RunInv(w, trace, steps, i - 1);
      assert StepAt(w, trace, steps, i - 1);
      StepInv(w, trace[i - 1], steps[i - 1]);
    }
  }

  // ---- end to end: the source's state ----

  /** A price in the replica is the source's price of the same size. */
  predicate SamePrice(w: World, s: State, db: R.Db, size: nat) {
    && (w.pizza, size) in s.rows && (w.pizza, size) in db.prices
    && db.prices[(w.pizza, size)].price == s.rows[(w.pizza, size)].price
    && db.prices[(w.pizza, size)].active == s.rows[(w.pizza, size)].active
    && db.prices[(w.pizza, size)].diameter == Diameter(w, size)
  }

  /** The replica has the pizza's current row, exactly its sizes, and their current prices and activity. */
  ghost predicate ShowsSource(w: World, s: State, db: R.Db)
    requires s.updatedAt.Some?
  {
    && w.pizza in db.pizzas
    && db.pizzas[w.pizza] == R.Pizza(w.restaurant, s.name, s.status, s.updatedAt.value)
    && forall size: nat :: (w.pizza, size) in db.prices || (w.pizza, size) in s.rows ==> SamePrice(w, s, db, size)
  }

  /** A run of the replica's statements, all of published versions, that delivers this one as an upsert. */
  ghost predicate Delivery(w: World, s: State, v: P.Version, stmts: seq<R.Stmt>) {
    P.Delivers(stmts, w.pizza, s.published, v)
  }

  /** No published version has a greater timestamp. */
  ghost predicate NoneNewer(s: State, v: P.Version) {
    forall u :: u in s.published ==> u.at <= v.at
  }

  lemma ListedIsLatest(w: World, s: State, v: P.Version)
    requires Inv(w, s) && v in s.published && NoneNewer(s, v) && Lists(w, s.rows, v.prices)
    ensures P.Latest(s.published, v) && P.SizesKept(s.published, v)
  {
    forall u, size: nat | u in s.published && P.HasSize(u, size) ensures P.HasSize(v, size) {
      assert VersionOk(w, s, u);
      assert (w.pizza, size) in s.rows && P.Mentions(v.prices, size);
    }
  }

  /**
  If the version of the last change lists the current prices and none published has a greater
  timestamp, then whatever the order, repetition and interleaving of deliveries, the replica shows
  the source once that version was delivered.
  */
  lemma ReplicaShowsSource(w: World, trace: seq<State>, steps: seq<Step>, v: P.Version, stmts: seq<R.Stmt>)
    requires Run(w, trace, steps)
    requires var s := trace[|steps|]; v in s.published && s.updatedAt == Some(v.at) && Delivery(w, s, v, stmts)
    requires Lists(w, trace[|steps|].rows, v.prices) && NoneNewer(trace[|steps|], v)
    ensures ShowsSource(w, trace[|steps|], C.Final(stmts))
  {
    var s := trace[|steps|];
    RunInv(w, trace, steps, |steps|);
    assert VersionOk(w, s, v);
    ListedIsLatest(w, s, v);
    var i0 :| P.DeliveredFrom(stmts, w.pizza, v, i0);
    P.NewestUpsertWins(stmts, w.pizza, s.published, v, i0);
    ListedIsShown(w, s, v, C.Final(stmts));
  }

  lemma ListedIsShown(w: World, s: State, v: P.Version, db: R.Db)
    requires s.updatedAt == Some(v.at) && VersionOk(w, s, v) && Lists(w, s.rows, v.prices) && P.Readable(v)
    requires P.Shows(db, w.pizza, v)
    ensures ShowsSource(w, s, db)
  {
    forall size: nat | (w.pizza, size) in db.prices || (w.pizza, size) in s.rows ensures SamePrice(w, s, db, size) {
      assert P.HasSize(v, size) by {
        assert (w.pizza, size) in s.rows ==> P.Mentions(v.prices, size);
      }
      var j :| 0 <= j < |v.prices| && v.prices[j].size == size;
      assert Shown(w, s.rows, v.prices[j]);
    }
  }

  /** A version that does not list the current prices misleads the replica even if delivered alone. */
  lemma ShownOnlyIfListed(w: World, s: State, v: P.Version)
    requires Inv(w, s) && v in s.published && s.updatedAt == Some(v.at)
    requires ShowsSource(w, s, C.Final(P.Alone(w.pizza, v)))
    ensures Lists(w, s.rows, v.prices)
  {
    assert VersionOk(w, s, v);
    P.AloneShows(w.pizza, v);
    ShownIsListed(w, s, v, C.Final(P.Alone(w.pizza, v)));
  }

  lemma ShownIsListed(w: World, s: State, v: P.Version, db: R.Db)
    requires s.updatedAt.Some? && OnceListed(w, s.rows, v.prices) && P.Readable(v)
    requires P.Shows(db, w.pizza, v) && ShowsSource(w, s, db)
    ensures Lists(w, s.rows, v.prices)
  {
    forall j | 0 <= j < |v.prices| ensures Shown(w, s.rows, v.prices[j]) {
      assert SamePrice(w, s, db, v.prices[j].size);
    }
    forall size: nat | (w.pizza, size) in s.rows ensures P.Mentions(v.prices, size) {
      assert SamePrice(w, s, db, size) && P.HasSize(v, size);
    }
  }

  /** The first statement of a handler for this version: it upserts the pizza, or deletes it. */
  function FirstOf(w: World, u: P.Version): R.Stmt {
    if R.Orderable(P.Wire(w.pizza, u)) then R.PutPizza(w.pizza, P.PizzaRow(u)) else R.DropPizza(w.pizza, u.at)
  }

  lemma NewerTakesRow(w: World, s: State, v: P.Version, u: P.Version, db: R.Db)
    requires s.updatedAt == Some(v.at) && v.at < u.at && v.restaurant == u.restaurant && P.Readable(v)
    requires P.ShowsOwn(db, w.pizza, v) && v.restaurant in db.restaurants
    ensures !ShowsSource(w, s, R.Exec(db, FirstOf(w, u)).0)
  {
  }

  /** A published version with a greater timestamp, delivered after it, replaces it. */
  lemma NewerReplaces(w: World, s: State, v: P.Version, u: P.Version)
    requires Inv(w, s) && v in s.published && u in s.published && s.updatedAt == Some(v.at) && v.at < u.at
    ensures var stmts := P.Alone(w.pizza, v) + [FirstOf(w, u)];
            Delivery(w, s, v, stmts) && !ShowsSource(w, s, C.Final(stmts))
  {
    var alone, st := P.Alone(w.pizza, v), FirstOf(w, u);
    assert VersionOk(w, s, v) && VersionOk(w, s, u);
    P.AloneDelivers(w.pizza, v, s.published);
    P.DeliveredBefore(alone, [st], w.pizza, v, 1);
    P.OneMore(alone, w.pizza, s.published, st, u);
    P.AloneShows(w.pizza, v);
    NewerTakesRow(w, s, v, u, C.Final(alone));
    C.OneMoreStatement(alone, st);
  }

  lemma AlwaysShownOnlyIf(w: World, s: State, v: P.Version)
    requires Inv(w, s) && v in s.published && s.updatedAt == Some(v.at)
    requires forall stmts :: Delivery(w, s, v, stmts) ==> ShowsSource(w, s, C.Final(stmts))
    ensures Lists(w, s.rows, v.prices) && NoneNewer(s, v)
  {
    P.AloneDelivers(w.pizza, v, s.published);
    assert Delivery(w, s, v, P.Alone(w.pizza, v));
    ShownOnlyIfListed(w, s, v);
    AlwaysShownIsNewest(w, s, v);
  }

  lemma AlwaysShownIsNewest(w: World, s: State, v: P.Version)
    requires Inv(w, s) && v in s.published && s.updatedAt == Some(v.at)
    requires forall stmts :: Delivery(w, s, v, stmts) ==> ShowsSource(w, s, C.Final(stmts))
    ensures NoneNewer(s, v)
  {
    forall u | u in s.published ensures u.at <= v.at {
      if v.at < u.at {
        NewerReplaces(w, s, v, u);
      }
    }
  }

  /**
  End to end, exactly: the source changes prices and details in any way, in overlapping commands
  and with any clocks.  The version of its last change, published and orderable, brings the replica
  to the source's state in every delivery, if and only if it lists the current prices and no
  published version has a greater timestamp.
  */
  lemma ShownIffListed(w: World, trace: seq<State>, steps: seq<Step>, v: P.Version)
    requires Run(w, trace, steps) && R.Orderable(P.Wire(w.pizza, v))
    requires var s := trace[|steps|]; v in s.published && s.updatedAt == Some(v.at)
    ensures var s := trace[|steps|];
            (forall stmts :: Delivery(w, s, v, stmts) ==> ShowsSource(w, s, C.Final(stmts)))
            <==> (Lists(w, s.rows, v.prices) && NoneNewer(s, v))
  {
    var s := trace[|steps|];
    RunInv(w, trace, steps, |steps|);
    if forall stmts :: Delivery(w, s, v, stmts) ==> ShowsSource(w, s, C.Final(stmts)) {
      AlwaysShownOnlyIf(w, s, v);
    }
    if Lists(w, s.rows, v.prices) && NoneNewer(s, v) {
      forall stmts | Delivery(w, s, v, stmts) ensures ShowsSource(w, s, C.Final(stmts)) {
        ReplicaShowsSource(w, trace, steps, v, stmts);
      }
    }
  }

  // ---- end to end: the newest published version ----

  /**
  Whatever is stored by now, every delivery of the published version with the greatest timestamp
  leaves the replica with exactly that version, if and only if no published version has a size it
  lacks.
  */
  lemma PublishedShownIff(w: World, trace: seq<State>, steps: seq<Step>, i: nat, v: P.Version)
    requires Run(w, trace, steps) && i < |trace| && P.Latest(trace[i].published, v)
    ensures P.Readable(v) && P.DistinctSizes(v)
    ensures (forall stmts :: Delivery(w, trace[i], v, stmts) ==> P.Shows(C.Final(stmts), w.pizza, v))
       <==> P.SizesKept(trace[i].published, v)
  {
    var s := trace[i];
    RunInv(w, trace, steps, i);
    forall u | u in s.published ensures P.Readable(u) {
      assert VersionOk(w, s, u);
    }
    assert VersionOk(w, s, v);
    P.ShownIffSizesKept(w.pizza, s.published, v);
    if forall stmts :: Delivery(w, s, v, stmts) ==> P.Shows(C.Final(stmts), w.pizza, v) {
      forall stmts | P.Delivers(stmts, w.pizza, s.published, v) ensures P.Shows(C.Final(stmts), w.pizza, v) {
        assert Delivery(w, s, v, stmts);
      }
    }
  }

  // ---- what a save publishes ----

  predicate Saves(step: Step) {
    step.SavePrices? || step.SaveUpdate?
  }

  ghost predicate Publishes(w: World, s: State, step: Step)
    requires Enabled(w, s, step)
  {
    Saves(step) && s.tasks[step.task].active
  }

  /** The version a publishing save adds. */
  function Added(w: World, s: State, step: Step): P.Version
    requires Saves(step) && step.task in s.tasks && (step.SaveUpdate? ==> s.tasks[step.task].UpdateReady?)
  {
    P.Version(w.restaurant, s.tasks[step.task].name, s.tasks[step.task].status,
              if step.SavePrices? then step.listing else s.tasks[step.task].listing, step.now)
  }

  lemma SaveEffect(w: World, s: State, step: Step)
    requires Enabled(w, s, step) && Saves(step)
    ensures Apply(w, s, step).updatedAt == Some(step.now)
    ensures Apply(w, s, step).rows == if step.SavePrices? then step.newRows else s.rows
    ensures Apply(w, s, step).published == s.published + if Publishes(w, s, step) then {Added(w, s, step)} else {}
  {
  }

  lemma OtherEffect(w: World, s: State, step: Step)
    requires Inv(w, s) && Enabled(w, s, step) && !Saves(step)
    ensures Apply(w, s, step).updatedAt == s.updatedAt && Apply(w, s, step).rows == s.rows
    ensures !step.Launch? ==> Apply(w, s, step).published == s.published
    ensures step.Launch? ==> s.published == {}
    ensures step.Launch? ==> forall v :: v in Apply(w, s, step).published ==>
              s.updatedAt.Some? && v == Current(w, s, step.listing)
  {
  }

  // ---- which saves keep the last version's list current ----

  /** The test on saving details: the prices listed before are still the current ones. */
  ghost predicate ListingFresh(w: World, s: State, step: Step)
    requires Enabled(w, s, step)
  {
    step.SaveUpdate? && s.tasks[step.task].active ==> Lists(w, s.rows, s.tasks[step.task].listing)
  }

  /** The version of the last change, if it was published, lists the current prices. */
  ghost predicate LastLists(w: World, s: State) {
    forall v :: v in s.published && s.updatedAt == Some(v.at) ==> Lists(w, s.rows, v.prices)
  }

  lemma LastListsIff(w: World, s: State, step: Step)
    requires Inv(w, s) && LastLists(w, s) && Enabled(w, s, step)
    ensures LastLists(w, Apply(w, s, step)) <==> ListingFresh(w, s, step)
  {
    if Saves(step) {
      SaveEffect(w, s, step);
      if Publishes(w, s, step) {
        assert Added(w, s, step) in Apply(w, s, step).published;
      }
    } else {
      OtherEffect(w, s, step);
    }
  }

  ghost predicate FreshAt(w: World, trace: seq<State>, steps: seq<Step>, i: nat)
    requires i < |steps| < |trace|
  {
    StepAt(w, trace, steps, i) && ListingFresh(w, trace[i], steps[i])
  }

  lemma {:induction false} ListsSoFar(w: World, trace: seq<State>, steps: seq<Step>, i: nat)
    requires Run(w, trace, steps) && i < |trace| && forall k :: 0 <= k < |steps| ==> FreshAt(w, trace, steps, k)
    ensures LastLists(w, trace[i])
  {
    if i > 0 {
      ListsSoFar(w, trace, steps, i - 1);
      RunInv(w, trace, steps, i - 1);
      assert FreshAt(w, trace, steps, i - 1);
      LastListsIff(w, trace[i - 1], steps[i - 1]);
    }
  }

  /**
  Throughout a run the last version lists the current prices, if and only if every change of
  details finds the prices it listed unchanged.
  */
  lemma ListsThroughoutIff(w: World, trace: seq<State>, steps: seq<Step>)
    requires Run(w, trace, steps)
    ensures (forall i :: 0 <= i < |trace| ==> LastLists(w, trace[i]))
       <==> (forall i :: 0 <= i < |steps| ==> FreshAt(w, trace, steps, i))
  {
    if forall i :: 0 <= i < |trace| ==> LastLists(w, trace[i]) {
      forall i | 0 <= i < |steps| ensures FreshAt(w, trace, steps, i) {
        RunInv(w, trace, steps, i);
        assert StepAt(w, trace, steps, i) && LastLists(w, trace[i]) && LastLists(w, trace[i + 1]);
        LastListsIff(w, trace[i], steps[i]);
      }
    }
    if forall i :: 0 <= i < |steps| ==> FreshAt(w, trace, steps, i) {
      forall i | 0 <= i < |trace| ensures LastLists(w, trace[i]) {
        ListsSoFar(w, trace, steps, i);
      }
    }
  }

  // ---- which saves keep the last version the newest ----

  /** The test on the clock: a publishing save is dated after everything published. */
  ghost predicate InOrder(w: World, s: State, step: Step)
    requires Enabled(w, s, step)
  {
    Publishes(w, s, step) ==> forall u :: u in s.published ==> u.at < step.now
  }

  /** The version of the last change, if it was published, has the greatest timestamp. */
  ghost predicate LastNewest(s: State) {
    forall v :: v in s.published && s.updatedAt == Some(v.at) ==> NoneNewer(s, v)
  }

  lemma LastNewestIff(w: World, s: State, step: Step)
    requires Inv(w, s) && LastNewest(s) && Enabled(w, s, step)
    ensures LastNewest(Apply(w, s, step)) <==> InOrder(w, s, step)
  {
    var s' := Apply(w, s, step);
    if Saves(step) {
      SaveEffect(w, s, step);
      if Publishes(w, s, step) {
        var v := Added(w, s, step);
        assert v in s'.published && (NoneNewer(s', v) <==> InOrder(w, s, step));
      }
    } else {
      OtherEffect(w, s, step);
      if !step.Launch? {
        forall v | v in s'.published && s'.updatedAt == Some(v.at) ensures NoneNewer(s', v) {
          assert NoneNewer(s, v);
        }
      }
    }
  }

  ghost predicate InOrderAt(w: World, trace: seq<State>, steps: seq<Step>, i: nat)
    requires i < |steps| < |trace|
  {
    StepAt(w, trace, steps, i) && InOrder(w, trace[i], steps[i])
  }

  lemma {:induction false} NewestSoFar(w: World, trace: seq<State>, steps: seq<Step>, i: nat)
    requires Run(w, trace, steps) && i < |trace| && forall k :: 0 <= k < |steps| ==> InOrderAt(w, trace, steps, k)
    ensures LastNewest(trace[i])
  {
    if i > 0 {
      NewestSoFar(w, trace, steps, i - 1);
      RunInv(w, trace, steps, i - 1);
      assert InOrderAt(w, trace, steps, i - 1);
      LastNewestIff(w, trace[i - 1], steps[i - 1]);
    }
  }

  /**
  Throughout a run the last version has the greatest timestamp, if and only if every publishing
  save is dated after everything published before.
  */
  lemma NewestThroughoutIff(w: World, trace: seq<State>, steps: seq<Step>)
    requires Run(w, trace, steps)
    ensures (forall i :: 0 <= i < |trace| ==> LastNewest(trace[i]))
       <==> (forall i :: 0 <= i < |steps| ==> InOrderAt(w, trace, steps, i))
  {
    if forall i :: 0 <= i < |trace| ==> LastNewest(trace[i]) {
      forall i | 0 <= i < |steps| ensures InOrderAt(w, trace, steps, i) {
        RunInv(w, trace, steps, i);
        assert StepAt(w, trace, steps, i) && LastNewest(trace[i]) && LastNewest(trace[i + 1]);
        LastNewestIff(w, trace[i], steps[i]);
      }
    }
    if forall i :: 0 <= i < |steps| ==> InOrderAt(w, trace, steps, i) {
      forall i | 0 <= i < |trace| ensures LastNewest(trace[i]) {
        NewestSoFar(w, trace, steps, i);
      }
    }
  }

  // ---- which saves keep the newest version's sizes complete ----

  ghost predicate Covers(u: P.Version, prices: seq<R.PriceWire>) {
    forall size: nat :: P.Mentions(prices, size) ==> P.HasSize(u, size)
  }

  /**
  The test on a publishing save: dated after everything published, its list mentions every size
  published so far; dated before, the newest published version has every size it lists.
  */
  ghost predicate SizesMentioned(w: World, s: State, step: Step)
    requires Enabled(w, s, step)
  {
    Publishes(w, s, step) ==>
      var v := Added(w, s, step);
      if InOrder(w, s, step) then forall u :: u in s.published ==> Covers(v, u.prices)
      else forall u :: P.Latest(s.published, u) ==> Covers(u, v.prices)
  }

  /** The newest published version has every size published. */
  ghost predicate SizesOk(s: State) {
    forall v :: P.Latest(s.published, v) ==> AllCovered(s.published, v)
  }

  ghost predicate AllCovered(versions: set<P.Version>, v: P.Version) {
    forall u :: u in versions ==> Covers(v, u.prices)
  }

  lemma CoveredIsKept(versions: set<P.Version>, v: P.Version)
    ensures AllCovered(versions, v) <==> P.SizesKept(versions, v)
  {
    if P.SizesKept(versions, v) {
      forall u | u in versions ensures Covers(v, u.prices) {
        forall size | P.Mentions(u.prices, size) ensures P.HasSize(v, size) {
          assert P.HasSize(u, size);
        }
      }
    }
    if AllCovered(versions, v) {
      forall u, size | u in versions && P.HasSize(u, size) ensures P.HasSize(v, size) {
        assert Covers(v, u.prices) && P.Mentions(u.prices, size);
      }
    }
  }

  lemma AddedSizes(w: World, s: State, step: Step)
    requires Inv(w, s) && SizesOk(s) && Enabled(w, s, step) && Publishes(w, s, step)
    ensures SizesOk(Apply(w, s, step)) <==> SizesMentioned(w, s, step)
  {
    var s', v := Apply(w, s, step), Added(w, s, step);
    SaveEffect(w, s, step);
    if InOrder(w, s, step) {
      assert P.Latest(s'.published, v);
      assert Covers(v, v.prices);
      assert AllCovered(s'.published, v) <==> SizesMentioned(w, s, step);
    } else {
      forall u ensures P.Latest(s'.published, u) <==> P.Latest(s.published, u) {
        LatestStays(s.published, v, u);
      }
      forall u | P.Latest(s.published, u) ensures AllCovered(s'.published, u) <==> Covers(u, v.prices) {
        assert AllCovered(s.published, u);
      }
    }
  }

  /** A version dated before some other one does not change which one is the newest. */
  lemma LatestStays(versions: set<P.Version>, v: P.Version, u: P.Version)
    requires (forall x :: x in versions ==> x.at != v.at) && exists x :: x in versions && v.at <= x.at
    ensures P.Latest(versions + {v}, u) <==> P.Latest(versions, u)
  {
  }

  lemma SizesOkIff(w: World, s: State, step: Step)
    requires Inv(w, s) && SizesOk(s) && Enabled(w, s, step)
    ensures SizesOk(Apply(w, s, step)) <==> SizesMentioned(w, s, step)
  {
    if Publishes(w, s, step) {
      AddedSizes(w, s, step);
    } else if Saves(step) {
      SaveEffect(w, s, step);
    } else {
      OtherEffect(w, s, step);
      if step.Launch? {
        forall v | P.Latest(Apply(w, s, step).published, v) ensures AllCovered(Apply(w, s, step).published, v) {
          assert Covers(v, v.prices);
        }
      }
    }
  }

  ghost predicate SizesMentionedAt(w: World, trace: seq<State>, steps: seq<Step>, i: nat)
    requires i < |steps| < |trace|
  {
    StepAt(w, trace, steps, i) && SizesMentioned(w, trace[i], steps[i])
  }

  lemma {:induction false} SizesSoFar(w: World, trace: seq<State>, steps: seq<Step>, i: nat)
    requires Run(w, trace, steps) && i < |trace|
    requires forall k :: 0 <= k < |steps| ==> SizesMentionedAt(w, trace, steps, k)
    ensures SizesOk(trace[i])
  {
    if i > 0 {
      SizesSoFar(w, trace, steps, i - 1);
      RunInv(w, trace, steps, i - 1);
      assert SizesMentionedAt(w, trace, steps, i - 1);
      SizesOkIff(w, trace[i - 1], steps[i - 1]);
    }
  }

  /**
  Throughout a run the newest published version has every size published, if and only if every
  publishing save passes the test.
  */
  lemma SizesThroughoutIff(w: World, trace: seq<State>, steps: seq<Step>)
    requires Run(w, trace, steps)
    ensures (forall i :: 0 <= i < |trace| ==> SizesOk(trace[i]))
       <==> (forall i :: 0 <= i < |steps| ==> SizesMentionedAt(w, trace, steps, i))
  {
    if forall i :: 0 <= i < |trace| ==> SizesOk(trace[i]) {
      forall i | 0 <= i < |steps| ensures SizesMentionedAt(w, trace, steps, i) {
        RunInv(w, trace, steps, i);
        assert StepAt(w, trace, steps, i) && SizesOk(trace[i]) && SizesOk(trace[i + 1]);
        SizesOkIff(w, trace[i], steps[i]);
      }
    }
    if forall i :: 0 <= i < |steps| ==> SizesMentionedAt(w, trace, steps, i) {
      forall i | 0 <= i < |trace| ensures SizesOk(trace[i]) {
        SizesSoFar(w, trace, steps, i);
      }
    }
  }

  /**
  Setting prices passes the test whenever it is dated after everything published: only changes of
  details can fail it then.
  */
  lemma SetPricesMentionAll(w: World, trace: seq<State>, steps: seq<Step>, i: nat)
    requires Run(w, trace, steps) && i < |steps| && steps[i].SavePrices? && InOrderAt(w, trace, steps, i)
    ensures SizesMentionedAt(w, trace, steps, i)
  {
    var s, step := trace[i], steps[i];
    RunInv(w, trace, steps, i);
    if Publishes(w, s, step) {
      forall u | u in s.published ensures Covers(Added(w, s, step), u.prices) {
        assert VersionOk(w, s, u);
        forall size: nat | P.Mentions(u.prices, size) ensures P.Mentions(step.listing, size) {
          assert (w.pizza, size) in step.newRows;
        }
      }
    }
  }

  // ---- runs that fail the tests ----

  ghost predicate Reachable(w: World, s: State) {
    exists trace, steps :: Run(w, trace, steps) && trace[|steps|] == s
  }

  lemma Forward(w: World, s: State, step: Step)
    requires Reachable(w, s) && Enabled(w, s, step)
    ensures Reachable(w, Apply(w, s, step))
  {
    var trace, steps :| Run(w, trace, steps) && trace[|steps|] == s;
    var longer, more := trace + [Apply(w, s, step)], steps + [step];
    forall i | 0 <= i < |more| ensures StepAt(w, longer, more, i) {
      assert i < |steps| ==> StepAt(w, trace, steps, i);
    }
    assert Run(w, longer, more) && longer[|more|] == Apply(w, s, step);
  }

  // A pizza offered in 30 cm for 500; a 40 cm size is known.

  const SHOP: World := World(0, 9, map[1 := 30, 2 := 40])

  function PricedAt(price: nat): Rows {
    map[(0, 1) := PriceRow(price, true, None)]
  }

  function BothPriced(): Rows {
    map[(0, 1) := PriceRow(500, true, None), (0, 2) := PriceRow(700, true, None)]
  }

  function Small(price: nat): R.PriceWire {
    R.PriceWire(1, 30, Some(price), true)
  }

  const LARGE: R.PriceWire := R.PriceWire(2, 40, Some(700), true)

  lemma ListsSmall(price: nat)
    ensures Lists(SHOP, PricedAt(price), [Small(price)])
  {
    assert [Small(price)][0].size == 1;
  }

  /** A call of SetPizzaPrices from its reads to its transaction. */
  lemma SetsPrices(s: State, inputs: seq<PriceInput>, rows: Rows, listing: seq<R.PriceWire>, now: int)
    requires Reachable(SHOP, s) && 0 !in s.tasks && Unused(s, now)
    requires Distinct(inputs) && (forall i :: 0 <= i < |inputs| ==> inputs[i].size in SHOP.diameters)
    requires Replaces(s.rows, rows, 0, inputs) && Lists(SHOP, rows, listing)
    ensures Reachable(SHOP, Publish(SHOP, s.(rows := rows, updatedAt := Some(now)), s.launched, listing))
  {
    var read := Apply(SHOP, s, ReadForPrices(0));
    Forward(SHOP, s, ReadForPrices(0));
    assert read.tasks - {0} == s.tasks;
    Forward(SHOP, read, SavePrices(0, inputs, rows, listing, now));
  }

  lemma SetsSmall(s: State, price: nat, now: int)
    requires Reachable(SHOP, s) && 0 !in s.tasks && Unused(s, now)
    requires s.rows == map[] || exists p :: s.rows == PricedAt(p)
    ensures Reachable(SHOP, Publish(SHOP, s.(rows := PricedAt(price), updatedAt := Some(now)), s.launched, [Small(price)]))
  {
    var inputs := [PriceInput(1, price)];
    assert inputs[0].size == 1;
    ListsSmall(price);
    SetsPrices(s, inputs, PricedAt(price), [Small(price)], now);
  }

  function Offer(price: nat, at: int): P.Version {
    P.Version(9, "m", "available", [Small(price)], at)
  }

  function Offered(): State {
    State(PricedAt(500), "m", "available", Some(1), true, {Offer(500, 1)}, map[])
  }

  lemma Offers()
    ensures Reachable(SHOP, Offered())
  {
    var s := State(map[], "m", "available", None, false, {}, map[]);
    assert Run(SHOP, [s], []) && [s][0] == s;
    SetsSmall(s, 500, 1);
    var priced := s.(rows := PricedAt(500), updatedAt := Some(1));
    ListsSmall(500);
    Forward(SHOP, priced, Launch([Small(500)]));
    assert Apply(SHOP, priced, Launch([Small(500)])) == Offered();
  }

  /** A change of details under way on the offered pizza: it has listed the price of 500. */
  function Renaming(): State {
    Offered().(tasks := map[1 := UpdateReady(true, "n", "available", [Small(500)])])
  }

  lemma Renames()
    ensures Reachable(SHOP, Renaming())
  {
    Offers();
    var s := Offered();
    ListsSmall(500);
    Forward(SHOP, s, ReadForUpdate(1, "n", None));
    var s1 := Apply(SHOP, s, ReadForUpdate(1, "n", None));
    Forward(SHOP, s1, ListForUpdate(1, [Small(500)]));
    assert Apply(SHOP, s1, ListForUpdate(1, [Small(500)])) == Renaming();
  }

  /**
  A change of details lists the price, a new price is set and published, and then the details are
  saved and published with the old one, later than the new one: the replica goes back to it.
  */
  lemma OldPricePublishedLast()
    ensures exists s, v :: Reachable(SHOP, s) && v in s.published && s.updatedAt == Some(v.at) && NoneNewer(s, v)
                           && R.Orderable(P.Wire(0, v)) && !Lists(SHOP, s.rows, v.prices)
  {
    Renames();
    SetsSmall(Renaming(), 600, 2);
    OldPriceSaved(Publish(SHOP, Renaming().(rows := PricedAt(600), updatedAt := Some(2)), true, [Small(600)]));
  }

  lemma OldPriceSaved(s: State)
    requires Reachable(SHOP, s) && s.rows == PricedAt(600) && s.published == {Offer(500, 1), Offer(600, 2)}
    requires 1 in s.tasks && s.tasks[1] == UpdateReady(true, "n", "available", [Small(500)])
    ensures exists s, v :: Reachable(SHOP, s) && v in s.published && s.updatedAt == Some(v.at) && NoneNewer(s, v)
                           && R.Orderable(P.Wire(0, v)) && !Lists(SHOP, s.rows, v.prices)
  {
    Forward(SHOP, s, SaveUpdate(1, 3));
    var v := P.Version(9, "n", "available", [Small(500)], 3);
    assert v in Apply(SHOP, s, SaveUpdate(1, 3)).published;
    assert [Small(500)][0].active;
    assert !Shown(SHOP, s.rows, v.prices[0]);
  }

  /** Two processes whose clocks disagree: the last change lists the current price but an older one is dated later. */
  lemma OldPriceDatedLater()
    ensures exists s, v :: Reachable(SHOP, s) && v in s.published && s.updatedAt == Some(v.at) && !NoneNewer(s, v)
                           && R.Orderable(P.Wire(0, v)) && Lists(SHOP, s.rows, v.prices)
  {
    Offers();
    SetsSmall(Offered(), 550, 3);
    var s := Publish(SHOP, Offered().(rows := PricedAt(550), updatedAt := Some(3)), true, [Small(550)]);
    SetsSmall(s, 600, 2);
    var s' := Publish(SHOP, s.(rows := PricedAt(600), updatedAt := Some(2)), true, [Small(600)]);
    ListsSmall(600);
    assert Offer(550, 3) in s'.published && Offer(600, 2) in s'.published;
    assert [Small(600)][0].active;
    assert !NoneNewer(s', Offer(600, 2));
  }

  // ---- a size that the newest version lacks ----

  const WIDER: P.Version := P.Version(9, "m", "available", [Small(500), LARGE], 2)
  const NARROWER: P.Version := P.Version(9, "n", "available", [Small(500)], 3)

  function Narrowed(): State {
    State(BothPriced(), "n", "available", Some(3), true, {Offer(500, 1), WIDER, NARROWER}, map[])
  }

  /**
  A change of details lists one size, a second size is added and published, and then the details
  are published with the one.
  */
  lemma Narrows()
    ensures Reachable(SHOP, Narrowed())
  {
    Renames();
    AddsLarge();
    var s := Publish(SHOP, Renaming().(rows := BothPriced(), updatedAt := Some(2)), true, [Small(500), LARGE]);
    Forward(SHOP, s, SaveUpdate(1, 3));
    assert Apply(SHOP, s, SaveUpdate(1, 3)).tasks == map[];
    assert Apply(SHOP, s, SaveUpdate(1, 3)).published == Narrowed().published;
    assert Apply(SHOP, s, SaveUpdate(1, 3)) == Narrowed();
  }

  lemma AddsLarge()
    requires Reachable(SHOP, Renaming())
    ensures Reachable(SHOP, Publish(SHOP, Renaming().(rows := BothPriced(), updatedAt := Some(2)), true, [Small(500), LARGE]))
  {
    var inputs := [PriceInput(1, 500), PriceInput(2, 700)];
    BothListed();
    BothReplace(inputs);
    SetsPrices(Renaming(), inputs, BothPriced(), [Small(500), LARGE], 2);
  }

  lemma BothListed()
    ensures Lists(SHOP, BothPriced(), [Small(500), LARGE])
  {
    assert [Small(500), LARGE][0].size == 1 && [Small(500), LARGE][1].size == 2;
  }

  lemma BothReplace(inputs: seq<PriceInput>)
    requires inputs == [PriceInput(1, 500), PriceInput(2, 700)]
    ensures Replaces(PricedAt(500), BothPriced(), 0, inputs)
  {
    assert inputs[0].size == 1 && inputs[1].size == 2;
  }

  lemma NarrowedVersions()
    ensures WIDER in Narrowed().published && P.Latest(Narrowed().published, NARROWER)
    ensures P.HasSize(WIDER, 2) && !P.HasSize(NARROWER, 2) && !P.SizesKept(Narrowed().published, NARROWER)
    ensures P.DistinctSizes(WIDER) && P.Readable(WIDER) && P.Readable(NARROWER)
    ensures |WIDER.prices| == 2 && WIDER.prices[1].size == 2 && P.PriceRow(WIDER.prices[1], WIDER.at).active
  {
    assert P.HasSize(WIDER, 2) by {
      assert WIDER.prices[1].size == 2;
    }
  }

  /** Such a version is delivered first and then the newest one: the size stays, and if it was active, on offer. */
  lemma LostSize(w: World, s: State, u: P.Version, v: P.Version, j: nat)
    requires u in s.published && v in s.published && P.DistinctSizes(u) && P.Readable(u) && P.Readable(v)
    requires j < |u.prices| && !P.HasSize(v, u.prices[j].size)
    ensures var stmts := P.Alone(w.pizza, u) + P.Alone(w.pizza, v);
            && Delivery(w, s, v, stmts) && (w.pizza, u.prices[j].size) in C.Final(stmts).prices
            && C.Final(stmts).prices[(w.pizza, u.prices[j].size)] == P.PriceRow(u.prices[j], u.at)
            && !P.Shows(C.Final(stmts), w.pizza, v)
  {
    P.WiderThenNarrower(w.pizza, u, v, s.published, j);
  }

  /** The wider version is delivered first and then the narrower, newest one: the second size stays on offer. */
  lemma LostSizeStaysActive()
    ensures Reachable(SHOP, Narrowed()) && P.Latest(Narrowed().published, NARROWER)
    ensures !P.SizesKept(Narrowed().published, NARROWER)
    ensures var stmts := P.Alone(SHOP.pizza, WIDER) + P.Alone(SHOP.pizza, NARROWER);
            && Delivery(SHOP, Narrowed(), NARROWER, stmts) && (SHOP.pizza, 2) in C.Final(stmts).prices
            && C.Final(stmts).prices[(SHOP.pizza, 2)].active && !P.Shows(C.Final(stmts), SHOP.pizza, NARROWER)
  {
    Narrows();
    NarrowedVersions();
    LostSize(SHOP, Narrowed(), WIDER, NARROWER, 1);
  }
}
