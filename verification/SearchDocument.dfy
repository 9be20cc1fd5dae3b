/**
The search index's document of a restaurant and the five scripts that update it.  Timestamps are
nanoseconds since the Unix epoch; the scripts compare them in whole milliseconds.
*/
module SearchDocument {
  import opened Wrappers

  datatype IndexedPrice = IndexedPrice(size: nat, diameter: nat, price: string)

  datatype IndexedPizza = IndexedPizza(
    id: nat, name: string, vegetarian: bool, toppings: seq<string>, prices: seq<IndexedPrice>, updatedAt: int)

  datatype IndexedTopping = IndexedTopping(topping: nat, name: string, extraPrice: string)

  datatype Fields = Fields(
    name: string, slug: string, city: string, timezone: string, currency: string, pickup: bool,
    deliveryType: string, tags: seq<string>, totalReviews: nat)

  datatype Doc = Doc(
    fields: Fields, pizzas: seq<IndexedPizza>, toppingPrices: seq<IndexedTopping>,
    updatedAt: Option<int>, toppingPricesUpdatedAt: Option<int>)

  const NANOS_PER_MILLI: int := 1_000_000

  /** Year 1, the zero value of a timestamp. */
  const ZERO_TIME: int := -62_135_596_800_000 * NANOS_PER_MILLI

  /** Milliseconds since the epoch, rounded down. */
  function Millis(nanos: int): int {
    nanos / NANOS_PER_MILLI
  }

  predicate NewerThan(at: int, stored: Option<int>) {
    stored.None? || Millis(at) > Millis(stored.value)
  }

  // ---- the pizzas array ----

  predicate DistinctIds(pizzas: seq<IndexedPizza>) {
    forall i, j :: 0 <= i < j < |pizzas| ==> pizzas[i].id != pizzas[j].id
  }

  /** The array as a map from id to pizza. */
  function MapOf(pizzas: seq<IndexedPizza>): map<nat, IndexedPizza> {
    if pizzas == [] then map[]
    else MapOf(pizzas[..|pizzas| - 1])[pizzas[|pizzas| - 1].id := pizzas[|pizzas| - 1]]
  }

  /** The other pizzas, in their order. */
  function Others(pizzas: seq<IndexedPizza>, id: nat): seq<IndexedPizza> {
    if pizzas == [] then []
    else
      var last := pizzas[|pizzas| - 1];
      Others(pizzas[..|pizzas| - 1], id) + if last.id == id then [] else [last]
  }

  /** An upsert on the map, guarded by the pizza's own timestamp. */
  function GuardedPut(m: map<nat, IndexedPizza>, p: IndexedPizza): map<nat, IndexedPizza> {
    if p.id in m && !(Millis(p.updatedAt) > Millis(m[p.id].updatedAt)) then m else m[p.id := p]
  }

  function GuardedRemove(m: map<nat, IndexedPizza>, id: nat, at: int): map<nat, IndexedPizza> {
    if id in m && Millis(at) > Millis(m[id].updatedAt) then m - {id} else m
  }

  lemma {:induction false} MapAt(pizzas: seq<IndexedPizza>, i: nat)
    requires DistinctIds(pizzas) && i < |pizzas|
    ensures pizzas[i].id in MapOf(pizzas) && MapOf(pizzas)[pizzas[i].id] == pizzas[i]
  {
    if i < |pizzas| - 1 {
      MapAt(pizzas[..|pizzas| - 1], i);
    }
  }

  lemma {:induction false} MapLacks(pizzas: seq<IndexedPizza>, id: nat)
    requires forall i :: 0 <= i < |pizzas| ==> pizzas[i].id != id
    ensures id !in MapOf(pizzas)
  {
    if pizzas != [] {
      MapLacks(pizzas[..|pizzas| - 1], id);
    }
  }

  lemma MapAppend(pizzas: seq<IndexedPizza>, p: IndexedPizza)
    ensures MapOf(pizzas + [p]) == MapOf(pizzas)[p.id := p]
  {
    assert (pizzas + [p])[..|pizzas|] == pizzas;
  }

  lemma {:induction false} MapReplace(pizzas: seq<IndexedPizza>, idx: nat, p: IndexedPizza)
    requires DistinctIds(pizzas) && idx < |pizzas| && pizzas[idx].id == p.id
    ensures MapOf(pizzas[idx := p]) == MapOf(pizzas)[p.id := p]
  {
    var n := |pizzas| - 1;
    if idx == n {
      assert pizzas[idx := p][..n] == pizzas[..n];
    } else {
      MapReplace(pizzas[..n], idx, p);
      assert pizzas[idx := p][..n] == pizzas[..n][idx := p];
      assert pizzas[n].id != p.id;
      assert MapOf(pizzas[..n])[p.id := p][pizzas[n].id := pizzas[n]] == MapOf(pizzas[..n])[pizzas[n].id := pizzas[n]][p.id := p];
    }
  }

  lemma {:induction false} MapRemove(pizzas: seq<IndexedPizza>, idx: nat)
    requires DistinctIds(pizzas) && idx < |pizzas|
    ensures MapOf(pizzas[..idx] + pizzas[idx + 1..]) == MapOf(pizzas) - {pizzas[idx].id}
  {
    var n := |pizzas| - 1;
    var id := pizzas[idx].id;
    if idx == n {
      assert pizzas[..idx] + pizzas[idx + 1..] == pizzas[..n];
      MapLacks(pizzas[..n], id);
    } else {
      MapRemove(pizzas[..n], idx);
      var shorter := pizzas[..n][..idx] + pizzas[..n][idx + 1..];
      assert pizzas[..idx] + pizzas[idx + 1..] == shorter + [pizzas[n]];
      MapAppend(shorter, pizzas[n]);
      assert pizzas[n].id != id;
      assert (MapOf(pizzas[..n]) - {id})[pizzas[n].id := pizzas[n]] == MapOf(pizzas[..n])[pizzas[n].id := pizzas[n]] - {id};
    }
  }

  lemma {:induction false} OthersAppend(a: seq<IndexedPizza>, b: seq<IndexedPizza>, id: nat)
    ensures Others(a + b, id) == Others(a, id) + Others(b, id)
  {
    if b == [] {
      assert a + b == a;
    } else {
      var n := |b| - 1;
      assert (a + b)[..|a| + n] == a + b[..n];
      OthersAppend(a, b[..n], id);
    }
  }

  lemma OthersOne(p: IndexedPizza, id: nat)
    ensures Others([p], id) == if p.id == id then [] else [p]
  {
    assert [p][..0] == [];
    assert Others([p][..0], id) == [];
  }

  // ---- what the find-loop scripts do to the array ----

  /** The index the find loop ends with. */
  predicate Found(pizzas: seq<IndexedPizza>, id: nat, idx: int) {
    if idx == -1 then forall i :: 0 <= i < |pizzas| ==> pizzas[i].id != id
    else 0 <= idx < |pizzas| && pizzas[idx].id == id && forall i :: 0 <= i < idx ==> pizzas[i].id != id
  }

  function IndexOf(pizzas: seq<IndexedPizza>, id: nat): (idx: int)
    ensures Found(pizzas, id, idx)
  {
    if pizzas == [] then -1
    else
      var before := IndexOf(pizzas[..|pizzas| - 1], id);
      if before != -1 then before
      else if pizzas[|pizzas| - 1].id == id then |pizzas| - 1
      else -1
  }

  function Put(pizzas: seq<IndexedPizza>, p: IndexedPizza): seq<IndexedPizza> {
    var idx := IndexOf(pizzas, p.id);
    if idx == -1 then pizzas + [p]
    else if Millis(p.updatedAt) > Millis(pizzas[idx].updatedAt) then pizzas[idx := p]
    else pizzas
  }

  function Remove(pizzas: seq<IndexedPizza>, id: nat, at: int): seq<IndexedPizza> {
    var idx := IndexOf(pizzas, id);
    if idx != -1 && Millis(at) > Millis(pizzas[idx].updatedAt) then pizzas[..idx] + pizzas[idx + 1..]
    else pizzas
  }

  lemma FoundIsUnique(pizzas: seq<IndexedPizza>, id: nat, a: int, b: int)
    requires Found(pizzas, id, a) && Found(pizzas, id, b)
    ensures a == b
  {
  }

  lemma OthersSplit(pizzas: seq<IndexedPizza>, idx: nat, id: nat)
    requires idx < |pizzas|
    ensures Others(pizzas, id) == Others(pizzas[..idx], id) + Others([pizzas[idx]], id) + Others(pizzas[idx + 1..], id)
  {
    assert pizzas == pizzas[..idx] + [pizzas[idx]] + pizzas[idx + 1..];
    OthersAppend(pizzas[..idx] + [pizzas[idx]], pizzas[idx + 1..], id);
    OthersAppend(pizzas[..idx], [pizzas[idx]], id);
  }

  lemma OthersReplaced(pizzas: seq<IndexedPizza>, idx: nat, p: IndexedPizza)
    requires idx < |pizzas| && pizzas[idx].id == p.id
    ensures Others(pizzas[idx := p], p.id) == Others(pizzas, p.id)
  {
    var replaced := pizzas[idx := p];
    OthersSplit(pizzas, idx, p.id);
    OthersSplit(replaced, idx, p.id);
    OthersOne(pizzas[idx], p.id);
    OthersOne(p, p.id);
    assert replaced[..idx] == pizzas[..idx] && replaced[idx + 1..] == pizzas[idx + 1..];
  }

  /**
  The upsert script refines a guarded update of the map: ids stay distinct, and the other pizzas
  and their order are left alone.
  */
  lemma PutRefines(pizzas: seq<IndexedPizza>, p: IndexedPizza)
    requires DistinctIds(pizzas)
    ensures DistinctIds(Put(pizzas, p))
    ensures MapOf(Put(pizzas, p)) == GuardedPut(MapOf(pizzas), p)
    ensures Others(Put(pizzas, p), p.id) == Others(pizzas, p.id)
  {
    var idx := IndexOf(pizzas, p.id);
    if idx == -1 {
      MapLacks(pizzas, p.id);
      MapAppend(pizzas, p);
      OthersAppend(pizzas, [p], p.id);
      OthersOne(p, p.id);
    } else {
      MapAt(pizzas, idx);
      MapReplace(pizzas, idx, p);
      var replaced := pizzas[idx := p];
      OthersReplaced(pizzas, idx, p);
      assert DistinctIds(replaced);
    }
  }

  lemma RemovedDistinct(pizzas: seq<IndexedPizza>, idx: nat)
    requires DistinctIds(pizzas) && idx < |pizzas|
    ensures DistinctIds(pizzas[..idx] + pizzas[idx + 1..])
  {
    var shorter := pizzas[..idx] + pizzas[idx + 1..];
    forall i, j | 0 <= i < j < |shorter| ensures shorter[i].id != shorter[j].id {
      assert shorter[i] == pizzas[if i < idx then i else i + 1];
      assert shorter[j] == pizzas[if j < idx then j else j + 1];
    }
  }

  /** The remove script refines a guarded removal from the map. */
  lemma RemoveRefines(pizzas: seq<IndexedPizza>, id: nat, at: int)
    requires DistinctIds(pizzas)
    ensures DistinctIds(Remove(pizzas, id, at))
    ensures MapOf(Remove(pizzas, id, at)) == GuardedRemove(MapOf(pizzas), id, at)
    ensures Others(Remove(pizzas, id, at), id) == Others(pizzas, id)
  {
    var idx := IndexOf(pizzas, id);
    if idx == -1 {
      MapLacks(pizzas, id);
    } else {
      MapAt(pizzas, idx);
      MapRemove(pizzas, idx);
      RemovedDistinct(pizzas, idx);
      OthersWithout(pizzas, idx);
    }
  }

  lemma OthersWithout(pizzas: seq<IndexedPizza>, idx: nat)
    requires idx < |pizzas|
    ensures Others(pizzas[..idx] + pizzas[idx + 1..], pizzas[idx].id) == Others(pizzas, pizzas[idx].id)
  {
    var id := pizzas[idx].id;
    OthersSplit(pizzas, idx, id);
    OthersOne(pizzas[idx], id);
    OthersAppend(pizzas[..idx], pizzas[idx + 1..], id);
  }

  // ---- the scripts ----

  datatype Outcome = Created | Written | NoOp | Missing

  function OnSnapshot(doc: Option<Doc>, snapshot: Doc): (Option<Doc>, Outcome)
    requires snapshot.updatedAt.Some?
  {
    if doc.None? then (Some(snapshot), Created)
    else if NewerThan(snapshot.updatedAt.value, doc.value.updatedAt) then (Some(snapshot), Written)
    else (doc, NoOp)
  }

  function OnFields(doc: Option<Doc>, fields: Fields, at: int): (Option<Doc>, Outcome) {
    if doc.None? then (None, Missing)
    else if NewerThan(at, doc.value.updatedAt) then (Some(doc.value.(fields := fields, updatedAt := Some(at))), Written)
    else (doc, NoOp)
  }

  function OnToppings(doc: Option<Doc>, toppings: seq<IndexedTopping>, at: int): (Option<Doc>, Outcome) {
    if doc.None? then (None, Missing)
    else if NewerThan(at, doc.value.toppingPricesUpdatedAt) then
      (Some(doc.value.(toppingPrices := toppings, toppingPricesUpdatedAt := Some(at))), Written)
    else (doc, NoOp)
  }

  function OnPizza(doc: Option<Doc>, p: IndexedPizza): (Option<Doc>, Outcome) {
    if doc.None? then (None, Missing)
    else
      var idx := IndexOf(doc.value.pizzas, p.id);
      if idx != -1 && !(Millis(p.updatedAt) > Millis(doc.value.pizzas[idx].updatedAt)) then (doc, NoOp)
      else (Some(doc.value.(pizzas := Put(doc.value.pizzas, p))), Written)
  }

  function OnRemoval(doc: Option<Doc>, id: nat, at: int): (Option<Doc>, Outcome) {
    if doc.None? then (None, Missing)
    else
      var idx := IndexOf(doc.value.pizzas, id);
      if idx != -1 && Millis(at) > Millis(doc.value.pizzas[idx].updatedAt) then
        (Some(doc.value.(pizzas := Remove(doc.value.pizzas, id, at))), Written)
      else (doc, NoOp)
  }

  class SearchIndex {
    var doc: Option<Doc>

    method UpsertSnapshot(snapshot: Doc) returns (outcome: Outcome)
      requires snapshot.updatedAt.Some?
      modifies this
      ensures (doc, outcome) == OnSnapshot(old(doc), snapshot)
      ensures outcome == Created <==> old(doc).None?
      ensures outcome == Written <==>
                && old(doc).Some?
                && (|| old(doc).value.updatedAt.None?
                    || snapshot.updatedAt.value / 1_000_000 > old(doc).value.updatedAt.value / 1_000_000)
      ensures doc == if outcome in {Created, Written} then Some(snapshot) else old(doc)
    {
      if doc.None? {
        doc := Some(snapshot);
        return Created;
      }
      if doc.value.updatedAt.None? || Millis(snapshot.updatedAt.value) > Millis(doc.value.updatedAt.value) {
        doc := Some(snapshot);
        return Written;
      }
      return NoOp;
    }

    method UpdateFields(fields: Fields, at: int) returns (outcome: Outcome)
      modifies this
      ensures (doc, outcome) == OnFields(old(doc), fields, at)
      ensures outcome == Missing <==> old(doc).None?
      ensures outcome == Written <==>
                && old(doc).Some?
                && (old(doc).value.updatedAt.None? || at / 1_000_000 > old(doc).value.updatedAt.value / 1_000_000)
      ensures outcome != Written ==> doc == old(doc)
      ensures outcome == Written ==>
                && doc.Some? && doc.value.fields == fields && doc.value.updatedAt == Some(at)
                && doc.value.pizzas == old(doc).value.pizzas && doc.value.toppingPrices == old(doc).value.toppingPrices
                && doc.value.toppingPricesUpdatedAt == old(doc).value.toppingPricesUpdatedAt
    {
      if doc.None? {
        return Missing;
      }
      if doc.value.updatedAt.None? || Millis(at) > Millis(doc.value.updatedAt.value) {
        doc := Some(doc.value.(fields := fields));
        doc := Some(doc.value.(updatedAt := Some(at)));
        return Written;
      }
      return NoOp;
    }

    method UpdateToppingPrices(toppings: seq<IndexedTopping>, at: int) returns (outcome: Outcome)
      modifies this
      ensures (doc, outcome) == OnToppings(old(doc), toppings, at)
      ensures outcome == Missing <==> old(doc).None?
      ensures outcome == Written <==>
                && old(doc).Some?
                && (|| old(doc).value.toppingPricesUpdatedAt.None?
                    || at / 1_000_000 > old(doc).value.toppingPricesUpdatedAt.value / 1_000_000)
      ensures outcome != Written ==> doc == old(doc)
      ensures outcome == Written ==>
                && doc.Some? && doc.value.toppingPrices == toppings && doc.value.toppingPricesUpdatedAt == Some(at)
                && doc.value.fields == old(doc).value.fields && doc.value.pizzas == old(doc).value.pizzas
                && doc.value.updatedAt == old(doc).value.updatedAt
    {
      if doc.None? {
        return Missing;
      }
      if doc.value.toppingPricesUpdatedAt.None? || Millis(at) > Millis(doc.value.toppingPricesUpdatedAt.value) {
        doc := Some(doc.value.(toppingPrices := toppings));
        doc := Some(doc.value.(toppingPricesUpdatedAt := Some(at)));
        return Written;
      }
      return NoOp;
    }

    method UpsertPizza(p: IndexedPizza) returns (outcome: Outcome)
      modifies this
      ensures (doc, outcome) == OnPizza(old(doc), p)
      ensures outcome == Missing <==> old(doc).None?
      ensures outcome == NoOp <==>
                && old(doc).Some?
                && exists i :: && 0 <= i < |old(doc).value.pizzas| && old(doc).value.pizzas[i].id == p.id
                               && (forall j :: 0 <= j < i ==> old(doc).value.pizzas[j].id != p.id)
                               && p.updatedAt / 1_000_000 <= old(doc).value.pizzas[i].updatedAt / 1_000_000
      ensures outcome != Written ==> doc == old(doc)
      ensures outcome == Written ==>
                && doc.Some? && doc.value.fields == old(doc).value.fields
                && doc.value.updatedAt == old(doc).value.updatedAt
                && doc.value.toppingPrices == old(doc).value.toppingPrices
                && doc.value.toppingPricesUpdatedAt == old(doc).value.toppingPricesUpdatedAt
                && var pizzas := old(doc).value.pizzas;
                   if forall i :: 0 <= i < |pizzas| ==> pizzas[i].id != p.id then doc.value.pizzas == pizzas + [p]
                   else exists i :: && 0 <= i < |pizzas| && pizzas[i].id == p.id
                                    && (forall j :: 0 <= j < i ==> pizzas[j].id != p.id)
                                    && doc.value.pizzas == pizzas[i := p]
    {
      if doc.None? {
        return Missing;
      }
      var pizzas := doc.value.pizzas;
      var idx := Find(pizzas, p.id);
      FoundIsUnique(pizzas, p.id, idx, IndexOf(pizzas, p.id));
      if idx == -1 {
        doc := Some(doc.value.(pizzas := pizzas + [p]));
        return Written;
      } else if Millis(p.updatedAt) > Millis(pizzas[idx].updatedAt) {
        doc := Some(doc.value.(pizzas := pizzas[idx := p]));
        return Written;
      } else {
        return NoOp;
      }
    }

    method RemovePizza(id: nat, at: int) returns (outcome: Outcome)
      modifies this
      ensures (doc, outcome) == OnRemoval(old(doc), id, at)
      ensures outcome == Missing <==> old(doc).None?
      ensures outcome == Written <==>
                && old(doc).Some?
                && exists i :: && 0 <= i < |old(doc).value.pizzas| && old(doc).value.pizzas[i].id == id
                               && (forall j :: 0 <= j < i ==> old(doc).value.pizzas[j].id != id)
                               && at / 1_000_000 > old(doc).value.pizzas[i].updatedAt / 1_000_000
      ensures outcome != Written ==> doc == old(doc)
      ensures outcome == Written ==>
                && doc.Some? && doc.value.fields == old(doc).value.fields
                && doc.value.updatedAt == old(doc).value.updatedAt
                && doc.value.toppingPrices == old(doc).value.toppingPrices
                && doc.value.toppingPricesUpdatedAt == old(doc).value.toppingPricesUpdatedAt
                && var pizzas := old(doc).value.pizzas;
                   exists i :: && 0 <= i < |pizzas| && pizzas[i].id == id && (forall j :: 0 <= j < i ==> pizzas[j].id != id)
                               && doc.value.pizzas == pizzas[..i] + pizzas[i + 1..]
    {
      if doc.None? {
        return Missing;
      }
      var pizzas := doc.value.pizzas;
      var idx := Find(pizzas, id);
      FoundIsUnique(pizzas, id, idx, IndexOf(pizzas, id));
      if idx == -1 {
        return NoOp;
      } else if Millis(at) > Millis(pizzas[idx].updatedAt) {
        doc := Some(doc.value.(pizzas := pizzas[..idx] + pizzas[idx + 1..]));
        return Written;
      } else {
        return NoOp;
      }
    }
  }

  /** The find loop both pizza scripts begin with. */
  method Find(pizzas: seq<IndexedPizza>, id: nat) returns (idx: int)
    ensures Found(pizzas, id, idx)
  {
    idx := -1;
    for i := 0 to |pizzas|
      invariant idx == -1 && forall j :: 0 <= j < i ==> pizzas[j].id != id
    {
      if pizzas[i].id == id {
        idx := i;
        break;
      }
    }
  }

  // ---- what the handlers put into the scripts ----

  datatype WirePrice = WirePrice(size: nat, diameter: nat, price: string, active: bool)

  datatype WirePizza = WirePizza(
    id: nat, name: string, vegetarian: bool, status: string, toppings: seq<string>, prices: seq<WirePrice>)

  function ActivePrices(prices: seq<WirePrice>): seq<IndexedPrice> {
    if prices == [] then []
    else
      var last := prices[|prices| - 1];
      ActivePrices(prices[..|prices| - 1])
      + if last.active then [IndexedPrice(last.size, last.diameter, last.price)] else []
  }

  /** A price is indexed exactly if the same price is listed as active. */
  lemma {:induction false} ActiveOnly(prices: seq<WirePrice>, q: IndexedPrice)
    ensures q in ActivePrices(prices) <==> WirePrice(q.size, q.diameter, q.price, true) in prices
  {
    if prices != [] {
      var n := |prices| - 1;
      ActiveOnly(prices[..n], q);
      assert prices == prices[..n] + [prices[n]];
    }
  }

  function Indexed(w: WirePizza, at: int): IndexedPizza {
    IndexedPizza(w.id, w.name, w.vegetarian, w.toppings, ActivePrices(w.prices), at)
  }

  /** The pizzas of a launch snapshot: active prices only, and no timestamp of their own. */
  method SnapshotPizzas(wires: seq<WirePizza>) returns (pizzas: seq<IndexedPizza>)
    ensures |pizzas| == |wires| && forall i :: 0 <= i < |wires| ==> pizzas[i] == Indexed(wires[i], ZERO_TIME)
    ensures forall i :: 0 <= i < |wires| ==>
              && pizzas[i].id == wires[i].id && pizzas[i].name == wires[i].name && pizzas[i].toppings == wires[i].toppings
              && pizzas[i].vegetarian == wires[i].vegetarian && pizzas[i].updatedAt == -62_135_596_800_000_000_000
    ensures forall i, q: IndexedPrice :: 0 <= i < |wires| ==>
              (q in pizzas[i].prices <==> WirePrice(q.size, q.diameter, q.price, true) in wires[i].prices)
  {
    pizzas := [];
    for i := 0 to |wires|
      invariant |pizzas| == i && forall j :: 0 <= j < i ==> pizzas[j] == Indexed(wires[j], ZERO_TIME)
    {
      var prices := FilterActive(wires[i].prices);
      pizzas := pizzas
             + [IndexedPizza(wires[i].id, wires[i].name, wires[i].vegetarian, wires[i].toppings, prices, ZERO_TIME)];
    }
    forall i, q: IndexedPrice | 0 <= i < |wires|
      ensures q in pizzas[i].prices <==> WirePrice(q.size, q.diameter, q.price, true) in wires[i].prices
    {
      ActiveOnly(wires[i].prices, q);
    }
  }

  method FilterActive(wires: seq<WirePrice>) returns (prices: seq<IndexedPrice>)
    ensures prices == ActivePrices(wires)
  {
    prices := [];
    for i := 0 to |wires|
      invariant prices == ActivePrices(wires[..i])
    {
      assert wires[..i + 1][..i] == wires[..i];
      if !wires[i].active {
        continue;
      }
      prices := prices + [IndexedPrice(wires[i].size, wires[i].diameter, wires[i].price)];
    }
    assert wires[..|wires|] == wires;
  }
}
