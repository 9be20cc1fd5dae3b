/** Whole runs of the five scripts on one document: snapshots, field, topping and pizza updates in any order. */
module SearchRuns {
  import opened Wrappers
  import opened SearchDocument

  datatype Script =
    | Snapshot(doc: Doc)
    | PutFields(fields: Fields, at: int)
    | PutToppings(toppings: seq<IndexedTopping>, at: int)
    | PutPizza(pizza: IndexedPizza)
    | DropPizza(id: nat, at: int)

  /** A snapshot has a timestamp, and lists each pizza once. */
  predicate Sane(script: Script) {
    script.Snapshot? ==>
      script.doc.updatedAt.Some? && script.doc.toppingPricesUpdatedAt.Some? && DistinctIds(script.doc.pizzas)
  }

  function Exec(doc: Option<Doc>, script: Script): Option<Doc>
    requires Sane(script)
  {
    match script
    case Snapshot(snapshot) => OnSnapshot(doc, snapshot).0
    case PutFields(fields, at) => OnFields(doc, fields, at).0
    case PutToppings(toppings, at) => OnToppings(doc, toppings, at).0
    case PutPizza(p) => OnPizza(doc, p).0
    case DropPizza(id, at) => OnRemoval(doc, id, at).0
  }

  ghost predicate AllSane(scripts: seq<Script>) {
    forall i :: 0 <= i < |scripts| ==> Sane(scripts[i])
  }

  /** The document after the first n scripts; there is none at first. */
  ghost function At(scripts: seq<Script>, n: nat): Option<Doc>
    requires AllSane(scripts) && n <= |scripts|
  {
    if n == 0 then None else Exec(At(scripts, n - 1), scripts[n - 1])
  }

  predicate WellFormed(doc: Doc) {
    doc.updatedAt.Some? && doc.toppingPricesUpdatedAt.Some? && DistinctIds(doc.pizzas)
  }

  lemma StepWellFormed(doc: Option<Doc>, script: Script)
    requires Sane(script) && (doc.Some? ==> WellFormed(doc.value))
    ensures Exec(doc, script).Some? ==> WellFormed(Exec(doc, script).value)
    ensures doc.Some? ==>
              && Exec(doc, script).Some?
              && doc.value.updatedAt.value <= Exec(doc, script).value.updatedAt.value
              && Millis(doc.value.updatedAt.value) <= Millis(Exec(doc, script).value.updatedAt.value)
  {
    if doc.Some? {
      match script
      case PutPizza(p) => PutRefines(doc.value.pizzas, p);
      case DropPizza(id, at) => RemoveRefines(doc.value.pizzas, id, at);
      case _ =>
    }
  }

  /** Pizza ids stay distinct in every run, and the timestamps are always there. */
  lemma {:induction false} IdsStayDistinct(scripts: seq<Script>, n: nat)
    requires AllSane(scripts) && n <= |scripts|
    ensures At(scripts, n).Some? ==> WellFormed(At(scripts, n).value)
  {
    if n > 0 {
      IdsStayDistinct(scripts, n - 1);
      StepWellFormed(At(scripts, n - 1), scripts[n - 1]);
    }
  }

  /** Once the document exists it stays, and its updatedAt never decreases. */
  lemma {:induction false} UpdatedAtNeverDecreases(scripts: seq<Script>, i: nat, n: nat)
    requires AllSane(scripts) && i <= n <= |scripts| && At(scripts, i).Some?
    ensures At(scripts, n).Some? && WellFormed(At(scripts, i).value) && WellFormed(At(scripts, n).value)
    ensures At(scripts, i).value.updatedAt.value <= At(scripts, n).value.updatedAt.value
    ensures Millis(At(scripts, i).value.updatedAt.value) <= Millis(At(scripts, n).value.updatedAt.value)
    decreases n
  {
    IdsStayDistinct(scripts, i);
    if i < n {
      UpdatedAtNeverDecreases(scripts, i, n - 1);
      StepWellFormed(At(scripts, n - 1), scripts[n - 1]);
    }
  }

  /** A launch snapshot delivered again changes nothing, whatever happened since. */
  lemma RedeliveredSnapshotIsNoOp(scripts: seq<Script>, i: nat, j: nat)
    requires AllSane(scripts) && i < j < |scripts|
    requires scripts[i].Snapshot? && scripts[j] == scripts[i]
    ensures At(scripts, j + 1) == At(scripts, j)
    ensures OnSnapshot(At(scripts, j), scripts[j].doc).1 == NoOp
  {
    IdsStayDistinct(scripts, i);
    assert At(scripts, i + 1).Some?;
    UpdatedAtNeverDecreases(scripts, i + 1, j);
    assert Millis(scripts[i].doc.updatedAt.value) <= Millis(At(scripts, i + 1).value.updatedAt.value);
  }

  // ---- the newest version of a pizza ----

  function PizzaOf(doc: Option<Doc>, id: nat): Option<IndexedPizza> {
    if doc.Some? && id in MapOf(doc.value.pizzas) then Some(MapOf(doc.value.pizzas)[id]) else None
  }

  /** What an upsert does to one pizza, seen through the map. */
  lemma StepPut(doc: Option<Doc>, p: IndexedPizza, id: nat)
    requires doc.Some? && WellFormed(doc.value)
    ensures PizzaOf(Exec(doc, PutPizza(p)), id)
         == if p.id != id then PizzaOf(doc, id)
            else if PizzaOf(doc, id).Some? && Millis(p.updatedAt) <= Millis(PizzaOf(doc, id).value.updatedAt)
            then PizzaOf(doc, id)
            else Some(p)
  {
    PutRefines(doc.value.pizzas, p);
    PutIsExec(doc.value, p);
  }

  lemma PutIsExec(doc: Doc, p: IndexedPizza)
    ensures Exec(Some(doc), PutPizza(p)) == Some(doc.(pizzas := Put(doc.pizzas, p)))
  {
  }

  lemma StepDrop(doc: Option<Doc>, k: nat, at: int, id: nat)
    requires doc.Some? && WellFormed(doc.value)
    ensures PizzaOf(Exec(doc, DropPizza(k, at)), id)
         == if k == id && PizzaOf(doc, id).Some? && Millis(at) > Millis(PizzaOf(doc, id).value.updatedAt)
            then None
            else PizzaOf(doc, id)
  {
    RemoveRefines(doc.value.pizzas, k, at);
    RemoveIsExec(doc.value, k, at);
  }

  lemma RemoveIsExec(doc: Doc, k: nat, at: int)
    ensures Exec(Some(doc), DropPizza(k, at)) == Some(doc.(pizzas := Remove(doc.pizzas, k, at)))
  {
  }

  /** What one script does to one pizza. */
  lemma StepPizza(doc: Option<Doc>, script: Script, id: nat)
    requires Sane(script) && (doc.Some? ==> WellFormed(doc.value)) && !script.Snapshot?
    ensures script.PutPizza? && script.pizza.id == id && doc.Some? ==>
              PizzaOf(Exec(doc, script), id)
              == if PizzaOf(doc, id).Some? && Millis(script.pizza.updatedAt) <= Millis(PizzaOf(doc, id).value.updatedAt)
                 then PizzaOf(doc, id) else Some(script.pizza)
    ensures script.DropPizza? && script.id == id ==>
              PizzaOf(Exec(doc, script), id)
              == if PizzaOf(doc, id).Some? && Millis(script.at) <= Millis(PizzaOf(doc, id).value.updatedAt)
                 then PizzaOf(doc, id) else None
    ensures !(script.PutPizza? && script.pizza.id == id) && !(script.DropPizza? && script.id == id) ==>
              PizzaOf(Exec(doc, script), id) == PizzaOf(doc, id)
  {
    if doc.Some? {
      match script
      case PutPizza(p) => StepPut(doc, p, id);
      case DropPizza(k, at) => StepDrop(doc, k, at, id);
      case _ =>
    }
  }

  /** Every script about this pizza other than this upsert is older, in milliseconds; there is one snapshot only. */
  ghost predicate NewestUpsert(scripts: seq<Script>, p: IndexedPizza, snapshot: Doc) {
    && DistinctIds(snapshot.pizzas)
    && (forall i :: 0 <= i < |scripts| ==> Older(scripts[i], p, snapshot))
    && (forall q :: q in snapshot.pizzas && q.id == p.id ==> Millis(q.updatedAt) < Millis(p.updatedAt))
  }

  predicate Older(script: Script, p: IndexedPizza, snapshot: Doc) {
    match script
    case Snapshot(doc) => doc == snapshot
    case PutPizza(q) => q.id == p.id ==> q == p || Millis(q.updatedAt) < Millis(p.updatedAt)
    case DropPizza(id, at) => id == p.id ==> Millis(at) < Millis(p.updatedAt)
    case _ => true
  }

  predicate NotNewer(stored: Option<IndexedPizza>, p: IndexedPizza) {
    stored.Some? ==> stored.value == p || Millis(stored.value.updatedAt) < Millis(p.updatedAt)
  }

  lemma {:induction false} StoredNotNewer(scripts: seq<Script>, p: IndexedPizza, snapshot: Doc, n: nat)
    requires AllSane(scripts) && NewestUpsert(scripts, p, snapshot) && n <= |scripts|
    ensures NotNewer(PizzaOf(At(scripts, n), p.id), p)
  {
    if n > 0 {
      var script := scripts[n - 1];
      StoredNotNewer(scripts, p, snapshot, n - 1);
      IdsStayDistinct(scripts, n - 1);
      assert Older(script, p, snapshot);
      if script.Snapshot? {
        SnapshotNotNewer(p, snapshot);
      } else {
        StepPizza(At(scripts, n - 1), script, p.id);
      }
    }
  }

  lemma SnapshotNotNewer(p: IndexedPizza, snapshot: Doc)
    requires DistinctIds(snapshot.pizzas)
    requires forall q :: q in snapshot.pizzas && q.id == p.id ==> Millis(q.updatedAt) < Millis(p.updatedAt)
    ensures NotNewer(PizzaOf(Some(snapshot), p.id), p)
  {
    var idx := IndexOf(snapshot.pizzas, p.id);
    if idx == -1 {
      MapLacks(snapshot.pizzas, p.id);
    } else {
      MapAt(snapshot.pizzas, idx);
    }
  }

  /** Only a snapshot creates the document. */
  lemma {:induction false} DocumentFromSnapshot(scripts: seq<Script>, n: nat)
    requires AllSane(scripts) && n <= |scripts| && At(scripts, n).Some?
    ensures exists k :: 0 <= k < n && scripts[k].Snapshot?
  {
    if !scripts[n - 1].Snapshot? {
      DocumentFromSnapshot(scripts, n - 1);
    }
  }

  /**
  The newest upsert of a pizza wins: once its script ran on the existing document, the document
  shows exactly that version, whatever older upserts, removals and repeated snapshots follow.
  */
  lemma {:induction false} NewestPizzaWins(scripts: seq<Script>, p: IndexedPizza, snapshot: Doc, i: nat, n: nat)
    requires AllSane(scripts) && NewestUpsert(scripts, p, snapshot)
    requires i < n <= |scripts| && scripts[i] == PutPizza(p) && At(scripts, i).Some?
    ensures PizzaOf(At(scripts, n), p.id) == Some(p)
    decreases n
  {
    var script := scripts[n - 1];
    IdsStayDistinct(scripts, n - 1);
    assert Older(script, p, snapshot);
    if n - 1 == i {
      StoredNotNewer(scripts, p, snapshot, i);
      StepPizza(At(scripts, i), script, p.id);
    } else {
      NewestPizzaWins(scripts, p, snapshot, i, n - 1);
      if script.Snapshot? {
        DocumentFromSnapshot(scripts, i);
        var k :| 0 <= k < i && scripts[k].Snapshot?;
        assert Older(scripts[k], p, snapshot);
        RedeliveredSnapshotIsNoOp(scripts, k, n - 1);
      } else {
        StepPizza(At(scripts, n - 1), script, p.id);
      }
    }
  }

  /** Pizzas of a launch snapshot have no timestamp of their own, so any dated upsert replaces them. */
  lemma SnapshotPizzaYields(doc: Doc, wire: WirePizza, p: IndexedPizza)
    requires DistinctIds(doc.pizzas) && Indexed(wire, ZERO_TIME) in doc.pizzas && p.id == wire.id
    requires p.updatedAt >= ZERO_TIME + NANOS_PER_MILLI
    ensures OnPizza(Some(doc), p).1 == Written
    ensures PizzaOf(OnPizza(Some(doc), p).0, p.id) == Some(p)
  {
    var q := Indexed(wire, ZERO_TIME);
    var i :| 0 <= i < |doc.pizzas| && doc.pizzas[i] == q;
    assert IndexOf(doc.pizzas, p.id) == i;
    PutRefines(doc.pizzas, p);
    MapAt(doc.pizzas, i);
  }
}
