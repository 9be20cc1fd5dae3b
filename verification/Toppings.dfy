/**
The canonical form of a topping selection.  Topping ids are numbers in the order of their text
form, which is the order the source sorts by.
*/
module Toppings {

  predicate Ascending(ids: seq<nat>) {
    forall i, j :: 0 <= i < j < |ids| ==> ids[i] <= ids[j]
  }

  /** Sorts a copy of the selection. */
  method SortedCopy(ids: seq<nat>) returns (sorted: seq<nat>)
    ensures Ascending(sorted) && multiset(sorted) == multiset(ids)
  {
    sorted := [];
    for i := 0 to |ids|
      invariant Ascending(sorted) && multiset(sorted) == multiset(ids[..i])
    {
      assert ids[..i + 1] == ids[..i] + [ids[i]];
      sorted := Insert(sorted, ids[i]);
    }
    assert ids[..|ids|] == ids;
  }

  method Insert(sorted: seq<nat>, id: nat) returns (longer: seq<nat>)
    requires Ascending(sorted)
    ensures Ascending(longer) && multiset(longer) == multiset(sorted) + multiset{id}
  {
    var at := |sorted|;
    while at > 0 && sorted[at - 1] > id
      invariant 0 <= at <= |sorted|
      invariant forall k :: at <= k < |sorted| ==> sorted[k] > id
    {
      at := at - 1;
    }
    longer := sorted[..at] + [id] + sorted[at..];
    InsertedAscending(sorted, at, id);
    InsertedElements(sorted, at, id);
  }

  lemma InsertedElements(sorted: seq<nat>, at: nat, id: nat)
    requires at <= |sorted|
    ensures multiset(sorted[..at] + [id] + sorted[at..]) == multiset(sorted) + multiset{id}
  {
    assert sorted == sorted[..at] + sorted[at..];
  }

  lemma InsertedAscending(sorted: seq<nat>, at: nat, id: nat)
    requires Ascending(sorted) && at <= |sorted|
    requires at > 0 ==> sorted[at - 1] <= id
    requires at < |sorted| ==> id <= sorted[at]
    ensures Ascending(sorted[..at] + [id] + sorted[at..])
  {
    var longer := sorted[..at] + [id] + sorted[at..];
    forall i, j | 0 <= i < j < |longer| ensures longer[i] <= longer[j] {
      assert longer[i] == if i < at then sorted[i] else if i == at then id else sorted[i - 1];
      assert longer[j] == if j < at then sorted[j] else if j == at then id else sorted[j - 1];
    }
  }

  /** Two sorted lists of the same toppings are the same list. */
  lemma {:induction false} SortedIsCanonical(a: seq<nat>, b: seq<nat>)
    requires Ascending(a) && Ascending(b) && multiset(a) == multiset(b)
    ensures a == b
  {
    SameLength(a, b);
    if a != [] {
      FirstIsLeast(a, b);
      assert a == [a[0]] + a[1..] && b == [b[0]] + b[1..];
      assert multiset(a[1..]) == multiset(a) - multiset{a[0]};
      assert multiset(b[1..]) == multiset(b) - multiset{b[0]};
      SortedIsCanonical(a[1..], b[1..]);
    }
  }

  lemma SameLength(a: seq<nat>, b: seq<nat>)
    requires multiset(a) == multiset(b)
    ensures |a| == |b|
  {
    assert |multiset(a)| == |a| && |multiset(b)| == |b|;
  }

  lemma FirstIsLeast(a: seq<nat>, b: seq<nat>)
    requires Ascending(a) && Ascending(b) && multiset(a) == multiset(b) && a != [] && b != []
    ensures a[0] == b[0]
  {
    assert a[0] in multiset(b) && b[0] in multiset(a);
    assert a[0] in b && b[0] in a;
  }
}
