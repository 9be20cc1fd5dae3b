/**
Following the next cursor from the first page on, with any limit on each page, while orders are
placed between the pages.
*/
module PageWalks {
  import opened Wrappers
  import opened Cursor
  import opened Pagination

  datatype Page = Page(cursor: string, limit: int, orders: seq<OrderRow>, next: Option<OrderRow>)

  /** The table only gains rows; `snapshots[i]` is the table when page i is read. */
  ghost predicate Growing(snapshots: seq<set<OrderRow>>) {
    && (forall i :: 0 <= i < |snapshots| ==> ValidTable(snapshots[i]))
    && (forall i, j :: 0 <= i <= j < |snapshots| ==> snapshots[i] <= snapshots[j])
  }

  /** Each page is what the query answers for the cursor text of the page before. */
  ghost predicate Walk(customer: nat, snapshots: seq<set<OrderRow>>, pages: seq<Page>) {
    && |pages| == |snapshots| > 0 && Growing(snapshots)
    && pages[0].cursor == ""
    && forall i :: 0 <= i < |pages| ==> Answered(customer, snapshots[i], pages, i)
  }

  ghost predicate Answered(customer: nat, rows: set<OrderRow>, pages: seq<Page>, i: nat)
    requires i < |pages|
  {
    && (i > 0 ==> pages[i - 1].next.Some? && Valid(KeyOf(pages[i - 1].next.value))
                  && pages[i].cursor == CursorText(pages[i - 1].next))
    && DecodeCursor(pages[i].cursor).Ok?
    && IsPage(Candidates(rows, customer, DecodeCursor(pages[i].cursor).value),
              ClampLimit(pages[i].limit), pages[i].orders, pages[i].next)
  }

  /** The same with the rows the cursors stand for. */
  function After(pages: seq<Page>, i: nat): Option<PageCursor>
    requires i <= |pages|
  {
    if i == 0 || pages[i - 1].next.None? then None else Some(KeyOf(pages[i - 1].next.value))
  }

  ghost predicate PageOk(customer: nat, snapshots: seq<set<OrderRow>>, pages: seq<Page>, i: nat)
    requires i < |pages| == |snapshots|
  {
    && (i > 0 ==> pages[i - 1].next.Some?)
    && IsPage(Candidates(snapshots[i], customer, After(pages, i)), ClampLimit(pages[i].limit), pages[i].orders, pages[i].next)
  }

  lemma CursorIsRow(customer: nat, rows: set<OrderRow>, pages: seq<Page>, i: nat)
    requires i < |pages| && Answered(customer, rows, pages, i) && (i == 0 ==> pages[0].cursor == "")
    ensures i > 0 ==> pages[i - 1].next.Some?
    ensures IsPage(Candidates(rows, customer, After(pages, i)), ClampLimit(pages[i].limit), pages[i].orders, pages[i].next)
  {
    if i > 0 {
      CursorRoundTrip(KeyOf(pages[i - 1].next.value));
    }
  }

  ghost predicate KeyWalk(customer: nat, snapshots: seq<set<OrderRow>>, pages: seq<Page>) {
    && |pages| == |snapshots| > 0 && Growing(snapshots)
    && forall i :: 0 <= i < |pages| ==> PageOk(customer, snapshots, pages, i)
  }

  lemma CursorsAreRows(customer: nat, snapshots: seq<set<OrderRow>>, pages: seq<Page>)
    requires Walk(customer, snapshots, pages)
    ensures KeyWalk(customer, snapshots, pages)
  {
    forall i | 0 <= i < |pages| ensures PageOk(customer, snapshots, pages, i) {
      CursorIsRow(customer, snapshots[i], pages, i);
    }
  }

  /** The orders of the first n pages, one after the other. */
  function Shown(pages: seq<Page>, n: nat): seq<OrderRow>
    requires n <= |pages|
  {
    if n == 0 then [] else Shown(pages, n - 1) + pages[n - 1].orders
  }

  /** What the first n pages have established, `last` being the row of the cursor they end with. */
  ghost predicate Covered(customer: nat, start: set<OrderRow>, shown: seq<OrderRow>, next: Option<OrderRow>) {
    && Descending(shown)
    && (forall k :: 0 <= k < |shown| ==> shown[k].customer == customer)
    && (next.Some? ==>
          && shown != [] && shown[|shown| - 1] == next.value
          && forall r :: r in start && r.customer == customer ==> r in shown || Below(r, next.value))
    && (next.None? ==> forall r :: r in start && r.customer == customer ==> r in shown)
  }

  lemma DescendingAppend(a: seq<OrderRow>, b: seq<OrderRow>)
    requires Descending(a) && Descending(b)
    requires a != [] ==> forall k :: 0 <= k < |b| ==> Below(b[k], a[|a| - 1])
    ensures Descending(a + b)
  {
    forall i, j | 0 <= i < j < |a + b| ensures Below((a + b)[j], (a + b)[i]) {
      if i < |a| <= j {
        assert i == |a| - 1 || Below(a[|a| - 1], a[i]);
        BelowTransitive(b[j - |a|], a[|a| - 1], a[i]);
      }
    }
  }

  lemma BelowTransitive(a: OrderRow, b: OrderRow, c: OrderRow)
    requires Below(a, b)
    ensures b == c || Below(b, c) ==> Below(a, c)
  {
  }

  /** One more page keeps it. */
  lemma NextPage(customer: nat, start: set<OrderRow>, rows: set<OrderRow>, shown: seq<OrderRow>, before: Option<OrderRow>,
                 limit: nat, page: Page)
    requires (shown == [] && before.None?) || (before.Some? && Covered(customer, start, shown, before))
    requires start <= rows && limit > 0
    requires IsPage(Candidates(rows, customer, if before.None? then None else Some(KeyOf(before.value))), limit,
                    page.orders, page.next)
    ensures Covered(customer, start, shown + page.orders, page.next)
  {
    var candidates := Candidates(rows, customer, if before.None? then None else Some(KeyOf(before.value)));
    DescendingAppend(shown, page.orders);
    forall r | r in start && r.customer == customer && r !in shown
      ensures r in page.orders || (page.next.Some? && Below(r, page.next.value))
    {
      assert r in candidates;
    }
  }

  lemma {:induction false} WalkCovers(customer: nat, snapshots: seq<set<OrderRow>>, pages: seq<Page>, n: nat)
    requires KeyWalk(customer, snapshots, pages) && 0 < n <= |pages|
    ensures Covered(customer, snapshots[0], Shown(pages, n), pages[n - 1].next)
  {
    assert PageOk(customer, snapshots, pages, n - 1);
    if n > 1 {
      WalkCovers(customer, snapshots, pages, n - 1);
    }
    NextPage(customer, snapshots[0], snapshots[n - 1], Shown(pages, n - 1), if n == 1 then None else pages[n - 2].next,
             ClampLimit(pages[n - 1].limit), pages[n - 1]);
  }

  /**
  The pages together are strictly descending, so no order is shown twice; and when the cursor is
  empty at last, every order that existed at the start has been shown.
  */
  lemma NothingTwiceNothingMissed(customer: nat, snapshots: seq<set<OrderRow>>, pages: seq<Page>)
    requires Walk(customer, snapshots, pages)
    ensures Descending(Shown(pages, |pages|))
    ensures pages[|pages| - 1].next.None? ==>
              forall r :: r in snapshots[0] && r.customer == customer ==> r in Shown(pages, |pages|)
  {
    CursorsAreRows(customer, snapshots, pages);
    WalkCovers(customer, snapshots, pages, |pages|);
  }

  // ---- termination ----

  /** Orders placed during the walk are newer than the customer's orders of the start. */
  ghost predicate OnlyNewer(customer: nat, snapshots: seq<set<OrderRow>>) {
    forall i, r, q :: (&& 0 <= i < |snapshots| && r in snapshots[i] && r !in snapshots[0] && r.customer == customer
                       && q in snapshots[0] && q.customer == customer) ==> Below(q, r)
  }

  function Own(rows: set<OrderRow>, customer: nat): set<OrderRow> {
    set r | r in rows && r.customer == customer
  }

  lemma {:induction false} ShownFromStart(customer: nat, snapshots: seq<set<OrderRow>>, pages: seq<Page>, n: nat)
    requires KeyWalk(customer, snapshots, pages) && OnlyNewer(customer, snapshots) && n <= |pages|
    ensures forall k :: 0 <= k < |Shown(pages, n)| ==> Shown(pages, n)[k] in Own(snapshots[0], customer)
    ensures n > 1 ==> |Shown(pages, n - 1)| >= n - 1
  {
    if n > 0 {
      ShownFromStart(customer, snapshots, pages, n - 1);
      assert PageOk(customer, snapshots, pages, n - 1);
      var orders := pages[n - 1].orders;
      forall k | 0 <= k < |orders| ensures orders[k] in Own(snapshots[0], customer) {
        PageFromStart(customer, snapshots, pages, n - 1, k);
      }
      if n > 1 {
        assert PageOk(customer, snapshots, pages, n - 2);
      }
    }
  }

  lemma PageFromStart(customer: nat, snapshots: seq<set<OrderRow>>, pages: seq<Page>, i: nat, k: nat)
    requires KeyWalk(customer, snapshots, pages) && OnlyNewer(customer, snapshots) && i < |pages| && k < |pages[i].orders|
    requires forall k :: 0 <= k < |Shown(pages, i)| ==> Shown(pages, i)[k] in Own(snapshots[0], customer)
    ensures pages[i].orders[k] in Own(snapshots[0], customer)
  {
    assert PageOk(customer, snapshots, pages, i);
    if i > 0 {
      WalkCovers(customer, snapshots, pages, i);
      var last := Shown(pages, i)[|Shown(pages, i)| - 1];
      BelowAnOldOne(customer, snapshots, i, pages[i].orders[k], last);
    }
  }

  /** An order below one of the start was there at the start. */
  lemma BelowAnOldOne(customer: nat, snapshots: seq<set<OrderRow>>, i: nat, r: OrderRow, last: OrderRow)
    requires OnlyNewer(customer, snapshots) && i < |snapshots|
    requires r in snapshots[i] && r.customer == customer && last in Own(snapshots[0], customer) && Below(r, last)
    ensures r in Own(snapshots[0], customer)
  {
    NotBelowBoth(r, last);
  }

  lemma NotBelowBoth(a: OrderRow, b: OrderRow)
    ensures !(Below(a, b) && Below(b, a))
  {
  }

  lemma {:induction false} DistinctFit(list: seq<OrderRow>, rows: set<OrderRow>)
    requires Descending(list) && forall k :: 0 <= k < |list| ==> list[k] in rows
    ensures |list| <= |rows|
  {
    if list != [] {
      var n := |list| - 1;
      forall k | 0 <= k < n ensures list[k] in rows - {list[n]} {
        NotBelowBoth(list[n], list[k]);
      }
      DistinctFit(list[..n], rows - {list[n]});
    }
  }

  /**
  If only newer orders are placed meanwhile, the walk ends after at most one page more than the
  customer had orders at the start, and then it has shown exactly those orders.
  */
  lemma WalkTerminates(customer: nat, snapshots: seq<set<OrderRow>>, pages: seq<Page>)
    requires Walk(customer, snapshots, pages) && OnlyNewer(customer, snapshots)
    ensures |pages| <= |Own(snapshots[0], customer)| + 1
    ensures pages[|pages| - 1].next.None? ==>
              forall r :: r in Own(snapshots[0], customer) <==> r in Shown(pages, |pages|)
  {
    var n := |pages|;
    CursorsAreRows(customer, snapshots, pages);
    ShownFromStart(customer, snapshots, pages, n);
    WalkCovers(customer, snapshots, pages, n);
    if n > 1 {
      ShownFromStart(customer, snapshots, pages, n - 1);
      WalkCovers(customer, snapshots, pages, n - 1);
      DistinctFit(Shown(pages, n - 1), Own(snapshots[0], customer));
    }
  }
}
