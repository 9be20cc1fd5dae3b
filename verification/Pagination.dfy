/**
Listing a customer's orders page by page.  A page asks for one order more than its limit to learn
whether there are more, and its cursor is the last order shown.  Orders are taken by their keys,
placed_at and id; the rest of a row may change between pages.
*/
module Pagination {
  import opened Wrappers
  import opened Cursor

  datatype OrderRow = OrderRow(customer: nat, placedAt: Timestamp, id: seq<nat>)

  datatype Response = Response(orders: seq<OrderRow>, nextCursor: string)

  // ---- the order of keys ----

  function LeapDaysBefore(year: nat): int {
    (year + 3) / 4 - (year + 99) / 100 + (year + 399) / 400
  }

  function DaysBeforeMonth(year: nat, month: nat): nat {
    if month <= 1 then 0 else DaysBeforeMonth(year, month - 1) + DaysIn(year, month - 1)
  }

  /** Nanoseconds since the start of year 0, in UTC. */
  function Instant(t: Timestamp): int {
    var days := 365 * t.year + LeapDaysBefore(t.year) + DaysBeforeMonth(t.year, t.month) + t.day - 1;
    (((days * 24 + t.hour) * 60 + t.minute - t.offset) * 60 + t.second) * 1_000_000_000 + t.nanos
  }

  // ---- what the instant means ----

  /** Earlier by the calendar and the clock. */
  ghost predicate Earlier(a: Timestamp, b: Timestamp) {
    || a.year < b.year
    || (a.year == b.year && a.month < b.month)
    || (a.year == b.year && a.month == b.month && EarlierInMonth(a, b))
  }

  ghost predicate EarlierInMonth(a: Timestamp, b: Timestamp) {
    || a.day < b.day
    || (a.day == b.day && a.hour < b.hour)
    || (a.day == b.day && a.hour == b.hour && a.minute < b.minute)
    || (a.day == b.day && a.hour == b.hour && a.minute == b.minute && a.second < b.second)
    || (a.day == b.day && a.hour == b.hour && a.minute == b.minute && a.second == b.second && a.nanos < b.nanos)
  }

  function DayNumber(t: Timestamp): int {
    365 * t.year + LeapDaysBefore(t.year) + DaysBeforeMonth(t.year, t.month) + t.day - 1
  }

  lemma LeapDayOf(year: nat)
    ensures LeapDaysBefore(year + 1) == LeapDaysBefore(year) + if Leap(year) then 1 else 0
  {
    assert (year + 4) / 4 == (year + 3) / 4 + if year % 4 == 0 then 1 else 0;
    assert (year + 100) / 100 == (year + 99) / 100 + if year % 100 == 0 then 1 else 0;
    assert (year + 400) / 400 == (year + 399) / 400 + if year % 400 == 0 then 1 else 0;
    assert year % 400 == 0 ==> year % 100 == 0;
    assert year % 100 == 0 ==> year % 4 == 0;
  }

  lemma YearLength(year: nat)
    ensures DaysBeforeMonth(year, 12) + 31 == 365 + if Leap(year) then 1 else 0
  {
    var leap := if Leap(year) then 1 else 0;
    assert DaysBeforeMonth(year, 2) == 31;
    assert DaysBeforeMonth(year, 4) == 90 + leap;
    assert DaysBeforeMonth(year, 6) == 151 + leap;
    assert DaysBeforeMonth(year, 8) == 212 + leap;
    assert DaysBeforeMonth(year, 10) == 273 + leap;
  }

  lemma {:induction false} MonthsFollow(year: nat, a: nat, b: nat)
    requires 1 <= a < b
    ensures DaysBeforeMonth(year, a) + DaysIn(year, a) <= DaysBeforeMonth(year, b)
  {
    if a + 1 < b {
      MonthsFollow(year, a, b - 1);
    }
  }

  lemma {:induction false} YearsFollow(a: nat, b: nat)
    requires a < b
    ensures 365 * a + LeapDaysBefore(a) + DaysBeforeMonth(a, 12) + 31 <= 365 * b + LeapDaysBefore(b)
  {
    YearLength(a);
    if a + 1 == b {
      LeapDayOf(a);
    } else {
      YearsFollow(a, b - 1);
      LeapDayOf(b - 1);
    }
  }

  lemma EarlierDay(a: Timestamp, b: Timestamp)
    requires ValidTime(a) && ValidTime(b)
    requires a.year < b.year || (a.year == b.year && a.month < b.month)
    ensures DayNumber(a) < DayNumber(b)
  {
    if a.month < 12 {
      MonthsFollow(a.year, a.month, 12);
    }
    if a.year < b.year {
      YearsFollow(a.year, b.year);
    } else {
      MonthsFollow(a.year, a.month, b.month);
    }
  }

  lemma EarlierIsLess(a: Timestamp, b: Timestamp)
    requires ValidTime(a) && ValidTime(b) && a.offset == b.offset && Earlier(a, b)
    ensures Instant(a) < Instant(b)
  {
    if a.year != b.year || a.month != b.month {
      EarlierDay(a, b);
    }
  }

  /** With the same offset, instants compare as the calendar and the clock do. */
  lemma InstantOrder(a: Timestamp, b: Timestamp)
    requires ValidTime(a) && ValidTime(b) && a.offset == b.offset
    ensures Instant(a) < Instant(b) <==> Earlier(a, b)
    ensures Instant(a) == Instant(b) <==> a == b
  {
    if Earlier(a, b) {
      EarlierIsLess(a, b);
    } else if Earlier(b, a) {
      EarlierIsLess(b, a);
    } else {
      assert a == b;
    }
  }

  /** An offset of so many minutes names an instant that is so many minutes earlier. */
  lemma InstantOffset(t: Timestamp)
    ensures Instant(t) == Instant(t.(offset := 0)) - t.offset * 60_000_000_000
  {
  }

  /** The day after: in the month, or the first of the next month or year. */
  function NextDay(t: Timestamp): Timestamp {
    if t.day < DaysIn(t.year, t.month) then t.(day := t.day + 1)
    else if t.month < 12 then t.(month := t.month + 1, day := 1)
    else t.(year := t.year + 1, month := 1, day := 1)
  }

  /** Every day is 24 hours long, at the ends of months and years too. */
  lemma InstantOfNextDay(t: Timestamp)
    requires ValidTime(t)
    ensures Instant(NextDay(t)) == Instant(t) + 86_400_000_000_000
  {
    assert DayNumber(NextDay(t)) == DayNumber(t) + 1 by {
      if t.month == 12 {
        YearLength(t.year);
        LeapDayOf(t.year);
      }
    }
  }

  /** The start of Unix time, and a leap day 1,709,200,800 seconds later. */
  lemma KnownInstants(epoch: Timestamp, leapDay: Timestamp)
    requires epoch == Timestamp(1970, 1, 1, 0, 0, 0, 0, 0)
    requires leapDay == Timestamp(2024, 2, 29, 12, 0, 0, 7, 120)
    ensures Instant(epoch) == 62_167_219_200 * 1_000_000_000
    ensures Instant(leapDay) - Instant(epoch) == 1_709_200_800 * 1_000_000_000 + 7
  {
    assert DayNumber(epoch) == 719_528;
    assert DaysBeforeMonth(leapDay.year, 2) == 31;
    assert DayNumber(leapDay) == 739_310;
  }

  /** A UUID as a number, most significant byte first. */
  function IdNumber(id: seq<nat>): nat {
    if id == [] then 0 else IdNumber(id[..|id| - 1]) * 256 + id[|id| - 1]
  }

  lemma {:induction false} IdNumberInjective(a: seq<nat>, b: seq<nat>)
    requires |a| == |b| && Base64.Bytes(a) && Base64.Bytes(b) && IdNumber(a) == IdNumber(b)
    ensures a == b
  {
    if a != [] {
      var n := |a| - 1;
      IdNumberInjective(a[..n], b[..n]);
      assert a == a[..n] + [a[n]] && b == b[..n] + [b[n]];
    }
  }

  /** UUIDs compare as their bytes do: the first that differ decide. */
  lemma {:induction false} IdOrder(a: seq<nat>, b: seq<nat>, k: nat)
    requires |a| == |b| && k < |a| && Base64.Bytes(a) && Base64.Bytes(b) && a[..k] == b[..k] && a[k] < b[k]
    ensures IdNumber(a) < IdNumber(b)
  {
    var n := |a| - 1;
    if k < n {
      assert a[..n][..k] == a[..k] && b[..n][..k] == b[..k];
      IdOrder(a[..n], b[..n], k);
    }
  }

  predicate Less(a: PageCursor, b: PageCursor) {
    || Instant(a.placedAt) < Instant(b.placedAt)
    || (Instant(a.placedAt) == Instant(b.placedAt) && IdNumber(a.id) < IdNumber(b.id))
  }

  function KeyOf(r: OrderRow): PageCursor {
    PageCursor(r.placedAt, r.id)
  }

  /** a comes after b in a listing. */
  predicate Below(a: OrderRow, b: OrderRow) {
    Less(KeyOf(a), KeyOf(b))
  }

  lemma BelowTransitive(a: OrderRow, b: OrderRow, c: OrderRow)
    requires Below(a, b) && Below(b, c)
    ensures Below(a, c)
  {
  }

  ghost predicate ValidTable(rows: set<OrderRow>) {
    && (forall r :: r in rows ==> Valid(KeyOf(r)))
    && (forall a, b :: a in rows && b in rows && a.id == b.id ==> a == b)
  }

  lemma Comparable(rows: set<OrderRow>, a: OrderRow, b: OrderRow)
    requires ValidTable(rows) && a in rows && b in rows && a != b
    ensures Below(a, b) || Below(b, a)
  {
    if IdNumber(a.id) == IdNumber(b.id) {
      IdNumberInjective(a.id, b.id);
    }
  }

  predicate Descending(list: seq<OrderRow>) {
    forall i, j :: 0 <= i < j < |list| ==> Below(list[j], list[i])
  }

  // ---- one page ----

  /** The rows the query selects from. */
  function Candidates(rows: set<OrderRow>, customer: nat, after: Option<PageCursor>): set<OrderRow> {
    set r | r in rows && r.customer == customer && (after.Some? ==> Less(KeyOf(r), after.value))
  }

  /** The first `limit` candidates in descending order. */
  ghost predicate IsListing(candidates: set<OrderRow>, limit: nat, list: seq<OrderRow>) {
    && |list| <= limit && Descending(list)
    && (forall i :: 0 <= i < |list| ==> list[i] in candidates)
    && (forall c :: c in candidates ==> c in list || |list| == limit)
    && (forall c, i :: c in candidates && c !in list && 0 <= i < |list| ==> Below(c, list[i]))
  }

  /**
  The listing in fields: the customer's rows before the cursor, latest first and larger id first
  among equals, with nothing left out before its end.
  */
  ghost predicate FirstRowsBelow(rows: set<OrderRow>, customer: nat, after: Option<PageCursor>, limit: nat,
                                 list: seq<OrderRow>) {
    && |list| <= limit
    && (forall i :: 0 <= i < |list| ==> list[i] in rows && list[i].customer == customer)
    && (forall i :: 0 <= i < |list| ==>
          || after.None? || Instant(list[i].placedAt) < Instant(after.value.placedAt)
          || (Instant(list[i].placedAt) == Instant(after.value.placedAt) && IdNumber(list[i].id) < IdNumber(after.value.id)))
    && (forall i, j :: 0 <= i < j < |list| ==>
          || Instant(list[i].placedAt) > Instant(list[j].placedAt)
          || (Instant(list[i].placedAt) == Instant(list[j].placedAt) && IdNumber(list[i].id) > IdNumber(list[j].id)))
    && (forall r | && r in rows && r.customer == customer && r !in list
                   && (|| after.None? || Instant(r.placedAt) < Instant(after.value.placedAt)
                       || (Instant(r.placedAt) == Instant(after.value.placedAt)
                           && IdNumber(r.id) < IdNumber(after.value.id))) ::
          && |list| == limit
          && forall i :: 0 <= i < |list| ==>
               || Instant(r.placedAt) < Instant(list[i].placedAt)
               || (Instant(r.placedAt) == Instant(list[i].placedAt) && IdNumber(r.id) < IdNumber(list[i].id)))
  }

  lemma ListingIsFirst(rows: set<OrderRow>, customer: nat, after: Option<PageCursor>, limit: nat, list: seq<OrderRow>)
    requires IsListing(Candidates(rows, customer, after), limit, list)
    ensures FirstRowsBelow(rows, customer, after, limit, list)
  {
    forall r | r in Candidates(rows, customer, after) && r !in list
      ensures |list| == limit && forall i :: 0 <= i < |list| ==> Below(r, list[i])
    {
    }
  }

  /** A page: the orders shown, and the last of them if there are more. */
  ghost predicate IsPage(candidates: set<OrderRow>, limit: nat, orders: seq<OrderRow>, next: Option<OrderRow>) {
    && |orders| <= limit && Descending(orders)
    && (forall i :: 0 <= i < |orders| ==> orders[i] in candidates)
    && (next.None? ==> forall c :: c in candidates ==> c in orders)
    && (next.Some? ==>
          && |orders| == limit > 0 && next.value == orders[limit - 1]
          && forall c :: c in candidates && c !in orders ==> Below(c, next.value))
  }

  function CursorText(next: Option<OrderRow>): string
    requires next.Some? ==> Valid(KeyOf(next.value))
  {
    if next.None? then "" else EncodeCursor(KeyOf(next.value))
  }

  /** `list` is the start of the listing of the candidates, and `rest` holds those not yet listed. */
  ghost predicate ListedSoFar(candidates: set<OrderRow>, list: seq<OrderRow>, rest: set<OrderRow>) {
    && Descending(list) && rest <= candidates
    && (forall i :: 0 <= i < |list| ==> list[i] in candidates && list[i] !in rest)
    && (forall c :: c in candidates ==> c in list || c in rest)
    && (forall c, i :: c in rest && 0 <= i < |list| ==> Below(c, list[i]))
  }

  lemma ListNext(candidates: set<OrderRow>, list: seq<OrderRow>, rest: set<OrderRow>, best: OrderRow)
    requires ListedSoFar(candidates, list, rest) && best in rest
    requires forall c :: c in rest && c != best ==> Below(c, best)
    ensures ListedSoFar(candidates, list + [best], rest - {best})
  {
  }

  /** Cutting a listing of one row too many gives the page. */
  lemma CutIsPage(candidates: set<OrderRow>, limit: nat, list: seq<OrderRow>)
    requires limit > 0 && IsListing(candidates, limit + 1, list)
    ensures |list| <= limit ==> IsPage(candidates, limit, list, None)
    ensures |list| > limit ==> IsPage(candidates, limit, list[..limit], Some(list[limit - 1]))
  {
    if |list| > limit {
      var cut := list[..limit];
      assert list == cut + [list[limit]];
      forall c | c in candidates && c !in cut ensures Below(c, list[limit - 1]) {
      }
    }
  }

  class OrderRepository {
    var rows: set<OrderRow>

    /** The candidate that comes first in descending order. */
    method First(candidates: set<OrderRow>) returns (best: OrderRow)
      requires candidates != {} && candidates <= rows && ValidTable(rows)
      ensures best in candidates && forall c :: c in candidates && c != best ==> Below(c, best)
    {
      best :| best in candidates;
      var rest := candidates - {best};
      while rest != {}
        invariant rest <= candidates && best in candidates && best !in rest
        invariant forall c :: c in candidates && c !in rest && c != best ==> Below(c, best)
        decreases |rest|
      {
        var r :| r in rest;
        Comparable(rows, r, best);
        if Below(best, r) {
          forall c | c in candidates && c !in rest && c != best ensures Below(c, r) {
            BelowTransitive(c, best, r);
          }
          best := r;
        }
        rest := rest - {r};
      }
    }

    method ListByCustomer(customer: nat, after: Option<PageCursor>, limit: nat) returns (list: seq<OrderRow>)
      requires ValidTable(rows)
      ensures FirstRowsBelow(rows, customer, after, limit, list)
      ensures IsListing(Candidates(rows, customer, after), limit, list)
    {
      var candidates := set r | r in rows && r.customer == customer;
      if after.Some? {
        candidates := set r | r in candidates && Less(KeyOf(r), after.value);
      }
      assert candidates == Candidates(rows, customer, after);
      list := [];
      var rest := candidates;
      while |list| < limit && rest != {}
        invariant |list| <= limit && candidates <= rows && ListedSoFar(candidates, list, rest)
        decreases |rest|
      {
        var best := First(rest);
        ListNext(candidates, list, rest, best);
        list := list + [best];
        rest := rest - {best};
      }
      ListingIsFirst(rows, customer, after, limit, list);
    }
  }

  class ListMyOrders {
    var repo: OrderRepository

    constructor (repo: OrderRepository)
      ensures this.repo == repo
    {
      this.repo := repo;
    }

    /** One page, or an error for a malformed cursor; `next` is the row the new cursor stands for. */
    method Execute(customer: nat, cursor: string, limit: int)
      returns (r: Result<Response, Malformed>, ghost next: Option<OrderRow>)
      requires ValidTable(repo.rows)
      ensures r.Err? <==> DecodeCursor(cursor).Err?
      ensures r.Ok? ==>
                && IsPage(Candidates(repo.rows, customer, DecodeCursor(cursor).value), ClampLimit(limit), r.value.orders, next)
                && (next.Some? ==> Valid(KeyOf(next.value)))
                && r.value.nextCursor == CursorText(next)
    {
      next := None;
      var after := DecodeCursor(cursor);
      if after.Err? {
        return Err(Malformed.Malformed), None;
      }
      var orders, last := PageAfter(customer, after.value, ClampLimit(limit));
      return Ok(Response(orders, CursorText(last))), last;
    }

    /** The page below a key, and its last row if there are more. */
    method PageAfter(customer: nat, after: Option<PageCursor>, limit: nat)
      returns (items: seq<OrderRow>, last: Option<OrderRow>)
      requires ValidTable(repo.rows) && limit > 0
      ensures IsPage(Candidates(repo.rows, customer, after), limit, items, last)
      ensures last.Some? ==> Valid(KeyOf(last.value))
    {
      var orders := repo.ListByCustomer(customer, after, limit + 1);
      CutIsPage(Candidates(repo.rows, customer, after), limit, orders);
      items, last := Cut(orders, limit);
    }
  }

  /** The first rows, and the last of them if there are more. */
  method Cut(orders: seq<OrderRow>, limit: nat) returns (items: seq<OrderRow>, last: Option<OrderRow>)
    requires limit > 0
    ensures items == if |orders| > limit then orders[..limit] else orders
    ensures last == if |orders| > limit then Some(orders[limit - 1]) else None
  {
    var hasMore := |orders| > limit;
    var kept := if hasMore then orders[..limit] else orders;
    items := [];
    for i := 0 to |kept|
      invariant items == kept[..i]
    {
      items := items + [kept[i]];
    }
    last := None;
    if hasMore {
      last := Some(kept[|kept| - 1]);
    }
  }
}
