/**
Orders of the order service: the entity with its status changes, the dispatch of its domain
events into the outbox, and the handlers and commands that change a stored order.  Each of
these runs here as one atomic step on the order and outbox tables; their interleaving at the
level of separate reads and saves is in module Saga.
*/
module Orders {
  import opened Wrappers

  datatype Status = Pending | Confirmed | Ready | Completed | Cancelled

  datatype Item = Item(name: string, quantity: nat)

  datatype OrderData = OrderData(
    id: nat, customer: nat, restaurant: nat,
    email: string, items: seq<Item>, total: nat,
    status: Status,
    paymentId: Option<nat>,
    confirmedAt: Option<nat>, readyAt: Option<nat>, completedAt: Option<nat>, cancelledAt: Option<nat>)

  datatype DomainEvent =
    | OrderConfirmed(order: nat, customer: nat, restaurant: nat, at: nat)
    | AddressSaved(customer: nat, at: nat)

  datatype Payload =
    | ConfirmedPayload(order: nat, restaurant: nat, restaurantName: string, customerEmail: string,
                       ownerEmail: string, items: seq<Item>, total: nat, confirmedAt: nat)
    | AddressPayload(customer: nat, occurredAt: nat)

  datatype OutboxRow = OutboxRow(aggregate: nat, payload: Payload)

  datatype RestaurantInfo = RestaurantInfo(name: string, owner: nat, ownerEmail: string)

  // ---- status changes ----

  function ConfirmedOrder(d: OrderData, now: nat): OrderData {
    d.(status := Confirmed, confirmedAt := Some(now))
  }

  function ReadyOrder(d: OrderData, now: nat): OrderData {
    d.(status := Ready, readyAt := Some(now))
  }

  function CompletedOrder(d: OrderData, now: nat): OrderData {
    d.(status := Completed, completedAt := Some(now))
  }

  function CancelledOrder(d: OrderData, now: nat): OrderData {
    d.(status := Cancelled, cancelledAt := Some(now))
  }

  predicate Paid(status: Status) {
    status in {Confirmed, Ready, Completed}
  }

  /** The place of a status in the life cycle. */
  function Rank(status: Status): nat {
    match status
    case Pending => 0
    case Confirmed => 1
    case Ready => 2
    case Completed => 3
    case Cancelled => 3
  }

  class Order {
    var data: OrderData
    var events: seq<DomainEvent>

    /** A loaded order: the events are not stored. */
    constructor (data: OrderData)
      ensures this.data == data && events == []
    {
      this.data := data;
      events := [];
    }

    method Confirm(now: nat) returns (ok: bool)
      modifies this
      ensures ok == old(data.status.Pending?)
      ensures data == if ok then old(data).(status := Confirmed, confirmedAt := Some(now)) else old(data)
      ensures events == old(events)
                        + if ok then [OrderConfirmed(data.id, data.customer, data.restaurant, now)] else []
    {
      if !data.status.Pending? {
        return false;
      }
      data := data.(status := Confirmed);
      data := data.(confirmedAt := Some(now));
      events := events + [OrderConfirmed(data.id, data.customer, data.restaurant, now)];
      return true;
    }

    method MarkReady(now: nat) returns (ok: bool)
      modifies this`data
      ensures ok == old(data.status.Confirmed?)
      ensures data == if ok then old(data).(status := Ready, readyAt := Some(now)) else old(data)
    {
      if !data.status.Confirmed? {
        return false;
      }
      data := data.(status := Ready);
      data := data.(readyAt := Some(now));
      return true;
    }

    method Complete(now: nat) returns (ok: bool)
      modifies this`data
      ensures ok == old(data.status.Confirmed? || data.status.Ready?)
      ensures data == if ok then old(data).(status := Completed, completedAt := Some(now)) else old(data)
    {
      match data.status {
        case Confirmed =>
        case Ready =>
        case _ => return false;
      }
      data := data.(status := Completed);
      data := data.(completedAt := Some(now));
      return true;
    }

    method Cancel(now: nat) returns (ok: bool)
      modifies this`data
      ensures ok == old(data.status.Pending?)
      ensures data == if ok then old(data).(status := Cancelled, cancelledAt := Some(now)) else old(data)
    {
      if !data.status.Pending? {
        return false;
      }
      data := data.(status := Cancelled);
      data := data.(cancelledAt := Some(now));
      return true;
    }

    method PullEvents() returns (pulled: seq<DomainEvent>)
      modifies this`events
      ensures pulled == old(events) && events == []
    {
      pulled := events;
      events := [];
    }
  }

  // ---- dispatching domain events ----

  /** What the confirmation handler's enricher needs besides the order itself. */
  datatype Enrichment = Enrichment(restaurantName: string, ownerEmail: string, items: seq<Item>)

  /** The outbox payload of an event; without an enricher order.confirmed has none. */
  function PayloadOf(d: OrderData, enrichment: Option<Enrichment>, e: DomainEvent): Option<Payload> {
    match e
    case AddressSaved(customer, at) => Some(AddressPayload(customer, at))
    case OrderConfirmed(order, _, restaurant, at) =>
      if enrichment.None? then None
      else
        Some(ConfirmedPayload(order, restaurant, enrichment.value.restaurantName, d.email,
                              enrichment.value.ownerEmail, enrichment.value.items, d.total, at))
  }

  function RowsFor(d: OrderData, enrichment: Option<Enrichment>, events: seq<DomainEvent>): seq<OutboxRow> {
    if events == [] then []
    else
      var last := PayloadOf(d, enrichment, events[|events| - 1]);
      RowsFor(d, enrichment, events[..|events| - 1]) + if last.Some? then [OutboxRow(d.id, last.value)] else []
  }

  /** With an enrichment every event has its row, in the same place and with its own fields. */
  lemma {:induction false} RowsOneByOne(d: OrderData, x: Enrichment, events: seq<DomainEvent>)
    ensures |RowsFor(d, Some(x), events)| == |events|
    ensures forall k :: 0 <= k < |events| ==>
              RowsFor(d, Some(x), events)[k] ==
              match events[k]
              case AddressSaved(customer, at) => OutboxRow(d.id, AddressPayload(customer, at))
              case OrderConfirmed(order, _, restaurant, at) =>
                OutboxRow(d.id, ConfirmedPayload(order, restaurant, x.restaurantName, d.email, x.ownerEmail, x.items, d.total, at))
  {
    if events != [] {
      RowsOneByOne(d, x, events[..|events| - 1]);
    }
  }

  /** Without one only the saved addresses have rows. */
  lemma {:induction false} AddressRowsOnly(d: OrderData, events: seq<DomainEvent>, r: OutboxRow)
    ensures r in RowsFor(d, None, events) <==>
              && r.aggregate == d.id && r.payload.AddressPayload?
              && AddressSaved(r.payload.customer, r.payload.occurredAt) in events
  {
    if events != [] {
      var n := |events| - 1;
      AddressRowsOnly(d, events[..n], r);
      assert events == events[..n] + [events[n]];
    }
  }

  lemma SingleRow(d: OrderData, enrichment: Option<Enrichment>, events: seq<DomainEvent>)
    requires |events| == 1
    ensures RowsFor(d, enrichment, events)
         == var p := PayloadOf(d, enrichment, events[0]); if p.Some? then [OutboxRow(d.id, p.value)] else []
  {
    assert events[..0] == [];
    assert RowsFor(d, enrichment, events[..0]) == [];
  }

  /** The orders that these outbox rows announce as confirmed. */
  function Announced(rows: seq<OutboxRow>): seq<nat> {
    if rows == [] then []
    else
      Announced(rows[..|rows| - 1]) +
      if rows[|rows| - 1].payload.ConfirmedPayload? then [rows[|rows| - 1].payload.order] else []
  }

  lemma {:induction false} AnnouncedAppend(a: seq<OutboxRow>, b: seq<OutboxRow>)
    ensures Announced(a + b) == Announced(a) + Announced(b)
  {
    if b == [] {
      assert a + b == a;
    } else {
      var n := |b| - 1;
      assert (a + b)[..|a| + n] == a + b[..n];
      AnnouncedAppend(a, b[..n]);
    }
  }

  lemma AnnouncedOne(row: OutboxRow)
    ensures Announced([row]) == if row.payload.ConfirmedPayload? then [row.payload.order] else []
  {
    assert [row][..0] == [];
  }

  /** How many of these announcements are of this order. */
  function Times(announced: seq<nat>, id: nat): nat {
    multiset(announced)[id]
  }

  /** Drains the events into outbox rows, in order; an event no payload is known for is dropped. */
  method DispatchEventsTx(ord: Order, enrichment: Option<Enrichment>) returns (rows: seq<OutboxRow>)
    modifies ord
    ensures rows == RowsFor(old(ord.data), enrichment, old(ord.events))
    ensures ord.events == [] && ord.data == old(ord.data)
    ensures enrichment.Some? ==>
              var d, x, events := old(ord.data), enrichment.value, old(ord.events);
              && |rows| == |events|
              && forall k :: 0 <= k < |events| ==>
                   rows[k] ==
                   match events[k]
                   case AddressSaved(customer, at) => OutboxRow(d.id, AddressPayload(customer, at))
                   case OrderConfirmed(order, _, restaurant, at) =>
                     OutboxRow(d.id, ConfirmedPayload(order, restaurant, x.restaurantName, d.email, x.ownerEmail, x.items,
                                                      d.total, at))
    ensures enrichment.None? ==>
              forall r :: r in rows <==>
                && r.aggregate == old(ord.data).id && r.payload.AddressPayload?
                && AddressSaved(r.payload.customer, r.payload.occurredAt) in old(ord.events)
  {
    if enrichment.Some? {
      RowsOneByOne(ord.data, enrichment.value, ord.events);
    } else {
      forall r ensures r in RowsFor(ord.data, None, ord.events) <==>
                         && r.aggregate == ord.data.id && r.payload.AddressPayload?
                         && AddressSaved(r.payload.customer, r.payload.occurredAt) in ord.events
      {
        AddressRowsOnly(ord.data, ord.events, r);
      }
    }
    var pulled := ord.PullEvents();
    rows := [];
    for i := 0 to |pulled|
      invariant rows == RowsFor(ord.data, enrichment, pulled[..i])
    {
      assert pulled[..i + 1][..i] == pulled[..i];
      var payload := PayloadOf(ord.data, enrichment, pulled[i]);
      if payload.Some? {
        rows := rows + [OutboxRow(ord.data.id, payload.value)];
      }
    }
    assert pulled[..|pulled|] == pulled;
  }

  // ---- handlers and commands, each one transaction ----

  datatype Db = Db(orders: map<nat, OrderData>, restaurants: map<nat, RestaurantInfo>, outbox: seq<OutboxRow>)

  datatype Outcome = Done | NoOp | NotFound | Forbidden | Conflict | Unavailable

  /** Which orders a caller may touch: their own, or those of a restaurant they own. */
  datatype Caller = Customer(user: nat) | Owner(user: nat)

  datatype GatewayAnswer = CheckFailed | StillOpen | PaymentFailed | PaymentSucceeded

  predicate MayTouch(db: Db, caller: Caller, id: nat) {
    && id in db.orders
    && match caller
       case Customer(user) => db.orders[id].customer == user
       case Owner(user) =>
         db.orders[id].restaurant in db.restaurants && db.restaurants[db.orders[id].restaurant].owner == user
  }

  function Save(db: Db, d: OrderData): Db {
    db.(orders := db.orders[d.id := d])
  }

  function ConfirmationRow(db: Db, d: OrderData, now: nat): OutboxRow
    requires d.restaurant in db.restaurants
  {
    var r := db.restaurants[d.restaurant];
    OutboxRow(d.id, ConfirmedPayload(d.id, d.restaurant, r.name, d.email, r.ownerEmail, d.items, d.total, now))
  }

  ghost predicate Keyed(db: Db) {
    forall id :: id in db.orders ==> db.orders[id].id == id
  }

  function OnPaymentSucceeded(db: Db, subject: string, id: nat, now: nat): (Db, Outcome) {
    if subject != "order" then (db, NoOp)
    else if id !in db.orders then (db, NotFound)
    else if !db.orders[id].status.Pending? then (db, NoOp)
    else if db.orders[id].restaurant !in db.restaurants then (db, NotFound)
    else
      var d := ConfirmedOrder(db.orders[id], now);
      (Save(db, d).(outbox := db.outbox + [ConfirmationRow(db, d, now)]), Done)
  }

  function OnPaymentFailed(db: Db, subject: string, id: nat, now: nat): (Db, Outcome) {
    if subject != "order" then (db, NoOp)
    else if id !in db.orders then (db, NotFound)
    else if !db.orders[id].status.Pending? then (db, NoOp)
    else (Save(db, CancelledOrder(db.orders[id], now)), Done)
  }

  function OnCancel(db: Db, caller: Caller, id: nat, answer: GatewayAnswer, now: nat): (Db, Outcome) {
    if !MayTouch(db, caller, id) then (db, Forbidden)
    else
      var d := db.orders[id];
      if d.paymentId.Some? && answer.CheckFailed? then (db, Unavailable)
      else if d.paymentId.Some? && answer.PaymentSucceeded? then (db, Conflict)
      else if !d.status.Pending? then (db, Conflict)
      else (Save(db, CancelledOrder(d, now)), Done)
  }

  function OnMarkReady(db: Db, owner: nat, id: nat, now: nat): (Db, Outcome) {
    if !MayTouch(db, Owner(owner), id) then (db, Forbidden)
    else if !db.orders[id].status.Confirmed? then (db, Conflict)
    else (Save(db, ReadyOrder(db.orders[id], now)), Done)
  }

  function OnComplete(db: Db, owner: nat, id: nat, now: nat): (Db, Outcome) {
    if !MayTouch(db, Owner(owner), id) then (db, Forbidden)
    else if !db.orders[id].status.Confirmed? && !db.orders[id].status.Ready? then (db, Conflict)
    else (Save(db, CompletedOrder(db.orders[id], now)), Done)
  }

  /** A new order as checkout stores it, before the payment is created. */
  predicate Fresh(d: OrderData) {
    && d.status.Pending? && d.paymentId.None?
    && d.confirmedAt.None? && d.readyAt.None? && d.completedAt.None? && d.cancelledAt.None?
  }

  /** Checkout from the order's creation on: the payment id is recorded if creating the payment worked. */
  function OnCheckout(db: Db, d: OrderData, saveAddress: bool, payment: Option<nat>, now: nat): (Db, Outcome) {
    var placed := Save(db, d).(outbox := db.outbox
                                         + if saveAddress then [OutboxRow(d.id, AddressPayload(d.customer, now))] else []);
    if payment.None? then (placed, Unavailable)
    else (Save(placed, d.(paymentId := payment)), Done)
  }

  class OrderService {
    var orders: map<nat, OrderData>
    var restaurants: map<nat, RestaurantInfo>
    var outbox: seq<OutboxRow>

    ghost function View(): Db
      reads this
    {
      Db(orders, restaurants, outbox)
    }

    /** payment.succeeded: confirm the order and record order.confirmed, or change nothing. */
    method HandlePaymentSucceeded(subject: string, id: nat, now: nat) returns (outcome: Outcome)
      requires Keyed(View())
      modifies this
      ensures (View(), outcome) == OnPaymentSucceeded(old(View()), subject, id, now)
      ensures outcome == Done <==>
                && subject == "order" && id in old(orders) && old(orders)[id].status.Pending?
                && old(orders)[id].restaurant in restaurants
      ensures restaurants == old(restaurants) && (outcome != Done ==> orders == old(orders) && outbox == old(outbox))
      // the order is confirmed, and the row says so with the order's and its restaurant's data
      ensures outcome == Done ==>
                orders == old(orders)[id := old(orders)[id].(status := Confirmed, confirmedAt := Some(now))]
      ensures outcome == Done ==>
                && |outbox| == |old(outbox)| + 1 && outbox[..|old(outbox)|] == old(outbox)
                && var row, d := outbox[|old(outbox)|], orders[id];
                   && row.aggregate == id && row.payload.ConfirmedPayload?
                   && row.payload.order == id && row.payload.restaurant == d.restaurant
                   && row.payload.restaurantName == restaurants[d.restaurant].name
                   && row.payload.ownerEmail == restaurants[d.restaurant].ownerEmail
                   && row.payload.customerEmail == d.email && row.payload.items == d.items
                   && row.payload.total == d.total && Some(row.payload.confirmedAt) == d.confirmedAt
    {
      if subject != "order" {
        return NoOp;
      }
      if id !in orders {
        return NotFound;
      }
      var ord := new Order(orders[id]);
      var ok := ord.Confirm(now);
      if !ok {
        return NoOp;
      }
      var before := orders;
      orders := orders[id := ord.data];
      if ord.data.restaurant !in restaurants {
        orders := before;  // the transaction is rolled back
        return NotFound;
      }
      var restaurant := restaurants[ord.data.restaurant];
      var items := CopyItems(ord.data.items);
      var enrichment := Some(Enrichment(restaurant.name, restaurant.ownerEmail, items));
      SingleRow(ord.data, enrichment, ord.events);
      var rows := DispatchEventsTx(ord, enrichment);
      outbox := outbox + rows;
      return Done;
    }

    method HandlePaymentFailed(subject: string, id: nat, now: nat) returns (outcome: Outcome)
      requires Keyed(View())
      modifies this
      ensures (View(), outcome) == OnPaymentFailed(old(View()), subject, id, now)
      ensures outcome == Done <==> subject == "order" && id in old(orders) && old(orders)[id].status.Pending?
      ensures restaurants == old(restaurants) && outbox == old(outbox)
      ensures orders
           == if outcome == Done then old(orders)[id := old(orders)[id].(status := Cancelled, cancelledAt := Some(now))]
              else old(orders)
    {
      if subject != "order" {
        return NoOp;
      }
      if id !in orders {
        return NotFound;
      }
      var ord := new Order(orders[id]);
      var ok := ord.Cancel(now);
      if !ok {
        return NoOp;
      }
      orders := orders[id := ord.data];
      return Done;
    }

    method Cancel(caller: Caller, id: nat, answer: GatewayAnswer, now: nat) returns (outcome: Outcome)
      requires Keyed(View())
      modifies this
      ensures (View(), outcome) == OnCancel(old(View()), caller, id, answer, now)
      // only the order's customer or its restaurant's owner gets past this
      ensures outcome == Forbidden <==>
                || id !in old(orders)
                || (caller.Customer? && old(orders)[id].customer != caller.user)
                || (caller.Owner? && (|| old(orders)[id].restaurant !in restaurants
                                      || restaurants[old(orders)[id].restaurant].owner != caller.user))
      ensures outcome == Unavailable <==>
                outcome != Forbidden && old(orders)[id].paymentId.Some? && answer.CheckFailed?
      ensures outcome == Done <==>
                && outcome != Forbidden && old(orders)[id].status.Pending?
                && (old(orders)[id].paymentId.Some? ==> answer.StillOpen? || answer.PaymentFailed?)
      ensures restaurants == old(restaurants) && outbox == old(outbox)
      ensures orders
           == if outcome == Done then old(orders)[id := old(orders)[id].(status := Cancelled, cancelledAt := Some(now))]
              else old(orders)
    {
      if !MayTouch(Db(orders, restaurants, outbox), caller, id) {
        return Forbidden;
      }
      var ord := new Order(orders[id]);
      if ord.data.paymentId.Some? {
        if answer.CheckFailed? {
          return Unavailable;
        }
        if answer.PaymentSucceeded? {
          return Conflict;
        }
      }
      var ok := ord.Cancel(now);
      if !ok {
        return Conflict;
      }
      orders := orders[id := ord.data];
      return Done;
    }

    method MarkReady(owner: nat, id: nat, now: nat) returns (outcome: Outcome)
      requires Keyed(View())
      modifies this
      ensures (View(), outcome) == OnMarkReady(old(View()), owner, id, now)
      ensures outcome == Forbidden <==>
                || id !in old(orders) || old(orders)[id].restaurant !in restaurants
                || restaurants[old(orders)[id].restaurant].owner != owner
      ensures outcome == Done <==> outcome != Forbidden && old(orders)[id].status.Confirmed?
      ensures restaurants == old(restaurants) && outbox == old(outbox)
      ensures orders
           == if outcome == Done then old(orders)[id := old(orders)[id].(status := Ready, readyAt := Some(now))]
              else old(orders)
    {
      if !MayTouch(Db(orders, restaurants, outbox), Owner(owner), id) {
        return Forbidden;
      }
      var ord := new Order(orders[id]);
      var ok := ord.MarkReady(now);
      if !ok {
        return Conflict;
      }
      orders := orders[id := ord.data];
      return Done;
    }

    method Complete(owner: nat, id: nat, now: nat) returns (outcome: Outcome)
      requires Keyed(View())
      modifies this
      ensures (View(), outcome) == OnComplete(old(View()), owner, id, now)
      ensures outcome == Forbidden <==>
                || id !in old(orders) || old(orders)[id].restaurant !in restaurants
                || restaurants[old(orders)[id].restaurant].owner != owner
      ensures outcome == Done <==> outcome != Forbidden && (old(orders)[id].status.Confirmed? || old(orders)[id].status.Ready?)
      ensures restaurants == old(restaurants) && outbox == old(outbox)
      ensures orders
           == if outcome == Done then old(orders)[id := old(orders)[id].(status := Completed, completedAt := Some(now))]
              else old(orders)
    {
      if !MayTouch(Db(orders, restaurants, outbox), Owner(owner), id) {
        return Forbidden;
      }
      var ord := new Order(orders[id]);
      var ok := ord.Complete(now);
      if !ok {
        return Conflict;
      }
      orders := orders[id := ord.data];
      return Done;
    }
  }

  method CopyItems(items: seq<Item>) returns (copied: seq<Item>)
    ensures copied == items
  {
    copied := [];
    for i := 0 to |items|
      invariant copied == items[..i]
    {
      copied := copied + [Item(items[i].name, items[i].quantity)];
    }
  }
}
