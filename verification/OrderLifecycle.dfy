/**
Whole runs of the order service with each handler and command atomic: payment events may be
delivered any number of times and in any order, and cancel, ready, complete and checkout come
at any moment.
*/
module OrderLifecycle {
  import opened Wrappers
  import opened Orders

  datatype Step =
    | Checkout(placed: OrderData, saveAddress: bool, payment: Option<nat>, now: nat)
    | SucceededEvent(subject: string, order: nat, now: nat)
    | FailedEvent(subject: string, order: nat, now: nat)
    | CancelCall(caller: Caller, order: nat, answer: GatewayAnswer, now: nat)
    | ReadyCall(owner: nat, order: nat, now: nat)
    | CompleteCall(owner: nat, order: nat, now: nat)
    | SyncRestaurant(restaurant: nat, info: RestaurantInfo)

  predicate Enabled(db: Db, step: Step) {
    // a checkout generates a new order id
    step.Checkout? ==> step.placed.id !in db.orders && Fresh(step.placed)
  }

  function Apply(db: Db, step: Step): Db {
    match step
    case Checkout(placed, saveAddress, payment, now) => OnCheckout(db, placed, saveAddress, payment, now).0
    case SucceededEvent(subject, id, now) => OnPaymentSucceeded(db, subject, id, now).0
    case FailedEvent(subject, id, now) => OnPaymentFailed(db, subject, id, now).0
    case CancelCall(caller, id, answer, now) => OnCancel(db, caller, id, answer, now).0
    case ReadyCall(owner, id, now) => OnMarkReady(db, owner, id, now).0
    case CompleteCall(owner, id, now) => OnComplete(db, owner, id, now).0
    case SyncRestaurant(restaurant, info) => db.(restaurants := db.restaurants[restaurant := info])
  }

  ghost predicate Next(db: Db, db': Db) {
    exists step :: Enabled(db, step) && db' == Apply(db, step)
  }

  ghost predicate Run(trace: seq<Db>) {
    && |trace| > 0 && trace[0].orders == map[] && trace[0].outbox == []
    && forall i :: 0 <= i < |trace| - 1 ==> Next(trace[i], trace[i + 1])
  }

  // ---- what holds of every order ----

  /** The outbox rows that announce the confirmation of an order. */
  function Confirmations(outbox: seq<OutboxRow>, id: nat): nat {
    Times(Announced(outbox), id)
  }

  lemma ConfirmationsAppend(outbox: seq<OutboxRow>, more: seq<OutboxRow>, id: nat)
    ensures Confirmations(outbox + more, id) == Confirmations(outbox, id) + Confirmations(more, id)
  {
    AnnouncedAppend(outbox, more);
  }

  /** Exactly the timestamps of the statuses that the order went through are set. */
  predicate StampsMatch(d: OrderData) {
    && (d.confirmedAt.Some? <==> Paid(d.status))
    && (d.status == Ready ==> d.readyAt.Some?)
    && (d.readyAt.Some? ==> d.status == Ready || d.status == Completed)
    && (d.completedAt.Some? <==> d.status == Completed)
    && (d.cancelledAt.Some? <==> d.status == Cancelled)
  }

  predicate OrderOk(db: Db, id: nat)
    requires id in db.orders
  {
    && db.orders[id].id == id
    && StampsMatch(db.orders[id])
    && Confirmations(db.outbox, id) == (if Paid(db.orders[id].status) then 1 else 0)
  }

  ghost predicate Inv(db: Db) {
    && (forall id :: id in db.orders ==> OrderOk(db, id))
    && (forall id: nat :: id !in db.orders ==> Confirmations(db.outbox, id) == 0)
  }

  /** What one step can do to one order. */
  predicate Moves(d: OrderData, d': OrderData) {
    || d' == d
    || (&& Rank(d.status) < Rank(d'.status)
        && (d'.status == Cancelled ==> d.status == Pending)
        && (d.confirmedAt.Some? ==> d'.confirmedAt == d.confirmedAt))
  }

  lemma OnlyOne(db: Db, db': Db, id: nat, rows: seq<OutboxRow>)
    requires Inv(db) && id in db'.orders && OrderOk(db', id)
    requires db'.outbox == db.outbox + rows
    requires forall k: nat :: k != id ==> Confirmations(rows, k) == 0
    requires forall k: nat :: k != id ==> (k in db'.orders <==> k in db.orders)
    requires forall k: nat :: k != id && k in db.orders ==> db'.orders[k] == db.orders[k]
    ensures Inv(db')
  {
    forall k: nat | k != id ensures Confirmations(db'.outbox, k) == Confirmations(db.outbox, k) {
      ConfirmationsAppend(db.outbox, rows, k);
    }
    forall k | k in db'.orders ensures OrderOk(db', k) {
      assert k != id ==> OrderOk(db, k);
    }
  }

  lemma CheckoutInv(db: Db, d: OrderData, saveAddress: bool, payment: Option<nat>, now: nat)
    requires Inv(db) && d.id !in db.orders && Fresh(d)
    ensures Inv(OnCheckout(db, d, saveAddress, payment, now).0)
  {
    var rows := if saveAddress then [OutboxRow(d.id, AddressPayload(d.customer, now))] else [];
    var db' := OnCheckout(db, d, saveAddress, payment, now).0;
    forall k: nat ensures Confirmations(rows, k) == 0 {
      AnnouncedOne(OutboxRow(d.id, AddressPayload(d.customer, now)));
    }
    ConfirmationsAppend(db.outbox, rows, d.id);
    OnlyOne(db, db', d.id, rows);
  }

  lemma SucceededInv(db: Db, subject: string, id: nat, now: nat)
    requires Inv(db)
    ensures Inv(OnPaymentSucceeded(db, subject, id, now).0)
  {
    var r := OnPaymentSucceeded(db, subject, id, now);
    if r.1 == Done {
      assert OrderOk(db, id);
      var row := ConfirmationRow(db, r.0.orders[id], now);
      AnnouncedOne(row);
      ConfirmationsAppend(db.outbox, [row], id);
      OnlyOne(db, r.0, id, [row]);
    }
  }

  /** A step that leaves the outbox alone and moves one order without paying or unpaying it. */
  lemma QuietInv(db: Db, d: OrderData)
    requires Inv(db) && d.id in db.orders && StampsMatch(d)
    requires Paid(d.status) == Paid(db.orders[d.id].status)
    ensures Inv(Save(db, d))
  {
    assert OrderOk(db, d.id);
    assert db.outbox + [] == db.outbox;
    OnlyOne(db, Save(db, d), d.id, []);
  }

  lemma StepInv(db: Db, step: Step)
    requires Inv(db) && Enabled(db, step)
    ensures Inv(Apply(db, step))
  {
    match step
    case Checkout(placed, saveAddress, payment, now) => CheckoutInv(db, placed, saveAddress, payment, now);
    case SucceededEvent(subject, id, now) => SucceededInv(db, subject, id, now);
    case FailedEvent(subject, id, now) =>
      if OnPaymentFailed(db, subject, id, now).1 == Done {
        assert OrderOk(db, id);
        QuietInv(db, CancelledOrder(db.orders[id], now));
      }
    case CancelCall(caller, id, answer, now) =>
      if OnCancel(db, caller, id, answer, now).1 == Done {
        assert OrderOk(db, id);
        QuietInv(db, CancelledOrder(db.orders[id], now));
      }
    case ReadyCall(owner, id, now) =>
      if OnMarkReady(db, owner, id, now).1 == Done {
        assert OrderOk(db, id);
        QuietInv(db, ReadyOrder(db.orders[id], now));
      }
    case CompleteCall(owner, id, now) =>
      if OnComplete(db, owner, id, now).1 == Done {
        assert OrderOk(db, id);
        QuietInv(db, CompletedOrder(db.orders[id], now));
      }
    case SyncRestaurant(_, _) =>
      forall id | id in Apply(db, step).orders ensures OrderOk(Apply(db, step), id) {
        assert OrderOk(db, id);
      }
  }

  lemma StepMoves(db: Db, step: Step, id: nat)
    requires Inv(db) && Enabled(db, step) && id in db.orders
    ensures id in Apply(db, step).orders && Moves(db.orders[id], Apply(db, step).orders[id])
  {
    assert OrderOk(db, id);
    assert Keyed(db) by {
      forall k | k in db.orders ensures db.orders[k].id == k {
        assert OrderOk(db, k);
      }
    }
    if step.SucceededEvent? || step.FailedEvent? || step.CancelCall? {
      PendingMoves(db, step, id);
    } else if step.ReadyCall? || step.CompleteCall? {
      OwnerMoves(db, step, id);
    }
  }

  /** Confirming and cancelling start from pending. */
  lemma PendingMoves(db: Db, step: Step, id: nat)
    requires Keyed(db) && id in db.orders && StampsMatch(db.orders[id])
    requires step.SucceededEvent? || step.FailedEvent? || step.CancelCall?
    ensures id in Apply(db, step).orders && Moves(db.orders[id], Apply(db, step).orders[id])
  {
  }

  lemma OwnerMoves(db: Db, step: Step, id: nat)
    requires Keyed(db) && id in db.orders && StampsMatch(db.orders[id])
    requires step.ReadyCall? || step.CompleteCall?
    ensures id in Apply(db, step).orders && Moves(db.orders[id], Apply(db, step).orders[id])
  {
  }

  lemma {:induction false} RunInv(trace: seq<Db>, i: nat)
    requires Run(trace) && i < |trace|
    ensures Inv(trace[i])
  {
    if i > 0 {
      RunInv(trace, i - 1);
      assert Next(trace[i - 1], trace[i - 1 + 1]);
      var step :| Enabled(trace[i - 1], step) && trace[i] == Apply(trace[i - 1], step);
      StepInv(trace[i - 1], step);
    }
  }

  // ---- the theorems ----

  /**
  However often payment events are redelivered, an order has exactly one order.confirmed row if
  it is confirmed, ready or completed and none otherwise, and its timestamps match its status.
  */
  lemma ExactlyOnce(trace: seq<Db>, i: nat, id: nat)
    requires Run(trace) && i < |trace| && id in trace[i].orders
    ensures Confirmations(trace[i].outbox, id) == (if Paid(trace[i].orders[id].status) then 1 else 0)
    ensures StampsMatch(trace[i].orders[id])
  {
    RunInv(trace, i);
    assert OrderOk(trace[i], id);
  }

  lemma MovesInRun(trace: seq<Db>, j: nat, id: nat)
    requires Run(trace) && 0 < j < |trace| && id in trace[j - 1].orders
    ensures id in trace[j].orders && Moves(trace[j - 1].orders[id], trace[j].orders[id])
  {
    RunInv(trace, j - 1);
    assert Next(trace[j - 1], trace[j - 1 + 1]);
    NextMoves(trace[j - 1], trace[j], id);
  }

  lemma NextMoves(db: Db, db': Db, id: nat)
    requires Inv(db) && Next(db, db') && id in db.orders
    ensures id in db'.orders && Moves(db.orders[id], db'.orders[id])
  {
    var step :| Enabled(db, step) && db' == Apply(db, step);
    StepMoves(db, step, id);
  }

  /** How many times the order's status changes between two points of a run. */
  ghost function Transitions(trace: seq<Db>, i: nat, j: nat, id: nat): nat
    requires i <= j < |trace|
    decreases j
  {
    if i == j then 0
    else
      Transitions(trace, i, j - 1, id)
      + if && id in trace[j - 1].orders && id in trace[j].orders
           && trace[j - 1].orders[id].status == trace[j].orders[id].status then 0 else 1
  }

  /** How an order looks after `n` changes of its status. */
  predicate Since(d: OrderData, d': OrderData, n: nat) {
    && Rank(d.status) + n <= Rank(d'.status)
    && (n == 0 ==> d'.status == d.status)
    && (n > 0 && d'.status == Cancelled ==> d.status == Pending)
    && (d.confirmedAt.Some? ==> d'.confirmedAt == d.confirmedAt)
  }

  lemma {:induction false} SinceThen(trace: seq<Db>, i: nat, j: nat, id: nat)
    requires Run(trace) && i <= j < |trace| && id in trace[i].orders
    ensures id in trace[j].orders && Since(trace[i].orders[id], trace[j].orders[id], Transitions(trace, i, j, id))
    decreases j
  {
    if i < j {
      SinceThen(trace, i, j - 1, id);
      MovesInRun(trace, j, id);
    }
  }

  /**
  An order changes its status at most three times, its place in the life cycle only goes up,
  and the time of its confirmation never changes.
  */
  lemma AtMostThreeTransitions(trace: seq<Db>, i: nat, j: nat, id: nat)
    requires Run(trace) && i <= j < |trace| && id in trace[i].orders
    ensures id in trace[j].orders && Transitions(trace, i, j, id) <= 3
    ensures trace[i].orders[id].status == trace[j].orders[id].status
         || Rank(trace[i].orders[id].status) < Rank(trace[j].orders[id].status)
    ensures trace[i].orders[id].confirmedAt.Some? ==> trace[j].orders[id].confirmedAt == trace[i].orders[id].confirmedAt
  {
    SinceThen(trace, i, j, id);
  }

  /** A step that cancels an order is a failed payment's event, or a call by its customer or its restaurant's owner. */
  lemma CancelledByItsOwn(trace: seq<Db>, i: nat, step: Step, id: nat)
    requires Run(trace) && i < |trace| && Enabled(trace[i], step) && id in trace[i].orders
    requires trace[i].orders[id].status != Cancelled
    requires id in Apply(trace[i], step).orders && Apply(trace[i], step).orders[id].status == Cancelled
    ensures ((step.FailedEvent? && step.subject == "order") || step.CancelCall?) && step.order == id
    ensures step.CancelCall? && step.caller.Customer? ==> trace[i].orders[id].customer == step.caller.user
    ensures step.CancelCall? && step.caller.Owner? ==>
              && trace[i].orders[id].restaurant in trace[i].restaurants
              && trace[i].restaurants[trace[i].orders[id].restaurant].owner == step.caller.user
  {
    RunInv(trace, i);
    RunKeyed(trace[i]);
    if step.FailedEvent? || step.CancelCall? {
      CancelsOne(trace[i], step, id);
    } else if step.ReadyCall? || step.CompleteCall? || step.SucceededEvent? {
      OthersCancelNothing(trace[i], step, id);
    }
  }

  lemma RunKeyed(db: Db)
    requires Inv(db)
    ensures Keyed(db)
  {
    forall k | k in db.orders ensures db.orders[k].id == k {
      assert OrderOk(db, k);
    }
  }

  lemma OthersCancelNothing(db: Db, step: Step, id: nat)
    requires Keyed(db) && id in db.orders && (step.ReadyCall? || step.CompleteCall? || step.SucceededEvent?)
    ensures id in Apply(db, step).orders
    ensures Apply(db, step).orders[id].status == Cancelled ==> db.orders[id].status == Cancelled
  {
  }

  lemma CancelsOne(db: Db, step: Step, id: nat)
    requires Keyed(db) && id in db.orders && (step.FailedEvent? || step.CancelCall?)
    requires id in Apply(db, step).orders && Apply(db, step).orders[id] != db.orders[id]
    ensures step.order == id && (step.FailedEvent? ==> step.subject == "order")
    ensures step.CancelCall? && step.caller.Customer? ==> db.orders[id].customer == step.caller.user
    ensures step.CancelCall? && step.caller.Owner? ==>
              db.orders[id].restaurant in db.restaurants && db.restaurants[db.orders[id].restaurant].owner == step.caller.user
  {
  }

  // ---- the confirmation's payload ----

  /** The announcement agrees with the stored order. */
  predicate Agrees(db: Db, row: OutboxRow) {
    row.payload.ConfirmedPayload? ==>
      && row.payload.order in db.orders && row.aggregate == row.payload.order
      && var d, p := db.orders[row.payload.order], row.payload;
         && p.restaurant == d.restaurant && p.customerEmail == d.email && p.items == d.items && p.total == d.total
         && Some(p.confirmedAt) == d.confirmedAt
  }

  /** What never changes of an order: who ordered what, where and for how much. */
  predicate SamePlaced(d: OrderData, d': OrderData) {
    && d'.customer == d.customer && d'.restaurant == d.restaurant
    && d'.email == d.email && d'.items == d.items && d'.total == d.total
  }

  lemma StepSamePlaced(db: Db, step: Step, id: nat)
    requires Keyed(db) && Enabled(db, step) && id in db.orders
    ensures id in Apply(db, step).orders && SamePlaced(db.orders[id], Apply(db, step).orders[id])
  {
  }

  /** The rows a step adds, if any, agree at once. */
  lemma NewRowsAgree(db: Db, step: Step, row: OutboxRow)
    requires Keyed(db) && Enabled(db, step) && row in Apply(db, step).outbox && row !in db.outbox
    ensures Agrees(Apply(db, step), row)
  {
    if step.SucceededEvent? {
      var r := OnPaymentSucceeded(db, step.subject, step.order, step.now);
      assert r.1 == Done ==> row == ConfirmationRow(db, r.0.orders[step.order], step.now);
    }
  }

  lemma RowStaysAgreed(db: Db, step: Step, row: OutboxRow)
    requires Inv(db) && Enabled(db, step) && Agrees(db, row)
    ensures Agrees(Apply(db, step), row)
  {
    if row.payload.ConfirmedPayload? {
      RunKeyed(db);
      StepSamePlaced(db, step, row.payload.order);
      StepMoves(db, step, row.payload.order);
    }
  }

  lemma {:induction false} RowAgreesSoFar(trace: seq<Db>, i: nat, row: OutboxRow)
    requires Run(trace) && i < |trace| && row in trace[i].outbox
    ensures Agrees(trace[i], row)
  {
    RunInv(trace, i - 1);
    RunKeyed(trace[i - 1]);
    assert Next(trace[i - 1], trace[i - 1 + 1]);
    var step :| Enabled(trace[i - 1], step) && trace[i] == Apply(trace[i - 1], step);
    if row in trace[i - 1].outbox {
      RowAgreesSoFar(trace, i - 1, row);
      RowStaysAgreed(trace[i - 1], step, row);
    } else {
      NewRowsAgree(trace[i - 1], step, row);
    }
  }

  /**
  At every later time an order.confirmed row has the stored order's restaurant, e-mail, items,
  total and confirmation time.
  */
  lemma ConfirmationTellsTheOrder(trace: seq<Db>, i: nat, row: OutboxRow)
    requires Run(trace) && i < |trace| && row in trace[i].outbox && row.payload.ConfirmedPayload?
    ensures row.payload.order in trace[i].orders && row.aggregate == row.payload.order
    ensures var d, p := trace[i].orders[row.payload.order], row.payload;
            && p.restaurant == d.restaurant && p.customerEmail == d.email && p.items == d.items && p.total == d.total
            && Some(p.confirmedAt) == d.confirmedAt
  {
    RowAgreesSoFar(trace, i, row);
  }

  /** No run both confirms and cancels an order. */
  lemma NeverConfirmedAndCancelled(trace: seq<Db>, i: nat, j: nat, id: nat)
    requires Run(trace) && i < |trace| && j < |trace| && id in trace[i].orders && id in trace[j].orders
    requires Paid(trace[i].orders[id].status)
    ensures trace[j].orders[id].status != Cancelled
  {
    if i <= j {
      SinceThen(trace, i, j, id);
    } else {
      SinceThen(trace, j, i, id);
    }
  }
}
