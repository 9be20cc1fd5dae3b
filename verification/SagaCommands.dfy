/**
The split steps of module Saga put together again.  A command whose steps are not interleaved
with anything else does exactly what its atomic form in Orders or Payments does, and each of its
saves passes the tests on the stored row that the exact conditions of SagaOrders and
SagaCausality ask for: only interleaving can break them.
*/
module SagaCommands {
  import opened Wrappers
  import opened Saga
  import opened SagaCausality
  import opened SagaOrders
  import O = Orders
  import P = Payments

  /** The step can be taken, and what it saves fits the stored row. */
  ghost predicate Passes(s: State, step: Step) {
    && Enabled(s, step) && ConfirmGuard(s, step) && MoveGuard(s, step)
    && AttachesFirst(s, step) && SuccessKept(s, step)
  }

  /** The steps, one after the other and nothing in between, lead from one state to the other. */
  ghost predicate Performs(s: State, steps: seq<Step>, s': State)
    decreases |steps|
  {
    if steps == [] then s == s'
    else Passes(s, steps[0]) && Performs(Apply(s, steps[0]), steps[1..], s')
  }

  lemma Last(s: State, step: Step, s': State)
    requires Passes(s, step) && Apply(s, step) == s'
    ensures Performs(s, [step], s')
  {
    assert [step][1..] == [];
    assert Performs(s', [], s');
  }

  lemma Then(s: State, step: Step, rest: seq<Step>, s': State)
    requires Passes(s, step) && Performs(Apply(s, step), rest, s')
    ensures Performs(s, [step] + rest, s')
  {
    assert ([step] + rest)[1..] == rest;
  }

  lemma Undone(s: State, t: nat, task: Task)
    requires t !in s.tasks
    ensures Drop(Put(s, t, task), t) == s
  {
    assert s.tasks[t := task] - {t} == s.tasks;
  }

  // ---- the webhook ----

  function WebhookSteps(s: State, t: nat, p: nat, answer: Option<P.GatewayStatus>): seq<Step>
    requires p in s.payments
  {
    if !s.payments[p].status.Pending? then []
    else
      [StartWebhook(t, p)] +
      if answer.None? then [Abort(t)]
      else [AskStatus(t)] + if answer.value.Open? then [] else [SaveWebhook(t)]
  }

  /** The webhook's steps for the payment it found, with the gateway's answer or without one. */
  lemma WebhookIsAtomic(s: State, t: nat, p: nat, answer: Option<P.GatewayStatus>)
    requires Shape(s) && t !in s.tasks && p in s.payments && s.payments[p].gatewayRef.Some?
    requires var ref := s.payments[p].gatewayRef.value; answer.Some? ==> ref in s.gateway && s.gateway[ref] == answer.value
    ensures Performs(s, WebhookSteps(s, t, p, answer), AfterWebhook(s, P.OnWebhook(P.Db(s.payments, []), Some(p), answer).0))
  {
    WebhookEnds(s, p, answer);
    if s.payments[p].status.Pending? {
      var start, s1 := StartWebhook(t, p), Put(s, t, WebhookRead(s.payments[p]));
      assert Passes(s, start) && Apply(s, start) == s1;
      if answer.None? || answer.value.Open? {
        WebhookGivesUp(s, t, p, answer);
      } else {
        WebhookSaves(s, t, p);
        Then(s, start, [AskStatus(t)] + [SaveWebhook(t)], SettledState(s, p));
      }
    }
  }

  /** What the webhook made of the payment tables, taken over into the state. */
  function AfterWebhook(s: State, db: P.Db): State {
    s.(payments := db.payments, events := s.events + set e | e in db.outbox)
  }

  lemma WebhookEnds(s: State, p: nat, answer: Option<P.GatewayStatus>)
    requires p in s.payments && s.payments[p].gatewayRef.Some?
    requires var ref := s.payments[p].gatewayRef.value; answer.Some? ==> ref in s.gateway && s.gateway[ref] == answer.value
    ensures AfterWebhook(s, P.OnWebhook(P.Db(s.payments, []), Some(p), answer).0)
         == if s.payments[p].status.Pending? && answer.Some? && !answer.value.Open? then SettledState(s, p) else s
  {
  }

  lemma WebhookGivesUp(s: State, t: nat, p: nat, answer: Option<P.GatewayStatus>)
    requires t !in s.tasks && Enabled(s, StartWebhook(t, p))
    requires answer.None? || answer.value.Open?
    requires var ref := s.payments[p].gatewayRef.value; answer.Some? ==> ref in s.gateway && s.gateway[ref] == answer.value
    ensures Performs(s, WebhookSteps(s, t, p, answer), s)
  {
    var s1 := Put(s, t, WebhookRead(s.payments[p]));
    var second := if answer.None? then Abort(t) else AskStatus(t);
    Undone(s, t, WebhookRead(s.payments[p]));
    Last(s1, second, s);
    Then(s, StartWebhook(t, p), [second], s);
    assert answer.Some? ==> [second] + [] == [second];
  }

  function SettledState(s: State, p: nat): State
    requires p in s.payments && s.payments[p].gatewayRef.Some? && s.payments[p].gatewayRef.value in s.gateway
    requires !s.gateway[s.payments[p].gatewayRef.value].Open?
  {
    var settled := P.Settled(s.payments[p], s.gateway[s.payments[p].gatewayRef.value]).value;
    s.(payments := s.payments[p := settled.0], events := s.events + {settled.1})
  }

  lemma WebhookSaves(s: State, t: nat, p: nat)
    requires Shape(s) && t !in s.tasks && p in s.payments && s.payments[p].status.Pending?
    requires s.payments[p].gatewayRef.Some? && s.payments[p].gatewayRef.value in s.gateway
    requires !s.gateway[s.payments[p].gatewayRef.value].Open?
    ensures Performs(Put(s, t, WebhookRead(s.payments[p])), [AskStatus(t)] + [SaveWebhook(t)], SettledState(s, p))
  {
    assert PaymentShape(s, p);
    var settled := P.Settled(s.payments[p], s.gateway[s.payments[p].gatewayRef.value]).value;
    var s1 := Put(s, t, WebhookRead(s.payments[p]));
    var s2 := Put(s1, t, WebhookSave(settled.0, settled.1));
    assert s2.tasks - {t} == s.tasks;
    Last(s2, SaveWebhook(t), SettledState(s, p));
    Then(s1, AskStatus(t), [SaveWebhook(t)], SettledState(s, p));
  }

  // ---- CreatePayment ----

  function CreateSteps(s: State, t: nat, existing: Option<nat>, newcomer: P.PaymentData, attached: Option<nat>): seq<Step>
    requires existing.Some? ==> existing.value in s.payments
  {
    if existing.Some? && s.payments[existing.value].gatewayRef.Some? then []
    else
      [if existing.Some? then RetryCreate(t, existing.value)
       else StartCreate(t, newcomer.id, newcomer.subjectType, newcomer.subject, newcomer.amount)] +
      if attached.None? then [Abort(t)] else [CallGateway(t, attached.value)] + [SaveAttach(t)]
  }

  /** What CreatePayment made of the payment table; the gateway holds the new payment, if it answered. */
  function AfterCreate(s: State, db: P.Db, created: Option<nat>): State {
    s.(payments := db.payments, gateway := if created.Some? then s.gateway[created.value := P.Open] else s.gateway)
  }

  /** CreatePayment's steps, given the row it looked up and the gateway's answer. */
  lemma CreateIsAtomic(s: State, t: nat, existing: Option<nat>, newcomer: P.PaymentData, attached: Option<nat>)
    requires Shape(s) && t !in s.tasks && (attached.Some? ==> attached.value !in s.gateway)
    requires existing.Some? ==> existing.value in s.payments
    requires existing.None? ==>
               && newcomer == P.NewPayment(newcomer.id, newcomer.subjectType, newcomer.subject, newcomer.amount)
               && newcomer.id !in s.payments && !KnownSubject(s, newcomer.subjectType, newcomer.subject)
    ensures var steps := CreateSteps(s, t, existing, newcomer, attached);
            var db := P.OnCreate(P.Db(s.payments, []), existing, newcomer, attached).0;
            Performs(s, steps, AfterCreate(s, db, if steps == [] then None else attached))
  {
    if existing.None? || s.payments[existing.value].gatewayRef.None? {
      var row := if existing.Some? then s.payments[existing.value] else newcomer;
      var first := if existing.Some? then RetryCreate(t, existing.value)
                   else StartCreate(t, row.id, row.subjectType, row.subject, row.amount);
      CreateStarts(s, t, first, row);
      CreateEnds(s, existing, newcomer, attached, row);
      var stored := s.(payments := s.payments[row.id := row]);
      if attached.None? {
        Undone(stored, t, CreatePay(row));
        Last(Put(stored, t, CreatePay(row)), Abort(t), stored);
        Then(s, first, [Abort(t)], stored);
      } else {
        Attaches(stored, t, row, attached.value);
        Then(s, first, [CallGateway(t, attached.value)] + [SaveAttach(t)], AttachedState(stored, row, attached.value));
      }
    }
  }

  lemma CreateStarts(s: State, t: nat, first: Step, row: P.PaymentData)
    requires Shape(s) && Enabled(s, first) && (first.RetryCreate? || first.StartCreate?)
    requires first.payment == row.id && first.task == t
    requires if first.RetryCreate? then row.id in s.payments && row == s.payments[row.id]
             else row == P.NewPayment(row.id, first.subjectType, first.subject, first.amount)
    ensures Passes(s, first) && Apply(s, first) == Put(s.(payments := s.payments[row.id := row]), t, CreatePay(row))
    ensures row.gatewayRef.None? && row.status.Pending?
  {
    if first.RetryCreate? {
      assert PaymentShape(s, row.id) && s.payments[row.id := row] == s.payments;
    }
  }

  lemma CreateEnds(s: State, existing: Option<nat>, newcomer: P.PaymentData, attached: Option<nat>, row: P.PaymentData)
    requires Shape(s) && (existing.Some? ==> existing.value in s.payments && s.payments[existing.value].gatewayRef.None?)
    requires row == if existing.Some? then s.payments[existing.value] else newcomer
    ensures var stored := s.(payments := s.payments[row.id := row]);
            AfterCreate(s, P.OnCreate(P.Db(s.payments, []), existing, newcomer, attached).0, attached)
              == if attached.None? then stored else AttachedState(stored, row, attached.value)
  {
    assert existing.Some? ==> PaymentShape(s, existing.value);
  }

  function AttachedState(s: State, row: P.PaymentData, ref: nat): State {
    s.(payments := s.payments[row.id := row.(gatewayRef := Some(ref))], gateway := s.gateway[ref := P.Open])
  }

  lemma Attaches(s: State, t: nat, row: P.PaymentData, ref: nat)
    requires t !in s.tasks && ref !in s.gateway && row.id in s.payments && s.payments[row.id] == row
    requires row.gatewayRef.None? && row.status.Pending?
    ensures Performs(Put(s, t, CreatePay(row)), [CallGateway(t, ref)] + [SaveAttach(t)], AttachedState(s, row, ref))
  {
    var s1 := Put(s, t, CreatePay(row));
    var s2 := Apply(s1, CallGateway(t, ref));
    assert s2.tasks - {t} == s.tasks;
    Last(s2, SaveAttach(t), AttachedState(s, row, ref));
    Then(s1, CallGateway(t, ref), [SaveAttach(t)], AttachedState(s, row, ref));
  }

  // ---- orders ----

  function Database(s: State, restaurants: map<nat, O.RestaurantInfo>): O.Db {
    O.Db(s.orders, restaurants, [])
  }

  /** What a command made of the order tables, taken over into the state. */
  function After(s: State, db: O.Db): State {
    s.(orders := db.orders, confirmations := s.confirmations + O.Announced(db.outbox))
  }

  /** A copy saved right after it was read and changed. */
  lemma ReadAndSave(s: State, t: nat, read: Step, d: O.OrderData, confirms: bool)
    requires Shape(s) && t !in s.tasks && d.id in s.orders && Legal(s.orders[d.id].status, d.status)
    requires if confirms then s.orders[d.id].status.Pending? else O.Paid(s.orders[d.id].status) == O.Paid(d.status)
    requires Passes(s, read) && Apply(s, read) == Put(s, t, OrderSave(d, confirms))
    ensures Performs(s, [read] + [SaveOrder(t)], SavedState(s, d, confirms))
  {
    SaveRightAway(s, t, d, confirms);
    Then(s, read, [SaveOrder(t)], SavedState(s, d, confirms));
  }

  function SavedState(s: State, d: O.OrderData, confirms: bool): State {
    s.(orders := s.orders[d.id := d], confirmations := s.confirmations + if confirms then [d.id] else [])
  }

  lemma SaveRightAway(s: State, t: nat, d: O.OrderData, confirms: bool)
    requires t !in s.tasks && d.id in s.orders
    requires d.status == s.orders[d.id].status || Legal(s.orders[d.id].status, d.status)
    requires if confirms then !O.Paid(s.orders[d.id].status) else O.Paid(s.orders[d.id].status) == O.Paid(d.status)
    ensures Performs(Put(s, t, OrderSave(d, confirms)), [SaveOrder(t)], SavedState(s, d, confirms))
  {
    var s1 := Put(s, t, OrderSave(d, confirms));
    assert s1.tasks - {t} == s.tasks;
    Last(s1, SaveOrder(t), SavedState(s, d, confirms));
  }

  lemma SavedIsAfter(s: State, d: O.OrderData, db: O.Db)
    requires db.orders == s.orders[d.id := d] && db.outbox == []
    ensures After(s, db) == SavedState(s, d, false)
  {
  }

  function SucceededSteps(s: State, t: nat, e: P.PaymentEvent, known: bool, now: nat): seq<Step>
    requires e.subject in s.orders
  {
    if !s.orders[e.subject].status.Pending? then []
    else [ReadForSucceeded(t, e, now)] + [if known then SaveOrder(t) else Abort(t)]
  }

  /** The payment.succeeded handler; it gives up if the order's restaurant is not there. */
  lemma SucceededIsAtomic(s: State, t: nat, e: P.PaymentEvent, restaurants: map<nat, O.RestaurantInfo>, now: nat)
    requires Shape(s) && t !in s.tasks && e in s.events && e.PaymentSucceeded? && e.subjectType == "order"
    requires e.subject in s.orders
    ensures var known := s.orders[e.subject].restaurant in restaurants;
            Performs(s, SucceededSteps(s, t, e, known, now),
                     After(s, O.OnPaymentSucceeded(Database(s, restaurants), "order", e.subject, now).0))
  {
    if s.orders[e.subject].status.Pending? {
      SucceededReads(s, t, e, now);
      var read, d := ReadForSucceeded(t, e, now), O.ConfirmedOrder(s.orders[e.subject], now);
      SucceededEnds(s, restaurants, e.subject, now);
      if d.restaurant in restaurants {
        ReadAndSave(s, t, read, d, true);
      } else {
        GivesUp(s, t, read, OrderSave(d, true));
      }
    }
  }

  lemma SucceededReads(s: State, t: nat, e: P.PaymentEvent, now: nat)
    requires Shape(s) && Enabled(s, ReadForSucceeded(t, e, now))
    ensures Passes(s, ReadForSucceeded(t, e, now))
    ensures Apply(s, ReadForSucceeded(t, e, now)) == Put(s, t, OrderSave(O.ConfirmedOrder(s.orders[e.subject], now), true))
  {
  }

  lemma SucceededEnds(s: State, restaurants: map<nat, O.RestaurantInfo>, id: nat, now: nat)
    requires Shape(s) && id in s.orders && s.orders[id].status.Pending?
    ensures var d := O.ConfirmedOrder(s.orders[id], now);
            After(s, O.OnPaymentSucceeded(Database(s, restaurants), "order", id, now).0)
              == if d.restaurant in restaurants then SavedState(s, d, true) else s
  {
    var d := O.ConfirmedOrder(s.orders[id], now);
    if d.restaurant in restaurants {
      ConfirmationIsAfter(s, d, restaurants, now);
    }
  }

  lemma ConfirmationIsAfter(s: State, d: O.OrderData, restaurants: map<nat, O.RestaurantInfo>, now: nat)
    requires d.restaurant in restaurants
    ensures var db := Database(s, restaurants);
            After(s, O.Save(db, d).(outbox := [] + [O.ConfirmationRow(db, d, now)])) == SavedState(s, d, true)
  {
    var row := O.ConfirmationRow(Database(s, restaurants), d, now);
    O.AnnouncedOne(row);
    assert [] + [row] == [row];
  }

  lemma GivesUp(s: State, t: nat, first: Step, task: Task)
    requires t !in s.tasks && Passes(s, first) && Apply(s, first) == Put(s, t, task)
    ensures Performs(s, [first] + [Abort(t)], s)
  {
    Undone(s, t, task);
    Last(Put(s, t, task), Abort(t), s);
    Then(s, first, [Abort(t)], s);
  }

  function FailedSteps(s: State, t: nat, e: P.PaymentEvent, now: nat): seq<Step>
    requires e.subject in s.orders
  {
    if !s.orders[e.subject].status.Pending? then [] else [ReadForFailed(t, e, now)] + [SaveOrder(t)]
  }

  /** The payment.failed handler. */
  lemma FailedIsAtomic(s: State, t: nat, e: P.PaymentEvent, restaurants: map<nat, O.RestaurantInfo>, now: nat)
    requires Shape(s) && t !in s.tasks && e in s.events && e.PaymentFailed? && e.subjectType == "order"
    requires e.subject in s.orders
    ensures Performs(s, FailedSteps(s, t, e, now),
                     After(s, O.OnPaymentFailed(Database(s, restaurants), "order", e.subject, now).0))
  {
    if s.orders[e.subject].status.Pending? {
      var d := O.CancelledOrder(s.orders[e.subject], now);
      ReadAndSave(s, t, ReadForFailed(t, e, now), d, false);
      SavedIsAfter(s, d, O.OnPaymentFailed(Database(s, restaurants), "order", e.subject, now).0);
    }
  }

  function ReadySteps(s: State, t: nat, db: O.Db, owner: nat, id: nat, now: nat): seq<Step> {
    if O.OnMarkReady(db, owner, id, now).1.Done? then [ReadForReady(t, id, now)] + [SaveOrder(t)] else []
  }

  /** The owner marks an order ready. */
  lemma ReadyIsAtomic(s: State, t: nat, restaurants: map<nat, O.RestaurantInfo>, owner: nat, id: nat, now: nat)
    requires Shape(s) && t !in s.tasks
    ensures var db := Database(s, restaurants);
            Performs(s, ReadySteps(s, t, db, owner, id, now), After(s, O.OnMarkReady(db, owner, id, now).0))
  {
    var db := Database(s, restaurants);
    if O.OnMarkReady(db, owner, id, now).1.Done? {
      var d := O.ReadyOrder(s.orders[id], now);
      ReadAndSave(s, t, ReadForReady(t, id, now), d, false);
      SavedIsAfter(s, d, O.OnMarkReady(db, owner, id, now).0);
    }
  }

  function CompleteSteps(s: State, t: nat, db: O.Db, owner: nat, id: nat, now: nat): seq<Step> {
    if O.OnComplete(db, owner, id, now).1.Done? then [ReadForComplete(t, id, now)] + [SaveOrder(t)] else []
  }

  /** The owner completes an order. */
  lemma CompleteIsAtomic(s: State, t: nat, restaurants: map<nat, O.RestaurantInfo>, owner: nat, id: nat, now: nat)
    requires Shape(s) && t !in s.tasks
    ensures var db := Database(s, restaurants);
            Performs(s, CompleteSteps(s, t, db, owner, id, now), After(s, O.OnComplete(db, owner, id, now).0))
  {
    var db := Database(s, restaurants);
    if O.OnComplete(db, owner, id, now).1.Done? {
      var d := O.CompletedOrder(s.orders[id], now);
      ReadAndSave(s, t, ReadForComplete(t, id, now), d, false);
      SavedIsAfter(s, d, O.OnComplete(db, owner, id, now).0);
    }
  }

  function CancelSteps(s: State, t: nat, db: O.Db, caller: O.Caller, id: nat, answer: O.GatewayAnswer, now: nat): seq<Step> {
    if !O.MayTouch(db, caller, id) then []
    else
      [ReadForCancel(t, id)] + ([DecideCancel(t, answer, now)] +
      if O.OnCancel(db, caller, id, answer, now).1.Done? then [SaveOrder(t)] else [])
  }

  /** A customer or owner cancels an order, whatever the gateway says of its payment. */
  lemma CancelIsAtomic(s: State, t: nat, restaurants: map<nat, O.RestaurantInfo>, caller: O.Caller, id: nat,
                       answer: O.GatewayAnswer, now: nat)
    requires Shape(s) && t !in s.tasks
    ensures var db := Database(s, restaurants);
            Performs(s, CancelSteps(s, t, db, caller, id, answer, now), After(s, O.OnCancel(db, caller, id, answer, now).0))
  {
    var db := Database(s, restaurants);
    if O.MayTouch(db, caller, id) {
      var read, decide := ReadForCancel(t, id), DecideCancel(t, answer, now);
      assert Passes(s, read) && Apply(s, read) == Put(s, t, CancelRead(s.orders[id]));
      var (db', outcome) := O.OnCancel(db, caller, id, answer, now);
      if outcome.Done? {
        var d := O.CancelledOrder(s.orders[id], now);
        CancelSaves(s, t, id, answer, now);
        Then(s, read, [decide] + [SaveOrder(t)], SavedState(s, d, false));
        SavedIsAfter(s, d, db');
      } else {
        CancelRefused(s, t, id, answer, now);
        Then(s, read, [decide], s);
        assert [decide] + [] == [decide] && After(s, db') == s;
      }
    }
  }

  predicate Refused(d: O.OrderData, answer: O.GatewayAnswer) {
    (d.paymentId.Some? && (answer.CheckFailed? || answer.PaymentSucceeded?)) || !d.status.Pending?
  }

  lemma CancelSaves(s: State, t: nat, id: nat, answer: O.GatewayAnswer, now: nat)
    requires Shape(s) && t !in s.tasks && id in s.orders && !Refused(s.orders[id], answer)
    ensures Performs(Put(s, t, CancelRead(s.orders[id])), [DecideCancel(t, answer, now)] + [SaveOrder(t)],
                     SavedState(s, O.CancelledOrder(s.orders[id], now), false))
  {
    var d := O.CancelledOrder(s.orders[id], now);
    var s1 := Put(s, t, CancelRead(s.orders[id]));
    assert Put(s1, t, OrderSave(d, false)) == Put(s, t, OrderSave(d, false));
    SaveRightAway(s, t, d, false);
    Then(s1, DecideCancel(t, answer, now), [SaveOrder(t)], SavedState(s, d, false));
  }

  lemma CancelRefused(s: State, t: nat, id: nat, answer: O.GatewayAnswer, now: nat)
    requires t !in s.tasks && id in s.orders && Refused(s.orders[id], answer)
    ensures Performs(Put(s, t, CancelRead(s.orders[id])), [DecideCancel(t, answer, now)], s)
  {
    Undone(s, t, CancelRead(s.orders[id]));
    Last(Put(s, t, CancelRead(s.orders[id])), DecideCancel(t, answer, now), s);
  }

  function CheckoutSteps(t: nat, d: O.OrderData, payment: Option<nat>): seq<Step> {
    [PlaceOrder(t, d)] + if payment.None? then [Abort(t)] else [RecordPayment(t, payment.value)] + [SaveOrder(t)]
  }

  /** Checkout from storing the order on, with the payment that was created for it or without one. */
  lemma CheckoutIsAtomic(s: State, t: nat, restaurants: map<nat, O.RestaurantInfo>, d: O.OrderData, saveAddress: bool,
                         payment: Option<nat>, now: nat)
    requires Shape(s) && t !in s.tasks && d.id !in s.orders && O.Fresh(d)
    ensures Performs(s, CheckoutSteps(t, d, payment),
                     After(s, O.OnCheckout(Database(s, restaurants), d, saveAddress, payment, now).0))
  {
    var place, placed := PlaceOrder(t, d), s.(orders := s.orders[d.id := d]);
    assert Passes(s, place) && Apply(s, place) == Put(placed, t, CheckoutPay(d));
    CheckoutEnds(s, restaurants, d, saveAddress, payment, now);
    if payment.None? {
      Undone(placed, t, CheckoutPay(d));
      Last(Put(placed, t, CheckoutPay(d)), Abort(t), placed);
      Then(s, place, [Abort(t)], placed);
    } else {
      CheckoutRecords(placed, t, d, payment.value);
      Then(s, place, [RecordPayment(t, payment.value)] + [SaveOrder(t)], SavedState(placed, d.(paymentId := payment), false));
    }
  }

  lemma CheckoutRecords(placed: State, t: nat, d: O.OrderData, payment: nat)
    requires t !in placed.tasks && d.id in placed.orders && placed.orders[d.id] == d
    ensures Performs(Put(placed, t, CheckoutPay(d)), [RecordPayment(t, payment)] + [SaveOrder(t)],
                     SavedState(placed, d.(paymentId := Some(payment)), false))
  {
    var s1, recorded := Put(placed, t, CheckoutPay(d)), d.(paymentId := Some(payment));
    assert Put(s1, t, OrderSave(recorded, false)) == Put(placed, t, OrderSave(recorded, false));
    SaveRightAway(placed, t, recorded, false);
    Then(s1, RecordPayment(t, payment), [SaveOrder(t)], SavedState(placed, recorded, false));
  }

  lemma CheckoutEnds(s: State, restaurants: map<nat, O.RestaurantInfo>, d: O.OrderData, saveAddress: bool,
                     payment: Option<nat>, now: nat)
    ensures var placed := s.(orders := s.orders[d.id := d]);
            After(s, O.OnCheckout(Database(s, restaurants), d, saveAddress, payment, now).0)
              == if payment.None? then placed else SavedState(placed, d.(paymentId := payment), false)
  {
    var row := O.OutboxRow(d.id, O.AddressPayload(d.customer, now));
    O.AnnouncedOne(row);
    assert [] + [row] == [row];
  }
}
