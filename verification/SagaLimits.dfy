/**
Runs of module Saga that fall outside the exact conditions of SagaOrders and SagaCausality: an
order is confirmed twice, a confirmed order ends up cancelled, and with two overlapping
CreatePayment calls an order is confirmed without a succeeded payment.
*/
module SagaLimits {
  import opened Wrappers
  import opened Saga
  import opened SagaCausality
  import O = Orders
  import P = Payments

  /** The last state of some run; in an exclusive one CreatePayment calls for a subject do not overlap. */
  ghost predicate Reachable(s: State, exclusive: bool) {
    exists trace, steps :: Run(trace, steps) && EndsIn(trace, steps, s, exclusive)
  }

  ghost predicate EndsIn(trace: seq<State>, steps: seq<Step>, s: State, exclusive: bool)
    requires |trace| == |steps| + 1
  {
    trace[|steps|] == s && (exclusive ==> Exclusive(trace, steps))
  }

  lemma Start(exclusive: bool)
    ensures Reachable(Init(), exclusive)
  {
    assert Run([Init()], []) && EndsIn([Init()], [], Init(), exclusive);
  }

  lemma Onward(s: State, step: Step, exclusive: bool)
    requires Reachable(s, exclusive) && Enabled(s, step) && (exclusive ==> NoOverlap(s, step))
    ensures Reachable(Apply(s, step), exclusive)
  {
    var trace, steps :| Run(trace, steps) && EndsIn(trace, steps, s, exclusive);
    var longer, more := trace + [Apply(s, step)], steps + [step];
    forall i | 0 <= i < |more| ensures StepAt(longer, more, i) {
      assert i < |steps| ==> StepAt(trace, steps, i);
    }
    assert Run(longer, more);
    assert EndsIn(longer, more, Apply(s, step), exclusive);
  }

  // Order 0, payment 1, gateway reference 2; tasks are numbered from 0.

  const PLACED: O.OrderData := O.OrderData(0, 7, 8, "", [], 950, O.Pending, None, None, None, None, None)
  const RECORDED: O.OrderData := PLACED.(paymentId := Some(1))
  const ROW: P.PaymentData := P.NewPayment(1, "order", 0, 950)
  const ATTACHED: P.PaymentData := ROW.(gatewayRef := Some(2))
  const PAID: P.PaymentData := ATTACHED.(status := P.Succeeded)
  const EVENT: P.PaymentEvent := P.PaymentSucceeded(1, "order", 0, 950)

  /** Checkout has placed the order and created its payment, but not yet saved the payment id. */
  function AwaitingPayment(): State {
    State(map[1 := ATTACHED], map[2 := P.Open], {}, map[0 := PLACED], [], map[0 := OrderSave(RECORDED, false)])
  }

  /** A CreatePayment call creates the gateway payment 2 and records it in the row. */
  lemma Attaches(s: State, t: nat, exclusive: bool)
    requires Reachable(s, exclusive) && t in s.tasks && s.tasks[t] == CreatePay(ROW)
    requires s.payments == map[1 := ROW] && 2 !in s.gateway
    ensures Reachable(s.(payments := map[1 := ATTACHED], gateway := s.gateway[2 := P.Open], tasks := s.tasks - {t}), exclusive)
  {
    var s1 := Apply(s, CallGateway(t, 2));
    Onward(s, CallGateway(t, 2), exclusive);
    assert s1.tasks[t] == AttachPay(ATTACHED);
    Onward(s1, SaveAttach(t), exclusive);
    assert Apply(s1, SaveAttach(t)).tasks == s.tasks - {t};
    assert Apply(s1, SaveAttach(t)).payments == map[1 := ATTACHED];
  }

  /** The order is stored and its payment's row created, the gateway not yet asked. */
  function Placed(): State {
    State(map[1 := ROW], map[], {}, map[0 := PLACED], [], map[0 := CheckoutPay(PLACED), 1 := CreatePay(ROW)])
  }

  lemma CheckoutPlaces(exclusive: bool)
    ensures Reachable(Placed(), exclusive)
  {
    Start(exclusive);
    Onward(Init(), PlaceOrder(0, PLACED), exclusive);
    var s1 := State(map[], map[], {}, map[0 := PLACED], [], map[0 := CheckoutPay(PLACED)]);
    assert s1 == Apply(Init(), PlaceOrder(0, PLACED));
    Onward(s1, StartCreate(1, 1, "order", 0, 950), exclusive);
    assert Placed() == Apply(s1, StartCreate(1, 1, "order", 0, 950));
  }

  lemma Checkout(exclusive: bool)
    ensures Reachable(AwaitingPayment(), exclusive)
  {
    CheckoutPlaces(exclusive);
    Attaches(Placed(), 1, exclusive);
    var s := Placed().(payments := map[1 := ATTACHED], gateway := map[2 := P.Open], tasks := map[0 := CheckoutPay(PLACED)]);
    assert s.tasks == Placed().tasks - {1} && s.gateway == Placed().gateway[2 := P.Open];
    Onward(s, RecordPayment(0, 1), exclusive);
    assert AwaitingPayment() == Apply(s, RecordPayment(0, 1));
  }

  /** Checkout is through: the order waits for its payment, and nothing is in flight. */
  function Waiting(): State {
    AwaitingPayment().(orders := map[0 := RECORDED], tasks := map[])
  }

  lemma CheckoutFinishes(exclusive: bool)
    ensures Reachable(Waiting(), exclusive)
  {
    Checkout(exclusive);
    Onward(AwaitingPayment(), SaveOrder(0), exclusive);
    assert Waiting() == Apply(AwaitingPayment(), SaveOrder(0));
  }

  /** The customer pays, and the webhook records it: the payment succeeds and its event is committed. */
  lemma Pays(s: State, t: nat, exclusive: bool)
    requires Reachable(s, exclusive) && t !in s.tasks
    requires s.payments == map[1 := ATTACHED] && 2 in s.gateway && s.gateway[2] == P.Open
    ensures Reachable(s.(payments := map[1 := PAID], gateway := s.gateway[2 := P.Paid], events := s.events + {EVENT}), exclusive)
  {
    var s1 := Apply(s, GatewayDecides(2, P.Paid));
    Onward(s, GatewayDecides(2, P.Paid), exclusive);
    var s2 := Apply(s1, StartWebhook(t, 1));
    Onward(s1, StartWebhook(t, 1), exclusive);
    var s3 := Apply(s2, AskStatus(t));
    Onward(s2, AskStatus(t), exclusive);
    assert s3.tasks[t] == WebhookSave(PAID, EVENT);
    Onward(s3, SaveWebhook(t), exclusive);
    assert Apply(s3, SaveWebhook(t)).tasks == s.tasks;
    assert Apply(s3, SaveWebhook(t)).payments == map[1 := PAID];
  }

  /** One delivery of the event to the handler, while the order is pending. */
  lemma Confirms(s: State, t: nat, exclusive: bool)
    requires Reachable(s, exclusive) && t !in s.tasks
    requires EVENT in s.events && 0 in s.orders && s.orders[0].status.Pending? && s.orders[0].id == 0
    ensures Reachable(s.(orders := s.orders[0 := O.ConfirmedOrder(s.orders[0], 5)],
                         confirmations := s.confirmations + [0]), exclusive)
  {
    var s1 := Apply(s, ReadForSucceeded(t, EVENT, 5));
    Onward(s, ReadForSucceeded(t, EVENT, 5), exclusive);
    Onward(s1, SaveOrder(t), exclusive);
    assert Apply(s1, SaveOrder(t)).tasks == s.tasks;
  }

  /**
  The plainest way to confirm twice: two deliveries of one payment.succeeded both read the
  pending order before either saves it.
  */
  lemma TwoDeliveriesConfirmTwice()
    ensures exists s :: Reachable(s, true) && s.confirmations == [0, 0]
  {
    CheckoutFinishes(true);
    Pays(Waiting(), 1, true);
    var s := Waiting().(payments := map[1 := PAID], gateway := Waiting().gateway[2 := P.Paid], events := Waiting().events + {EVENT});
    BothRead(s);
    var copy := OrderSave(O.ConfirmedOrder(RECORDED, 5), true);
    BothSave(s.(tasks := map[1 := copy, 2 := copy]));
  }

  lemma BothRead(s: State)
    requires Reachable(s, true) && s.tasks == map[] && EVENT in s.events && 0 in s.orders && s.orders[0] == RECORDED
    ensures var copy := OrderSave(O.ConfirmedOrder(RECORDED, 5), true);
            Reachable(s.(tasks := map[1 := copy, 2 := copy]), true)
  {
    Onward(s, ReadForSucceeded(1, EVENT, 5), true);
    var s1 := Apply(s, ReadForSucceeded(1, EVENT, 5));
    Onward(s1, ReadForSucceeded(2, EVENT, 5), true);
    var copy := OrderSave(O.ConfirmedOrder(RECORDED, 5), true);
    assert Apply(s1, ReadForSucceeded(2, EVENT, 5)).tasks == map[1 := copy, 2 := copy];
  }

  lemma BothSave(s: State)
    requires Reachable(s, true) && s.confirmations == []
    requires var copy := OrderSave(O.ConfirmedOrder(RECORDED, 5), true); s.tasks == map[1 := copy, 2 := copy]
    ensures exists s :: Reachable(s, true) && s.confirmations == [0, 0]
  {
    Onward(s, SaveOrder(1), true);
    var s1 := Apply(s, SaveOrder(1));
    assert s1.confirmations == [0];
    Onward(s1, SaveOrder(2), true);
    assert Apply(s1, SaveOrder(2)).confirmations == [0, 0];
  }

  /**
  The same through checkout: its save of the payment id comes after the confirmation and writes
  the pending order back, so that a redelivered event confirms it again.  This needs the gateway
  to report the payment as paid before checkout has returned the checkout page to the customer.
  */
  lemma LateSaveConfirmsTwice()
    ensures exists s :: Reachable(s, true) && s.confirmations == [0, 0]
  {
    Checkout(true);
    var s := AwaitingPayment();
    Pays(s, 1, true);
    s := s.(payments := map[1 := PAID], gateway := s.gateway[2 := P.Paid], events := s.events + {EVENT});
    Confirms(s, 1, true);
    s := s.(orders := s.orders[0 := O.ConfirmedOrder(s.orders[0], 5)], confirmations := [0]);
    Onward(s, SaveOrder(0), true);
    s := Apply(s, SaveOrder(0));
    assert s.orders[0] == RECORDED;
    assert s.confirmations == [0];
    Confirms(s, 1, true);
    assert s.confirmations + [0] == [0, 0];
  }

  /** A cancellation decided before the payment succeeded can be saved after the confirmation. */
  lemma ConfirmedOrderIsCancelled()
    ensures exists s :: Reachable(s, true) && s.confirmations == [0] && SucceededFor(s, 0)
                        && 0 in s.orders && s.orders[0].status.Cancelled?
  {
    CancellationDecided();
    var s := Waiting().(tasks := map[0 := OrderSave(O.CancelledOrder(RECORDED, 4), false)]);
    Pays(s, 1, true);
    var s1 := s.(payments := map[1 := PAID], gateway := s.gateway[2 := P.Paid], events := s.events + {EVENT});
    Confirms(s1, 1, true);
    var s2 := s1.(orders := s1.orders[0 := O.ConfirmedOrder(RECORDED, 5)], confirmations := [0]);
    Onward(s2, SaveOrder(0), true);
    assert SucceededFor(Apply(s2, SaveOrder(0)), 0) by {
      assert P.HasSubject(PAID, "order", 0);
    }
  }

  lemma CancellationDecided()
    ensures Reachable(Waiting().(tasks := map[0 := OrderSave(O.CancelledOrder(RECORDED, 4), false)]), true)
  {
    CheckoutFinishes(true);
    var s := Waiting();
    var s1 := s.(tasks := map[0 := CancelRead(RECORDED)]);
    Onward(s, ReadForCancel(0, 0), true);
    assert s1 == Apply(s, ReadForCancel(0, 0));
    Onward(s1, DecideCancel(0, O.StillOpen, 4), true);
    assert Apply(s1, DecideCancel(0, O.StillOpen, 4))
        == s.(tasks := map[0 := OrderSave(O.CancelledOrder(RECORDED, 4), false)]);
  }

  /** Why CreatePayment calls for one subject must not overlap. */
  lemma OverlapBreaksCausality()
    ensures exists s :: Reachable(s, false) && 0 in s.orders && O.Paid(s.orders[0].status) && !SucceededFor(s, 0)
  {
    Start(false);
    var s0 := State(map[], map[], {}, map[0 := PLACED], [], map[0 := CheckoutPay(PLACED)]);
    Onward(Init(), PlaceOrder(0, PLACED), false);
    assert s0 == Apply(Init(), PlaceOrder(0, PLACED));
    var s1 := s0.(payments := map[1 := ROW], tasks := map[0 := CheckoutPay(PLACED), 1 := CreatePay(ROW)]);
    Onward(s0, StartCreate(1, 1, "order", 0, 950), false);
    assert s1 == Apply(s0, StartCreate(1, 1, "order", 0, 950));
    // a second call finds the payment without a gateway reference
    var s2 := s1.(tasks := s1.tasks[2 := CreatePay(ROW)]);
    Onward(s1, RetryCreate(2, 1), false);
    assert s2 == Apply(s1, RetryCreate(2, 1));
    OverlapSaves(s2);
  }

  lemma OverlapSaves(s2: State)
    requires Reachable(s2, false)
    requires s2 == State(map[1 := ROW], map[], {}, map[0 := PLACED], [],
                         map[0 := CheckoutPay(PLACED), 1 := CreatePay(ROW), 2 := CreatePay(ROW)])
    ensures exists s :: Reachable(s, false) && 0 in s.orders && O.Paid(s.orders[0].status) && !SucceededFor(s, 0)
  {
    var stale := AttachPay(ROW.(gatewayRef := Some(3)));
    var s3 := s2.(gateway := map[3 := P.Open], tasks := s2.tasks[2 := stale]);
    Onward(s2, CallGateway(2, 3), false);
    assert s3 == Apply(s2, CallGateway(2, 3));
    Attaches(s3, 1, false);
    StaleAttachLoses(s3.(payments := map[1 := ATTACHED], gateway := s3.gateway[2 := P.Open], tasks := s3.tasks - {1}));
  }

  /** The call that asked for gateway payment 3 saves its copy after payment 2 has succeeded. */
  lemma StaleAttachLoses(s5: State)
    requires Reachable(s5, false)
    requires s5.payments == map[1 := ATTACHED] && s5.orders == map[0 := PLACED]
    requires 2 in s5.gateway && s5.gateway[2] == P.Open
    requires 1 !in s5.tasks && 2 in s5.tasks && s5.tasks[2] == AttachPay(ROW.(gatewayRef := Some(3)))
    ensures exists s :: Reachable(s, false) && 0 in s.orders && O.Paid(s.orders[0].status) && !SucceededFor(s, 0)
  {
    Pays(s5, 1, false);
    var s6 := s5.(payments := map[1 := PAID], gateway := s5.gateway[2 := P.Paid], events := s5.events + {EVENT});
    Confirms(s6, 1, false);
    var s7 := s6.(orders := s6.orders[0 := O.ConfirmedOrder(PLACED, 5)], confirmations := s6.confirmations + [0]);
    Onward(s7, SaveAttach(2), false);
    assert Apply(s7, SaveAttach(2)).payments == map[1 := ROW.(gatewayRef := Some(3))];
  }
}
