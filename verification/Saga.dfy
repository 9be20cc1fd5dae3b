/**
Payments confirming orders, with every command split where the code leaves the database: a task
holds the copy it read (or the changed copy it is about to save) while everything else goes on.
Saving writes the whole row, so a stale copy overwrites what happened in between.  Outbox events
are delivered at any time, any number of times, in any order.

The gateway's final statuses are stable and its references new each time; nothing else is assumed
of the environment here.  What holds of every run is the shape of the copies in flight: they are
copies of rows that are there.
*/
module Saga {
  import opened Wrappers
  import O = Orders
  import P = Payments

  /** A command or handler between two of its database accesses. */
  datatype Task =
    | CreatePay(payment: P.PaymentData)                    // row looked up or created, gateway not yet asked
    | AttachPay(payment: P.PaymentData)                    // gateway payment created, row not yet saved
    | WebhookRead(payment: P.PaymentData)                  // pending row read, gateway not yet asked
    | WebhookSave(payment: P.PaymentData, event: P.PaymentEvent)
    | CheckoutPay(order: O.OrderData)                      // order stored, its payment not yet recorded
    | CancelRead(order: O.OrderData)                       // order read, payment status not yet asked
    | OrderSave(order: O.OrderData, confirms: bool)        // changed order, with order.confirmed if it confirms

  datatype State = State(
    payments: map<nat, P.PaymentData>,
    gateway: map<nat, P.GatewayStatus>,
    events: set<P.PaymentEvent>,       // committed payment events
    orders: map<nat, O.OrderData>,
    confirmations: seq<nat>,           // orders of the committed order.confirmed rows
    tasks: map<nat, Task>)

  datatype Step =
    | GatewayDecides(ref: nat, status: P.GatewayStatus)
    | StartCreate(task: nat, payment: nat, subjectType: string, subject: nat, amount: nat)
    | RetryCreate(task: nat, payment: nat)
    | CallGateway(task: nat, ref: nat)
    | SaveAttach(task: nat)
    | StartWebhook(task: nat, payment: nat)
    | AskStatus(task: nat)
    | SaveWebhook(task: nat)
    | PlaceOrder(task: nat, placed: O.OrderData)
    | RecordPayment(task: nat, payment: nat)
    | ReadForSucceeded(task: nat, event: P.PaymentEvent, now: nat)
    | ReadForFailed(task: nat, event: P.PaymentEvent, now: nat)
    | ReadForCancel(task: nat, order: nat)
    | DecideCancel(task: nat, answer: O.GatewayAnswer, now: nat)
    | ReadForReady(task: nat, order: nat, now: nat)
    | ReadForComplete(task: nat, order: nat, now: nat)
    | SaveOrder(task: nat)
    | Abort(task: nat)

  function Init(): State {
    State(map[], map[], {}, map[], [], map[])
  }

  predicate Has(s: State, task: nat) {
    task in s.tasks
  }

  ghost predicate KnownSubject(s: State, subjectType: string, subject: nat) {
    exists p :: p in s.payments && P.HasSubject(s.payments[p], subjectType, subject)
  }

  ghost predicate Enabled(s: State, step: Step) {
    match step
    case GatewayDecides(ref, status) => ref in s.gateway && s.gateway[ref].Open? && !status.Open?
    case StartCreate(t, p, subjectType, subject, _) =>
      t !in s.tasks && p !in s.payments && !KnownSubject(s, subjectType, subject)
    case RetryCreate(t, p) => t !in s.tasks && p in s.payments && s.payments[p].gatewayRef.None?
    case CallGateway(t, ref) => Has(s, t) && s.tasks[t].CreatePay? && ref !in s.gateway
    case SaveAttach(t) => Has(s, t) && s.tasks[t].AttachPay?
    case StartWebhook(t, p) =>
      t !in s.tasks && p in s.payments && s.payments[p].gatewayRef.Some? && s.payments[p].status.Pending?
    case AskStatus(t) =>
      && Has(s, t) && s.tasks[t].WebhookRead? && s.tasks[t].payment.gatewayRef.Some?
      && s.tasks[t].payment.gatewayRef.value in s.gateway
    case SaveWebhook(t) => Has(s, t) && s.tasks[t].WebhookSave?
    case PlaceOrder(t, order) => t !in s.tasks && order.id !in s.orders && O.Fresh(order)
    case RecordPayment(t, _) => Has(s, t) && s.tasks[t].CheckoutPay?
    case ReadForSucceeded(t, e, _) =>
      && t !in s.tasks && e in s.events && e.PaymentSucceeded? && e.subjectType == "order"
      && e.subject in s.orders && s.orders[e.subject].status.Pending?
    case ReadForFailed(t, e, _) =>
      && t !in s.tasks && e in s.events && e.PaymentFailed? && e.subjectType == "order"
      && e.subject in s.orders && s.orders[e.subject].status.Pending?
    case ReadForCancel(t, id) => t !in s.tasks && id in s.orders
    case DecideCancel(t, _, _) => Has(s, t) && s.tasks[t].CancelRead?
    case ReadForReady(t, id, _) => t !in s.tasks && id in s.orders && s.orders[id].status.Confirmed?
    case ReadForComplete(t, id, _) =>
      t !in s.tasks && id in s.orders && (s.orders[id].status.Confirmed? || s.orders[id].status.Ready?)
    case SaveOrder(t) => Has(s, t) && s.tasks[t].OrderSave?
    case Abort(t) => Has(s, t)
  }

  function Put(s: State, t: nat, task: Task): State {
    s.(tasks := s.tasks[t := task])
  }

  function Drop(s: State, t: nat): State {
    s.(tasks := s.tasks - {t})
  }

  function SavePayment(s: State, p: P.PaymentData): State {
    s.(payments := s.payments[p.id := p])
  }

  function Apply(s: State, step: Step): State
    requires Enabled(s, step)
  {
    match step
    case GatewayDecides(ref, status) => s.(gateway := s.gateway[ref := status])
    case StartCreate(t, p, subjectType, subject, amount) =>
      var row := P.NewPayment(p, subjectType, subject, amount);
      Put(SavePayment(s, row), t, CreatePay(row))
    case RetryCreate(t, p) => Put(s, t, CreatePay(s.payments[p]))
    case CallGateway(t, ref) =>
      Put(s.(gateway := s.gateway[ref := P.Open]), t,
          AttachPay(s.tasks[t].payment.(gatewayRef := Some(ref))))
    case SaveAttach(t) => Drop(SavePayment(s, s.tasks[t].payment), t)
    case StartWebhook(t, p) => Put(s, t, WebhookRead(s.payments[p]))
    case AskStatus(t) =>
      var settled := P.Settled(s.tasks[t].payment, s.gateway[s.tasks[t].payment.gatewayRef.value]);
      if settled.None? then Drop(s, t) else Put(s, t, WebhookSave(settled.value.0, settled.value.1))
    case SaveWebhook(t) =>
      Drop(SavePayment(s, s.tasks[t].payment), t).(events := s.events + {s.tasks[t].event})
    case PlaceOrder(t, order) => Put(s.(orders := s.orders[order.id := order]), t, CheckoutPay(order))
    case RecordPayment(t, payment) => Put(s, t, OrderSave(s.tasks[t].order.(paymentId := Some(payment)), false))
    case ReadForSucceeded(t, e, now) => Put(s, t, OrderSave(O.ConfirmedOrder(s.orders[e.subject], now), true))
    case ReadForFailed(t, e, now) => Put(s, t, OrderSave(O.CancelledOrder(s.orders[e.subject], now), false))
    case ReadForCancel(t, id) => Put(s, t, CancelRead(s.orders[id]))
    case DecideCancel(t, answer, now) =>
      var d := s.tasks[t].order;
      if (d.paymentId.Some? && (answer.CheckFailed? || answer.PaymentSucceeded?)) || !d.status.Pending? then Drop(s, t)
      else Put(s, t, OrderSave(O.CancelledOrder(d, now), false))
    case ReadForReady(t, id, now) => Put(s, t, OrderSave(O.ReadyOrder(s.orders[id], now), false))
    case ReadForComplete(t, id, now) => Put(s, t, OrderSave(O.CompletedOrder(s.orders[id], now), false))
    case SaveOrder(t) =>
      var d := s.tasks[t].order;
      Drop(s, t).(orders := s.orders[d.id := d],
                  confirmations := s.confirmations + if s.tasks[t].confirms then [d.id] else [])
    case Abort(t) => Drop(s, t)
  }

  /** A run with the steps it takes. */
  ghost predicate Run(trace: seq<State>, steps: seq<Step>) {
    && |trace| == |steps| + 1 && trace[0] == Init()
    && forall i :: 0 <= i < |steps| ==> StepAt(trace, steps, i)
  }

  ghost predicate StepAt(trace: seq<State>, steps: seq<Step>, i: nat)
    requires i < |steps| < |trace|
  {
    Enabled(trace[i], steps[i]) && trace[i + 1] == Apply(trace[i], steps[i])
  }

  // ---- the shape of rows and copies ----

  predicate Creating(t: Task) {
    t.CreatePay? || t.AttachPay?
  }

  predicate HoldsOrder(t: Task) {
    t.CheckoutPay? || t.CancelRead? || t.OrderSave?
  }

  predicate SameCall(p: P.PaymentData, row: P.PaymentData) {
    p.id == row.id && p.subjectType == row.subjectType && p.subject == row.subject && p.amount == row.amount
  }

  /** The copy is one of a stored payment. */
  predicate Known(s: State, p: P.PaymentData) {
    p.id in s.payments && SameCall(p, s.payments[p.id])
  }

  function SuccessEvent(p: P.PaymentData): P.PaymentEvent {
    P.PaymentSucceeded(p.id, p.subjectType, p.subject, p.amount)
  }

  ghost predicate PaymentShape(s: State, p: nat)
    requires p in s.payments
  {
    var row := s.payments[p];
    && row.id == p
    && (row.gatewayRef.None? ==> row.status.Pending?)
    && (row.status.Succeeded? ==> SuccessEvent(row) in s.events)
  }

  ghost predicate EventShape(s: State, e: P.PaymentEvent) {
    e.payment in s.payments && Describes(e, s.payments[e.payment])
  }

  /** The event is about this payment: its subject and its amount. */
  predicate Describes(e: P.PaymentEvent, row: P.PaymentData) {
    e.payment == row.id && e.subjectType == row.subjectType && e.subject == row.subject && e.amount == row.amount
  }

  /** What the event says of the payment is so. */
  predicate Tells(e: P.PaymentEvent, row: P.PaymentData) {
    && Describes(e, row)
    && (e.PaymentSucceeded? ==> row.status.Succeeded?)
    && (e.PaymentFailed? ==> row.status.Failed? && row.reason == Some(e.reason))
  }

  ghost predicate TaskShape(s: State, t: nat)
    requires t in s.tasks
  {
    match s.tasks[t]
    case CreatePay(p) => Known(s, p) && p.gatewayRef.None? && p.status.Pending?
    case AttachPay(p) => Known(s, p) && p.gatewayRef.Some? && p.status.Pending?
    case WebhookRead(p) => Known(s, p) && p.gatewayRef.Some? && p.status.Pending?
    case WebhookSave(p, e) =>
      && Known(s, p) && p.gatewayRef.Some? && !p.status.Pending?
      && Tells(e, p)
    case CheckoutPay(d) => d.id in s.orders && d.status.Pending?
    case CancelRead(d) => d.id in s.orders
    case OrderSave(d, confirms) => d.id in s.orders && (confirms ==> d.status.Confirmed?)
  }

  ghost predicate Shape(s: State) {
    && (forall p :: p in s.payments ==> PaymentShape(s, p))
    && (forall e :: e in s.events ==> EventShape(s, e))
    && (forall t :: t in s.tasks ==> TaskShape(s, t))
    && (forall id :: id in s.orders ==> s.orders[id].id == id)
  }

  // ---- every step keeps the shape ----

  /** Rows stay what they are rows of, and nothing committed is taken back. */
  ghost predicate Grows(s: State, s': State) {
    && (forall p :: p in s.payments ==> p in s'.payments && SameCall(s'.payments[p], s.payments[p]))
    && s.orders.Keys <= s'.orders.Keys && s.events <= s'.events
  }

  /** The step adds, replaces or drops one task. */
  ghost predicate OnlyTask(s: State, s': State, t: nat) {
    && (forall u :: u != t ==> (u in s.tasks <==> u in s'.tasks))
    && (forall u :: u != t && u in s.tasks ==> s'.tasks[u] == s.tasks[u])
  }

  lemma TaskShapeStays(s: State, s': State, t: nat)
    requires t in s.tasks && TaskShape(s, t) && Grows(s, s') && t in s'.tasks && s'.tasks[t] == s.tasks[t]
    ensures TaskShape(s', t)
  {
  }

  lemma KeepsShape(s: State, s': State, t: nat)
    requires Shape(s) && Grows(s, s') && OnlyTask(s, s', t)
    requires t in s'.tasks ==> TaskShape(s', t)
    requires forall p :: p in s'.payments ==> PaymentShape(s', p)
    requires forall e :: e in s'.events && e !in s.events ==> EventShape(s', e)
    requires forall id :: id in s'.orders ==> s'.orders[id].id == id
    ensures Shape(s')
  {
    forall u | u in s'.tasks ensures TaskShape(s', u) {
      if u != t {
        TaskShapeStays(s, s', u);
      }
    }
    forall e | e in s'.events ensures EventShape(s', e) {
      assert e in s.events ==> EventShape(s, e);
    }
  }

  predicate WritesPayment(step: Step) {
    step.StartCreate? || step.SaveAttach? || step.SaveWebhook?
  }

  predicate WritesOrder(step: Step) {
    step.PlaceOrder? || step.SaveOrder?
  }

  lemma PaymentWriteShape(s: State, step: Step)
    requires Shape(s) && Enabled(s, step) && WritesPayment(step)
    ensures Shape(Apply(s, step)) && Grows(s, Apply(s, step))
  {
    var s' := Apply(s, step);
    assert step.task in s.tasks ==> TaskShape(s, step.task);
    forall p | p in s'.payments ensures PaymentShape(s', p) {
      assert p in s.payments ==> PaymentShape(s, p);
    }
    KeepsShape(s, s', step.task);
  }

  lemma OrderWriteShape(s: State, step: Step)
    requires Shape(s) && Enabled(s, step) && WritesOrder(step)
    ensures Shape(Apply(s, step)) && Grows(s, Apply(s, step))
  {
    var s' := Apply(s, step);
    assert step.task in s.tasks ==> TaskShape(s, step.task);
    forall p | p in s'.payments ensures PaymentShape(s', p) {
      assert PaymentShape(s, p);
    }
    KeepsShape(s, s', step.task);
  }

  lemma GatewayShape(s: State, ref: nat, status: P.GatewayStatus)
    requires Shape(s) && Enabled(s, GatewayDecides(ref, status))
    ensures Shape(Apply(s, GatewayDecides(ref, status))) && Grows(s, Apply(s, GatewayDecides(ref, status)))
  {
    var s' := Apply(s, GatewayDecides(ref, status));
    forall t | t in s'.tasks ensures TaskShape(s', t) {
      assert TaskShape(s, t);
    }
    forall p | p in s'.payments ensures PaymentShape(s', p) {
      assert PaymentShape(s, p);
    }
  }

  /** A step of the payment side that only reads, or goes on with, one copy. */
  predicate PaymentTaskStep(step: Step) {
    step.RetryCreate? || step.CallGateway? || step.StartWebhook? || step.AskStatus?
  }

  /** A handler or command reads an order and takes a changed copy, or one to be decided on. */
  predicate ReadStep(step: Step) {
    step.ReadForSucceeded? || step.ReadForFailed? || step.ReadForCancel? || step.ReadForReady? || step.ReadForComplete?
  }

  /** A step that goes on from the order copy a task holds, or drops the task. */
  predicate ContinueStep(step: Step) {
    step.RecordPayment? || step.DecideCancel? || step.Abort?
  }

  /** Such steps leave the tables and the committed events alone. */
  ghost predicate TablesSame(s: State, s': State) {
    s'.payments == s.payments && s'.orders == s.orders && s'.events == s.events && s'.confirmations == s.confirmations
  }

  lemma PaymentTaskFrame(s: State, step: Step)
    requires Enabled(s, step) && PaymentTaskStep(step)
    ensures TablesSame(s, Apply(s, step)) && OnlyTask(s, Apply(s, step), step.task)
  {
  }

  lemma ReadFrame(s: State, step: Step)
    requires Enabled(s, step) && ReadStep(step)
    ensures TablesSame(s, Apply(s, step)) && OnlyTask(s, Apply(s, step), step.task)
  {
  }

  lemma ContinueFrame(s: State, step: Step)
    requires Enabled(s, step) && ContinueStep(step)
    ensures TablesSame(s, Apply(s, step)) && OnlyTask(s, Apply(s, step), step.task)
  {
  }

  lemma TablesSameShape(s: State, s': State, t: nat)
    requires Shape(s) && TablesSame(s, s') && OnlyTask(s, s', t)
    requires t in s'.tasks ==> TaskShape(s', t)
    ensures Shape(s') && Grows(s, s')
  {
    forall p | p in s'.payments ensures PaymentShape(s', p) {
      assert PaymentShape(s, p);
    }
    KeepsShape(s, s', t);
  }

  lemma PaymentTaskShape(s: State, step: Step)
    requires Shape(s) && Enabled(s, step) && PaymentTaskStep(step)
    ensures Shape(Apply(s, step)) && Grows(s, Apply(s, step))
  {
    var s' := Apply(s, step);
    PaymentTaskFrame(s, step);
    match step {
      case RetryCreate(_, p) => assert PaymentShape(s, p);
      case StartWebhook(_, p) => assert PaymentShape(s, p);
      case CallGateway(t, _) => assert TaskShape(s, t);
      case AskStatus(t) => assert TaskShape(s, t);
    }
    assert step.task in s'.tasks ==> TaskShape(s', step.task);
    TablesSameShape(s, s', step.task);
  }

  lemma ReadShape(s: State, step: Step)
    requires Shape(s) && Enabled(s, step) && ReadStep(step)
    ensures Shape(Apply(s, step)) && Grows(s, Apply(s, step))
  {
    ReadFrame(s, step);
    assert TaskShape(Apply(s, step), step.task);
    TablesSameShape(s, Apply(s, step), step.task);
  }

  lemma ContinueShape(s: State, step: Step)
    requires Shape(s) && Enabled(s, step) && ContinueStep(step)
    ensures Shape(Apply(s, step)) && Grows(s, Apply(s, step))
  {
    var s' := Apply(s, step);
    ContinueFrame(s, step);
    assert TaskShape(s, step.task);
    assert step.task in s'.tasks ==> TaskShape(s', step.task);
    TablesSameShape(s, s', step.task);
  }

  lemma StepShape(s: State, step: Step)
    requires Shape(s) && Enabled(s, step)
    ensures Shape(Apply(s, step)) && Grows(s, Apply(s, step))
  {
    if WritesPayment(step) {
      PaymentWriteShape(s, step);
    } else if WritesOrder(step) {
      OrderWriteShape(s, step);
    } else if step.GatewayDecides? {
      GatewayShape(s, step.ref, step.status);
    } else if PaymentTaskStep(step) {
      PaymentTaskShape(s, step);
    } else if ReadStep(step) {
      ReadShape(s, step);
    } else {
      ContinueShape(s, step);
    }
  }

  lemma {:induction false} RunShape(trace: seq<State>, steps: seq<Step>, i: nat)
    requires Run(trace, steps) && i < |trace|
    ensures Shape(trace[i])
  {
    if i > 0 {
      RunShape(trace, steps, i - 1);
      assert StepAt(trace, steps, i - 1);
      StepShape(trace[i - 1], steps[i - 1]);
    }
  }
}
