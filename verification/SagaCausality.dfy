/**
When is a paid order really paid?  Every save of a payment writes the whole row; the events
already committed stay true exactly as long as no save takes a recorded success back.  That in
turn follows if attaching a gateway payment always finds its row without a reference, and this
follows if CreatePayment calls for one subject do not overlap.
*/
module SagaCausality {
  import opened Wrappers
  import opened Saga
  import O = Orders
  import P = Payments

  // ---- success once recorded ----

  predicate SavesPayment(step: Step) {
    step.SaveAttach? || step.SaveWebhook?
  }

  /** The guard on the write: a stored success is only overwritten by a success. */
  ghost predicate SuccessKept(s: State, step: Step)
    requires Enabled(s, step)
  {
    SavesPayment(step) ==>
      var p := s.tasks[step.task].payment;
      p.id in s.payments && s.payments[p.id].status.Succeeded? ==> p.status.Succeeded?
  }

  predicate BackedEvent(s: State, e: P.PaymentEvent) {
    e.PaymentSucceeded? ==> e.payment in s.payments && s.payments[e.payment].status.Succeeded?
  }

  /** Every committed payment.succeeded event is of a payment that has succeeded. */
  ghost predicate Backed(s: State) {
    forall e :: e in s.events ==> BackedEvent(s, e)
  }

  ghost predicate SucceededFor(s: State, order: nat) {
    exists p :: p in s.payments && P.HasSubject(s.payments[p], "order", order) && s.payments[p].status.Succeeded?
  }

  /** A copy of an order, stored or in flight: paid copies have a succeeded payment. */
  ghost predicate CopyOk(s: State, d: O.OrderData) {
    O.Paid(d.status) ==> SucceededFor(s, d.id)
  }

  ghost predicate CopiesOk(s: State) {
    && (forall id :: id in s.orders ==> CopyOk(s, s.orders[id]))
    && (forall t :: t in s.tasks && HoldsOrder(s.tasks[t]) ==> CopyOk(s, s.tasks[t].order))
  }

  ghost predicate KeepsSuccess(s: State, s': State) {
    forall p :: p in s.payments ==>
      && p in s'.payments && SameCall(s'.payments[p], s.payments[p])
      && (s.payments[p].status.Succeeded? ==> s'.payments[p].status.Succeeded?)
  }

  lemma SuccessStays(s: State, step: Step)
    requires Shape(s) && Enabled(s, step) && SuccessKept(s, step)
    ensures KeepsSuccess(s, Apply(s, step))
  {
    if SavesPayment(step) {
      assert TaskShape(s, step.task);
    } else if PaymentTaskStep(step) {
      PaymentTaskFrame(s, step);
    } else if ReadStep(step) {
      ReadFrame(s, step);
    }
  }

  lemma BackedStays(s: State, step: Step)
    requires Shape(s) && Enabled(s, step) && SuccessKept(s, step) && Backed(s)
    ensures Backed(Apply(s, step))
  {
    var s' := Apply(s, step);
    SuccessStays(s, step);
    NewEvents(s, step);
    forall e | e in s'.events ensures BackedEvent(s', e) {
      assert e in s.events ==> BackedEvent(s, e);
    }
  }

  /** Only saving a webhook's result commits an event, and the row it saves carries that result. */
  lemma NewEvents(s: State, step: Step)
    requires Shape(s) && Enabled(s, step)
    ensures forall e :: e in Apply(s, step).events && e !in s.events ==> BackedEvent(Apply(s, step), e)
  {
    if step.SaveWebhook? {
      assert TaskShape(s, step.task);
    } else if PaymentTaskStep(step) {
      PaymentTaskFrame(s, step);
    } else if ReadStep(step) {
      ReadFrame(s, step);
    } else if ContinueStep(step) {
      ContinueFrame(s, step);
    }
  }

  /** A save that takes a success back leaves a committed event without its payment. */
  lemma LostSuccess(s: State, step: Step)
    requires Shape(s) && Enabled(s, step) && !SuccessKept(s, step)
    ensures !Backed(Apply(s, step))
  {
    var p := s.tasks[step.task].payment;
    var s' := Apply(s, step);
    assert PaymentShape(s, p.id) && TaskShape(s, step.task);
    var e := SuccessEvent(s.payments[p.id]);
    assert e in s'.events && s'.payments[p.id] == p;
    assert !BackedEvent(s', e);
  }

  ghost predicate KeptAt(trace: seq<State>, steps: seq<Step>, i: nat)
    requires i < |steps| < |trace|
  {
    StepAt(trace, steps, i) && SuccessKept(trace[i], steps[i])
  }

  ghost predicate KeptThroughout(trace: seq<State>, steps: seq<Step>)
    requires |steps| < |trace|
  {
    forall i :: 0 <= i < |steps| ==> KeptAt(trace, steps, i)
  }

  /**
  Exactly when every committed payment.succeeded event keeps a succeeded payment, in every run
  and without any assumption: if and only if no save overwrites a stored success with less.
  */
  lemma BackedIffSuccessKept(trace: seq<State>, steps: seq<Step>)
    requires Run(trace, steps)
    ensures (forall i :: 0 <= i < |trace| ==> Backed(trace[i]))
       <==> KeptThroughout(trace, steps)
  {
    if forall i :: 0 <= i < |trace| ==> Backed(trace[i]) {
      forall i | 0 <= i < |steps| ensures KeptAt(trace, steps, i) {
        RunShape(trace, steps, i);
        assert StepAt(trace, steps, i);
        assert Backed(trace[i + 1]);
        if !SuccessKept(trace[i], steps[i]) {
          LostSuccess(trace[i], steps[i]);
        }
      }
    }
    if KeptThroughout(trace, steps) {
      forall i | 0 <= i < |trace| ensures Backed(trace[i]) {
        BackedSoFar(trace, steps, i);
      }
    }
  }

  lemma CausalStep(s: State, step: Step, s': State)
    requires Shape(s) && Backed(s) && CopiesOk(s) && Enabled(s, step) && SuccessKept(s, step) && s' == Apply(s, step)
    ensures Backed(s') && CopiesOk(s')
  {
    BackedStays(s, step);
    CopiesStay(s, step);
  }

  lemma {:induction false} BackedSoFar(trace: seq<State>, steps: seq<Step>, i: nat)
    requires Run(trace, steps) && KeptThroughout(trace, steps) && i < |trace|
    ensures Backed(trace[i]) && CopiesOk(trace[i])
  {
    if i > 0 {
      BackedSoFar(trace, steps, i - 1);
      RunShape(trace, steps, i - 1);
      assert KeptAt(trace, steps, i - 1);
      CausalStep(trace[i - 1], steps[i - 1], trace[i]);
    }
  }

  // ---- copies of orders ----

  lemma CopyStaysOk(s: State, s': State, d: O.OrderData)
    requires CopyOk(s, d) && KeepsSuccess(s, s')
    ensures CopyOk(s', d)
  {
    if O.Paid(d.status) {
      var p :| p in s.payments && P.HasSubject(s.payments[p], "order", d.id) && s.payments[p].status.Succeeded?;
      assert p in s'.payments;
    }
  }

  /** The order copy a step writes or takes is fine, because the one it comes from is. */
  lemma OldCopiesOk(s: State, s': State)
    requires CopiesOk(s) && KeepsSuccess(s, s')
    ensures forall id :: id in s.orders ==> CopyOk(s', s.orders[id])
    ensures forall t :: t in s.tasks && HoldsOrder(s.tasks[t]) ==> CopyOk(s', s.tasks[t].order)
  {
    forall id | id in s.orders ensures CopyOk(s', s.orders[id]) {
      CopyStaysOk(s, s', s.orders[id]);
    }
    forall t | t in s.tasks && HoldsOrder(s.tasks[t]) ensures CopyOk(s', s.tasks[t].order) {
      CopyStaysOk(s, s', s.tasks[t].order);
    }
  }

  lemma ReadCopyOk(s: State, step: Step)
    requires Shape(s) && Backed(s) && CopiesOk(s) && Enabled(s, step) && ReadStep(step)
    ensures step.task in Apply(s, step).tasks && HoldsOrder(Apply(s, step).tasks[step.task])
    ensures CopyOk(s, Apply(s, step).tasks[step.task].order)
  {
    if step.ReadForSucceeded? {
      assert BackedEvent(s, step.event) && EventShape(s, step.event);
      assert SucceededFor(s, step.event.subject);
    }
  }

  lemma ReadCopies(s: State, step: Step)
    requires Shape(s) && Backed(s) && CopiesOk(s) && Enabled(s, step) && ReadStep(step)
    ensures CopiesOk(Apply(s, step))
  {
    var s' := Apply(s, step);
    ReadFrame(s, step);
    ReadCopyOk(s, step);
    OldCopiesOk(s, s');
    CopyStaysOk(s, s', s'.tasks[step.task].order);
  }

  lemma ContinueCopies(s: State, step: Step)
    requires Shape(s) && CopiesOk(s) && Enabled(s, step) && ContinueStep(step)
    ensures CopiesOk(Apply(s, step))
  {
    var s' := Apply(s, step);
    ContinueFrame(s, step);
    OldCopiesOk(s, s');
    ContinuedCopy(s, step);
  }

  lemma ContinuedCopy(s: State, step: Step)
    requires Enabled(s, step) && ContinueStep(step)
    ensures var s' := Apply(s, step);
            step.task in s'.tasks && HoldsOrder(s'.tasks[step.task]) ==>
              && HoldsOrder(s.tasks[step.task])
              && s'.tasks[step.task].order.id == s.tasks[step.task].order.id
              && (s'.tasks[step.task].order.status == s.tasks[step.task].order.status
                  || s'.tasks[step.task].order.status.Cancelled?)
  {
  }

  lemma OrderWriteCopies(s: State, step: Step)
    requires Shape(s) && CopiesOk(s) && Enabled(s, step) && WritesOrder(step)
    ensures CopiesOk(Apply(s, step))
  {
    var s' := Apply(s, step);
    assert step.SaveOrder? ==> TaskShape(s, step.task);
    OldCopiesOk(s, s');
  }

  lemma PaymentCopies(s: State, step: Step)
    requires Shape(s) && CopiesOk(s) && Enabled(s, step) && SuccessKept(s, step)
    requires WritesPayment(step) || PaymentTaskStep(step) || step.GatewayDecides?
    ensures CopiesOk(Apply(s, step))
  {
    var s' := Apply(s, step);
    SuccessStays(s, step);
    OldCopiesOk(s, s');
    PaymentTasksHoldNoOrder(s, step);
    forall t | t in s'.tasks && HoldsOrder(s'.tasks[t]) ensures CopyOk(s', s'.tasks[t].order) {
      assert t in s.tasks && s'.tasks[t] == s.tasks[t];
    }
  }

  lemma PaymentTasksHoldNoOrder(s: State, step: Step)
    requires Enabled(s, step) && (WritesPayment(step) || PaymentTaskStep(step) || step.GatewayDecides?)
    ensures Apply(s, step).orders == s.orders
    ensures forall t :: t in Apply(s, step).tasks && HoldsOrder(Apply(s, step).tasks[t]) ==>
              t in s.tasks && Apply(s, step).tasks[t] == s.tasks[t]
  {
  }

  lemma CopiesStay(s: State, step: Step)
    requires Shape(s) && Backed(s) && CopiesOk(s) && Enabled(s, step) && SuccessKept(s, step)
    ensures CopiesOk(Apply(s, step))
  {
    if ReadStep(step) {
      ReadCopies(s, step);
    } else if ContinueStep(step) {
      ContinueCopies(s, step);
    } else if WritesOrder(step) {
      OrderWriteCopies(s, step);
    } else {
      PaymentCopies(s, step);
    }
  }

  /**
  Causality: if no save takes a success back, then whatever commands, redelivered events and
  stale copies do, every copy of an order that is confirmed, ready or completed, stored or about
  to be saved, has a payment for that order whose status is succeeded.
  */
  lemma PaidWhileSuccessKept(trace: seq<State>, steps: seq<Step>, i: nat)
    requires Run(trace, steps) && KeptThroughout(trace, steps) && i < |trace|
    ensures forall id :: id in trace[i].orders && O.Paid(trace[i].orders[id].status) ==> SucceededFor(trace[i], id)
    ensures forall t :: t in trace[i].tasks && HoldsOrder(trace[i].tasks[t]) && O.Paid(trace[i].tasks[t].order.status) ==>
              SucceededFor(trace[i], trace[i].tasks[t].order.id)
  {
    BackedSoFar(trace, steps, i);
    RunShape(trace, steps, i);
    forall id | id in trace[i].orders && O.Paid(trace[i].orders[id].status) ensures SucceededFor(trace[i], id) {
      assert CopyOk(trace[i], trace[i].orders[id]);
    }
  }

  // ---- events tell what was so ----

  /** The event's payment is stored, and the event tells what is so of it. */
  ghost predicate TrueOf(s: State, e: P.PaymentEvent) {
    e.payment in s.payments && Tells(e, s.payments[e.payment])
  }

  lemma CommittedTrue(s: State, step: Step, e: P.PaymentEvent)
    requires Shape(s) && Enabled(s, step) && e in Apply(s, step).events && e !in s.events
    ensures TrueOf(Apply(s, step), e)
  {
    if step.SaveWebhook? {
      assert TaskShape(s, step.task);
    } else if PaymentTaskStep(step) {
      PaymentTaskFrame(s, step);
    } else if ReadStep(step) {
      ReadFrame(s, step);
    } else if ContinueStep(step) {
      ContinueFrame(s, step);
    }
  }

  lemma {:induction false} CommittedSometime(trace: seq<State>, steps: seq<Step>, i: nat, e: P.PaymentEvent) returns (k: nat)
    requires Run(trace, steps) && i < |trace| && e in trace[i].events
    ensures k <= i && TrueOf(trace[k], e)
  {
    RunShape(trace, steps, i - 1);
    assert StepAt(trace, steps, i - 1);
    if e in trace[i - 1].events {
      k := CommittedSometime(trace, steps, i - 1, e);
    } else {
      CommittedTrue(trace[i - 1], steps[i - 1], e);
      k := i;
    }
  }

  /**
  Every committed event is of a stored payment with the event's subject and amount, and was true
  of it when it was committed: succeeded, or failed for the reason the event gives.
  */
  lemma EventsWereTrue(trace: seq<State>, steps: seq<Step>, i: nat, e: P.PaymentEvent) returns (k: nat)
    requires Run(trace, steps) && i < |trace| && e in trace[i].events
    ensures e.payment in trace[i].payments
    ensures var row := trace[i].payments[e.payment];
            row.subjectType == e.subjectType && row.subject == e.subject && row.amount == e.amount
    ensures k <= i && e.payment in trace[k].payments
    ensures var row := trace[k].payments[e.payment];
            && row.subjectType == e.subjectType && row.subject == e.subject && row.amount == e.amount
            && (e.PaymentSucceeded? ==> row.status.Succeeded?)
            && (e.PaymentFailed? ==> row.status.Failed? && row.reason == Some(e.reason))
  {
    RunShape(trace, steps, i);
    assert EventShape(trace[i], e);
    k := CommittedSometime(trace, steps, i, e);
  }

  /**
  A handler that is about to cancel an order has an earlier failed payment of this order, and one
  that is about to confirm it an earlier succeeded one.
  */
  lemma HandlersHavePayments(trace: seq<State>, steps: seq<Step>, i: nat) returns (k: nat)
    requires Run(trace, steps) && i < |steps| && (steps[i].ReadForFailed? || steps[i].ReadForSucceeded?)
    ensures var t := steps[i].task;
            && t in trace[i + 1].tasks && trace[i + 1].tasks[t].OrderSave?
            && var d := trace[i + 1].tasks[t].order;
               && (steps[i].ReadForFailed? ==> d.status.Cancelled?) && (steps[i].ReadForSucceeded? ==> d.status.Confirmed?)
               && k <= i
               && exists p :: && p in trace[k].payments
                              && trace[k].payments[p].subjectType == "order" && trace[k].payments[p].subject == d.id
                              && (d.status.Cancelled? ==> trace[k].payments[p].status.Failed?)
                              && (d.status.Confirmed? ==> trace[k].payments[p].status.Succeeded?)
  {
    assert StepAt(trace, steps, i);
    RunShape(trace, steps, i);
    k := EventsWereTrue(trace, steps, i, steps[i].event);
    assert steps[i].event.payment in trace[k].payments;
  }

  // ---- attaching finds no reference ----

  /** The guard on attaching: the stored row is still without a gateway reference. */
  ghost predicate AttachesFirst(s: State, step: Step)
    requires Enabled(s, step)
  {
    step.SaveAttach? ==>
      var p := s.tasks[step.task].payment; p.id in s.payments ==> s.payments[p.id].gatewayRef.None?
  }

  ghost predicate AttachesFirstAt(trace: seq<State>, steps: seq<Step>, i: nat)
    requires i < |steps| < |trace|
  {
    StepAt(trace, steps, i) && AttachesFirst(trace[i], steps[i])
  }

  ghost predicate AttachesFirstThroughout(trace: seq<State>, steps: seq<Step>)
    requires |steps| < |trace|
  {
    forall i :: 0 <= i < |steps| ==> AttachesFirstAt(trace, steps, i)
  }

  /** What the gateway's final status makes of a payment. */
  predicate Reflects(status: P.PaymentStatus, g: P.GatewayStatus) {
    && (status.Succeeded? ==> g.Paid?)
    && (status.Failed? ==> g.NotPaid?)
  }

  predicate Mirrors(s: State, p: P.PaymentData) {
    p.gatewayRef.Some? ==> p.gatewayRef.value in s.gateway && Reflects(p.status, s.gateway[p.gatewayRef.value])
  }

  /** A payment copy in flight mirrors the gateway, and a webhook's copy has the reference of its row. */
  ghost predicate TaskLinked(s: State, t: nat)
    requires t in s.tasks
  {
    match s.tasks[t]
    case AttachPay(p) => Mirrors(s, p)
    case WebhookRead(p) => Mirrors(s, p) && p.id in s.payments && s.payments[p.id].gatewayRef == p.gatewayRef
    case WebhookSave(p, _) => Mirrors(s, p) && p.id in s.payments && s.payments[p.id].gatewayRef == p.gatewayRef
    case _ => true
  }

  ghost predicate Linked(s: State) {
    && (forall p :: p in s.payments ==> Mirrors(s, s.payments[p]))
    && (forall t :: t in s.tasks ==> TaskLinked(s, t))
  }

  /** References once there stay, and final statuses are kept. */
  ghost predicate GatewayStable(s: State, s': State) {
    && (forall r :: r in s.gateway ==> r in s'.gateway && (!s.gateway[r].Open? ==> s'.gateway[r] == s.gateway[r]))
    && (forall p :: p in s.payments && s.payments[p].gatewayRef.Some? ==>
          p in s'.payments && s'.payments[p].gatewayRef == s.payments[p].gatewayRef)
  }

  lemma MirrorsStays(s: State, s': State, p: P.PaymentData)
    requires Mirrors(s, p) && GatewayStable(s, s')
    ensures Mirrors(s', p)
  {
  }

  lemma LinkedFrame(s: State, s': State, t: nat)
    requires Shape(s) && Linked(s) && GatewayStable(s, s') && OnlyTask(s, s', t)
    requires t in s'.tasks ==> TaskLinked(s', t)
    requires forall p :: p in s'.payments ==> Mirrors(s', s'.payments[p])
    ensures Linked(s')
  {
    forall u | u in s'.tasks ensures TaskLinked(s', u) {
      if u != t {
        assert TaskLinked(s, u) && TaskShape(s, u);
        if !HoldsOrder(s.tasks[u]) {
          MirrorsStays(s, s', s.tasks[u].payment);
        }
      }
    }
  }

  lemma RowsStayMirrored(s: State, s': State)
    requires Linked(s) && GatewayStable(s, s') && s'.payments == s.payments
    ensures forall p :: p in s'.payments ==> Mirrors(s', s'.payments[p])
  {
    forall p | p in s'.payments ensures Mirrors(s', s'.payments[p]) {
      MirrorsStays(s, s', s.payments[p]);
    }
  }

  lemma LinkedPaymentWrite(s: State, step: Step)
    requires Shape(s) && Linked(s) && Enabled(s, step) && AttachesFirst(s, step) && WritesPayment(step)
    ensures Linked(Apply(s, step))
  {
    var s' := Apply(s, step);
    assert step.task in s.tasks ==> TaskShape(s, step.task) && TaskLinked(s, step.task);
    forall p | p in s'.payments ensures Mirrors(s', s'.payments[p]) {
      assert p in s.payments ==> Mirrors(s, s.payments[p]);
    }
    LinkedFrame(s, s', step.task);
  }

  lemma LinkedPaymentTask(s: State, step: Step)
    requires Shape(s) && Linked(s) && Enabled(s, step) && PaymentTaskStep(step)
    ensures Linked(Apply(s, step))
  {
    var s' := Apply(s, step);
    assert step.task in s.tasks ==> TaskShape(s, step.task) && TaskLinked(s, step.task);
    PaymentTaskFrame(s, step);
    assert GatewayStable(s, s');
    RowsStayMirrored(s, s');
    LinkedFrame(s, s', step.task);
  }

  lemma LinkedGateway(s: State, ref: nat, status: P.GatewayStatus)
    requires Shape(s) && Linked(s) && Enabled(s, GatewayDecides(ref, status))
    ensures Linked(Apply(s, GatewayDecides(ref, status)))
  {
    var s' := Apply(s, GatewayDecides(ref, status));
    forall p | p in s'.payments ensures Mirrors(s', s'.payments[p]) {
      assert Mirrors(s, s.payments[p]);
    }
    forall t | t in s'.tasks ensures TaskLinked(s', t) {
      assert TaskLinked(s, t);
    }
  }

  lemma LinkedOrderSide(s: State, step: Step)
    requires Shape(s) && Linked(s) && Enabled(s, step) && (ReadStep(step) || ContinueStep(step) || WritesOrder(step))
    ensures Linked(Apply(s, step))
  {
    var s' := Apply(s, step);
    OrderSideTask(s, step);
    RowsStayMirrored(s, s');
    LinkedFrame(s, s', step.task);
  }

  lemma OrderSideTask(s: State, step: Step)
    requires Enabled(s, step) && (ReadStep(step) || ContinueStep(step) || WritesOrder(step))
    ensures var s' := Apply(s, step);
            && s'.payments == s.payments && s'.gateway == s.gateway && OnlyTask(s, s', step.task)
            && (step.task in s'.tasks ==> HoldsOrder(s'.tasks[step.task]))
  {
    if ReadStep(step) {
      ReadFrame(s, step);
    } else if ContinueStep(step) {
      ContinueFrame(s, step);
    }
  }

  lemma LinkedStep(s: State, step: Step)
    requires Shape(s) && Linked(s) && Enabled(s, step) && AttachesFirst(s, step)
    ensures Linked(Apply(s, step)) && SuccessKept(s, step)
  {
    if SavesPayment(step) {
      var p := s.tasks[step.task].payment;
      assert TaskShape(s, step.task) && TaskLinked(s, step.task) && PaymentShape(s, p.id) && Mirrors(s, s.payments[p.id]);
    }
    if WritesPayment(step) {
      LinkedPaymentWrite(s, step);
    } else if PaymentTaskStep(step) {
      LinkedPaymentTask(s, step);
    } else if step.GatewayDecides? {
      LinkedGateway(s, step.ref, step.status);
    } else {
      LinkedOrderSide(s, step);
    }
  }

  lemma {:induction false} RunLinked(trace: seq<State>, steps: seq<Step>, i: nat)
    requires Run(trace, steps) && AttachesFirstThroughout(trace, steps) && i < |trace|
    ensures Linked(trace[i])
  {
    if i > 0 {
      RunLinked(trace, steps, i - 1);
      RunShape(trace, steps, i - 1);
      assert AttachesFirstAt(trace, steps, i - 1);
      LinkedStep(trace[i - 1], steps[i - 1]);
    }
  }

  /** If attaching always finds its row without a reference, no success is ever taken back. */
  lemma AttachingFirstKeepsSuccess(trace: seq<State>, steps: seq<Step>)
    requires Run(trace, steps) && AttachesFirstThroughout(trace, steps)
    ensures KeptThroughout(trace, steps)
  {
    forall i | 0 <= i < |steps| ensures KeptAt(trace, steps, i) {
      RunLinked(trace, steps, i);
      RunShape(trace, steps, i);
      assert AttachesFirstAt(trace, steps, i);
      LinkedStep(trace[i], steps[i]);
    }
  }

  /**
  The converse: an attach that finds a reference drops it from the row, and if the payment had
  already succeeded there, a committed event is left without its payment.
  */
  lemma AttachingLateLosesReference(s: State, t: nat)
    requires Shape(s) && Enabled(s, SaveAttach(t)) && !AttachesFirst(s, SaveAttach(t))
    ensures var p, s' := s.tasks[t].payment, Apply(s, SaveAttach(t));
            && s'.payments[p.id].gatewayRef == p.gatewayRef && s'.payments[p.id].status.Pending?
            && (s.payments[p.id].status.Succeeded? ==> !Backed(s'))
  {
    assert TaskShape(s, t);
    if s.payments[s.tasks[t].payment.id].status.Succeeded? {
      LostSuccess(s, SaveAttach(t));
    }
  }

  // ---- calls that do not overlap ----

  /** Whether some CreatePayment call for this subject is under way. */
  ghost predicate Busy(s: State, subjectType: string, subject: nat) {
    exists t :: t in s.tasks && Creating(s.tasks[t]) && P.HasSubject(s.tasks[t].payment, subjectType, subject)
  }

  /** The environment assumption: a call starts only when none for the same subject is under way. */
  ghost predicate NoOverlap(s: State, step: Step) {
    && (step.StartCreate? ==> !Busy(s, step.subjectType, step.subject))
    && (step.RetryCreate? && step.payment in s.payments ==>
          !Busy(s, s.payments[step.payment].subjectType, s.payments[step.payment].subject))
  }

  ghost predicate Exclusive(trace: seq<State>, steps: seq<Step>)
    requires |steps| < |trace|
  {
    forall i :: 0 <= i < |steps| ==> NoOverlap(trace[i], steps[i])
  }

  /** A creating call's row is without a reference, and no other call is under way for it. */
  ghost predicate Alone(s: State, t: nat)
    requires t in s.tasks
  {
    Creating(s.tasks[t]) ==>
      var id := s.tasks[t].payment.id;
      && id in s.payments && s.payments[id].gatewayRef.None?
      && forall u :: u in s.tasks && Creating(s.tasks[u]) && s.tasks[u].payment.id == id ==> u == t
  }

  ghost predicate AllAlone(s: State) {
    forall t :: t in s.tasks ==> Alone(s, t)
  }

  /** No creating task is new, and the rows of the others keep their missing references. */
  ghost predicate NoNewCreating(s: State, s': State) {
    && (forall t :: t in s'.tasks && Creating(s'.tasks[t]) ==>
          t in s.tasks && Creating(s.tasks[t]) && s'.tasks[t].payment.id == s.tasks[t].payment.id)
    && (forall t :: t in s'.tasks && Creating(s'.tasks[t]) ==>
          var id := s'.tasks[t].payment.id; id in s'.payments && s'.payments[id].gatewayRef.None?)
  }

  lemma NoNewCreatingAlone(s: State, s': State)
    requires AllAlone(s) && NoNewCreating(s, s')
    ensures AllAlone(s')
  {
    forall t | t in s'.tasks ensures Alone(s', t) {
      if Creating(s'.tasks[t]) {
        assert Alone(s, t);
      }
    }
  }

  lemma AloneAfterSave(s: State, step: Step)
    requires Shape(s) && Linked(s) && AllAlone(s) && Enabled(s, step) && SavesPayment(step)
    ensures AllAlone(Apply(s, step))
  {
    var s' := Apply(s, step);
    assert TaskShape(s, step.task) && TaskLinked(s, step.task) && Alone(s, step.task);
    forall t | t in s'.tasks && Creating(s'.tasks[t])
      ensures var id := s'.tasks[t].payment.id; id in s'.payments && s'.payments[id].gatewayRef.None?
    {
      assert Alone(s, t);
    }
    NoNewCreatingAlone(s, s');
  }

  lemma AloneAfterStart(s: State, step: Step)
    requires Shape(s) && AllAlone(s) && Enabled(s, step) && NoOverlap(s, step) && (step.StartCreate? || step.RetryCreate?)
    ensures AllAlone(Apply(s, step))
  {
    var s' := Apply(s, step);
    var id := step.payment;
    assert step.RetryCreate? ==> PaymentShape(s, id);
    forall u | u in s.tasks && Creating(s.tasks[u]) ensures s.tasks[u].payment.id != id {
      assert TaskShape(s, u);
    }
    forall t | t in s'.tasks ensures Alone(s', t) {
      assert t in s.tasks ==> Alone(s, t);
    }
  }

  lemma AloneAfterOther(s: State, step: Step)
    requires Shape(s) && AllAlone(s) && Enabled(s, step)
    requires !SavesPayment(step) && !step.StartCreate? && !step.RetryCreate?
    ensures AllAlone(Apply(s, step))
  {
    var s' := Apply(s, step);
    OthersCreateNothing(s, step);
    forall t | t in s'.tasks && Creating(s'.tasks[t])
      ensures var id := s'.tasks[t].payment.id; id in s'.payments && s'.payments[id].gatewayRef.None?
    {
      assert Alone(s, t);
    }
    NoNewCreatingAlone(s, s');
  }

  lemma OthersCreateNothing(s: State, step: Step)
    requires Enabled(s, step) && !SavesPayment(step) && !step.StartCreate? && !step.RetryCreate?
    ensures Apply(s, step).payments == s.payments
    ensures forall t :: t in Apply(s, step).tasks && Creating(Apply(s, step).tasks[t]) ==>
              t in s.tasks && Creating(s.tasks[t]) && Apply(s, step).tasks[t].payment.id == s.tasks[t].payment.id
  {
  }

  lemma {:induction false} RunAlone(trace: seq<State>, steps: seq<Step>, i: nat)
    requires Run(trace, steps) && Exclusive(trace, steps) && i < |trace|
    ensures Linked(trace[i]) && AllAlone(trace[i])
  {
    if i > 0 {
      var s, step := trace[i - 1], steps[i - 1];
      RunAlone(trace, steps, i - 1);
      RunShape(trace, steps, i - 1);
      assert StepAt(trace, steps, i - 1);
      if step.SaveAttach? {
        assert Alone(s, step.task);
      }
      LinkedStep(s, step);
      if SavesPayment(step) {
        AloneAfterSave(s, step);
      } else if step.StartCreate? || step.RetryCreate? {
        AloneAfterStart(s, step);
      } else {
        AloneAfterOther(s, step);
      }
    }
  }

  /** Without overlapping calls, attaching always finds its row without a reference. */
  lemma NoOverlapAttachesFirst(trace: seq<State>, steps: seq<Step>)
    requires Run(trace, steps) && Exclusive(trace, steps)
    ensures AttachesFirstThroughout(trace, steps)
  {
    forall i | 0 <= i < |steps| ensures AttachesFirstAt(trace, steps, i) {
      RunAlone(trace, steps, i);
      assert StepAt(trace, steps, i);
      if steps[i].SaveAttach? {
        assert Alone(trace[i], steps[i].task);
      }
    }
  }

  /**
  The same conclusions when CreatePayment calls for one subject do not overlap: paid copies,
  stored or in flight, have a succeeded payment.
  */
  lemma PaidOrdersArePaid(trace: seq<State>, steps: seq<Step>, i: nat)
    requires Run(trace, steps) && Exclusive(trace, steps) && i < |trace|
    ensures forall id :: id in trace[i].orders && O.Paid(trace[i].orders[id].status) ==> SucceededFor(trace[i], id)
    ensures forall t :: t in trace[i].tasks && HoldsOrder(trace[i].tasks[t]) && O.Paid(trace[i].tasks[t].order.status) ==>
              SucceededFor(trace[i], trace[i].tasks[t].order.id)
  {
    NoOverlapAttachesFirst(trace, steps);
    AttachingFirstKeepsSuccess(trace, steps);
    PaidWhileSuccessKept(trace, steps, i);
  }
}
