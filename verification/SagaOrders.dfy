/**
Exactly when the split commands keep what the atomic ones guarantee.  Saving an order writes the
whole row without looking at what is stored; the properties below hold in a run if and only if
every save would have passed a test of what is stored or was saved before.
*/
module SagaOrders {
  import opened Saga
  import opened SagaCausality
  import O = Orders

  // ---- one confirmation per paid order ----

  predicate CountMatches(s: State, id: nat) {
    O.Times(s.confirmations, id) == if id in s.orders && O.Paid(s.orders[id].status) then 1 else 0
  }

  /** Exactly one order.confirmed row for every order that is confirmed, ready or completed, none for any other. */
  ghost predicate CountsMatch(s: State) {
    forall id: nat :: CountMatches(s, id)
  }

  /** The test the save leaves out: a confirmation meets an unpaid row, any other change does not touch being paid. */
  ghost predicate ConfirmGuard(s: State, step: Step)
    requires Enabled(s, step)
  {
    step.SaveOrder? ==>
      var d := s.tasks[step.task].order;
      && d.id in s.orders
      && if s.tasks[step.task].confirms then !O.Paid(s.orders[d.id].status)
         else O.Paid(s.orders[d.id].status) == O.Paid(d.status)
  }

  lemma SavedCount(s: State, t: nat, id: nat)
    requires Enabled(s, SaveOrder(t))
    ensures var d := s.tasks[t].order;
            O.Times(Apply(s, SaveOrder(t)).confirmations, id)
            == O.Times(s.confirmations, id) + if s.tasks[t].confirms && d.id == id then 1 else 0
  {
  }

  lemma SaveMatchesIff(s: State, t: nat)
    requires Shape(s) && CountsMatch(s) && Enabled(s, SaveOrder(t))
    ensures CountsMatch(Apply(s, SaveOrder(t))) <==> ConfirmGuard(s, SaveOrder(t))
  {
    var s' := Apply(s, SaveOrder(t));
    var id := s.tasks[t].order.id;
    assert TaskShape(s, t);
    SavedCount(s, t, id);
    assert CountMatches(s, id);
    assert CountMatches(s', id) <==> ConfirmGuard(s, SaveOrder(t));
    if ConfirmGuard(s, SaveOrder(t)) {
      forall k: nat ensures CountMatches(s', k) {
        SavedCount(s, t, k);
        assert CountMatches(s, k);
      }
    }
  }

  lemma OthersMatch(s: State, step: Step)
    requires CountsMatch(s) && Enabled(s, step) && !step.SaveOrder?
    ensures CountsMatch(Apply(s, step))
  {
    var s' := Apply(s, step);
    OrdersUntouched(s, step);
    forall id: nat ensures CountMatches(s', id) {
      assert CountMatches(s, id);
    }
  }

  /** Apart from saves, only placing an order touches the orders, and it places a pending one. */
  lemma OrdersUntouched(s: State, step: Step)
    requires Enabled(s, step) && !step.SaveOrder?
    ensures Apply(s, step).confirmations == s.confirmations
    ensures step.PlaceOrder? ==> Apply(s, step).orders == s.orders[step.placed.id := step.placed] && step.placed.status.Pending?
    ensures !step.PlaceOrder? ==> Apply(s, step).orders == s.orders
  {
    if ReadStep(step) {
      ReadFrame(s, step);
    } else if ContinueStep(step) {
      ContinueFrame(s, step);
    } else if PaymentTaskStep(step) {
      PaymentTaskFrame(s, step);
    }
  }

  lemma StepMatchesIff(s: State, step: Step)
    requires Shape(s) && CountsMatch(s) && Enabled(s, step)
    ensures CountsMatch(Apply(s, step)) <==> ConfirmGuard(s, step)
  {
    if step.SaveOrder? {
      SaveMatchesIff(s, step.task);
    } else {
      OthersMatch(s, step);
    }
  }

  ghost predicate ConfirmGuardAt(trace: seq<State>, steps: seq<Step>, i: nat)
    requires i < |steps| < |trace|
  {
    StepAt(trace, steps, i) && ConfirmGuard(trace[i], steps[i])
  }

  lemma {:induction false} MatchedSoFar(trace: seq<State>, steps: seq<Step>, i: nat)
    requires Run(trace, steps) && i < |trace|
    requires forall k :: 0 <= k < |steps| ==> ConfirmGuardAt(trace, steps, k)
    ensures CountsMatch(trace[i])
  {
    if i > 0 {
      MatchedSoFar(trace, steps, i - 1);
      RunShape(trace, steps, i - 1);
      assert ConfirmGuardAt(trace, steps, i - 1);
      StepMatchesIff(trace[i - 1], steps[i - 1]);
    }
  }

  /**
  Exactly once, exactly when: in every run of the split commands, each order has at every moment
  one order.confirmed row if it is confirmed, ready or completed and none otherwise, if and only
  if every save of a confirmation finds the stored order unpaid and every other save leaves it as
  paid or unpaid as it was.
  */
  lemma ExactlyOnceIff(trace: seq<State>, steps: seq<Step>)
    requires Run(trace, steps)
    ensures (forall i :: 0 <= i < |trace| ==> CountsMatch(trace[i]))
       <==> (forall i :: 0 <= i < |steps| ==> ConfirmGuardAt(trace, steps, i))
  {
    if forall i :: 0 <= i < |trace| ==> CountsMatch(trace[i]) {
      forall i | 0 <= i < |steps| ensures ConfirmGuardAt(trace, steps, i) {
        RunShape(trace, steps, i);
        assert StepAt(trace, steps, i);
        assert CountsMatch(trace[i]) && CountsMatch(trace[i + 1]);
        StepMatchesIff(trace[i], steps[i]);
      }
    }
    if forall i :: 0 <= i < |steps| ==> ConfirmGuardAt(trace, steps, i) {
      forall i | 0 <= i < |trace| ensures CountsMatch(trace[i]) {
        MatchedSoFar(trace, steps, i);
      }
    }
  }

  // ---- lawful changes of status ----

  /** The changes of the order's life cycle. */
  predicate Legal(from: O.Status, to: O.Status) {
    match from
    case Pending => to.Confirmed? || to.Cancelled?
    case Confirmed => to.Ready? || to.Completed?
    case Ready => to.Completed?
    case _ => false
  }

  ghost predicate OrderLawful(s: State, s': State, id: nat)
    requires id in s.orders
  {
    && id in s'.orders
    && (s'.orders[id].status == s.orders[id].status || Legal(s.orders[id].status, s'.orders[id].status))
  }

  /** Every stored order keeps its status or makes one change of the life cycle. */
  ghost predicate Lawful(s: State, s': State) {
    forall id :: id in s.orders ==> OrderLawful(s, s', id)
  }

  /** The test the save leaves out: the copy's status follows from the stored one. */
  ghost predicate MoveGuard(s: State, step: Step)
    requires Enabled(s, step)
  {
    step.SaveOrder? ==>
      var d := s.tasks[step.task].order;
      d.id in s.orders ==>
        d.status == s.orders[d.id].status || Legal(s.orders[d.id].status, d.status)
  }

  lemma StepLawfulIff(s: State, step: Step)
    requires Shape(s) && Enabled(s, step)
    ensures Lawful(s, Apply(s, step)) <==> MoveGuard(s, step)
  {
    var s' := Apply(s, step);
    if step.SaveOrder? {
      var id := s.tasks[step.task].order.id;
      assert TaskShape(s, step.task);
      assert OrderLawful(s, s', id) <==> MoveGuard(s, step);
      if MoveGuard(s, step) {
        forall k | k in s.orders ensures OrderLawful(s, s', k) {
        }
      }
    } else {
      OrdersUntouched(s, step);
      forall k | k in s.orders ensures OrderLawful(s, s', k) {
      }
    }
  }

  ghost predicate MoveGuardAt(trace: seq<State>, steps: seq<Step>, i: nat)
    requires i < |steps| < |trace|
  {
    StepAt(trace, steps, i) && MoveGuard(trace[i], steps[i])
  }

  /** All stored orders change lawfully throughout a run if and only if every save passes the test of its stored row. */
  lemma LawfulIff(trace: seq<State>, steps: seq<Step>)
    requires Run(trace, steps)
    ensures (forall i :: 0 <= i < |steps| ==> Lawful(trace[i], trace[i + 1]))
       <==> (forall i :: 0 <= i < |steps| ==> MoveGuardAt(trace, steps, i))
  {
    forall i | 0 <= i < |steps| ensures Lawful(trace[i], trace[i + 1]) <==> MoveGuardAt(trace, steps, i) {
      RunShape(trace, steps, i);
      assert StepAt(trace, steps, i);
      StepLawfulIff(trace[i], steps[i]);
    }
  }

  /** How an order may stand to itself some lawful changes later. */
  predicate Later(from: O.Status, to: O.Status) {
    && (to == from || O.Rank(from) < O.Rank(to))
    && (O.Paid(from) ==> O.Paid(to))
    && (from.Cancelled? ==> to.Cancelled?)
  }

  lemma {:induction false} LawfulLater(trace: seq<State>, steps: seq<Step>, i: nat, j: nat, id: nat)
    requires Run(trace, steps) && i <= j < |trace| && id in trace[i].orders
    requires forall k :: 0 <= k < |steps| ==> Lawful(trace[k], trace[k + 1])
    ensures id in trace[j].orders && Later(trace[i].orders[id].status, trace[j].orders[id].status)
    decreases j
  {
    if i < j {
      LawfulLater(trace, steps, i, j - 1, id);
      assert Lawful(trace[j - 1], trace[j - 1 + 1]);
      assert OrderLawful(trace[j - 1], trace[j], id);
    }
  }

  /** With the test on every save, no run both confirms and cancels an order, and statuses only go up. */
  lemma GuardedNeverConfirmedAndCancelled(trace: seq<State>, steps: seq<Step>, i: nat, j: nat, id: nat)
    requires Run(trace, steps) && (forall k :: 0 <= k < |steps| ==> MoveGuardAt(trace, steps, k))
    requires i < |trace| && j < |trace| && id in trace[i].orders && id in trace[j].orders
    ensures !(O.Paid(trace[i].orders[id].status) && trace[j].orders[id].status.Cancelled?)
    ensures i <= j ==> Later(trace[i].orders[id].status, trace[j].orders[id].status)
  {
    LawfulIff(trace, steps);
    if i <= j {
      LawfulLater(trace, steps, i, j, id);
    } else {
      LawfulLater(trace, steps, j, i, id);
    }
  }

  // ---- never both confirmed and cancelled ----

  predicate IsPaid(s: State, id: nat) {
    id in s.orders && O.Paid(s.orders[id].status)
  }

  predicate IsCancelled(s: State, id: nat) {
    id in s.orders && s.orders[id].status.Cancelled?
  }

  ghost predicate PaidSometime(trace: seq<State>, id: nat) {
    exists i :: 0 <= i < |trace| && IsPaid(trace[i], id)
  }

  ghost predicate CancelledSometime(trace: seq<State>, id: nat) {
    exists i :: 0 <= i < |trace| && IsCancelled(trace[i], id)
  }

  predicate SavesOrder(s: State, step: Step, id: nat) {
    step.SaveOrder? && step.task in s.tasks && s.tasks[step.task].OrderSave? && s.tasks[step.task].order.id == id
  }

  predicate SavesConfirmed(s: State, step: Step, id: nat) {
    SavesOrder(s, step, id) && s.tasks[step.task].confirms
  }

  predicate SavesCancelled(s: State, step: Step, id: nat) {
    SavesOrder(s, step, id) && s.tasks[step.task].order.status.Cancelled?
  }

  /**
  The test the save leaves out: a cancellation finds no order.confirmed row of its order, and a
  confirmation no earlier save that cancelled it.
  */
  ghost predicate ApartAt(trace: seq<State>, steps: seq<Step>, k: nat)
    requires k < |steps| < |trace|
  {
    forall id: nat ::
      && (SavesCancelled(trace[k], steps[k], id) ==> id !in trace[k].confirmations)
      && (SavesConfirmed(trace[k], steps[k], id) ==> forall l :: 0 <= l < k ==> !SavesCancelled(trace[l], steps[l], id))
  }

  /** A paid copy in flight, unless it is itself the confirmation, is of an order announced as confirmed. */
  predicate CopyAnnounced(s: State, t: nat)
    requires t in s.tasks
  {
    HoldsOrder(s.tasks[t]) && O.Paid(s.tasks[t].order.status) && !(s.tasks[t].OrderSave? && s.tasks[t].confirms) ==>
      s.tasks[t].order.id in s.confirmations
  }

  ghost predicate PaidAnnounced(s: State) {
    && (forall id :: id in s.orders && IsPaid(s, id) ==> id in s.confirmations)
    && (forall t :: t in s.tasks ==> CopyAnnounced(s, t))
  }

  lemma ReadAnnounced(s: State, step: Step)
    requires Shape(s) && PaidAnnounced(s) && Enabled(s, step) && ReadStep(step)
    ensures PaidAnnounced(Apply(s, step))
  {
    var s' := Apply(s, step);
    ReadFrame(s, step);
    assert CopyAnnounced(s', step.task);
    forall t | t in s'.tasks ensures CopyAnnounced(s', t) {
      assert t != step.task ==> CopyAnnounced(s, t);
    }
  }

  lemma ContinueAnnounced(s: State, step: Step)
    requires Shape(s) && PaidAnnounced(s) && Enabled(s, step) && ContinueStep(step)
    ensures PaidAnnounced(Apply(s, step))
  {
    var s' := Apply(s, step);
    ContinueFrame(s, step);
    assert TaskShape(s, step.task);
    assert step.task in s'.tasks ==> CopyAnnounced(s', step.task);
    forall t | t in s'.tasks ensures CopyAnnounced(s', t) {
      assert t != step.task ==> CopyAnnounced(s, t);
    }
  }

  lemma WriteAnnounced(s: State, step: Step)
    requires Shape(s) && PaidAnnounced(s) && Enabled(s, step) && WritesOrder(step)
    ensures PaidAnnounced(Apply(s, step))
  {
    var s' := Apply(s, step);
    assert step.SaveOrder? ==> CopyAnnounced(s, step.task);
    forall t | t in s'.tasks ensures CopyAnnounced(s', t) {
      assert t in s.tasks ==> CopyAnnounced(s, t);
    }
  }

  lemma PaymentAnnounced(s: State, step: Step)
    requires Shape(s) && PaidAnnounced(s) && Enabled(s, step)
    requires WritesPayment(step) || PaymentTaskStep(step) || step.GatewayDecides?
    ensures PaidAnnounced(Apply(s, step))
  {
    var s' := Apply(s, step);
    PaymentTasksHoldNoOrder(s, step);
    OrdersUntouched(s, step);
    forall t | t in s'.tasks ensures CopyAnnounced(s', t) {
      assert t in s.tasks ==> CopyAnnounced(s, t);
    }
  }

  lemma {:induction false} AnnouncedSoFar(trace: seq<State>, steps: seq<Step>, i: nat)
    requires Run(trace, steps) && i < |trace|
    ensures PaidAnnounced(trace[i])
  {
    if i > 0 {
      var s, step := trace[i - 1], steps[i - 1];
      AnnouncedSoFar(trace, steps, i - 1);
      RunShape(trace, steps, i - 1);
      assert StepAt(trace, steps, i - 1);
      if ReadStep(step) {
        ReadAnnounced(s, step);
      } else if ContinueStep(step) {
        ContinueAnnounced(s, step);
      } else if WritesOrder(step) {
        WriteAnnounced(s, step);
      } else {
        PaymentAnnounced(s, step);
      }
    }
  }

  /** Only saving a confirmation announces one, and nothing takes an announcement back. */
  lemma ConfirmationsStep(s: State, step: Step, id: nat)
    requires Enabled(s, step)
    ensures id in Apply(s, step).confirmations <==> id in s.confirmations || SavesConfirmed(s, step, id)
  {
    if !step.SaveOrder? {
      OrdersUntouched(s, step);
    }
  }

  lemma {:induction false} AnnouncedBySave(trace: seq<State>, steps: seq<Step>, i: nat, id: nat)
    requires Run(trace, steps) && i < |trace|
    ensures id in trace[i].confirmations <==> exists k :: 0 <= k < i && SavesConfirmed(trace[k], steps[k], id)
  {
    if i > 0 {
      AnnouncedBySave(trace, steps, i - 1, id);
      assert StepAt(trace, steps, i - 1);
      ConfirmationsStep(trace[i - 1], steps[i - 1], id);
    }
  }

  lemma CancelledStep(s: State, step: Step, id: nat)
    requires Enabled(s, step)
    ensures SavesCancelled(s, step, id) ==> IsCancelled(Apply(s, step), id)
    ensures IsCancelled(Apply(s, step), id) ==> IsCancelled(s, id) || SavesCancelled(s, step, id)
  {
    if !step.SaveOrder? {
      OrdersUntouched(s, step);
    }
  }

  lemma {:induction false} CancelledBySave(trace: seq<State>, steps: seq<Step>, j: nat, id: nat)
    requires Run(trace, steps) && j < |trace| && IsCancelled(trace[j], id)
    ensures exists l :: 0 <= l < j && SavesCancelled(trace[l], steps[l], id)
  {
    if j > 0 {
      assert StepAt(trace, steps, j - 1);
      CancelledStep(trace[j - 1], steps[j - 1], id);
      if !SavesCancelled(trace[j - 1], steps[j - 1], id) {
        CancelledBySave(trace, steps, j - 1, id);
      }
    }
  }

  /** In every run, an order is paid at some position exactly if some save confirms it. */
  lemma PaidIffConfirmed(trace: seq<State>, steps: seq<Step>, id: nat)
    requires Run(trace, steps)
    ensures PaidSometime(trace, id) <==> exists k :: 0 <= k < |steps| && SavesConfirmed(trace[k], steps[k], id)
  {
    if PaidSometime(trace, id) {
      var i :| 0 <= i < |trace| && IsPaid(trace[i], id);
      AnnouncedSoFar(trace, steps, i);
      AnnouncedBySave(trace, steps, i, id);
    }
    if k :| 0 <= k < |steps| && SavesConfirmed(trace[k], steps[k], id) {
      RunShape(trace, steps, k);
      assert StepAt(trace, steps, k) && TaskShape(trace[k], steps[k].task);
      assert IsPaid(trace[k + 1], id);
    }
  }

  lemma CancelledIffSaved(trace: seq<State>, steps: seq<Step>, id: nat)
    requires Run(trace, steps)
    ensures CancelledSometime(trace, id) <==> exists l :: 0 <= l < |steps| && SavesCancelled(trace[l], steps[l], id)
  {
    if CancelledSometime(trace, id) {
      var j :| 0 <= j < |trace| && IsCancelled(trace[j], id);
      CancelledBySave(trace, steps, j, id);
    }
    if l :| 0 <= l < |steps| && SavesCancelled(trace[l], steps[l], id) {
      assert StepAt(trace, steps, l);
      CancelledStep(trace[l], steps[l], id);
      assert IsCancelled(trace[l + 1], id);
    }
  }

  /** The two saves of an order that is both paid and cancelled: the later one fails its test. */
  lemma ApartSaves(trace: seq<State>, steps: seq<Step>, k: nat, l: nat, id: nat)
    requires Run(trace, steps) && k < |steps| && l < |steps|
    requires SavesConfirmed(trace[k], steps[k], id) && SavesCancelled(trace[l], steps[l], id)
    ensures !ApartAt(trace, steps, k) || !ApartAt(trace, steps, l)
  {
    RunShape(trace, steps, k);
    assert StepAt(trace, steps, k) && TaskShape(trace[k], steps[k].task);
    AnnouncedBySave(trace, steps, l, id);
  }

  ghost predicate NeverBoth(trace: seq<State>, id: nat) {
    !(PaidSometime(trace, id) && CancelledSometime(trace, id))
  }

  lemma ApartNeverBoth(trace: seq<State>, steps: seq<Step>, id: nat)
    requires Run(trace, steps) && forall k :: 0 <= k < |steps| ==> ApartAt(trace, steps, k)
    ensures NeverBoth(trace, id)
  {
    if PaidSometime(trace, id) && CancelledSometime(trace, id) {
      PaidIffConfirmed(trace, steps, id);
      CancelledIffSaved(trace, steps, id);
      var k :| 0 <= k < |steps| && SavesConfirmed(trace[k], steps[k], id);
      var l :| 0 <= l < |steps| && SavesCancelled(trace[l], steps[l], id);
      ApartSaves(trace, steps, k, l, id);
    }
  }

  lemma NeverBothApart(trace: seq<State>, steps: seq<Step>, k: nat, id: nat)
    requires Run(trace, steps) && k < |steps| && NeverBoth(trace, id)
    ensures SavesCancelled(trace[k], steps[k], id) ==> id !in trace[k].confirmations
    ensures SavesConfirmed(trace[k], steps[k], id) ==> forall l :: 0 <= l < k ==> !SavesCancelled(trace[l], steps[l], id)
  {
    PaidIffConfirmed(trace, steps, id);
    CancelledIffSaved(trace, steps, id);
    AnnouncedBySave(trace, steps, k, id);
  }

  /**
  No order of a run is both confirmed (or ready, or completed) at some time and cancelled at some
  time, if and only if every save passes the test.
  */
  lemma NeverConfirmedAndCancelledIff(trace: seq<State>, steps: seq<Step>)
    requires Run(trace, steps)
    ensures (forall id: nat :: NeverBoth(trace, id)) <==> (forall k :: 0 <= k < |steps| ==> ApartAt(trace, steps, k))
  {
    if forall k :: 0 <= k < |steps| ==> ApartAt(trace, steps, k) {
      forall id: nat ensures NeverBoth(trace, id) {
        ApartNeverBoth(trace, steps, id);
      }
    }
    if forall id: nat :: NeverBoth(trace, id) {
      forall k | 0 <= k < |steps| ensures ApartAt(trace, steps, k) {
        forall id: nat
          ensures SavesCancelled(trace[k], steps[k], id) ==> id !in trace[k].confirmations
          ensures SavesConfirmed(trace[k], steps[k], id) ==> forall l :: 0 <= l < k ==> !SavesCancelled(trace[l], steps[l], id)
        {
          NeverBothApart(trace, steps, k, id);
        }
      }
    }
  }
}
