/**
Runs of the consumer in which no connection is lost and no republish fails: a message is
dispatched at most four times, and when nothing of it is queued or held any more it was either
handled or dead-lettered after exactly four failures.

The proof follows the one thing that carries an unfinished message at any moment: a copy that
the broker is not about to remove, or a retry travelling on some consumer's wire.
*/
module ConsumerRetries {
  import opened Wrappers
  import opened Consumer

  predicate Smooth(step: Step) {
    !step.LoseConnection? && !step.RepublishFails?
  }

  ghost predicate SmoothNext(s: State, s': State) {
    exists step :: Smooth(step) && Enabled(s, step) && s' == Apply(s, step)
  }

  ghost predicate SmoothRun(trace: seq<State>) {
    && |trace| > 0 && trace[0] == Init()
    && forall i :: 0 <= i < |trace| - 1 ==> SmoothNext(trace[i], trace[i + 1])
  }

  datatype Carrier = OfCopy(copy: nat) | OfWire(consumer: nat)

  ghost predicate Bears(s: State, b: Carrier, m: nat) {
    match b
    case OfCopy(k) => k in s.copies && s.copies[k].message == m && s.copies[k].place != Removed && !Doomed(s, k)
    case OfWire(c) => Carries(s, c, m)
  }

  /** Whether the handler has already run on this copy. */
  ghost predicate Dispatched(s: State, k: nat)
    requires k in s.copies
  {
    match s.copies[k].place
    case DeadLettered => true
    case Held(c) =>
      && c in s.consumers
      && (|| NackDead(k) in s.consumers[c].wire
          || (s.consumers[c].work.Some? && s.consumers[c].work.value.phase != Received))
    case _ => false
  }

  /** The retry count in a carrier's headers tells how often the message was dispatched. */
  ghost predicate CarrierOk(s: State, b: Carrier, m: nat)
    requires Bears(s, b, m)
  {
    && m in s.dispatches
    && match b
       case OfCopy(k) =>
         && s.dispatches[m] == RetryCount(s.copies[k]) + (if Dispatched(s, k) then 1 else 0)
         && (s.copies[k].place == DeadLettered ==> RetryCount(s.copies[k]) == MAX_RETRY_ATTEMPTS)
         && (m in s.handled ==>
               && s.copies[k].place.Held? && s.copies[k].place.consumer in s.consumers
               && s.consumers[s.copies[k].place.consumer].work == Some(Work(k, Succeeded, true)))
       case OfWire(c) =>
         m !in s.handled && s.dispatches[m] == RetryCount(s.copies[s.consumers[c].wire[0].copy]) + 1
  }

  ghost predicate ConsumerSmooth(s: State, c: nat)
    requires c in s.consumers
  {
    var x := s.consumers[c];
    && x.connected
    && (x.work.Some? ==> x.work.value.live)
    && (forall f :: f in x.wire ==> !f.NackRequeue?)
    && (x.wire != [] && x.wire[0].NackDead? && x.wire[0].copy in s.copies ==>
          RetryCount(s.copies[x.wire[0].copy]) == MAX_RETRY_ATTEMPTS)
  }

  ghost predicate OneCarrier(s: State) {
    forall a, b, m :: Bears(s, a, m) && Bears(s, b, m) ==> a == b
  }

  ghost predicate SmoothInv(s: State) {
    && Inv(s)
    && s.handled <= s.keys.Keys
    && (forall c :: c in s.consumers ==> ConsumerSmooth(s, c))
    && OneCarrier(s)
    && (forall b, m :: Bears(s, b, m) ==> CarrierOk(s, b, m))
    && (forall m :: m in s.dispatches ==> s.dispatches[m] <= MAX_RETRY_ATTEMPTS + 1)
  }

  // ---- where a carrier comes from ----

  /** What carried the message just before the step: a retry leaves its copy and becomes another. */
  function Before(s: State, step: Step, b: Carrier): Carrier
    requires Enabled(s, step)
  {
    match step
    case Republish(c) => if b == OfWire(c) then OfCopy(s.consumers[c].work.value.copy) else b
    case BrokerReads(c, newId) => if b == OfCopy(newId) then OfWire(c) else b
    case _ => b
  }

  lemma ProduceBears(s: State, m: nat, k: nat, key: string, b: Carrier, n: nat)
    requires Inv(s) && Enabled(s, Produce(m, k, key)) && Bears(Apply(s, Produce(m, k, key)), b, n)
    ensures if n == m then b == OfCopy(k) else Bears(s, b, n)
  {
    match b
    case OfCopy(j) =>
      assert j in s.copies ==> CopyInv(s, j);
    case OfWire(c) =>
      assert ConsumerInv(s, c) && CopyInv(s, s.consumers[c].wire[0].copy);
  }

  lemma DeliverBears(s: State, c: nat, k: nat, b: Carrier, n: nat)
    requires Inv(s) && Enabled(s, Deliver(c, k)) && Bears(Apply(s, Deliver(c, k)), b, n)
    ensures Bears(s, b, n)
  {
    assert ConsumerInv(s, c);
    if b.OfCopy? && b.copy != k {
      assert CopyInv(s, b.copy);
    }
  }

  lemma RepublishBears(s: State, c: nat, b: Carrier, n: nat)
    requires Inv(s) && Enabled(s, Republish(c)) && Bears(Apply(s, Republish(c)), b, n)
    ensures Bears(s, Before(s, Republish(c), b), n)
  {
    assert ConsumerInv(s, c);
    if b.OfCopy? {
      assert CopyInv(s, b.copy);
    }
  }

  lemma AnswerBears(s: State, c: nat, b: Carrier, n: nat)
    requires Inv(s) && Enabled(s, Answer(c)) && Bears(Apply(s, Answer(c)), b, n)
    ensures Bears(s, b, n)
  {
    var x := s.consumers[c];
    assert ConsumerInv(s, c);
    if b.OfCopy? {
      assert CopyInv(s, b.copy);
    }
  }

  lemma BrokerRetryBears(s: State, c: nat, newId: nat, b: Carrier, n: nat)
    requires Inv(s) && Enabled(s, BrokerReads(c, newId)) && s.consumers[c].wire[0].Publish?
    requires Bears(Apply(s, BrokerReads(c, newId)), b, n)
    ensures Bears(s, Before(s, BrokerReads(c, newId), b), n)
  {
    assert ConsumerInv(s, c);
    if b.OfCopy? && b.copy in s.copies {
      assert CopyInv(s, b.copy);
    }
  }

  /** The state after the broker read an acknowledgement (or rejection), the last frame of the wire. */
  function LetGo(s: State, c: nat, k: nat, place: Place): State
    requires c in s.consumers && k in s.copies
  {
    MoveTo(Put(s, c, s.consumers[c].(wire := [])), k, place)
  }

  lemma AnswerIsLetGo(s: State, c: nat, newId: nat)
    requires Inv(s) && Enabled(s, BrokerReads(c, newId)) && !s.consumers[c].wire[0].Publish?
    requires ConsumerSmooth(s, c)
    ensures var k := s.consumers[c].wire[0].copy;
            && s.consumers[c].wire == [s.consumers[c].wire[0]] && s.copies[k].place == Held(c)
            && s.consumers[c].work.None?
            && Apply(s, BrokerReads(c, newId)) == LetGo(s, c, k, if s.consumers[c].wire[0].Ack? then Removed else DeadLettered)
  {
    assert ConsumerInv(s, c);
    assert s.consumers[c].wire[1..] == [];
  }

  lemma LetGoBears(s: State, c: nat, k: nat, place: Place, b: Carrier, n: nat)
    requires Shape(s) && c in s.consumers && k in s.copies && s.copies[k].place == Held(c)
    requires s.consumers[c].wire == [if place == Removed then Ack(k) else NackDead(k)]
    requires s.consumers[c].work.None? && place in {Removed, DeadLettered}
    requires Bears(LetGo(s, c, k, place), b, n)
    ensures Bears(s, b, n)
    ensures b == OfCopy(k) ==> place == DeadLettered
    ensures b != OfWire(c)
  {
    if b.OfCopy? {
      assert CopyInv(s, b.copy);
      assert b.copy != k ==> s.copies[b.copy].place != Held(c);
    }
  }

  lemma BrokerAnswerBears(s: State, c: nat, newId: nat, b: Carrier, n: nat)
    requires Inv(s) && Enabled(s, BrokerReads(c, newId)) && !s.consumers[c].wire[0].Publish?
    requires ConsumerSmooth(s, c) && Bears(Apply(s, BrokerReads(c, newId)), b, n)
    ensures Bears(s, b, n) && Before(s, BrokerReads(c, newId), b) == b
  {
    AnswerIsLetGo(s, c, newId);
    var f := s.consumers[c].wire[0];
    LetGoBears(s, c, f.copy, if f.Ack? then Removed else DeadLettered, b, n);
  }

  lemma StepBears(s: State, step: Step, b: Carrier, n: nat)
    requires SmoothInv(s) && Enabled(s, step) && Smooth(step) && Bears(Apply(s, step), b, n)
    ensures if step.Produce? && n == step.message then b == OfCopy(step.copy) else Bears(s, Before(s, step, b), n)
  {
    match step
    case Produce(m, k, key) => ProduceBears(s, m, k, key, b, n);
    case Deliver(c, k) => DeliverBears(s, c, k, b, n);
    case Republish(c) => RepublishBears(s, c, b, n);
    case Answer(c) => AnswerBears(s, c, b, n);
    case BrokerReads(c, newId) =>
      if s.consumers[c].wire[0].Publish? {
        BrokerRetryBears(s, c, newId, b, n);
      } else {
        BrokerAnswerBears(s, c, newId, b, n);
      }
    case Join(c) => JoinBears(s, c, b, n);
    case Dispatch(c, ok) => DispatchBears(s, c, ok, b, n);
    case Reconnect(_) =>
  }

  lemma JoinBears(s: State, c: nat, b: Carrier, n: nat)
    requires Inv(s) && Enabled(s, Join(c)) && Bears(Apply(s, Join(c)), b, n)
    ensures Bears(s, b, n)
  {
    if b.OfCopy? {
      assert CopyInv(s, b.copy);
    }
  }

  lemma DispatchBears(s: State, c: nat, ok: bool, b: Carrier, n: nat)
    requires Inv(s) && Enabled(s, Dispatch(c, ok)) && Bears(Apply(s, Dispatch(c, ok)), b, n)
    ensures Bears(s, b, n)
  {
    DispatchFrame(s, c, ok);
  }

  lemma StepOneCarrier(s: State, step: Step)
    requires SmoothInv(s) && Enabled(s, step) && Smooth(step)
    ensures OneCarrier(Apply(s, step))
  {
    var s' := Apply(s, step);
    forall a, b, m | Bears(s', a, m) && Bears(s', b, m) ensures a == b {
      StepBears(s, step, a, m);
      StepBears(s, step, b, m);
      BeforeInjective(s, step, a, b, m);
    }
  }

  lemma BeforeInjective(s: State, step: Step, a: Carrier, b: Carrier, m: nat)
    requires Inv(s) && Enabled(s, step) && Smooth(step)
    requires Before(s, step, a) == Before(s, step, b)
    requires Bears(Apply(s, step), a, m) && Bears(Apply(s, step), b, m)
    ensures a == b
  {
    if step.Republish? {
      RetryLeavesCopy(s, step.consumer, m);
    } else if step.BrokerReads? {
      RetryLeavesWire(s, step.consumer, step.copy, m);
    } else {
      assert Before(s, step, a) == a && Before(s, step, b) == b;
    }
  }

  /** Once a retry is on the wire, its copy carries nothing. */
  lemma RetryLeavesCopy(s: State, c: nat, m: nat)
    requires Inv(s) && Enabled(s, Republish(c))
    ensures !Bears(Apply(s, Republish(c)), OfCopy(s.consumers[c].work.value.copy), m)
  {
    assert ConsumerInv(s, c);
  }

  /** Once the broker has read a frame, that wire carries no retry. */
  lemma RetryLeavesWire(s: State, c: nat, newId: nat, m: nat)
    requires Inv(s) && Enabled(s, BrokerReads(c, newId))
    ensures !Bears(Apply(s, BrokerReads(c, newId)), OfWire(c), m)
  {
    var wire := s.consumers[c].wire;
    assert ConsumerInv(s, c);
    assert Apply(s, BrokerReads(c, newId)).consumers[c].wire == wire[1..];
  }

  // ---- what the headers say stays true ----

  lemma ProduceOk(s: State, m: nat, k: nat, key: string, b: Carrier, n: nat)
    requires SmoothInv(s) && Enabled(s, Produce(m, k, key)) && Bears(Apply(s, Produce(m, k, key)), b, n)
    ensures CarrierOk(Apply(s, Produce(m, k, key)), b, n)
  {
    ProduceBears(s, m, k, key, b, n);
    assert n != m ==> CarrierOk(s, b, n);
  }

  lemma DeliverOk(s: State, c: nat, k: nat, b: Carrier, n: nat)
    requires SmoothInv(s) && Enabled(s, Deliver(c, k)) && Bears(Apply(s, Deliver(c, k)), b, n)
    ensures CarrierOk(Apply(s, Deliver(c, k)), b, n)
  {
    DeliverBears(s, c, k, b, n);
    assert CarrierOk(s, b, n);
    assert ConsumerInv(s, c);
    if b.OfCopy? {
      assert CopyInv(s, b.copy);
    }
  }

  lemma JoinOk(s: State, c: nat, b: Carrier, n: nat)
    requires SmoothInv(s) && Enabled(s, Join(c)) && Bears(s, b, n) && Bears(Apply(s, Join(c)), b, n)
    ensures CarrierOk(Apply(s, Join(c)), b, n)
  {
    assert CarrierOk(s, b, n);
  }

  /** Running the handler only counts it and records how it went. */
  lemma DispatchFrame(s: State, c: nat, ok: bool)
    requires Enabled(s, Dispatch(c, ok))
    ensures var s', m := Apply(s, Dispatch(c, ok)), TheCopy(s, c).message;
            && s'.copies == s.copies && s'.keys == s.keys
            && s'.consumers == s.consumers[c := SetPhase(s.consumers[c], if ok then Succeeded else Failed)]
            && s'.dispatches == s.dispatches[m := s.dispatches[m] + 1]
            && s'.handled == s.handled + if ok then {m} else {}
  {
  }

  lemma DispatchOk(s: State, c: nat, ok: bool, b: Carrier, n: nat)
    requires SmoothInv(s) && Enabled(s, Dispatch(c, ok)) && Bears(s, b, n) && Bears(Apply(s, Dispatch(c, ok)), b, n)
    ensures CarrierOk(Apply(s, Dispatch(c, ok)), b, n)
  {
    WorkedOnBears(s, c);
    if n == TheCopy(s, c).message {
      assert b == OfCopy(s.consumers[c].work.value.copy);
      DispatchOwnOk(s, c, ok);
    } else {
      DispatchOtherOk(s, c, ok, b, n);
    }
  }

  lemma DispatchOwnOk(s: State, c: nat, ok: bool)
    requires SmoothInv(s) && Enabled(s, Dispatch(c, ok))
    requires Bears(Apply(s, Dispatch(c, ok)), OfCopy(s.consumers[c].work.value.copy), TheCopy(s, c).message)
    ensures CarrierOk(Apply(s, Dispatch(c, ok)), OfCopy(s.consumers[c].work.value.copy), TheCopy(s, c).message)
  {
    WorkedOnBears(s, c);
    assert CarrierOk(s, OfCopy(s.consumers[c].work.value.copy), TheCopy(s, c).message) && ConsumerSmooth(s, c);
    DispatchFrame(s, c, ok);
  }

  lemma DispatchOtherOk(s: State, c: nat, ok: bool, b: Carrier, n: nat)
    requires SmoothInv(s) && Enabled(s, Dispatch(c, ok)) && n != TheCopy(s, c).message
    requires Bears(s, b, n) && Bears(Apply(s, Dispatch(c, ok)), b, n)
    ensures CarrierOk(Apply(s, Dispatch(c, ok)), b, n)
  {
    assert CarrierOk(s, b, n);
    DispatchFrame(s, c, ok);
    if b.OfCopy? {
      WorkedOnBears(s, c);
      assert OneEach(s) && s.copies[b.copy].place != Held(c);
    }
  }

  /** The delivery a consumer is about to handle carries its message. */
  lemma WorkedOnBears(s: State, c: nat)
    requires SmoothInv(s) && Working(s, c, Received)
    ensures var k := s.consumers[c].work.value.copy;
            Bears(s, OfCopy(k), s.copies[k].message) && s.copies[k].place == Held(c) && s.consumers[c].wire == []
  {
    assert ConsumerInv(s, c) && ConsumerSmooth(s, c);
  }

  lemma RepublishOk(s: State, c: nat, b: Carrier, n: nat)
    requires SmoothInv(s) && Enabled(s, Republish(c)) && Bears(Apply(s, Republish(c)), b, n)
    ensures CarrierOk(Apply(s, Republish(c)), b, n)
  {
    RepublishBears(s, c, b, n);
    assert CarrierOk(s, Before(s, Republish(c), b), n);
    assert ConsumerInv(s, c) && ConsumerSmooth(s, c);
    if b.OfCopy? {
      assert CopyInv(s, b.copy);
    }
  }

  /** Answering only puts the answer on the wire and frees the consumer. */
  lemma AnswerFrame(s: State, c: nat)
    requires Enabled(s, Answer(c)) && s.consumers[c].work.value.live
    ensures var s', x := Apply(s, Answer(c)), s.consumers[c];
            && s'.copies == s.copies && s'.keys == s.keys && s'.dispatches == s.dispatches && s'.handled == s.handled
            && s'.consumers == s.consumers[c := s'.consumers[c]]
            && s'.consumers[c] == x.(work := None, wire := s'.consumers[c].wire)
  {
    AnswerWire(s, c);
  }

  lemma AnswerOk(s: State, c: nat, b: Carrier, n: nat)
    requires SmoothInv(s) && Enabled(s, Answer(c)) && Bears(Apply(s, Answer(c)), b, n)
    ensures CarrierOk(Apply(s, Answer(c)), b, n)
  {
    AnswerBears(s, c, b, n);
    assert CarrierOk(s, b, n);
    assert ConsumerInv(s, c) && ConsumerSmooth(s, c);
    AnswerFrame(s, c);
    AnswerWire(s, c);
    if b.OfCopy? {
      assert CopyInv(s, b.copy);
    }
  }

  lemma BrokerRetryOk(s: State, c: nat, newId: nat, b: Carrier, n: nat)
    requires SmoothInv(s) && Enabled(s, BrokerReads(c, newId)) && s.consumers[c].wire[0].Publish?
    requires Bears(Apply(s, BrokerReads(c, newId)), b, n)
    ensures CarrierOk(Apply(s, BrokerReads(c, newId)), b, n)
  {
    BrokerRetryBears(s, c, newId, b, n);
    BrokerRetryFrame(s, c, newId);
    assert CarrierOk(s, Before(s, BrokerReads(c, newId), b), n);
    assert ConsumerInv(s, c) && ConsumerSmooth(s, c);
    if b.OfCopy? && b.copy in s.copies {
      assert CopyInv(s, b.copy);
    }
  }

  /** A retry the broker reads leaves the wire and becomes a new queued copy. */
  lemma BrokerRetryFrame(s: State, c: nat, newId: nat)
    requires Enabled(s, BrokerReads(c, newId)) && s.consumers[c].wire[0].Publish?
    ensures var s', wire := Apply(s, BrokerReads(c, newId)), s.consumers[c].wire;
            && s'.copies == s.copies[newId := Republished(s.copies[wire[0].copy])]
            && s'.keys == s.keys && s'.dispatches == s.dispatches && s'.handled == s.handled
            && s'.consumers == s.consumers[c := s.consumers[c].(wire := wire[1..])]
  {
  }

  lemma LetGoOk(s: State, c: nat, k: nat, place: Place, b: Carrier, n: nat)
    requires Shape(s) && c in s.consumers && k in s.copies && s.copies[k].place == Held(c)
    requires s.consumers[c].wire == [if place == Removed then Ack(k) else NackDead(k)]
    requires s.consumers[c].work.None? && place in {Removed, DeadLettered}
    requires place == DeadLettered ==> RetryCount(s.copies[k]) == MAX_RETRY_ATTEMPTS
    requires Bears(s, b, n) && CarrierOk(s, b, n) && Bears(LetGo(s, c, k, place), b, n)
    ensures CarrierOk(LetGo(s, c, k, place), b, n)
  {
    LetGoBears(s, c, k, place, b, n);
    if b.OfCopy? {
      assert CopyInv(s, b.copy);
    }
  }

  lemma StepOk(s: State, step: Step, b: Carrier, n: nat)
    requires SmoothInv(s) && Enabled(s, step) && Smooth(step) && Bears(Apply(s, step), b, n)
    ensures CarrierOk(Apply(s, step), b, n)
  {
    StepBears(s, step, b, n);
    match step
    case Produce(m, k, key) => ProduceOk(s, m, k, key, b, n);
    case Join(c) => JoinOk(s, c, b, n);
    case Deliver(c, k) => DeliverOk(s, c, k, b, n);
    case Dispatch(c, ok) => DispatchOk(s, c, ok, b, n);
    case Republish(c) => RepublishOk(s, c, b, n);
    case Answer(c) => AnswerOk(s, c, b, n);
    case BrokerReads(c, newId) => BrokerOk(s, c, newId, b, n);
    case _ =>
  }

  lemma BrokerOk(s: State, c: nat, newId: nat, b: Carrier, n: nat)
    requires SmoothInv(s) && Enabled(s, BrokerReads(c, newId)) && Bears(Apply(s, BrokerReads(c, newId)), b, n)
    ensures CarrierOk(Apply(s, BrokerReads(c, newId)), b, n)
  {
    if s.consumers[c].wire[0].Publish? {
      BrokerRetryOk(s, c, newId, b, n);
    } else {
      BrokerAnswerBears(s, c, newId, b, n);
      AnswerIsLetGo(s, c, newId);
      var f := s.consumers[c].wire[0];
      assert CarrierOk(s, b, n) && ConsumerSmooth(s, c);
      LetGoOk(s, c, f.copy, if f.Ack? then Removed else DeadLettered, b, n);
    }
  }

  lemma AnswerConsumers(s: State, c: nat, d: nat)
    requires SmoothInv(s) && Enabled(s, Answer(c)) && d in s.consumers
    ensures ConsumerSmooth(Apply(s, Answer(c)), d)
  {
    assert ConsumerSmooth(s, d) && ConsumerInv(s, c);
    var k := s.consumers[c].work.value.copy;
    assert CopyInv(s, k);
    var reply := if s.consumers[c].work.value.phase == Failed then NackDead(k) else Ack(k);
    assert d == c ==> Apply(s, Answer(c)).consumers[c].wire == s.consumers[c].wire + [reply];
    assert s.consumers[c].wire != [] ==> s.consumers[c].wire[0] == Publish(k);
  }

  lemma BrokerConsumers(s: State, c: nat, newId: nat, d: nat)
    requires SmoothInv(s) && Enabled(s, BrokerReads(c, newId)) && d in s.consumers
    ensures ConsumerSmooth(Apply(s, BrokerReads(c, newId)), d)
  {
    assert ConsumerSmooth(s, d) && ConsumerInv(s, d) && ConsumerInv(s, c) && ConsumerSmooth(s, c);
    var wire := s.consumers[c].wire;
    assert |wire| == 2 ==> wire[1] == Ack(wire[0].copy) || wire[1] == NackRequeue(wire[0].copy);
  }

  lemma StepConsumers(s: State, step: Step, d: nat)
    requires SmoothInv(s) && Enabled(s, step) && Smooth(step) && d in Apply(s, step).consumers
    ensures ConsumerSmooth(Apply(s, step), d)
  {
    assert d in s.consumers ==> ConsumerSmooth(s, d) && ConsumerInv(s, d);
    if step.Answer? {
      AnswerConsumers(s, step.consumer, d);
    } else if step.BrokerReads? {
      BrokerConsumers(s, step.consumer, step.copy, d);
    } else if step.Produce? || step.Deliver? {
      QueueConsumers(s, step, d);
    } else {
      OwnConsumers(s, step, d);
    }
  }

  lemma QueueConsumers(s: State, step: Step, d: nat)
    requires Shape(s) && Enabled(s, step) && (step.Produce? || step.Deliver?)
    requires d in s.consumers && ConsumerSmooth(s, d) && ConsumerInv(s, d)
    ensures ConsumerSmooth(Apply(s, step), d)
  {
  }

  lemma OwnConsumers(s: State, step: Step, d: nat)
    requires Shape(s) && Enabled(s, step) && (step.Join? || step.Dispatch? || step.Republish? || step.Reconnect?)
    requires d in s.consumers ==> ConsumerSmooth(s, d) && ConsumerInv(s, d)
    requires d in Apply(s, step).consumers
    ensures ConsumerSmooth(Apply(s, step), d)
  {
  }

  lemma StepDispatches(s: State, step: Step, m: nat)
    requires SmoothInv(s) && Enabled(s, step) && Smooth(step) && m in Apply(s, step).dispatches
    ensures Apply(s, step).dispatches[m] <= MAX_RETRY_ATTEMPTS + 1
  {
    if step.Dispatch? && TheCopy(s, step.consumer).message == m {
      var k := s.consumers[step.consumer].work.value.copy;
      assert ConsumerInv(s, step.consumer) && ConsumerSmooth(s, step.consumer) && CopyInv(s, k);
      assert Bears(s, OfCopy(k), m);
      assert CarrierOk(s, OfCopy(k), m);
    }
  }

  lemma SmoothStep(s: State, step: Step)
    requires SmoothInv(s) && Enabled(s, step) && Smooth(step)
    ensures SmoothInv(Apply(s, step))
  {
    var s' := Apply(s, step);
    StepInv(s, step);
    StepOneCarrier(s, step);
    forall c | c in s'.consumers ensures ConsumerSmooth(s', c) {
      StepConsumers(s, step, c);
    }
    forall b, n | Bears(s', b, n) ensures CarrierOk(s', b, n) {
      StepOk(s, step, b, n);
    }
    forall m | m in s'.dispatches ensures s'.dispatches[m] <= MAX_RETRY_ATTEMPTS + 1 {
      StepDispatches(s, step, m);
    }
    StepHandled(s, step);
  }

  lemma StepHandled(s: State, step: Step)
    requires SmoothInv(s) && Enabled(s, step) && Smooth(step)
    ensures Apply(s, step).handled <= Apply(s, step).keys.Keys
  {
  }

  lemma {:induction false} SmoothRunInv(trace: seq<State>, i: nat)
    requires SmoothRun(trace) && i < |trace|
    ensures SmoothInv(trace[i])
  {
    if i > 0 {
      SmoothRunInv(trace, i - 1);
      assert SmoothNext(trace[i - 1], trace[i - 1 + 1]);
      var step :| Smooth(step) && Enabled(trace[i - 1], step) && trace[i] == Apply(trace[i - 1], step);
      SmoothStep(trace[i - 1], step);
    }
  }

  // ---- the theorem ----

  /** No copy of the message is queued or held by a consumer. */
  ghost predicate AtRest(s: State, m: nat) {
    forall k :: k in s.copies && s.copies[k].message == m ==> s.copies[k].place.DeadLettered? || s.copies[k].place.Removed?
  }

  ghost predicate InDeadLetters(s: State, m: nat) {
    exists k :: k in s.copies && s.copies[k].message == m && s.copies[k].place == DeadLettered
  }

  /**
  Without lost connections and failed republishing every message is dispatched at most four
  times, and once nothing of it is in flight it was either handled or dead-lettered, never both;
  dead-lettering takes exactly four dispatches.
  */
  lemma FourDispatches(trace: seq<State>, i: nat, m: nat)
    requires SmoothRun(trace) && i < |trace| && m in trace[i].keys
    ensures m in trace[i].dispatches && trace[i].dispatches[m] <= 4
    ensures AtRest(trace[i], m) ==> (m in trace[i].handled <==> !InDeadLetters(trace[i], m))
    ensures InDeadLetters(trace[i], m) ==> m !in trace[i].handled && trace[i].dispatches[m] == 4
  {
    SmoothRunInv(trace, i);
    var s := trace[i];
    assert MessageInv(s, m);
    if InDeadLetters(s, m) {
      var k :| k in s.copies && s.copies[k].message == m && s.copies[k].place == DeadLettered;
      assert Bears(s, OfCopy(k), m) && CarrierOk(s, OfCopy(k), m);
    } else {
      WireIsHeld(s, m);
    }
  }

  lemma WireIsHeld(s: State, m: nat)
    requires Inv(s)
    ensures OnWire(s, m) ==> !AtRest(s, m)
  {
    if OnWire(s, m) {
      var c :| Carries(s, c, m);
      assert ConsumerInv(s, c);
    }
  }

  // ---- nothing gets stuck ----

  /** A consumer that holds a delivery is at work on it or has frames on the wire. */
  ghost predicate AtWork(s: State, c: nat)
    requires c in s.consumers
  {
    var x := s.consumers[c];
    && (x.work.None? && x.wire == [] ==> forall k :: k in s.copies ==> s.copies[k].place != Held(c))
    && (|x.wire| == 1 && x.wire[0].Publish? ==> x.work.Some?)
  }

  lemma StepAtWork(s: State, step: Step, d: nat)
    requires SmoothInv(s) && Enabled(s, step) && Smooth(step) && !step.BrokerReads?
    requires d in Apply(s, step).consumers && (d in s.consumers ==> AtWork(s, d))
    ensures AtWork(Apply(s, step), d)
  {
    if d !in s.consumers {
      forall k | k in s.copies ensures s.copies[k].place != Held(d) {
        assert CopyInv(s, k);
      }
    } else {
      assert ConsumerInv(s, d) && ConsumerSmooth(s, d);
    }
  }

  lemma BrokerAtWork(s: State, c: nat, newId: nat, d: nat)
    requires SmoothInv(s) && Enabled(s, BrokerReads(c, newId)) && d in s.consumers && AtWork(s, d)
    ensures AtWork(Apply(s, BrokerReads(c, newId)), d)
  {
    if s.consumers[c].wire[0].Publish? {
      BrokerRetryAtWork(s, c, newId, d);
    } else {
      assert ConsumerSmooth(s, c);
      AnswerIsLetGo(s, c, newId);
      assert OneEach(s);
    }
  }

  lemma BrokerRetryAtWork(s: State, c: nat, newId: nat, d: nat)
    requires SmoothInv(s) && Enabled(s, BrokerReads(c, newId)) && s.consumers[c].wire[0].Publish?
    requires d in s.consumers && AtWork(s, d)
    ensures AtWork(Apply(s, BrokerReads(c, newId)), d)
  {
    BrokerRetryFrame(s, c, newId);
    if d == c {
      BehindRetry(s, c);
    }
  }

  /** Behind a retry comes at most the acknowledgement. */
  lemma BehindRetry(s: State, c: nat)
    requires SmoothInv(s) && c in s.consumers && s.consumers[c].wire != [] && s.consumers[c].wire[0].Publish?
    ensures var wire := s.consumers[c].wire; |wire| == 1 || wire[1..] == [Ack(wire[0].copy)]
  {
    assert ConsumerInv(s, c) && ConsumerSmooth(s, c);
    var wire := s.consumers[c].wire;
    assert |wire| == 2 ==> wire[1] in wire;
  }

  lemma {:induction false} AllAtWork(trace: seq<State>, i: nat, c: nat)
    requires SmoothRun(trace) && i < |trace| && c in trace[i].consumers
    ensures AtWork(trace[i], c)
  {
    if i > 0 {
      var s := trace[i - 1];
      SmoothRunInv(trace, i - 1);
      assert SmoothNext(trace[i - 1], trace[i - 1 + 1]);
      var step :| Smooth(step) && Enabled(s, step) && trace[i] == Apply(s, step);
      if c in s.consumers {
        AllAtWork(trace, i - 1, c);
      }
      NextAtWork(s, step, c);
    }
  }

  lemma NextAtWork(s: State, step: Step, c: nat)
    requires SmoothInv(s) && Enabled(s, step) && Smooth(step)
    requires c in Apply(s, step).consumers && (c in s.consumers ==> AtWork(s, c))
    ensures AtWork(Apply(s, step), c)
  {
    if step.BrokerReads? {
      BrokerAtWork(s, step.consumer, step.copy, c);
    } else {
      StepAtWork(s, step, c);
    }
  }

  /** A step that takes some delivery further. */
  ghost predicate Moves(s: State, step: Step) {
    Smooth(step) && !step.Produce? && !step.Join? && !step.Reconnect? && Enabled(s, step)
  }

  lemma {:induction false} Above(ids: set<nat>) returns (n: nat)
    ensures forall id: nat :: id in ids ==> id < n
    decreases |ids|
  {
    if ids == {} {
      n := 0;
    } else {
      var one :| one in ids;
      var m := Above(ids - {one});
      n := Max(m, one + 1);
      forall id: nat | id in ids ensures id < n {
        assert id == one || id in ids - {one};
      }
    }
  }

  lemma BusyMoves(s: State, c: nat)
    requires SmoothInv(s) && c in s.consumers && (s.consumers[c].work.Some? || s.consumers[c].wire != [])
    ensures exists step :: Moves(s, step)
  {
    assert ConsumerInv(s, c) && ConsumerSmooth(s, c);
    if s.consumers[c].wire != [] {
      var n := Above(s.copies.Keys);
      assert Moves(s, BrokerReads(c, n));
    } else {
      var w := s.consumers[c].work.value;
      assert CopyInv(s, w.copy);
      match w.phase
      case Received => assert Moves(s, Dispatch(c, true));
      case Failed =>
        assert if RetryCount(s.copies[w.copy]) < MAX_RETRY_ATTEMPTS then Moves(s, Republish(c)) else Moves(s, Answer(c));
      case _ => assert Moves(s, Answer(c));
    }
  }

  /** As long as some copy is queued or held and there is a consumer, some delivery can be taken further. */
  lemma NeverStuck(trace: seq<State>, i: nat, c: nat, k: nat)
    requires SmoothRun(trace) && i < |trace| && c in trace[i].consumers && k in trace[i].copies
    requires trace[i].copies[k].place.Queued? || trace[i].copies[k].place.Held?
    ensures exists step :: Moves(trace[i], step)
  {
    var s := trace[i];
    SmoothRunInv(trace, i);
    assert CopyInv(s, k);
    var d := if s.copies[k].place.Held? then s.copies[k].place.consumer else c;
    AllAtWork(trace, i, d);
    if s.consumers[d].work.Some? || s.consumers[d].wire != [] {
      BusyMoves(s, d);
    } else {
      assert ConsumerSmooth(s, d);
      assert Moves(s, Deliver(d, k));
    }
  }
}
