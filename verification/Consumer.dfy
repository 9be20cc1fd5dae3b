/**
Consuming with manual acknowledgement, retries by republishing, and a dead-letter queue.

Each consumer holds at most one unacknowledged delivery (prefetch 1).  What it sends to the
broker travels in order on its connection's wire and takes effect when the broker reads it; a
lost connection drops the rest of the wire and puts the held delivery back into the queue,
while the handler may still be running on it.  A publish is not confirmed.

Assumption about AMQP: frames of one channel are read in the order they were sent.
*/
module Consumer {
  import opened Wrappers

  const QUEUE: string := "order_queue"
  const MAX_RETRY_ATTEMPTS: int := 3

  const BOUND_KEYS: seq<string> := [
    "restaurant.launched", "restaurant.updated", "restaurant.pizza_updated",
    "restaurant.topping_prices_updated", "user.registered", "payment.succeeded",
    "payment.failed", "customer.phone_updated"]

  datatype Place = Queued | Held(consumer: nat) | DeadLettered | Removed

  datatype Copy = Copy(
    message: nat,
    routingKey: string,
    retryHeader: Option<int>,        // x-retry-count
    originalKey: Option<string>,     // x-original-routing-key
    place: Place)

  function EventName(c: Copy): string {
    if c.originalKey.Some? && c.originalKey.value != "" then c.originalKey.value else c.routingKey
  }

  function RetryCount(c: Copy): int {
    if c.retryHeader.Some? then c.retryHeader.value else 0
  }

  /** The copy that Republish sends for a failed delivery, as the queue receives it. */
  function Republished(c: Copy): Copy {
    Copy(c.message, QUEUE, Some(RetryCount(c) + 1),
         if c.originalKey.Some? then c.originalKey else Some(c.routingKey), Queued)
  }

  datatype Frame = Publish(copy: nat) | Ack(copy: nat) | NackDead(copy: nat) | NackRequeue(copy: nat)

  /**
  What the broker can rely on for one delivery: its last frame, and only that, settles it; a retry
  is published directly before the acknowledgement and nowhere else; the delivery is dead-lettered
  exactly if it failed with its attempts used up, and requeued exactly if it failed before that and
  could not be republished; a retry is published exactly if it failed before that and could.
  */
  ghost predicate ProperReplies(k: nat, c: Copy, handled: bool, republished: bool, sent: seq<Frame>) {
    var exhausted := RetryCount(c) >= MAX_RETRY_ATTEMPTS;
    && sent != [] && (forall f :: f in sent ==> f.copy == k)
    && (forall i :: 0 <= i < |sent| ==> (sent[i].Publish? <==> i < |sent| - 1))
    && (forall i :: 0 <= i < |sent| && sent[i].Publish? ==> i + 1 < |sent| && sent[i + 1].Ack?)
    && (sent[|sent| - 1].NackDead? <==> !handled && exhausted)
    && (sent[|sent| - 1].NackRequeue? <==> !handled && !exhausted && !republished)
    && (Publish(k) in sent <==> !handled && !exhausted && republished)
  }

  /** There is only one way to reply properly. */
  lemma ProperRepliesAgree(k: nat, c: Copy, handled: bool, republished: bool, a: seq<Frame>, b: seq<Frame>)
    requires ProperReplies(k, c, handled, republished, a) && ProperReplies(k, c, handled, republished, b)
    ensures a == b
  {
    AtMostOneRetry(k, c, handled, republished, a);
    AtMostOneRetry(k, c, handled, republished, b);
    assert |a| == 2 ==> a[0] in a && a[0] == Publish(k);
    assert |b| == 2 ==> b[0] in b && b[0] == Publish(k);
  }

  lemma AtMostOneRetry(k: nat, c: Copy, handled: bool, republished: bool, sent: seq<Frame>)
    requires ProperReplies(k, c, handled, republished, sent)
    ensures |sent| <= 2
  {
    assert sent[0].Publish? <==> 0 < |sent| - 1;
    assert |sent| > 1 ==> (sent[1].Publish? <==> 1 < |sent| - 1);
  }

  method HandleDelivery(k: nat, c: Copy, handled: bool, republished: bool) returns (sent: seq<Frame>)
    ensures ProperReplies(k, c, handled, republished, sent)
  {
    sent := [];
    if !handled {
      var retryCount := RetryCount(c);
      if retryCount >= MAX_RETRY_ATTEMPTS {
        sent := sent + [NackDead(k)];
        return;
      }
      if !republished {
        sent := sent + [NackRequeue(k)];
        return;
      }
      sent := sent + [Publish(k)];
      sent := sent + [Ack(k)];
      return;
    }
    sent := sent + [Ack(k)];
  }

  datatype Phase = Received | Succeeded | Failed | Resent

  /** A delivery the consumer's loop is busy with; `live` while its connection is up. */
  datatype Work = Work(copy: nat, phase: Phase, live: bool)

  datatype Consumer = Consumer(connected: bool, work: Option<Work>, wire: seq<Frame>)

  datatype State = State(
    keys: map<nat, string>,          // the routing key each message was published with
    copies: map<nat, Copy>,
    consumers: map<nat, Consumer>,
    handled: set<nat>,
    dispatches: map<nat, nat>)

  datatype Step =
    | Produce(message: nat, copy: nat, key: string)
    | Join(consumer: nat)
    | Deliver(consumer: nat, copy: nat)
    | Dispatch(consumer: nat, ok: bool)
    | Republish(consumer: nat)
    | RepublishFails(consumer: nat, sentAnyway: bool)
    | Answer(consumer: nat)
    | BrokerReads(consumer: nat, copy: nat)
    | LoseConnection(consumer: nat, crash: bool)
    | Reconnect(consumer: nat)

  function Init(): State {
    State(map[], map[], map[], {}, map[])
  }

  predicate Working(s: State, c: nat, phase: Phase) {
    && c in s.consumers && s.consumers[c].work.Some?
    && s.consumers[c].work.value.phase == phase
    && s.consumers[c].work.value.copy in s.copies
  }

  function TheCopy(s: State, c: nat): Copy
    requires c in s.consumers && s.consumers[c].work.Some? && s.consumers[c].work.value.copy in s.copies
  {
    s.copies[s.consumers[c].work.value.copy]
  }

  predicate Enabled(s: State, step: Step) {
    match step
    case Produce(m, k, key) => m !in s.keys && k !in s.copies && key in BOUND_KEYS
    case Join(c) => c !in s.consumers
    case Deliver(c, k) =>
      && c in s.consumers && s.consumers[c].connected && s.consumers[c].work.None?
      && k in s.copies && s.copies[k].place == Queued
      && (forall j :: j in s.copies ==> s.copies[j].place != Held(c))
    case Dispatch(c, _) => Working(s, c, Received) && TheCopy(s, c).message in s.dispatches
    // an attempt to send on a dead channel returns an error
    case Republish(c) =>
      Working(s, c, Failed) && RetryCount(TheCopy(s, c)) < MAX_RETRY_ATTEMPTS && s.consumers[c].work.value.live
    case RepublishFails(c, sentAnyway) =>
      && Working(s, c, Failed) && RetryCount(TheCopy(s, c)) < MAX_RETRY_ATTEMPTS
      && (sentAnyway ==> s.consumers[c].work.value.live)
    case Answer(c) =>
      || Working(s, c, Succeeded) || Working(s, c, Resent)
      || (Working(s, c, Failed) && RetryCount(TheCopy(s, c)) >= MAX_RETRY_ATTEMPTS)
    case BrokerReads(c, k) =>
      && c in s.consumers && s.consumers[c].wire != []
      && s.consumers[c].wire[0].copy in s.copies && k !in s.copies
    case LoseConnection(c, _) => c in s.consumers && s.consumers[c].connected
    case Reconnect(c) => c in s.consumers && !s.consumers[c].connected && s.consumers[c].work.None?
  }

  function SetPhase(x: Consumer, phase: Phase): Consumer
    requires x.work.Some?
  {
    x.(work := Some(x.work.value.(phase := phase)))
  }

  /** Sends on the delivery's own channel: without effect once that is dead. */
  function Sent(x: Consumer, frames: seq<Frame>): Consumer {
    if x.work.Some? && x.work.value.live then x.(wire := x.wire + frames) else x
  }

  function Put(s: State, c: nat, x: Consumer): State {
    s.(consumers := s.consumers[c := x])
  }

  function MoveTo(s: State, k: nat, place: Place): State
    requires k in s.copies
  {
    s.(copies := s.copies[k := s.copies[k].(place := place)])
  }

  function Apply(s: State, step: Step): State
    requires Enabled(s, step)
  {
    match step
    case Produce(m, k, key) =>
      s.(keys := s.keys[m := key], dispatches := s.dispatches[m := 0],
         copies := s.copies[k := Copy(m, key, None, None, Queued)])
    case Join(c) => Put(s, c, Consumer(true, None, []))
    case Deliver(c, k) =>
      Put(MoveTo(s, k, Held(c)), c, s.consumers[c].(work := Some(Work(k, Received, true))))
    case Dispatch(c, ok) =>
      var m := TheCopy(s, c).message;
      Put(s, c, SetPhase(s.consumers[c], if ok then Succeeded else Failed))
        .(handled := if ok then s.handled + {m} else s.handled,
          dispatches := s.dispatches[m := s.dispatches[m] + 1])
    case Republish(c) =>
      var x := s.consumers[c];
      Put(s, c, SetPhase(Sent(x, [Publish(x.work.value.copy)]), Resent))
    case RepublishFails(c, sentAnyway) =>
      var x := s.consumers[c];
      var k := x.work.value.copy;
      Put(s, c, Sent(x, (if sentAnyway then [Publish(k)] else []) + [NackRequeue(k)]).(work := None))
    case Answer(c) =>
      var x := s.consumers[c];
      var k := x.work.value.copy;
      Put(s, c, Sent(x, [if x.work.value.phase == Failed then NackDead(k) else Ack(k)]).(work := None))
    case BrokerReads(c, newId) =>
      var x := s.consumers[c];
      var k := x.wire[0].copy;
      var s1 := Put(s, c, x.(wire := x.wire[1..]));
      (match x.wire[0]
       case Publish(_) => s1.(copies := s1.copies[newId := Republished(s.copies[k])])
       case Ack(_) => MoveTo(s1, k, Removed)
       case NackDead(_) => MoveTo(s1, k, DeadLettered)
       case NackRequeue(_) => MoveTo(s1, k, Queued))
    case LoseConnection(c, crash) =>
      var x := s.consumers[c];
      var work := if crash || x.work.None? then None else Some(x.work.value.(live := false));
      Put(s, c, Consumer(false, work, []))
        .(copies := map k | k in s.copies ::
                      if s.copies[k].place == Held(c) then s.copies[k].(place := Queued) else s.copies[k])
    case Reconnect(c) => Put(s, c, Consumer(true, None, []))
  }

  /** On a live connection the steps for one delivery put its proper replies on the wire. */
  lemma StepsSendReplies(s: State, c: nat, handled: bool)
    requires Enabled(s, Dispatch(c, handled)) && s.consumers[c].work.value.live && s.consumers[c].wire == []
    ensures var k, copy, s1 := s.consumers[c].work.value.copy, TheCopy(s, c), Apply(s, Dispatch(c, handled));
            if handled || RetryCount(copy) >= MAX_RETRY_ATTEMPTS then
              Enabled(s1, Answer(c)) && ProperReplies(k, copy, handled, true, Apply(s1, Answer(c)).consumers[c].wire)
            else
              && Enabled(s1, Republish(c)) && Enabled(Apply(s1, Republish(c)), Answer(c))
              && ProperReplies(k, copy, false, true, Apply(Apply(s1, Republish(c)), Answer(c)).consumers[c].wire)
              && Enabled(s1, RepublishFails(c, false))
              && ProperReplies(k, copy, false, false, Apply(s1, RepublishFails(c, false)).consumers[c].wire)
  {
    var k, s1 := s.consumers[c].work.value.copy, Apply(s, Dispatch(c, handled));
    if handled || RetryCount(TheCopy(s, c)) >= MAX_RETRY_ATTEMPTS {
      AnswerWire(s1, c);
      SingleReply(k, TheCopy(s, c), handled, true);
    } else {
      RetryWire(s1, c);
      RetryReply(k, TheCopy(s, c));
      SingleReply(k, TheCopy(s, c), false, false);
    }
  }

  lemma SingleReply(k: nat, c: Copy, handled: bool, republished: bool)
    requires handled || RetryCount(c) >= MAX_RETRY_ATTEMPTS || !republished
    ensures ProperReplies(k, c, handled, republished,
                          [if handled then Ack(k) else if RetryCount(c) >= MAX_RETRY_ATTEMPTS then NackDead(k) else NackRequeue(k)])
  {
  }

  lemma RetryReply(k: nat, c: Copy)
    requires RetryCount(c) < MAX_RETRY_ATTEMPTS
    ensures ProperReplies(k, c, false, true, [Publish(k), Ack(k)])
  {
    assert [Publish(k), Ack(k)][0] == Publish(k);
  }

  lemma AnswerWire(s: State, c: nat)
    requires Enabled(s, Answer(c)) && s.consumers[c].work.value.live
    ensures var x := s.consumers[c];
            Apply(s, Answer(c)).consumers[c].wire
              == x.wire + [if x.work.value.phase == Failed then NackDead(x.work.value.copy) else Ack(x.work.value.copy)]
  {
  }

  lemma RetryWire(s: State, c: nat)
    requires Enabled(s, Republish(c)) && s.consumers[c].wire == []
    ensures var k := s.consumers[c].work.value.copy;
            && Enabled(Apply(s, Republish(c)), Answer(c))
            && Apply(Apply(s, Republish(c)), Answer(c)).consumers[c].wire == [Publish(k), Ack(k)]
            && Enabled(s, RepublishFails(c, false))
            && Apply(s, RepublishFails(c, false)).consumers[c].wire == [NackRequeue(k)]
  {
    var k := s.consumers[c].work.value.copy;
    var s1 := Apply(s, Republish(c));
    assert s1.consumers[c].wire == [Publish(k)];
    AnswerWire(s1, c);
  }

  ghost predicate Next(s: State, s': State) {
    exists step :: Enabled(s, step) && s' == Apply(s, step)
  }

  ghost predicate Run(trace: seq<State>) {
    && |trace| > 0 && trace[0] == Init()
    && forall i :: 0 <= i < |trace| - 1 ==> Next(trace[i], trace[i + 1])
  }

  // ---- the invariant ----

  /** Headers and routing key of a copy of a message published with `key`. */
  predicate WellMarked(c: Copy, key: string) {
    if c.retryHeader.None? then c.originalKey.None? && c.routingKey == key
    else 1 <= c.retryHeader.value <= MAX_RETRY_ATTEMPTS && c.originalKey == Some(key)
  }

  ghost predicate CopyInv(s: State, k: nat)
    requires k in s.copies
  {
    && s.copies[k].message in s.keys
    && s.keys[s.copies[k].message] in BOUND_KEYS
    && WellMarked(s.copies[k], s.keys[s.copies[k].message])
    && (s.copies[k].place.Held? ==>
          s.copies[k].place.consumer in s.consumers && s.consumers[s.copies[k].place.consumer].connected)
  }

  /** The frames a consumer can have on the wire: all about the one delivery it holds. */
  ghost predicate WireShape(wire: seq<Frame>, k: nat) {
    || wire == [Publish(k)]
    || wire == [Ack(k)] || wire == [NackDead(k)] || wire == [NackRequeue(k)]
    || wire == [Publish(k), Ack(k)] || wire == [Publish(k), NackRequeue(k)]
  }

  ghost predicate ConsumerInv(s: State, c: nat)
    requires c in s.consumers
  {
    var x := s.consumers[c];
    && (x.wire != [] ==>
          && x.connected && x.wire[0].copy in s.copies && s.copies[x.wire[0].copy].place == Held(c)
          && WireShape(x.wire, x.wire[0].copy))
    && (x.wire != [] && x.wire[0].Publish? ==> RetryCount(s.copies[x.wire[0].copy]) < MAX_RETRY_ATTEMPTS)
    && (x.work.Some? ==>
          var w := x.work.value;
          && w.copy in s.copies
          && (w.phase == Succeeded ==> s.copies[w.copy].message in s.handled)
          && (w.live ==> x.connected && s.copies[w.copy].place == Held(c))
          && (x.wire != [] ==> w.live && w.phase == Resent && x.wire == [Publish(w.copy)]))
  }

  ghost predicate OneEach(s: State) {
    forall j, k :: j in s.copies && k in s.copies && s.copies[j].place.Held? && s.copies[j].place == s.copies[k].place
      ==> j == k
  }

  /** A held copy that the broker is going to remove, once the wire reaches it. */
  ghost predicate Doomed(s: State, k: nat)
    requires k in s.copies
  {
    && s.copies[k].place.Held?
    && s.copies[k].place.consumer in s.consumers
    && var x := s.consumers[s.copies[k].place.consumer];
       || Ack(k) in x.wire
       || x.work == Some(Work(k, Resent, true))
  }

  ghost predicate HasCopy(s: State, m: nat) {
    exists k :: k in s.copies && s.copies[k].message == m && s.copies[k].place != Removed && !Doomed(s, k)
  }

  /** A retry of this message is on this consumer's wire. */
  ghost predicate Carries(s: State, c: nat, m: nat) {
    && c in s.consumers && s.consumers[c].wire != [] && s.consumers[c].wire[0].Publish?
    && s.consumers[c].wire[0].copy in s.copies && s.copies[s.consumers[c].wire[0].copy].message == m
  }

  ghost predicate OnWire(s: State, m: nat) {
    exists c :: Carries(s, c, m)
  }

  ghost predicate MessageInv(s: State, m: nat) {
    m in s.handled || HasCopy(s, m) || OnWire(s, m)
  }

  ghost predicate Shape(s: State) {
    && s.dispatches.Keys == s.keys.Keys
    && (forall j :: j in s.copies ==> CopyInv(s, j))
    && (forall d :: d in s.consumers ==> ConsumerInv(s, d))
    && OneEach(s)
  }

  ghost predicate Inv(s: State) {
    && Shape(s)
    && (forall m :: m in s.keys ==> MessageInv(s, m))
  }

  // ---- every step keeps it ----

  /** The step touches one consumer and no copy. */
  ghost predicate OnlyConsumer(s: State, s': State, c: nat) {
    && c in s'.consumers
    && s'.copies == s.copies && s'.keys == s.keys
    && (forall d :: d != c ==> (d in s.consumers <==> d in s'.consumers))
    && (forall d :: d in s.consumers && d != c ==> s'.consumers[d] == s.consumers[d])
    && s.handled <= s'.handled
    && s'.dispatches.Keys == s.dispatches.Keys
  }

  lemma OnlyConsumerInv(s: State, s': State, c: nat)
    requires Inv(s) && OnlyConsumer(s, s', c) && ConsumerInv(s', c)
    requires c in s.consumers ==> s'.consumers[c].connected == s.consumers[c].connected
    requires forall m :: m in s.keys ==> MessageInv(s', m)
    ensures Inv(s')
  {
    forall k | k in s'.copies ensures CopyInv(s', k) {
      assert CopyInv(s, k);
    }
    forall d | d in s'.consumers ensures ConsumerInv(s', d) {
      assert d != c ==> ConsumerInv(s, d);
    }
  }

  /** If nothing new is doomed and the wires keep their retries, every message keeps its carrier. */
  lemma MessagesKept(s: State, s': State, m: nat)
    requires MessageInv(s, m) && s.handled <= s'.handled
    requires s.copies.Keys <= s'.copies.Keys
    requires forall k :: k in s.copies && s.copies[k].message == m && s.copies[k].place != Removed && !Doomed(s, k) ==>
               s'.copies[k].message == m && s'.copies[k].place != Removed && !Doomed(s', k)
    requires forall c :: c in s.consumers && s.consumers[c].wire != [] && s.consumers[c].wire[0].Publish? ==>
               && c in s'.consumers && s'.consumers[c].wire != [] && s'.consumers[c].wire[0] == s.consumers[c].wire[0]
               && s.consumers[c].wire[0].copy in s.copies
               && s'.copies[s.consumers[c].wire[0].copy].message == s.copies[s.consumers[c].wire[0].copy].message
    ensures MessageInv(s', m)
  {
    if m in s.handled {
    } else if HasCopy(s, m) {
      var k :| k in s.copies && s.copies[k].message == m && s.copies[k].place != Removed && !Doomed(s, k);
      assert HasCopy(s', m);
    } else {
      var c :| Carries(s, c, m);
      assert Carries(s', c, m);
    }
  }

  lemma ProduceShape(s: State, m: nat, k: nat, key: string)
    requires Shape(s) && Enabled(s, Produce(m, k, key))
    ensures Shape(Apply(s, Produce(m, k, key)))
  {
    var s' := Apply(s, Produce(m, k, key));
    forall j | j in s'.copies ensures CopyInv(s', j) {
      assert j in s.copies ==> CopyInv(s, j);
    }
    forall c | c in s'.consumers ensures ConsumerInv(s', c) {
      assert ConsumerInv(s, c);
    }
  }

  lemma ProduceInv(s: State, m: nat, k: nat, key: string)
    requires Inv(s) && Enabled(s, Produce(m, k, key))
    ensures Inv(Apply(s, Produce(m, k, key)))
  {
    var s' := Apply(s, Produce(m, k, key));
    ProduceShape(s, m, k, key);
    forall n | n in s'.keys ensures MessageInv(s', n) {
      if n == m {
        assert s'.copies[k].message == m && !Doomed(s', k);
      } else {
        ProduceMessage(s, m, k, key, n);
      }
    }
  }

  lemma ProduceMessage(s: State, m: nat, k: nat, key: string, n: nat)
    requires Inv(s) && Enabled(s, Produce(m, k, key)) && n in s.keys
    ensures MessageInv(Apply(s, Produce(m, k, key)), n)
  {
    var s' := Apply(s, Produce(m, k, key));
    assert MessageInv(s, n);
    forall c | c in s.consumers ensures ConsumerInv(s, c) {
    }
    MessagesKept(s, s', n);
  }

  lemma DeliverShape(s: State, c: nat, k: nat)
    requires Shape(s) && Enabled(s, Deliver(c, k))
    ensures Shape(Apply(s, Deliver(c, k)))
  {
    var s' := Apply(s, Deliver(c, k));
    assert ConsumerInv(s, c);
    assert s.consumers[c].wire == [];
    forall j | j in s'.copies ensures CopyInv(s', j) {
      assert CopyInv(s, j);
    }
    forall d | d in s'.consumers ensures ConsumerInv(s', d) {
      assert ConsumerInv(s, d);
    }
  }

  lemma DeliverInv(s: State, c: nat, k: nat)
    requires Inv(s) && Enabled(s, Deliver(c, k))
    ensures Inv(Apply(s, Deliver(c, k)))
  {
    DeliverShape(s, c, k);
    forall m | m in s.keys ensures MessageInv(Apply(s, Deliver(c, k)), m) {
      DeliverMessage(s, c, k, m);
    }
  }

  lemma DeliverMessage(s: State, c: nat, k: nat, m: nat)
    requires Inv(s) && Enabled(s, Deliver(c, k)) && m in s.keys
    ensures MessageInv(Apply(s, Deliver(c, k)), m)
  {
    assert ConsumerInv(s, c) && s.consumers[c].wire == [];
    assert MessageInv(s, m);
    forall d | d in s.consumers ensures ConsumerInv(s, d) {
    }
    MessagesKept(s, Apply(s, Deliver(c, k)), m);
  }

  lemma JoinInv(s: State, c: nat)
    requires Inv(s) && Enabled(s, Join(c))
    ensures Inv(Apply(s, Join(c)))
  {
    var s' := Apply(s, Join(c));
    forall m | m in s'.keys ensures MessageInv(s', m) {
      assert MessageInv(s, m);
      MessagesKept(s, s', m);
    }
    OnlyConsumerInv(s, s', c);
  }

  lemma DispatchInv(s: State, c: nat, ok: bool)
    requires Inv(s) && Enabled(s, Dispatch(c, ok))
    ensures Inv(Apply(s, Dispatch(c, ok)))
  {
    var s' := Apply(s, Dispatch(c, ok));
    assert ConsumerInv(s, c) && CopyInv(s, s.consumers[c].work.value.copy);
    forall m | m in s'.keys ensures MessageInv(s', m) {
      assert MessageInv(s, m);
      MessagesKept(s, s', m);
    }
    OnlyConsumerInv(s, s', c);
  }

  lemma RepublishInv(s: State, c: nat)
    requires Inv(s) && Enabled(s, Republish(c))
    ensures Inv(Apply(s, Republish(c)))
  {
    var s' := Apply(s, Republish(c));
    var k := s.consumers[c].work.value.copy;
    assert ConsumerInv(s, c);
    assert s'.consumers[c].wire == [Publish(k)];
    forall m | m in s'.keys ensures MessageInv(s', m) {
      assert MessageInv(s, m);
      if m == s.copies[k].message {
        assert Carries(s', c, m);
      } else {
        MessagesKept(s, s', m);
      }
    }
    OnlyConsumerInv(s, s', c);
  }

  lemma RepublishFailsInv(s: State, c: nat, sentAnyway: bool)
    requires Inv(s) && Enabled(s, RepublishFails(c, sentAnyway))
    ensures Inv(Apply(s, RepublishFails(c, sentAnyway)))
  {
    var s' := Apply(s, RepublishFails(c, sentAnyway));
    var x := s.consumers[c];
    var k := x.work.value.copy;
    assert ConsumerInv(s, c) && x.wire == [];
    assert x.work.value.live ==>
      s'.consumers[c].wire == if sentAnyway then [Publish(k), NackRequeue(k)] else [NackRequeue(k)];
    forall m | m in s'.keys ensures MessageInv(s', m) {
      assert MessageInv(s, m);
      MessagesKept(s, s', m);
    }
    OnlyConsumerInv(s, s', c);
  }

  lemma AnswerConsumer(s: State, c: nat)
    requires Inv(s) && Enabled(s, Answer(c))
    ensures ConsumerInv(Apply(s, Answer(c)), c)
  {
    var x := s.consumers[c];
    assert ConsumerInv(s, c);
    var reply := if x.work.value.phase == Failed then NackDead(x.work.value.copy) else Ack(x.work.value.copy);
    assert x.work.value.live ==> Apply(s, Answer(c)).consumers[c].wire == x.wire + [reply];
  }

  lemma AnswerInv(s: State, c: nat)
    requires Inv(s) && Enabled(s, Answer(c))
    ensures Inv(Apply(s, Answer(c)))
  {
    var s' := Apply(s, Answer(c));
    AnswerConsumer(s, c);
    forall m | m in s'.keys ensures MessageInv(s', m) {
      AnswerMessage(s, c, m);
    }
    OnlyConsumerInv(s, s', c);
  }

  lemma AnswerMessage(s: State, c: nat, m: nat)
    requires Inv(s) && Enabled(s, Answer(c)) && m in s.keys
    ensures MessageInv(Apply(s, Answer(c)), m)
  {
    assert MessageInv(s, m) && ConsumerInv(s, c);
    if m !in s.handled {
      forall d | d in s.consumers ensures ConsumerInv(s, d) {
      }
      MessagesKept(s, Apply(s, Answer(c)), m);
    }
  }

  lemma BrokerTakesRetry(s: State, c: nat, newId: nat)
    requires Inv(s) && Enabled(s, BrokerReads(c, newId)) && s.consumers[c].wire[0].Publish?
    ensures Shape(Apply(s, BrokerReads(c, newId)))
  {
    var s' := Apply(s, BrokerReads(c, newId));
    var k := s.consumers[c].wire[0].copy;
    assert ConsumerInv(s, c) && CopyInv(s, k);
    forall j | j in s'.copies ensures CopyInv(s', j) {
      assert j in s.copies ==> CopyInv(s, j);
    }
    forall d | d in s'.consumers ensures ConsumerInv(s', d) {
      assert ConsumerInv(s, d);
    }
  }

  /** A consumer with nothing left to do lets go of the copy it held. */
  lemma LetGoShape(s: State, c: nat, k: nat, place: Place)
    requires Shape(s) && c in s.consumers && s.consumers[c].work.None?
    requires k in s.copies && s.copies[k].place == Held(c) && !place.Held?
    ensures Shape(MoveTo(Put(s, c, s.consumers[c].(wire := [])), k, place))
  {
    var s' := MoveTo(Put(s, c, s.consumers[c].(wire := [])), k, place);
    assert ConsumerInv(s, c);
    forall j | j in s'.copies ensures CopyInv(s', j) {
      assert CopyInv(s, j);
    }
    forall d | d in s'.consumers ensures ConsumerInv(s', d) {
      assert ConsumerInv(s, d);
    }
  }

  lemma BrokerTakesAnswer(s: State, c: nat, newId: nat)
    requires Inv(s) && Enabled(s, BrokerReads(c, newId)) && !s.consumers[c].wire[0].Publish?
    ensures Shape(Apply(s, BrokerReads(c, newId)))
  {
    var x := s.consumers[c];
    assert ConsumerInv(s, c);
    assert x.wire[1..] == [];
    var place := match x.wire[0]
                 case Ack(_) => Removed
                 case NackDead(_) => DeadLettered
                 case _ => Queued;
    assert Apply(s, BrokerReads(c, newId)) == MoveTo(Put(s, c, x.(wire := [])), x.wire[0].copy, place);
    LetGoShape(s, c, x.wire[0].copy, place);
  }

  lemma BrokerReadsInv(s: State, c: nat, newId: nat)
    requires Inv(s) && Enabled(s, BrokerReads(c, newId))
    ensures Inv(Apply(s, BrokerReads(c, newId)))
  {
    if s.consumers[c].wire[0].Publish? {
      BrokerTakesRetry(s, c, newId);
    } else {
      BrokerTakesAnswer(s, c, newId);
    }
    forall m | m in s.keys ensures MessageInv(Apply(s, BrokerReads(c, newId)), m) {
      BrokerReadsMessage(s, c, newId, m);
    }
  }

  lemma BrokerReadsMessage(s: State, c: nat, newId: nat, m: nat)
    requires Inv(s) && Enabled(s, BrokerReads(c, newId)) && m in s.keys
    ensures MessageInv(Apply(s, BrokerReads(c, newId)), m)
  {
    var s' := Apply(s, BrokerReads(c, newId));
    var x := s.consumers[c];
    var k := x.wire[0].copy;
    assert ConsumerInv(s, c) && MessageInv(s, m);
    if x.wire[0].Publish? && s.copies[k].message == m {
      RetryIsCopy(s, c, newId);
    } else if m in s.handled {
    } else if HasCopy(s, m) {
      BrokerReadsKeepsCopy(s, c, newId, m);
    } else {
      var d :| Carries(s, d, m);
      assert Carries(s', d, m);
    }
  }

  lemma RetryIsCopy(s: State, c: nat, newId: nat)
    requires Inv(s) && Enabled(s, BrokerReads(c, newId)) && s.consumers[c].wire[0].Publish?
    ensures HasCopy(Apply(s, BrokerReads(c, newId)), s.copies[s.consumers[c].wire[0].copy].message)
  {
    var s' := Apply(s, BrokerReads(c, newId));
    assert s'.copies[newId].message == s.copies[s.consumers[c].wire[0].copy].message && !Doomed(s', newId);
  }

  lemma BrokerReadsKeepsCopy(s: State, c: nat, newId: nat, m: nat)
    requires Inv(s) && Enabled(s, BrokerReads(c, newId)) && HasCopy(s, m)
    ensures HasCopy(Apply(s, BrokerReads(c, newId)), m)
  {
    var k := s.consumers[c].wire[0].copy;
    assert ConsumerInv(s, c);
    var j :| j in s.copies && s.copies[j].message == m && s.copies[j].place != Removed && !Doomed(s, j);
    assert s.consumers[c].wire[0] == Ack(k) ==> Doomed(s, k);
    assert !Doomed(Apply(s, BrokerReads(c, newId)), j);
  }

  lemma LoseConnectionShape(s: State, c: nat, crash: bool)
    requires Shape(s) && Enabled(s, LoseConnection(c, crash))
    ensures Shape(Apply(s, LoseConnection(c, crash)))
  {
    var s' := Apply(s, LoseConnection(c, crash));
    assert ConsumerInv(s, c);
    forall j | j in s'.copies ensures CopyInv(s', j) {
      assert CopyInv(s, j);
    }
    forall d | d in s'.consumers ensures ConsumerInv(s', d) {
      assert ConsumerInv(s, d);
    }
  }

  lemma LoseConnectionInv(s: State, c: nat, crash: bool)
    requires Inv(s) && Enabled(s, LoseConnection(c, crash))
    ensures Inv(Apply(s, LoseConnection(c, crash)))
  {
    LoseConnectionShape(s, c, crash);
    forall m | m in s.keys ensures MessageInv(Apply(s, LoseConnection(c, crash)), m) {
      LoseConnectionMessage(s, c, crash, m);
    }
  }

  lemma LoseConnectionMessage(s: State, c: nat, crash: bool, m: nat)
    requires Inv(s) && Enabled(s, LoseConnection(c, crash)) && m in s.keys
    ensures MessageInv(Apply(s, LoseConnection(c, crash)), m)
  {
    var s' := Apply(s, LoseConnection(c, crash));
    assert ConsumerInv(s, c) && MessageInv(s, m);
    if m in s.handled {
    } else if HasCopy(s, m) {
      var j :| j in s.copies && s.copies[j].message == m && s.copies[j].place != Removed && !Doomed(s, j);
      assert !Doomed(s', j);
    } else {
      var d :| Carries(s, d, m);
      if d == c {
        var k := s.consumers[c].wire[0].copy;
        assert s'.copies[k].place == Queued && !Doomed(s', k);
      } else {
        assert Carries(s', d, m);
      }
    }
  }

  lemma ReconnectInv(s: State, c: nat)
    requires Inv(s) && Enabled(s, Reconnect(c))
    ensures Inv(Apply(s, Reconnect(c)))
  {
    var s' := Apply(s, Reconnect(c));
    assert ConsumerInv(s, c);
    forall j | j in s'.copies ensures CopyInv(s', j) {
      assert CopyInv(s, j);
    }
    forall d | d in s'.consumers ensures ConsumerInv(s', d) {
      assert ConsumerInv(s, d);
    }
    forall m | m in s'.keys ensures MessageInv(s', m) {
      assert MessageInv(s, m);
      MessagesKept(s, s', m);
    }
  }

  lemma StepInv(s: State, step: Step)
    requires Inv(s) && Enabled(s, step)
    ensures Inv(Apply(s, step))
  {
    match step
    case Produce(m, k, key) => ProduceInv(s, m, k, key);
    case Join(c) => JoinInv(s, c);
    case Deliver(c, k) => DeliverInv(s, c, k);
    case Dispatch(c, ok) => DispatchInv(s, c, ok);
    case Republish(c) => RepublishInv(s, c);
    case RepublishFails(c, sentAnyway) => RepublishFailsInv(s, c, sentAnyway);
    case Answer(c) => AnswerInv(s, c);
    case BrokerReads(c, k) => BrokerReadsInv(s, c, k);
    case LoseConnection(c, crash) => LoseConnectionInv(s, c, crash);
    case Reconnect(c) => ReconnectInv(s, c);
  }

  lemma {:induction false} RunInv(trace: seq<State>, i: nat)
    requires Run(trace) && i < |trace|
    ensures Inv(trace[i])
  {
    if i > 0 {
      RunInv(trace, i - 1);
      assert Next(trace[i - 1], trace[i - 1 + 1]);
      var step :| Enabled(trace[i - 1], step) && trace[i] == Apply(trace[i - 1], step);
      StepInv(trace[i - 1], step);
    }
  }

  // ---- the theorems ----

  /**
  No message is lost: in every run, whatever handlers, republishing and connections do, each
  message has been handled successfully or has a copy in the queue, unacknowledged at a
  consumer, or in the dead-letter queue.
  */
  lemma Conservation(trace: seq<State>, i: nat, m: nat)
    requires Run(trace) && i < |trace| && m in trace[i].keys
    ensures m in trace[i].handled
         || exists k :: k in trace[i].copies && trace[i].copies[k].message == m && trace[i].copies[k].place != Removed
  {
    RunInv(trace, i);
    var s := trace[i];
    assert MessageInv(s, m);
    if m !in s.handled && OnWire(s, m) {
      var c :| Carries(s, c, m);
      assert ConsumerInv(s, c);
    }
  }

  /** However often it was republished, a copy keeps its retry count in 0..3 and its original event name. */
  lemma CopiesStayWellMarked(trace: seq<State>, i: nat, k: nat)
    requires Run(trace) && i < |trace| && k in trace[i].copies
    ensures 0 <= RetryCount(trace[i].copies[k]) <= MAX_RETRY_ATTEMPTS
    ensures trace[i].copies[k].message in trace[i].keys
    ensures EventName(trace[i].copies[k]) == trace[i].keys[trace[i].copies[k].message]
  {
    RunInv(trace, i);
    assert CopyInv(trace[i], k);
    BoundKeysNotEmpty(trace[i].keys[trace[i].copies[k].message]);
  }

  lemma BoundKeysNotEmpty(key: string)
    requires key in BOUND_KEYS
    ensures key != ""
  {
  }
}
