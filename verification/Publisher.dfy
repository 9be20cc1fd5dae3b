/**
Publishing with broker confirmations, many callers at once.

Publish starts a goroutine that takes the lock, makes sure the channel is open, sends the
message and reads one value from the confirms channel, whatever the caller does meanwhile; the
caller waits for the result or gives up.  The confirms channel holds one value.  The broker
delivers a confirmation only when that value has been read, and would block otherwise.  The
AMQP channel may close at any moment, and its confirms channel closes some time after; the
next sender to find it closed reconnects, which replaces both.

Assumption about the AMQP library: a send that returns an error has put no message on an open
channel.
*/
module Publisher {
  import opened Wrappers

  datatype Confirmation = Confirmation(tag: nat, ack: bool)

  datatype Goroutine =
    | NotStarted
    | WaitingForLock
    | Locked
    | Connected
    | Awaiting(tag: nat)
    | Finishing(ok: bool)     // publishLocked has returned, its result is not in the result channel yet
    | Unlocking
    | Finished

  datatype Caller =
    | Selecting
    | GaveUp                  // returned the context's error
    | Returned(ok: bool)

  datatype Call = Call(goroutine: Goroutine, result: Option<bool>, caller: Caller)

  const CAPACITY: nat := 1

  datatype State = State(
    calls: map<nat, Call>,
    holder: Option<nat>,
    // the current channel
    open: bool,
    confirmsClosed: bool,
    confirms: seq<Confirmation>,
    nextTag: nat,
    sender: map<nat, nat>,
    unconfirmed: set<nat>,
    // calls whose own message the broker has acknowledged
    acked: set<nat>)

  datatype Step =
    | Publish(call: nat, contextDone: bool)
    | GiveUp(call: nat)
    | Receive(call: nat)
    | Lock(call: nat)
    | EnsureConnected(call: nat, reconnects: bool)
    | Send(call: nat, fails: bool)
    | Read(call: nat)
    | ReadClosed(call: nat)
    | PutResult(call: nat)
    | Unlock(call: nat)
    | Confirm(tag: nat, ack: bool)
    | CloseChannel
    | CloseConfirms

  function Init(): State {
    State(map[], None, true, false, [], 0, map[], {}, {})
  }

  predicate At(s: State, call: nat, g: Goroutine) {
    call in s.calls && s.calls[call].goroutine == g
  }

  predicate IsAwaiting(s: State, call: nat) {
    call in s.calls && s.calls[call].goroutine.Awaiting?
  }

  predicate Enabled(s: State, step: Step) {
    match step
    case Publish(c, _) => c !in s.calls
    case GiveUp(c) => c in s.calls && s.calls[c].caller == Selecting
    case Receive(c) => c in s.calls && s.calls[c].caller == Selecting && s.calls[c].result.Some?
    case Lock(c) => At(s, c, WaitingForLock) && s.holder.None?
    case EnsureConnected(c, _) => At(s, c, Locked)
    case Send(c, fails) => At(s, c, Connected) && (!s.open ==> fails)
    case Read(c) => IsAwaiting(s, c) && s.confirms != []
    case ReadClosed(c) => IsAwaiting(s, c) && s.confirms == [] && s.confirmsClosed
    case PutResult(c) => c in s.calls && s.calls[c].goroutine.Finishing?
    case Unlock(c) => At(s, c, Unlocking)
    case Confirm(tag, _) =>
      !s.confirmsClosed && tag in s.unconfirmed && tag in s.sender && |s.confirms| < CAPACITY
    case CloseChannel => true
    case CloseConfirms => !s.open
  }

  function Move(s: State, c: nat, g: Goroutine): State
    requires c in s.calls
  {
    s.(calls := s.calls[c := s.calls[c].(goroutine := g)])
  }

  function Apply(s: State, step: Step): State
    requires Enabled(s, step)
  {
    match step
    case Publish(c, contextDone) =>
      s.(calls := s.calls[c := if contextDone then Call(NotStarted, None, GaveUp)
                               else Call(WaitingForLock, None, Selecting)])
    case GiveUp(c) => s.(calls := s.calls[c := s.calls[c].(caller := GaveUp)])
    case Receive(c) => s.(calls := s.calls[c := s.calls[c].(caller := Returned(s.calls[c].result.value))])
    case Lock(c) => Move(s, c, Locked).(holder := Some(c))
    case EnsureConnected(c, reconnects) =>
      if s.open then Move(s, c, Connected)
      else if reconnects then
        Move(s, c, Connected).(open := true, confirmsClosed := false, confirms := [],
                               nextTag := 0, sender := map[], unconfirmed := {})
      else Move(s, c, Finishing(false))
    case Send(c, fails) =>
      if fails then Move(s, c, Finishing(false))
      else Move(s, c, Awaiting(s.nextTag)).(nextTag := s.nextTag + 1,
                                            sender := s.sender[s.nextTag := c],
                                            unconfirmed := s.unconfirmed + {s.nextTag})
    // the reader takes whatever confirmation comes first; it does not look at the tag
    case Read(c) => Move(s, c, Finishing(s.confirms[0].ack)).(confirms := s.confirms[1..])
    case ReadClosed(c) => Move(s, c, Finishing(false))
    case PutResult(c) =>
      s.(calls := s.calls[c := Call(Unlocking, Some(s.calls[c].goroutine.ok), s.calls[c].caller)])
    case Unlock(c) => Move(s, c, Finished).(holder := None)
    case Confirm(tag, ack) =>
      s.(confirms := s.confirms + [Confirmation(tag, ack)],
         unconfirmed := s.unconfirmed - {tag},
         acked := if ack then s.acked + {s.sender[tag]} else s.acked)
    case CloseChannel => s.(open := false)
    // what was not confirmed by now never will be
    case CloseConfirms => s.(confirmsClosed := true, unconfirmed := {})
  }

  ghost predicate Next(s: State, s': State) {
    exists step :: Enabled(s, step) && s' == Apply(s, step)
  }

  ghost predicate Run(trace: seq<State>) {
    && |trace| > 0
    && trace[0] == Init()
    && forall i :: 0 <= i < |trace| - 1 ==> Next(trace[i], trace[i + 1])
  }

  // ---- the invariant ----

  predicate HoldsLock(g: Goroutine) {
    g.Locked? || g.Connected? || g.Awaiting? || g.Finishing? || g.Unlocking?
  }

  /** A message of the current channel whose confirmation has not been read yet. */
  predicate Unread(s: State, tag: nat) {
    tag in s.unconfirmed || exists i :: 0 <= i < |s.confirms| && s.confirms[i].tag == tag
  }

  ghost predicate CallInv(s: State, c: nat)
    requires c in s.calls
  {
    && (HoldsLock(s.calls[c].goroutine) <==> s.holder == Some(c))
    && (s.calls[c].goroutine == Finishing(true) ==> c in s.acked)
    && (s.calls[c].result == Some(true) ==> c in s.acked)
    && (s.calls[c].caller == Returned(true) ==> c in s.acked)
  }

  /** The message with this tag was sent by the holder of the lock, who is waiting for its confirmation. */
  ghost predicate OwnedByHolder(s: State, tag: nat) {
    && s.holder.Some? && s.holder.value in s.calls
    && s.calls[s.holder.value].goroutine == Awaiting(tag)
    && tag in s.sender && s.sender[tag] == s.holder.value
  }

  ghost predicate Inv(s: State) {
    && (forall c :: c in s.calls ==> CallInv(s, c))
    && (s.holder.Some? ==> s.holder.value in s.calls)
    && |s.confirms| <= CAPACITY
    && (s.unconfirmed != {} ==> s.confirms == [])
    && (s.confirmsClosed ==> !s.open && s.unconfirmed == {})
    && (forall tag :: tag in s.unconfirmed ==> OwnedByHolder(s, tag))
    && (forall i :: 0 <= i < |s.confirms| ==>
          && OwnedByHolder(s, s.confirms[i].tag)
          && (s.confirms[i].ack ==> s.sender[s.confirms[i].tag] in s.acked))
  }

  /** A holder that is not waiting for a confirmation has none outstanding. */
  lemma NothingOutstanding(s: State, c: nat)
    requires Inv(s) && s.holder == Some(c) && !s.calls[c].goroutine.Awaiting?
    ensures s.unconfirmed == {} && s.confirms == []
  {
    assert |s.confirms| > 0 ==> OwnedByHolder(s, s.confirms[0].tag);
  }

  lemma BrokerStepInv(s: State, step: Step)
    requires Inv(s) && Enabled(s, step)
    requires step.Confirm? || step.CloseChannel? || step.CloseConfirms?
    ensures Inv(Apply(s, step))
  {
    var s' := Apply(s, step);
    if step.Confirm? {
      assert OwnedByHolder(s, step.tag);
      forall t | t in s.unconfirmed ensures t == step.tag {
        assert OwnedByHolder(s, t);
      }
    }
    forall c | c in s'.calls ensures CallInv(s', c) {
      assert CallInv(s, c);
    }
  }

  lemma CallerStepInv(s: State, step: Step)
    requires Inv(s) && Enabled(s, step)
    requires step.Publish? || step.GiveUp? || step.Receive?
    ensures Inv(Apply(s, step))
  {
    var s' := Apply(s, step);
    forall c | c in s'.calls ensures CallInv(s', c) {
      assert c in s.calls ==> CallInv(s, c);
    }
    forall tag | OwnedByHolder(s, tag) ensures OwnedByHolder(s', tag) {
    }
  }

  lemma LockStepInv(s: State, step: Step)
    requires Inv(s) && Enabled(s, step)
    requires step.Lock? || step.PutResult? || step.Unlock?
    ensures Inv(Apply(s, step))
  {
    var s' := Apply(s, step);
    assert CallInv(s, step.call);
    if !step.Lock? {
      NothingOutstanding(s, step.call);
    }
    forall c | c in s'.calls ensures CallInv(s', c) {
      assert CallInv(s, c);
    }
  }

  lemma SendStepInv(s: State, step: Step)
    requires Inv(s) && Enabled(s, step)
    requires step.EnsureConnected? || step.Send?
    ensures Inv(Apply(s, step))
  {
    var s' := Apply(s, step);
    assert CallInv(s, step.call);
    NothingOutstanding(s, step.call);
    forall c | c in s'.calls ensures CallInv(s', c) {
      assert CallInv(s, c);
    }
  }

  lemma ReadStepInv(s: State, step: Step)
    requires Inv(s) && Enabled(s, step)
    requires step.Read? || step.ReadClosed?
    ensures Inv(Apply(s, step))
  {
    var s' := Apply(s, step);
    assert CallInv(s, step.call);
    if step.Read? {
      assert OwnedByHolder(s, s.confirms[0].tag);
    }
    forall c | c in s'.calls ensures CallInv(s', c) {
      assert CallInv(s, c);
    }
  }

  lemma StepInv(s: State, step: Step)
    requires Inv(s) && Enabled(s, step)
    ensures Inv(Apply(s, step))
  {
    match step {
      case Confirm(_, _) => BrokerStepInv(s, step);
      case CloseChannel => BrokerStepInv(s, step);
      case CloseConfirms => BrokerStepInv(s, step);
      case Publish(_, _) => CallerStepInv(s, step);
      case GiveUp(_) => CallerStepInv(s, step);
      case Receive(_) => CallerStepInv(s, step);
      case EnsureConnected(_, _) => SendStepInv(s, step);
      case Send(_, _) => SendStepInv(s, step);
      case Read(_) => ReadStepInv(s, step);
      case ReadClosed(_) => ReadStepInv(s, step);
      case _ => LockStepInv(s, step);
    }
  }

  lemma {:induction false} RunInv(trace: seq<State>, i: nat)
    requires Run(trace) && i < |trace|
    ensures Inv(trace[i])
  {
    if i > 0 {
      RunInv(trace, i - 1);
      assert Next(trace[i - 1], trace[i - 1 + 1]);
      var step :| Enabled(trace[i - 1], step) && trace[i] == Apply(trace[i - 1], step);
      StepInv(trace[i - 1], step);
    }
  }

  // ---- the theorems ----

  /**
  At most one message of the current channel has an unread confirmation, and only while its sender
  holds the lock.
  */
  lemma AtMostOneUnread(trace: seq<State>, i: nat, t: nat, u: nat)
    requires Run(trace) && i < |trace| && Unread(trace[i], t) && Unread(trace[i], u)
    ensures t == u
    ensures t in trace[i].sender && trace[i].holder == Some(trace[i].sender[t])
    ensures At(trace[i], trace[i].sender[t], Awaiting(t))
  {
    RunInv(trace, i);
    assert OwnedByHolder(trace[i], t) && OwnedByHolder(trace[i], u);
  }

  /** The broker is never blocked: whenever it has a confirmation to deliver, the buffer has room for it. */
  lemma BrokerNeverBlocks(trace: seq<State>, i: nat, tag: nat, ack: bool)
    requires Run(trace) && i < |trace| && tag in trace[i].unconfirmed && !trace[i].confirmsClosed
    ensures Enabled(trace[i], Confirm(tag, ack))
  {
    RunInv(trace, i);
    assert OwnedByHolder(trace[i], tag);
  }

  /** Success means that the broker acknowledged this caller's own message. */
  lemma SuccessIsOwnAck(trace: seq<State>, i: nat, c: nat)
    requires Run(trace) && i < |trace| && c in trace[i].calls && trace[i].calls[c].caller == Returned(true)
    ensures c in trace[i].acked
  {
    RunInv(trace, i);
    assert CallInv(trace[i], c);
  }

  /** At most one goroutine is between taking and releasing the lock. */
  lemma LockIsExclusive(trace: seq<State>, i: nat, c: nat, d: nat)
    requires Run(trace) && i < |trace| && c in trace[i].calls && d in trace[i].calls
    requires HoldsLock(trace[i].calls[c].goroutine) && HoldsLock(trace[i].calls[d].goroutine)
    ensures c == d
  {
    RunInv(trace, i);
    assert CallInv(trace[i], c) && CallInv(trace[i], d);
  }

  /** What a goroutine that holds the lock does next, if it needs nobody else for it. */
  function OwnStep(s: State, c: nat): Option<Step>
    requires c in s.calls
  {
    match s.calls[c].goroutine
    case Locked => Some(EnsureConnected(c, true))
    case Connected => Some(Send(c, true))
    case Awaiting(_) => if s.confirms != [] then Some(Read(c)) else if s.confirmsClosed then Some(ReadClosed(c)) else None
    case Finishing(_) => Some(PutResult(c))
    case Unlocking => Some(Unlock(c))
    case _ => None
  }

  lemma OwnStepEnabled(s: State, c: nat)
    requires c in s.calls && HoldsLock(s.calls[c].goroutine)
    ensures var next := OwnStep(s, c);
            if next.Some? then Enabled(s, next.value)
            else IsAwaiting(s, c) && s.confirms == [] && !s.confirmsClosed
  {
  }

  /**
  A goroutine that holds the lock can go on by itself, except while it waits for a confirmation
  on a channel that is not closed; whether its caller has given up makes no difference.
  */
  lemma HolderNotStuck(trace: seq<State>, i: nat, c: nat)
    requires Run(trace) && i < |trace| && trace[i].holder == Some(c)
    ensures c in trace[i].calls
    ensures var next := OwnStep(trace[i], c);
            if next.Some? then Enabled(trace[i], next.value)
            else IsAwaiting(trace[i], c) && trace[i].confirms == [] && !trace[i].confirmsClosed
  {
    RunInv(trace, i);
    OwnStepEnabled(trace[i], c);
  }
}
