/**
One batch: the dispatch loop, its semaphore and wait group, and one goroutine per event.

The loop takes an event, checks for cancellation, adds to the wait group, takes a semaphore
token (waiting for one) and starts a goroutine.  On cancellation it releases the rest of the
batch instead.  A goroutine checks for cancellation again, handles its event unless it saw it,
gives the token back and then leaves the wait group.  Cancellation may come at any moment.
*/
module BatchDispatch {

  datatype Loop =
    | Checking
    | Acquiring               // wait group entered for event `next`, token not yet taken
    | Releasing(at: nat)
    | Waiting
    | Returned

  datatype Goroutine =
    | NotStarted
    | Started                 // holds a token, has not looked at the context yet
    | Handling                // holds a token
    | Leaving(handled: bool)  // holds a token
    | TokenBack(handled: bool)
    | Done(handled: bool)

  datatype State = State(
    concurrency: nat,
    cancelled: bool,
    loop: Loop,
    next: nat,
    tokens: nat,
    group: nat,
    work: seq<Goroutine>,
    // how often each event was handled, and how often it was released
    handled: seq<nat>,
    released: seq<nat>)

  datatype Step =
    | Cancel
    | Check
    | Acquire
    | ReleaseOne
    | Return
    | Look(k: nat)
    | Handle(k: nat)
    | GiveBack(k: nat)
    | Leave(k: nat)

  function Init(batch: nat, concurrency: nat): State {
    State(concurrency, false, Checking, 0, 0, 0,
          seq(batch, _ => NotStarted), seq(batch, _ => 0), seq(batch, _ => 0))
  }

  predicate Enabled(s: State, step: Step) {
    match step
    case Cancel => true
    case Check => s.loop == Checking
    case Acquire => s.loop == Acquiring && s.tokens < s.concurrency && s.next < |s.work|
    case ReleaseOne => s.loop.Releasing?
    case Return => s.loop == Waiting && s.group == 0
    case Look(k) => k < |s.work| && s.work[k] == Started
    case Handle(k) => k < |s.work| && s.work[k] == Handling && k < |s.handled|
    case GiveBack(k) => k < |s.work| && s.work[k].Leaving? && s.tokens > 0
    case Leave(k) => k < |s.work| && s.work[k].TokenBack? && s.group > 0
  }

  function Apply(s: State, step: Step): State
    requires Enabled(s, step)
  {
    match step
    case Cancel => s.(cancelled := true)
    case Check =>
      if s.next >= |s.work| then s.(loop := Waiting)
      else if s.cancelled then s.(loop := Releasing(s.next))
      else s.(loop := Acquiring, group := s.group + 1)
    case Acquire =>
      s.(loop := Checking, next := s.next + 1, tokens := s.tokens + 1, work := s.work[s.next := Started])
    case ReleaseOne =>
      if s.loop.at < |s.released| then
        s.(loop := Releasing(s.loop.at + 1), released := s.released[s.loop.at := s.released[s.loop.at] + 1])
      else s.(loop := Waiting)
    case Return => s.(loop := Returned)
    case Look(k) => s.(work := s.work[k := if s.cancelled then Leaving(false) else Handling])
    case Handle(k) => s.(work := s.work[k := Leaving(true)], handled := s.handled[k := s.handled[k] + 1])
    case GiveBack(k) => s.(work := s.work[k := TokenBack(s.work[k].handled)], tokens := s.tokens - 1)
    case Leave(k) => s.(work := s.work[k := Done(s.work[k].handled)], group := s.group - 1)
  }

  ghost predicate Next(s: State, s': State) {
    exists step :: Enabled(s, step) && s' == Apply(s, step)
  }

  ghost predicate Run(trace: seq<State>) {
    && |trace| > 0
    && trace[0] == Init(|trace[0].work|, trace[0].concurrency)
    && forall i :: 0 <= i < |trace| - 1 ==> Next(trace[i], trace[i + 1])
  }

  // ---- the invariant ----

  predicate HoldsToken(g: Goroutine) {
    g.Started? || g.Handling? || g.Leaving?
  }

  predicate InGroup(g: Goroutine) {
    HoldsToken(g) || g.TokenBack?
  }

  function Holders(work: seq<Goroutine>): nat {
    if work == [] then 0 else Holders(work[..|work| - 1]) + if HoldsToken(work[|work| - 1]) then 1 else 0
  }

  function Members(work: seq<Goroutine>): nat {
    if work == [] then 0 else Members(work[..|work| - 1]) + if InGroup(work[|work| - 1]) then 1 else 0
  }

  function WasHandled(g: Goroutine): bool {
    match g
    case Leaving(h) => h
    case TokenBack(h) => h
    case Done(h) => h
    case _ => false
  }

  /** The first event that the loop releases instead of dispatching, so far. */
  function ReleasedUpTo(s: State): nat {
    if s.loop.Releasing? then s.loop.at else if s.loop == Waiting || s.loop == Returned then |s.work| else s.next
  }

  ghost predicate EventInv(s: State, k: nat)
    requires k < |s.work| == |s.handled| == |s.released|
  {
    && (s.work[k] == NotStarted <==> k >= s.next)
    && s.handled[k] == (if WasHandled(s.work[k]) then 1 else 0)
    && s.released[k] == (if s.next <= k < ReleasedUpTo(s) then 1 else 0)
    && ((s.work[k] == Leaving(false) || s.work[k] == TokenBack(false) || s.work[k] == Done(false)) ==> s.cancelled)
  }

  ghost predicate Inv(s: State) {
    && |s.work| == |s.handled| == |s.released|
    && s.next <= ReleasedUpTo(s) <= |s.work|
    && (s.loop == Acquiring ==> s.next < |s.work|)
    && (s.next < ReleasedUpTo(s) || s.loop.Releasing? ==> s.cancelled)
    && s.tokens == Holders(s.work) <= s.concurrency
    && s.group == Members(s.work) + (if s.loop == Acquiring then 1 else 0)
    && (s.loop == Returned ==> s.group == 0)
    && forall k :: 0 <= k < |s.work| ==> EventInv(s, k)
  }

  lemma {:induction false} CountsAfter(work: seq<Goroutine>, k: nat, g: Goroutine)
    requires k < |work|
    ensures Holders(work[k := g]) - Holders(work)
         == (if HoldsToken(g) then 1 else 0) - (if HoldsToken(work[k]) then 1 else 0)
    ensures Members(work[k := g]) - Members(work)
         == (if InGroup(g) then 1 else 0) - (if InGroup(work[k]) then 1 else 0)
  {
    var last := |work| - 1;
    if k == last {
      assert work[k := g][..last] == work[..last];
    } else {
      CountsAfter(work[..last], k, g);
      assert work[k := g][..last] == work[..last][k := g];
    }
  }

  lemma {:induction false} CountsOfNone(n: nat)
    ensures Holders(seq(n, _ => NotStarted)) == 0 && Members(seq(n, _ => NotStarted)) == 0
  {
    if n > 0 {
      CountsOfNone(n - 1);
      assert seq(n, _ => NotStarted)[..n - 1] == seq(n - 1, _ => NotStarted);
    }
  }

  lemma {:induction false} HoldersAtMostMembers(work: seq<Goroutine>)
    ensures Holders(work) <= Members(work)
    ensures Members(work) == 0 ==> forall k :: 0 <= k < |work| ==> !InGroup(work[k])
  {
    if work != [] {
      HoldersAtMostMembers(work[..|work| - 1]);
    }
  }

  lemma InitInv(batch: nat, concurrency: nat)
    ensures Inv(Init(batch, concurrency))
  {
    CountsOfNone(batch);
  }

  lemma GoroutineStepInv(s: State, step: Step)
    requires Inv(s) && Enabled(s, step)
    requires step.Look? || step.Handle? || step.GiveBack? || step.Leave?
    ensures Inv(Apply(s, step))
  {
    var s' := Apply(s, step);
    assert EventInv(s, step.k);
    CountsAfter(s.work, step.k, s'.work[step.k]);
    forall k | 0 <= k < |s'.work| ensures EventInv(s', k) {
      GoroutineStepEvent(s, step, k);
    }
  }

  lemma GoroutineStepEvent(s: State, step: Step, k: nat)
    requires Inv(s) && Enabled(s, step) && k < |s.work|
    requires step.Look? || step.Handle? || step.GiveBack? || step.Leave?
    ensures EventInv(Apply(s, step), k)
  {
    assert EventInv(s, k);
  }

  lemma LoopStepInv(s: State, step: Step)
    requires Inv(s) && Enabled(s, step)
    requires !(step.Look? || step.Handle? || step.GiveBack? || step.Leave?)
    ensures Inv(Apply(s, step))
  {
    var s' := Apply(s, step);
    if step == Acquire {
      assert EventInv(s, s.next);
      CountsAfter(s.work, s.next, Started);
    }
    forall k | 0 <= k < |s'.work| ensures EventInv(s', k) {
      assert EventInv(s, k);
    }
  }

  lemma {:induction false} RunInv(trace: seq<State>, i: nat)
    requires Run(trace) && i < |trace|
    ensures Inv(trace[i])
    ensures |trace[i].work| == |trace[0].work| && trace[i].concurrency == trace[0].concurrency
  {
    if i == 0 {
      InitInv(|trace[0].work|, trace[0].concurrency);
    } else {
      RunInv(trace, i - 1);
      var s := trace[i - 1];
      assert Next(trace[i - 1], trace[i - 1 + 1]);
      var step :| Enabled(s, step) && trace[i] == Apply(s, step);
      if step.Look? || step.Handle? || step.GiveBack? || step.Leave? {
        GoroutineStepInv(s, step);
      } else {
        LoopStepInv(s, step);
      }
    }
  }

  // ---- the theorems ----

  /**
  At every moment of every batch: never more than `concurrency` goroutines between taking and
  returning a token; the released events start where dispatching stopped; no event is handled
  twice, released twice, or both.
  */
  lemma BatchSafety(trace: seq<State>, i: nat, k: nat)
    requires Run(trace) && i < |trace| && k < |trace[0].work|
    ensures k < |trace[i].handled| && k < |trace[i].released| && k < |trace[i].work|
    ensures Holders(trace[i].work) <= trace[i].concurrency
    ensures trace[i].handled[k] + trace[i].released[k] <= 1
    ensures trace[i].handled[k] > 0 ==> k < trace[i].next
    ensures trace[i].released[k] > 0 ==> k >= trace[i].next && trace[i].cancelled
  {
    RunInv(trace, i);
    assert EventInv(trace[i], k);
  }

  /**
  When the batch returns, some prefix was dispatched and exactly the rest was released.  A
  dispatched event was handled once, unless cancellation came first.  All tokens are back.
  */
  lemma BatchPartition(trace: seq<State>, i: nat)
    requires Run(trace) && i < |trace| && trace[i].loop == Returned
    ensures var s := trace[i];
            && s.tokens == 0 && s.group == 0
            && s.next <= |s.work| == |s.handled| == |s.released|
            && (forall k :: 0 <= k < s.next ==>
                  && s.released[k] == 0 && s.work[k].Done?
                  && (s.handled[k] == 1 || (s.handled[k] == 0 && s.cancelled)))
            && (forall k :: s.next <= k < |s.work| ==>
                  s.released[k] == 1 && s.handled[k] == 0 && s.work[k] == NotStarted)
            && (!s.cancelled ==> s.next == |s.work|)
  {
    RunInv(trace, i);
    var s := trace[i];
    HoldersAtMostMembers(s.work);
    forall k | 0 <= k < |s.work|
      ensures if k < s.next then s.released[k] == 0 && s.work[k].Done?
                              && (s.handled[k] == 1 || (s.handled[k] == 0 && s.cancelled))
              else s.released[k] == 1 && s.handled[k] == 0 && s.work[k] == NotStarted
    {
      assert EventInv(s, k) && !InGroup(s.work[k]);
    }
  }

  lemma GoroutineCanMove(s: State, k: nat)
    requires Inv(s) && k < |s.work| && InGroup(s.work[k])
    ensures Enabled(s, Look(k)) || Enabled(s, Handle(k)) || Enabled(s, GiveBack(k)) || Enabled(s, Leave(k))
  {
    SomeHolder(s.work, k);
  }

  /** The batch never deadlocks: until it has returned, some step other than cancellation is enabled. */
  lemma NeverDeadlocks(trace: seq<State>, i: nat)
    requires Run(trace) && i < |trace| && trace[i].loop != Returned && trace[i].concurrency >= 1
    ensures exists step :: step != Cancel && Enabled(trace[i], step)
  {
    RunInv(trace, i);
    var s := trace[i];
    if s.loop == Checking {
      assert Enabled(s, Check);
    } else if s.loop.Releasing? {
      assert Enabled(s, ReleaseOne);
    } else if s.loop == Acquiring && s.tokens < s.concurrency {
      assert Enabled(s, Acquire);
    } else if s.loop == Waiting && s.group == 0 {
      assert Enabled(s, Return);
    } else {
      HoldersAtMostMembers(s.work);
      var k := AMember(s.work);
      GoroutineCanMove(s, k);
    }
  }

  lemma {:induction false} AMember(work: seq<Goroutine>) returns (k: nat)
    requires Members(work) > 0
    ensures k < |work| && InGroup(work[k])
  {
    if InGroup(work[|work| - 1]) {
      k := |work| - 1;
    } else {
      k := AMember(work[..|work| - 1]);
    }
  }

  lemma {:induction false} SomeHolder(work: seq<Goroutine>, k: nat)
    requires k < |work|
    ensures HoldsToken(work[k]) ==> Holders(work) > 0
    ensures InGroup(work[k]) ==> Members(work) > 0
  {
    if k < |work| - 1 {
      SomeHolder(work[..|work| - 1], k);
    }
  }
}
