/**
The same protocol when nothing goes wrong on the workers' side: no task is lost or cancelled,
and no lease runs out while its task is still in flight.  Relay calls may fail as they like.
*/
module OutboxProgress {
  import opened Wrappers
  import opened Backoff
  import opened OutboxTable
  import opened OutboxProtocol

  /** Every outcome is recorded within its lease: no claim starts after a lease that is still in use has run out. */
  ghost predicate Timely(s: State, step: Step) {
    match step
    case Lose(_) => false
    case ReleaseUnprocessed(_, _) => false
    case BeginClaim(_, now, _, _) =>
      forall k :: k in s.tasks && k.row in s.rows && s.rows[k.row].lockedUntil.Some? ==>
        now <= s.rows[k.row].lockedUntil.value
    case _ => true
  }

  ghost predicate TimelyNext(s: State, s': State) {
    exists step :: Enabled(s, step) && Timely(s, step) && s' == Apply(s, step)
  }

  ghost predicate TimelyRun(trace: seq<State>) {
    && |trace| > 0
    && trace[0] == Init(trace[0].maxRetries)
    && forall i :: 0 <= i < |trace| - 1 ==> TimelyNext(trace[i], trace[i + 1])
  }

  /** The number of claims a row can get: at least one, whatever MaxRetries says. */
  function Budget(maxRetries: int): nat {
    Max(1, maxRetries)
  }

  predicate AllFailed(outcomes: seq<bool>) {
    true !in outcomes
  }

  ghost predicate InFlight(s: State, id: nat) {
    exists k :: k in s.tasks && k.row == id
  }

  // ---- the invariant ----

  ghost predicate Settled(r: Row, outcomes: seq<bool>, budget: nat) {
    && r.attempts <= budget
    && match r.status
       case Pending => |outcomes| == r.attempts < budget && AllFailed(outcomes)
       case Processing => true
       case Processed => |outcomes| == r.attempts >= 1 && outcomes[r.attempts - 1] && AllFailed(outcomes[..r.attempts - 1])
       case Failed => |outcomes| == r.attempts == budget && AllFailed(outcomes)
  }

  ghost predicate Working(r: Row, outcomes: seq<bool>, phase: Phase) {
    && r.status == Processing && r.attempts >= 1
    && match phase
       case Fetched => |outcomes| == r.attempts - 1 && AllFailed(outcomes)
       case Relayed(ok) => |outcomes| == r.attempts && outcomes[r.attempts - 1] == ok && AllFailed(outcomes[..r.attempts - 1])
  }

  ghost predicate RowOk(s: State, id: nat)
    requires id in s.rows && id in s.outcomes
  {
    && Settled(s.rows[id], s.outcomes[id], Budget(s.maxRetries))
    && (s.rows[id].status == Processing ==> TaskKey(id, s.rows[id].attempts) in s.tasks)
  }

  ghost predicate TaskOk(s: State, k: TaskKey)
    requires k in s.tasks
  {
    && k.row in s.rows && k.row in s.outcomes
    && k.attempts == s.rows[k.row].attempts
    && Working(s.rows[k.row], s.outcomes[k.row], s.tasks[k])
  }

  ghost predicate TxnOk(s: State, tx: nat)
    requires tx in s.txns
  {
    forall id :: id in s.txns[tx].rows ==> id in s.rows && s.rows[id].status == Pending
  }

  ghost predicate TimelyInv(s: State) {
    && s.outcomes.Keys == s.rows.Keys
    && (forall id :: id in s.rows ==> RowOk(s, id))
    && (forall k :: k in s.tasks ==> TaskOk(s, k))
    && (forall tx :: tx in s.txns ==> TxnOk(s, tx))
    && (forall tx, ty :: tx in s.txns && ty in s.txns && tx != ty ==> s.txns[tx].rows !! s.txns[ty].rows)
  }

  lemma BeginClaimTimely(s: State, step: Step)
    requires TimelyInv(s) && Enabled(s, step) && Timely(s, step) && step.BeginClaim?
    ensures TimelyInv(Apply(s, step))
  {
    var s' := Apply(s, step);
    forall id | id in step.chosen ensures id in s.rows && s.rows[id].status == Pending {
      assert RowOk(s, id);
    }
    forall id | id in s'.rows ensures RowOk(s', id) {
      assert RowOk(s, id);
    }
    forall k | k in s'.tasks ensures TaskOk(s', k) {
      assert TaskOk(s, k);
    }
    forall ty | ty in s'.txns ensures TxnOk(s', ty) {
      assert ty in s.txns ==> TxnOk(s, ty);
    }
    forall ty | ty in s.txns ensures s.txns[ty].rows !! step.chosen {
      assert forall id :: id in step.chosen ==> !Locked(s, id);
    }
  }

  lemma CommitClaimTask(s: State, tx: nat, k: TaskKey)
    requires TimelyInv(s) && Enabled(s, CommitClaim(tx)) && k in Apply(s, CommitClaim(tx)).tasks
    ensures TaskOk(Apply(s, CommitClaim(tx)), k)
  {
    var s' := Apply(s, CommitClaim(tx));
    assert TxnOk(s, tx);
    if k !in NewTasks(s'.rows, s.txns[tx].rows) {
      assert TaskOk(s, k);
    } else {
      assert RowOk(s, k.row);
    }
  }

  lemma CommitClaimRow(s: State, tx: nat, id: nat)
    requires TimelyInv(s) && Enabled(s, CommitClaim(tx)) && id in s.rows
    ensures RowOk(Apply(s, CommitClaim(tx)), id)
  {
    var s' := Apply(s, CommitClaim(tx));
    assert TxnOk(s, tx) && RowOk(s, id);
    if id in s.txns[tx].rows {
      assert TaskKey(id, s'.rows[id].attempts) in NewTasks(s'.rows, s.txns[tx].rows);
    }
  }

  lemma CommitClaimTxn(s: State, tx: nat, ty: nat)
    requires TimelyInv(s) && Enabled(s, CommitClaim(tx)) && ty in Apply(s, CommitClaim(tx)).txns
    ensures TxnOk(Apply(s, CommitClaim(tx)), ty)
  {
    assert TxnOk(s, ty) && s.txns[tx].rows !! s.txns[ty].rows;
  }

  lemma CommitClaimTimely(s: State, tx: nat)
    requires TimelyInv(s) && Enabled(s, CommitClaim(tx))
    ensures TimelyInv(Apply(s, CommitClaim(tx)))
  {
    var s' := Apply(s, CommitClaim(tx));
    forall k | k in s'.tasks ensures TaskOk(s', k) {
      CommitClaimTask(s, tx, k);
    }
    forall id | id in s'.rows ensures RowOk(s', id) {
      CommitClaimRow(s, tx, id);
    }
    forall ty | ty in s'.txns ensures TxnOk(s', ty) {
      CommitClaimTxn(s, tx, ty);
    }
  }

  /** s' differs from s only in what concerns one row with a task. */
  ghost predicate OnlyTask(s: State, s': State, key: TaskKey) {
    && key in s.tasks && key.row in s.rows
    && s'.maxRetries == s.maxRetries && s'.txns == s.txns
    && s'.rows.Keys == s.rows.Keys && s'.outcomes.Keys == s.outcomes.Keys
    && (forall id :: id in s.rows && id != key.row ==> s'.rows[id] == s.rows[id])
    && (forall id :: id in s.outcomes && id != key.row ==> s'.outcomes[id] == s.outcomes[id])
    && (forall k :: k != key ==> (k in s.tasks <==> k in s'.tasks))
    && (forall k :: k in s.tasks && k != key ==> s'.tasks[k] == s.tasks[k])
  }

  lemma OnlyTaskTimely(s: State, s': State, key: TaskKey)
    requires TimelyInv(s) && OnlyTask(s, s', key) && key.row in s'.outcomes
    requires RowOk(s', key.row) && (key in s'.tasks ==> TaskOk(s', key))
    ensures TimelyInv(s')
  {
    assert TaskOk(s, key);
    forall id | id in s'.rows ensures RowOk(s', id) {
      assert RowOk(s, id);
    }
    forall k | k in s'.tasks ensures TaskOk(s', k) {
      assert k != key ==> TaskOk(s, k);
    }
    forall tx | tx in s'.txns ensures TxnOk(s', tx) {
      assert TxnOk(s, tx);
    }
  }

  lemma RelayTimely(s: State, key: TaskKey, ok: bool)
    requires TimelyInv(s) && Enabled(s, Relay(key, ok))
    ensures TimelyInv(Apply(s, Relay(key, ok)))
  {
    var o := s.outcomes[key.row];
    assert (o + [ok])[..|o|] == o;
    assert TaskOk(s, key) && RowOk(s, key.row);
    OnlyTaskTimely(s, Apply(s, Relay(key, ok)), key);
  }

  /** What recording an outcome makes of the row of a working task. */
  lemma RecordedRow(s: State, key: TaskKey, errMsg: string, at: int)
    requires TimelyInv(s) && Enabled(s, Record(key, errMsg, at))
    ensures key.row in Apply(s, Record(key, errMsg, at)).rows
    ensures var r, r' := s.rows[key.row], Apply(s, Record(key, errMsg, at)).rows[key.row];
            && r'.attempts == r.attempts == key.attempts
            && (s.tasks[key].ok ==> r'.status == Processed)
            && (!s.tasks[key].ok ==> r'.status == if key.attempts >= s.maxRetries then Failed else Pending)
            && (r'.status == Pending ==> r'.nextAttemptAt == Some(at + DelayAfter(key.attempts)))
  {
    assert TaskOk(s, key);
  }

  /** A finished task leaves its row settled. */
  lemma WorkingToSettled(r: Row, r': Row, outcomes: seq<bool>, ok: bool, maxRetries: int)
    requires Working(r, outcomes, Relayed(ok)) && r.attempts <= Budget(maxRetries) && r'.attempts == r.attempts
    requires r'.status == if ok then Processed else if r.attempts >= maxRetries then Failed else Pending
    ensures Settled(r', outcomes, Budget(maxRetries))
  {
    assert outcomes == outcomes[..|outcomes| - 1] + [ok];
  }

  lemma RecordOnlyTask(s: State, key: TaskKey, errMsg: string, at: int)
    requires Enabled(s, Record(key, errMsg, at)) && key.row in s.rows
    ensures OnlyTask(s, Apply(s, Record(key, errMsg, at)), key)
    ensures key !in Apply(s, Record(key, errMsg, at)).tasks
    ensures Apply(s, Record(key, errMsg, at)).outcomes == s.outcomes
  {
  }

  lemma RecordTimely(s: State, key: TaskKey, errMsg: string, at: int)
    requires TimelyInv(s) && Enabled(s, Record(key, errMsg, at))
    ensures TimelyInv(Apply(s, Record(key, errMsg, at)))
  {
    var s' := Apply(s, Record(key, errMsg, at));
    assert TaskOk(s, key) && RowOk(s, key.row);
    RecordedRow(s, key, errMsg, at);
    RecordOnlyTask(s, key, errMsg, at);
    WorkingToSettled(s.rows[key.row], s'.rows[key.row], s.outcomes[key.row], s.tasks[key].ok, s.maxRetries);
    OnlyTaskTimely(s, s', key);
  }

  lemma QuietTimely(s: State, step: Step)
    requires TimelyInv(s) && Enabled(s, step) && (step.Commit? || step.AbortClaim?)
    ensures TimelyInv(Apply(s, step))
  {
    var s' := Apply(s, step);
    forall id | id in s'.rows ensures RowOk(s', id) {
      assert id in s.rows ==> RowOk(s, id);
    }
    forall k | k in s'.tasks ensures TaskOk(s', k) {
      assert TaskOk(s, k);
    }
    forall tx | tx in s'.txns ensures TxnOk(s', tx) {
      assert TxnOk(s, tx);
    }
  }

  lemma TimelyStepInv(s: State, step: Step)
    requires TimelyInv(s) && Enabled(s, step) && Timely(s, step)
    ensures TimelyInv(Apply(s, step))
  {
    match step
    case BeginClaim(_, _, _, _) => BeginClaimTimely(s, step);
    case CommitClaim(tx) => CommitClaimTimely(s, tx);
    case Relay(key, ok) => RelayTimely(s, key, ok);
    case Record(key, errMsg, at) => RecordTimely(s, key, errMsg, at);
    case _ => QuietTimely(s, step);
  }

  lemma {:induction false} TimelyRunInv(trace: seq<State>, i: nat)
    requires TimelyRun(trace) && i < |trace|
    ensures TimelyInv(trace[i])
  {
    if i > 0 {
      TimelyRunInv(trace, i - 1);
      assert TimelyNext(trace[i - 1], trace[i - 1 + 1]);
      var step :| Enabled(trace[i - 1], step) && Timely(trace[i - 1], step) && trace[i] == Apply(trace[i - 1], step);
      TimelyStepInv(trace[i - 1], step);
    }
  }

  // ---- the theorems ----

  /**
  A row gets at most max(1, MaxRetries) claims.  It ends failed exactly when that many relays
  were made and all failed, and processed exactly when some relay succeeded.
  */
  lemma ResolvesWithinBudget(trace: seq<State>, i: nat, id: nat)
    requires TimelyRun(trace) && i < |trace| && id in trace[i].rows
    ensures id in trace[i].outcomes
    ensures var s := trace[i]; var r := s.rows[id];
            && r.attempts <= Budget(s.maxRetries)
            && (r.status == Failed
                <==> !InFlight(s, id) && |s.outcomes[id]| == Budget(s.maxRetries) && AllFailed(s.outcomes[id]))
            && (r.status == Processed <==> !InFlight(s, id) && true in s.outcomes[id])
  {
    TimelyRunInv(trace, i);
    var s := trace[i];
    assert RowOk(s, id);
    forall k | k in s.tasks && k.row == id ensures TaskOk(s, k) {
    }
    if s.rows[id].status == Processing {
      assert InFlight(s, id) by {
        assert TaskKey(id, s.rows[id].attempts) in s.tasks;
      }
    }
  }

  /** How many of its own steps a row may still see. */
  ghost function Left(s: State, id: nat): int
    requires id in s.rows
  {
    var r := s.rows[id];
    var key := TaskKey(id, r.attempts);
    match r.status
    case Pending => 3 * (Budget(s.maxRetries) - r.attempts)
    case Processing =>
      3 * (Budget(s.maxRetries) - r.attempts) + if key in s.tasks && s.tasks[key] == Fetched then 2 else 1
    case _ => 0
  }

  ghost predicate Concerns(s: State, step: Step, id: nat) {
    || (step.CommitClaim? && step.tx in s.txns && id in s.txns[step.tx].rows)
    || (step.Relay? && step.key.row == id)
    || (step.Record? && step.key.row == id)
  }

  ghost predicate Progress(s: State, s': State, concerned: bool, id: nat)
    requires id in s.rows
  {
    && id in s'.rows
    && if concerned then Left(s', id) < Left(s, id) else Left(s', id) == Left(s, id)
  }

  lemma ClaimMakesProgress(s: State, tx: nat, id: nat)
    requires TimelyInv(s) && Enabled(s, CommitClaim(tx)) && id in s.rows
    ensures Progress(s, Apply(s, CommitClaim(tx)), id in s.txns[tx].rows, id)
  {
    var s' := Apply(s, CommitClaim(tx));
    assert RowOk(s, id) && TxnOk(s, tx);
    var key := TaskKey(id, s'.rows[id].attempts);
    assert id in s.txns[tx].rows <==> key in NewTasks(s'.rows, s.txns[tx].rows);
  }

  lemma RecordMakesProgress(s: State, step: Step, id: nat)
    requires TimelyInv(s) && Enabled(s, step) && step.Record? && id in s.rows
    ensures Progress(s, Apply(s, step), step.key.row == id, id)
  {
    assert RowOk(s, id) && TaskOk(s, step.key);
    RecordedRow(s, step.key, step.errMsg, step.at);
  }

  lemma RelayMakesProgress(s: State, key: TaskKey, ok: bool, id: nat)
    requires TimelyInv(s) && Enabled(s, Relay(key, ok)) && id in s.rows
    ensures Progress(s, Apply(s, Relay(key, ok)), key.row == id, id)
  {
    assert TaskOk(s, key);
  }

  lemma OthersTouchNothing(s: State, step: Step, id: nat)
    requires TimelyInv(s) && Enabled(s, step) && id in s.rows && (step.Commit? || step.BeginClaim? || step.AbortClaim?)
    ensures Progress(s, Apply(s, step), false, id)
  {
  }

  lemma LeftInRange(s: State, id: nat)
    requires TimelyInv(s) && id in s.rows
    ensures 0 <= Left(s, id) <= 3 * Budget(s.maxRetries)
    ensures Left(s, id) == 0 <==> Terminal(s.rows[id])
  {
    assert RowOk(s, id);
    if s.rows[id].status == Processing {
      assert TaskOk(s, TaskKey(id, s.rows[id].attempts));
    }
  }

  /**
  Termination: wherever a run stands, every step it can take on a row strictly decreases a natural
  number, no other step touches that number, and it is zero exactly when the row is finished.
  */
  lemma EveryStepMakesProgress(trace: seq<State>, i: nat, step: Step, id: nat)
    requires TimelyRun(trace) && i < |trace| && id in trace[i].rows
    requires Enabled(trace[i], step) && Timely(trace[i], step)
    ensures 0 <= Left(trace[i], id) <= 3 * Budget(trace[i].maxRetries)
    ensures Left(trace[i], id) == 0 <==> Terminal(trace[i].rows[id])
    ensures Progress(trace[i], Apply(trace[i], step), Concerns(trace[i], step, id), id)
  {
    var s := trace[i];
    TimelyRunInv(trace, i);
    LeftInRange(s, id);
    match step
    case CommitClaim(tx) => ClaimMakesProgress(s, tx, id);
    case Relay(key, ok) => RelayMakesProgress(s, key, ok, id);
    case Record(_, _, _) => RecordMakesProgress(s, step, id);
    case _ => OthersTouchNothing(s, step, id);
  }

  lemma TimelyIsRun(trace: seq<State>)
    requires TimelyRun(trace)
    ensures Run(trace)
  {
    forall i | 0 <= i < |trace| - 1 ensures NextAt(trace, i) {
      assert TimelyNext(trace[i], trace[i + 1]);
    }
  }

  /**
  An unfinished row is never stuck: a pending one is claimable after some instant, a claimed one
  has a task that can go on.
  */
  lemma NeverStuck(trace: seq<State>, i: nat, id: nat)
    requires TimelyRun(trace) && i < |trace| && id in trace[i].rows
    ensures trace[i].rows[id].status == Pending ==> exists instant :: ClaimableAfter(trace[i].rows[id], instant)
    ensures trace[i].rows[id].status == Processing ==>
              var key := TaskKey(id, trace[i].rows[id].attempts);
              key in trace[i].tasks && (Enabled(trace[i], Relay(key, true)) || Enabled(trace[i], Record(key, "", 0)))
  {
    TimelyRunInv(trace, i);
    if trace[i].rows[id].status == Pending {
      TimelyIsRun(trace);
      NoEventLost(trace, i, id);
    } else if trace[i].rows[id].status == Processing {
      TaskCanGoOn(trace[i], id);
    }
  }

  lemma TaskCanGoOn(s: State, id: nat)
    requires TimelyInv(s) && id in s.rows && s.rows[id].status == Processing
    ensures var key := TaskKey(id, s.rows[id].attempts);
            key in s.tasks && (Enabled(s, Relay(key, true)) || Enabled(s, Record(key, "", 0)))
  {
    assert RowOk(s, id);
    forall tx | tx in s.txns ensures id !in s.txns[tx].rows {
      assert TxnOk(s, tx);
    }
  }

  /** No claim takes a pending row before its next attempt. */
  lemma NotBefore(s: State, tx: nat, now: int, limit: nat, chosen: set<nat>, id: nat)
    requires Enabled(s, BeginClaim(tx, now, limit, chosen)) && id in chosen
    ensures id in s.rows
    ensures s.rows[id].status == Pending && s.rows[id].nextAttemptAt.Some? ==> s.rows[id].nextAttemptAt.value <= now
  {
    ChosenAreDue(s.rows, now, LockedRows(s), limit, chosen);
  }

  /**
  A failed relay that is not the last one is retried after min(2^(attempts-1), 300) seconds, up to
  34 attempts: that is the row's next attempt, and no claim takes the row with an earlier time.
  */
  lemma RetryDelay(trace: seq<State>, i: nat, key: TaskKey, errMsg: string, at: int)
    requires TimelyRun(trace) && i < |trace| && Enabled(trace[i], Record(key, errMsg, at))
    requires !trace[i].tasks[key].ok && key.attempts < trace[i].maxRetries && key.attempts <= 34
    ensures key.row in Apply(trace[i], Record(key, errMsg, at)).rows && key.attempts >= 1
    ensures Apply(trace[i], Record(key, errMsg, at)).rows[key.row].nextAttemptAt
         == Some(at + Min(Pow2(key.attempts - 1), 300) * SECOND)
    ensures forall tx, now, limit, chosen ::
              Enabled(Apply(trace[i], Record(key, errMsg, at)), BeginClaim(tx, now, limit, chosen)) && key.row in chosen ==>
                now >= at + Min(Pow2(key.attempts - 1), 300) * SECOND
  {
    TimelyRunInv(trace, i);
    var s' := Apply(trace[i], Record(key, errMsg, at));
    assert TaskOk(trace[i], key);
    RecordedRow(trace[i], key, errMsg, at);
    SmallBackoff(key.attempts);
    forall tx, now, limit, chosen | Enabled(s', BeginClaim(tx, now, limit, chosen)) && key.row in chosen
      ensures now >= at + Min(Pow2(key.attempts - 1), 300) * SECOND
    {
      NotBefore(s', tx, now, limit, chosen, key.row);
    }
  }
}
