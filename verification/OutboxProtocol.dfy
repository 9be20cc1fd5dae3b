/**
Many workers, in many processes, over one outbox table.

A claim is a transaction: it locks the rows it chose when it begins and updates them when it
commits.  Committing hands the worker one task per row, holding the number of attempts it
saw; a row's attempts grow with every claim, so (row, attempts) names the task.  Between any
two of a task's steps anything else may happen, and any task may vanish: that is a crash, a
cancellation seen by the goroutine, or a bookkeeping statement that failed.  A task that
outlives its lease is a stale writer, and nothing but the guards of the statements stops it.
*/
module OutboxProtocol {
  import opened Wrappers
  import opened Backoff
  import opened OutboxTable

  datatype TaskKey = TaskKey(row: nat, attempts: nat)

  datatype Phase = Fetched | Relayed(ok: bool)

  datatype Txn = Txn(now: int, limit: nat, rows: set<nat>)

  /**
  A row's history, oldest first: claims, with the database time they read, and effective releases,
  with the time before which the row is not to be claimed again.
  */
  datatype LogEntry = Claim(now: int) | Release(due: int)

  datatype State = State(
    maxRetries: int,
    rows: Table,
    txns: map<nat, Txn>,
    tasks: map<TaskKey, Phase>,
    log: map<nat, seq<LogEntry>>,
    // results of the relay calls made for a row so far, oldest first
    outcomes: map<nat, seq<bool>>)

  datatype Step =
    | Commit(id: nat, createdAt: int)
    | BeginClaim(tx: nat, now: int, limit: nat, chosen: set<nat>)
    | AbortClaim(tx: nat)
    | CommitClaim(tx: nat)
    | Relay(key: TaskKey, ok: bool)
    | Record(key: TaskKey, errMsg: string, at: int)
    | ReleaseUnprocessed(key: TaskKey, at: int)
    | Lose(key: TaskKey)

  function Init(maxRetries: int): State {
    State(maxRetries, map[], map[], map[], map[], map[])
  }

  ghost predicate Locked(s: State, id: nat) {
    exists tx :: tx in s.txns && id in s.txns[tx].rows
  }

  ghost function LockedRows(s: State): set<nat> {
    set id | id in s.rows && Locked(s, id)
  }

  ghost predicate Enabled(s: State, step: Step) {
    match step
    case Commit(id, _) => id !in s.rows
    case BeginClaim(tx, now, limit, chosen) =>
      tx !in s.txns && LeastPrefix(s.rows, Candidates(s.rows, now, LockedRows(s)), limit, chosen)
    case AbortClaim(tx) => tx in s.txns
    case CommitClaim(tx) => tx in s.txns
    case Relay(key, _) => key in s.tasks && s.tasks[key] == Fetched
    // an update statement waits for the row lock of an open claim
    case Record(key, _, _) => key in s.tasks && s.tasks[key].Relayed? && !Locked(s, key.row)
    case ReleaseUnprocessed(key, _) => key in s.tasks && s.tasks[key] == Fetched && !Locked(s, key.row)
    case Lose(key) => key in s.tasks
  }

  function NewTasks(rows: Table, chosen: set<nat>): map<TaskKey, Phase> {
    map id | id in chosen && id in rows :: TaskKey(id, rows[id].attempts) := Fetched
  }

  function AppendEach(log: map<nat, seq<LogEntry>>, ids: set<nat>, e: LogEntry): map<nat, seq<LogEntry>> {
    map id | id in log :: if id in ids then log[id] + [e] else log[id]
  }

  /** The statement that records the outcome of a relay call. */
  function Recorded(maxRetries: int, rows: Table, key: TaskKey, ok: bool, errMsg: string, at: int): Table {
    if ok then MarkedProcessed(rows, key.row, at)
    else if key.attempts >= maxRetries then MarkedFailed(rows, key.row, errMsg, at)
    else Released(rows, key.row, errMsg, at, DelayAfter(key.attempts))
  }

  /** A release takes effect exactly on a row that is being processed. */
  function WithRelease(s: State, id: nat, due: int): map<nat, seq<LogEntry>> {
    if id in s.rows && s.rows[id].status == Processing then AppendEach(s.log, {id}, Release(due)) else s.log
  }

  ghost function Apply(s: State, step: Step): State
    requires Enabled(s, step)
  {
    match step
    case Commit(id, createdAt) =>
      s.(rows := s.rows[id := NewRow(createdAt)], log := s.log[id := []], outcomes := s.outcomes[id := []])
    case BeginClaim(tx, now, limit, chosen) =>
      s.(txns := s.txns[tx := Txn(now, limit, chosen)])
    case AbortClaim(tx) =>
      s.(txns := s.txns - {tx})
    case CommitClaim(tx) =>
      var t := s.txns[tx];
      var rows := ClaimAll(s.rows, t.rows, t.now);
      s.(rows := rows,
         txns := s.txns - {tx},
         tasks := s.tasks + NewTasks(rows, t.rows),
         log := AppendEach(s.log, t.rows, Claim(t.now)))
    case Relay(key, ok) =>
      s.(tasks := s.tasks[key := Relayed(ok)],
         outcomes := if key.row in s.outcomes then s.outcomes[key.row := s.outcomes[key.row] + [ok]] else s.outcomes)
    case Record(key, errMsg, at) =>
      var ok := s.tasks[key].ok;
      s.(rows := Recorded(s.maxRetries, s.rows, key, ok, errMsg, at),
         tasks := s.tasks - {key},
         log := if ok || key.attempts >= s.maxRetries then s.log else WithRelease(s, key.row, at + DelayAfter(key.attempts)))
    case ReleaseUnprocessed(key, at) =>
      s.(rows := Released(s.rows, key.row, "worker shutdown", at, 0),
         tasks := s.tasks - {key},
         log := WithRelease(s, key.row, at))
    case Lose(key) =>
      s.(tasks := s.tasks - {key})
  }

  ghost predicate Next(s: State, s': State) {
    exists step :: Enabled(s, step) && s' == Apply(s, step)
  }

  ghost predicate Run(trace: seq<State>) {
    && |trace| > 0
    && trace[0] == Init(trace[0].maxRetries)
    && forall i :: 0 <= i < |trace| - 1 ==> NextAt(trace, i)
  }

  ghost predicate NextAt(trace: seq<State>, i: nat)
    requires i + 1 < |trace|
  {
    Next(trace[i], trace[i + 1])
  }

  // ---- what every reachable state satisfies ----

  function Claims(log: seq<LogEntry>): nat {
    if log == [] then 0
    else Claims(log[..|log| - 1]) + if log[|log| - 1].Claim? then 1 else 0
  }

  /** Between two successive claims there is a release, or more than a lease of database time. */
  ghost predicate LeasesRespected(log: seq<LogEntry>) {
    forall i :: 0 <= i < |log| - 1 && log[i].Claim? && log[i + 1].Claim? ==> log[i + 1].now - log[i].now > LEASE
  }

  /** A claim right after a release reads no time before the release's due time. */
  ghost predicate DelaysRespected(log: seq<LogEntry>) {
    forall i :: 0 <= i < |log| - 1 && log[i].Release? && log[i + 1].Claim? ==> log[i].due <= log[i + 1].now
  }

  ghost predicate RowInv(maxRetries: int, r: Row, log: seq<LogEntry>, outcomes: seq<bool>) {
    && (r.status == Pending ==>
          && r.lockedUntil.None?
          && (log == [] || (log[|log| - 1].Release? && r.nextAttemptAt == Some(log[|log| - 1].due))))
    && (r.status == Processing ==>
          log != [] && log[|log| - 1].Claim? && r.lockedUntil == Some(log[|log| - 1].now + LEASE))
    && (r.status == Processed ==> true in outcomes)
    && (r.status == Failed ==> r.attempts >= maxRetries)
    && r.attempts == Claims(log)
    && LeasesRespected(log) && DelaysRespected(log)
  }

  ghost predicate TaskInv(s: State, k: TaskKey)
    requires k in s.tasks
  {
    && k.row in s.rows && k.row in s.outcomes
    && 1 <= k.attempts <= s.rows[k.row].attempts
    && (s.tasks[k] == Relayed(true) ==> true in s.outcomes[k.row])
  }

  ghost predicate TxnInv(s: State, tx: nat)
    requires tx in s.txns
  {
    && |s.txns[tx].rows| <= s.txns[tx].limit
    && forall id :: id in s.txns[tx].rows ==> id in s.rows && Eligible(s.rows[id], s.txns[tx].now)
  }

  ghost predicate Inv(s: State) {
    && s.log.Keys == s.rows.Keys && s.outcomes.Keys == s.rows.Keys
    && (forall id :: id in s.rows ==> RowInv(s.maxRetries, s.rows[id], s.log[id], s.outcomes[id]))
    && (forall k :: k in s.tasks ==> TaskInv(s, k))
    && (forall tx :: tx in s.txns ==> TxnInv(s, tx))
    && (forall tx, ty :: tx in s.txns && ty in s.txns && tx != ty ==> s.txns[tx].rows !! s.txns[ty].rows)
  }

  // ---- one row ----

  lemma ClaimKeepsRow(maxRetries: int, r: Row, log: seq<LogEntry>, outcomes: seq<bool>, now: int)
    requires RowInv(maxRetries, r, log, outcomes) && Eligible(r, now)
    ensures RowInv(maxRetries, ClaimedRow(r, now), log + [Claim(now)], outcomes)
  {
    assert (log + [Claim(now)])[..|log|] == log;
  }

  lemma ReleaseKeepsRow(maxRetries: int, r: Row, log: seq<LogEntry>, outcomes: seq<bool>,
                        errMsg: string, at: int, delay: int)
    requires RowInv(maxRetries, r, log, outcomes)
    ensures RowInv(maxRetries, ReleasedRow(r, errMsg, at, delay),
                   if r.status == Processing then log + [Release(at + delay)] else log, outcomes)
  {
    assert (log + [Release(at + delay)])[..|log|] == log;
  }

  // ---- every step ----

  lemma InitInv(maxRetries: int)
    ensures Inv(Init(maxRetries))
  {
  }

  lemma ChosenUnlocked(s: State, chosen: set<nat>, now: int)
    requires chosen <= Candidates(s.rows, now, LockedRows(s))
    ensures forall ty :: ty in s.txns ==> s.txns[ty].rows !! chosen
  {
    forall id | id in chosen ensures !Locked(s, id) {
      assert id !in LockedRows(s);
    }
  }

  /** The step leaves rows, logs and outcomes alone and adds no task. */
  ghost predicate SameRows(s: State, s': State) {
    && s'.maxRetries == s.maxRetries && s'.rows == s.rows && s'.log == s.log && s'.outcomes == s.outcomes
    && forall k :: k in s'.tasks ==> k in s.tasks && s'.tasks[k] == s.tasks[k]
  }

  ghost predicate TxnsOk(s: State) {
    && (forall tx :: tx in s.txns ==> TxnInv(s, tx))
    && (forall tx, ty :: tx in s.txns && ty in s.txns && tx != ty ==> s.txns[tx].rows !! s.txns[ty].rows)
  }

  lemma SameRowsInv(s: State, s': State)
    requires Inv(s) && SameRows(s, s') && TxnsOk(s')
    ensures Inv(s')
  {
    forall k | k in s'.tasks ensures TaskInv(s', k) {
      assert TaskInv(s, k);
    }
  }

  lemma BeginClaimInv(s: State, tx: nat, now: int, limit: nat, chosen: set<nat>)
    requires Inv(s) && Enabled(s, BeginClaim(tx, now, limit, chosen))
    ensures Inv(Apply(s, BeginClaim(tx, now, limit, chosen)))
  {
    BeginClaimTxns(s, tx, now, limit, chosen);
    SameRowsInv(s, Apply(s, BeginClaim(tx, now, limit, chosen)));
  }

  lemma BeginClaimTxns(s: State, tx: nat, now: int, limit: nat, chosen: set<nat>)
    requires TxnsOk(s) && Enabled(s, BeginClaim(tx, now, limit, chosen))
    ensures TxnsOk(Apply(s, BeginClaim(tx, now, limit, chosen)))
  {
    var s' := Apply(s, BeginClaim(tx, now, limit, chosen));
    forall ty | ty in s'.txns ensures TxnInv(s', ty) {
      assert ty in s.txns ==> TxnInv(s, ty);
    }
    ChosenUnlocked(s, chosen, now);
  }

  lemma CommitClaimRows(s: State, tx: nat, id: nat)
    requires Inv(s) && Enabled(s, CommitClaim(tx)) && id in s.rows
    ensures var s' := Apply(s, CommitClaim(tx));
            && id in s'.rows && id in s'.log && id in s'.outcomes
            && RowInv(s'.maxRetries, s'.rows[id], s'.log[id], s'.outcomes[id])
            && s'.rows[id].attempts == s.rows[id].attempts + if id in s.txns[tx].rows then 1 else 0
  {
    var t := s.txns[tx];
    assert TxnInv(s, tx) && RowInv(s.maxRetries, s.rows[id], s.log[id], s.outcomes[id]);
    if id in t.rows {
      ClaimKeepsRow(s.maxRetries, s.rows[id], s.log[id], s.outcomes[id], t.now);
    }
  }

  lemma CommitClaimTask(s: State, tx: nat, k: TaskKey)
    requires Inv(s) && Enabled(s, CommitClaim(tx)) && k in Apply(s, CommitClaim(tx)).tasks
    ensures TaskInv(Apply(s, CommitClaim(tx)), k)
  {
    var s' := Apply(s, CommitClaim(tx));
    if k !in NewTasks(s'.rows, s.txns[tx].rows) {
      assert TaskInv(s, k);
    }
    CommitClaimRows(s, tx, k.row);
  }

  lemma CommitClaimTxns(s: State, tx: nat)
    requires Inv(s) && Enabled(s, CommitClaim(tx))
    ensures TxnsOk(Apply(s, CommitClaim(tx)))
  {
    var s' := Apply(s, CommitClaim(tx));
    forall ty | ty in s'.txns ensures TxnInv(s', ty) {
      assert TxnInv(s, ty);
    }
  }

  lemma CommitClaimInv(s: State, tx: nat)
    requires Inv(s) && Enabled(s, CommitClaim(tx))
    ensures Inv(Apply(s, CommitClaim(tx)))
  {
    var s' := Apply(s, CommitClaim(tx));
    forall id | id in s.rows ensures RowInv(s'.maxRetries, s'.rows[id], s'.log[id], s'.outcomes[id]) {
      CommitClaimRows(s, tx, id);
    }
    forall k | k in s'.tasks ensures TaskInv(s', k) {
      CommitClaimTask(s, tx, k);
    }
    CommitClaimTxns(s, tx);
  }

  lemma RelayInv(s: State, key: TaskKey, ok: bool)
    requires Inv(s) && Enabled(s, Relay(key, ok))
    ensures Inv(Apply(s, Relay(key, ok)))
  {
    var s' := Apply(s, Relay(key, ok));
    assert TaskInv(s, key);
    forall k | k in s'.tasks ensures TaskInv(s', k) {
      assert k != key ==> TaskInv(s, k);
      assert s'.outcomes[key.row][|s.outcomes[key.row]|] == ok;
    }
    forall tx | tx in s'.txns ensures TxnInv(s', tx) {
      assert TxnInv(s, tx);
    }
  }

  /** s' changes one row of s, which no open claim has locked, and drops one task on that row. */
  ghost predicate OneRowChange(s: State, s': State, key: TaskKey) {
    && key in s.tasks && key.row in s.rows
    && s'.maxRetries == s.maxRetries && s'.txns == s.txns && s'.outcomes == s.outcomes
    && s'.tasks == s.tasks - {key}
    && s'.rows.Keys == s.rows.Keys && s'.log.Keys == s.log.Keys
    && (forall id :: id in s.rows && id != key.row ==> s'.rows[id] == s.rows[id])
    && (forall id :: id in s.log && id != key.row ==> s'.log[id] == s.log[id])
    && s'.rows[key.row].attempts == s.rows[key.row].attempts
    && !Locked(s, key.row)
  }

  lemma OneRowTask(s: State, s': State, key: TaskKey, k: TaskKey)
    requires Inv(s) && OneRowChange(s, s', key) && k in s'.tasks
    ensures TaskInv(s', k)
  {
    assert TaskInv(s, k);
  }

  lemma OneRowTxn(s: State, s': State, key: TaskKey, tx: nat)
    requires OneRowChange(s, s', key) && tx in s.txns && TxnInv(s, tx)
    ensures TxnInv(s', tx)
  {
    assert key.row !in s.txns[tx].rows;
  }

  lemma OneRowInv(s: State, s': State, key: TaskKey)
    requires Inv(s) && OneRowChange(s, s', key)
    requires key.row in s'.log && key.row in s'.outcomes
    requires RowInv(s.maxRetries, s'.rows[key.row], s'.log[key.row], s'.outcomes[key.row])
    ensures Inv(s')
  {
    forall k | k in s'.tasks ensures TaskInv(s', k) {
      OneRowTask(s, s', key, k);
    }
    forall tx | tx in s'.txns ensures TxnInv(s', tx) {
      assert TxnInv(s, tx);
      OneRowTxn(s, s', key, tx);
    }
    forall id | id in s'.rows
      ensures RowInv(s'.maxRetries, s'.rows[id], s'.log[id], s'.outcomes[id])
    {
      if id != key.row {
        assert RowInv(s.maxRetries, s.rows[id], s.log[id], s.outcomes[id]);
      }
    }
  }

  /** What recording an outcome makes of the row and its log. */
  ghost predicate Outcome(maxRetries: int, r: Row, r': Row, log: seq<LogEntry>, log': seq<LogEntry>, ok: bool,
                          attempts: nat, errMsg: string, at: int, delay: int) {
    if ok then r' == ProcessedRow(r, at) && log' == log
    else if attempts >= maxRetries then r' == FailedRow(r, errMsg, at) && log' == log
    else && r' == ReleasedRow(r, errMsg, at, delay)
         && log' == if r.status == Processing then log + [Release(at + delay)] else log
  }

  lemma LoggedRelease(s: State, id: nat, due: int)
    requires id in s.rows && s.log.Keys == s.rows.Keys
    ensures WithRelease(s, id, due).Keys == s.log.Keys
    ensures forall j :: j in s.log && j != id ==> WithRelease(s, id, due)[j] == s.log[j]
    ensures WithRelease(s, id, due)[id]
         == if s.rows[id].status == Processing then s.log[id] + [Release(due)] else s.log[id]
  {
  }

  lemma RecordedRows(maxRetries: int, rows: Table, key: TaskKey, ok: bool, errMsg: string, at: int)
    requires key.row in rows
    ensures var rows' := Recorded(maxRetries, rows, key, ok, errMsg, at);
            && rows'.Keys == rows.Keys && (forall id :: id in rows && id != key.row ==> rows'[id] == rows[id])
            && rows'[key.row]
               == if ok then ProcessedRow(rows[key.row], at)
                  else if key.attempts >= maxRetries then FailedRow(rows[key.row], errMsg, at)
                  else ReleasedRow(rows[key.row], errMsg, at, DelayAfter(key.attempts))
  {
  }

  lemma RecordChange(s: State, key: TaskKey, errMsg: string, at: int)
    requires Enabled(s, Record(key, errMsg, at)) && key.row in s.rows && s.log.Keys == s.rows.Keys
    ensures OneRowChange(s, Apply(s, Record(key, errMsg, at)), key)
    ensures key.row in s.log
    ensures var s' := Apply(s, Record(key, errMsg, at));
            Outcome(s.maxRetries, s.rows[key.row], s'.rows[key.row], s.log[key.row], s'.log[key.row], s.tasks[key].ok,
                    key.attempts, errMsg, at, DelayAfter(key.attempts))
  {
    var delay := DelayAfter(key.attempts);
    RecordedRows(s.maxRetries, s.rows, key, s.tasks[key].ok, errMsg, at);
    LoggedRelease(s, key.row, at + delay);
    RecordEffect(s, key, errMsg, at, delay);
  }

  /** The step's effect, field by field. */
  lemma RecordEffect(s: State, key: TaskKey, errMsg: string, at: int, delay: int)
    requires Enabled(s, Record(key, errMsg, at)) && delay == DelayAfter(key.attempts)
    ensures var s', ok := Apply(s, Record(key, errMsg, at)), s.tasks[key].ok;
            && s'.maxRetries == s.maxRetries && s'.txns == s.txns && s'.outcomes == s.outcomes && s'.tasks == s.tasks - {key}
            && s'.rows == Recorded(s.maxRetries, s.rows, key, ok, errMsg, at)
            && s'.log == if ok || key.attempts >= s.maxRetries then s.log else WithRelease(s, key.row, at + delay)
  {
  }

  /** Marking a row processed or failed logs nothing and keeps what its log says. */
  lemma FinishKeepsRow(maxRetries: int, r: Row, r': Row, log: seq<LogEntry>, outcomes: seq<bool>)
    requires RowInv(maxRetries, r, log, outcomes) && r'.attempts == r.attempts
    requires r' == r || (r'.status == Processed && true in outcomes) || (r'.status == Failed && r.attempts >= maxRetries)
    ensures RowInv(maxRetries, r', log, outcomes)
  {
  }

  lemma RecordInv(s: State, key: TaskKey, errMsg: string, at: int)
    requires Inv(s) && Enabled(s, Record(key, errMsg, at))
    ensures Inv(Apply(s, Record(key, errMsg, at)))
  {
    var s' := Apply(s, Record(key, errMsg, at));
    assert TaskInv(s, key);
    RecordChange(s, key, errMsg, at);
    OutcomeKeepsRow(s.maxRetries, s.rows[key.row], s'.rows[key.row], s.log[key.row], s'.log[key.row], s.outcomes[key.row],
                    s.tasks[key].ok, key.attempts, errMsg, at, DelayAfter(key.attempts));
    OneRowInv(s, s', key);
  }

  lemma OutcomeKeepsRow(maxRetries: int, r: Row, r': Row, log: seq<LogEntry>, log': seq<LogEntry>, outcomes: seq<bool>,
                        ok: bool, attempts: nat, errMsg: string, at: int, delay: int)
    requires RowInv(maxRetries, r, log, outcomes) && Outcome(maxRetries, r, r', log, log', ok, attempts, errMsg, at, delay)
    requires attempts <= r.attempts && (ok ==> true in outcomes)
    ensures RowInv(maxRetries, r', log', outcomes)
  {
    if ok || attempts >= maxRetries {
      FinishKeepsRow(maxRetries, r, r', log, outcomes);
    } else {
      ReleaseKeepsRow(maxRetries, r, log, outcomes, errMsg, at, delay);
    }
  }

  lemma ReleaseChange(s: State, key: TaskKey, at: int)
    requires Enabled(s, ReleaseUnprocessed(key, at)) && key.row in s.rows && s.log.Keys == s.rows.Keys
    ensures OneRowChange(s, Apply(s, ReleaseUnprocessed(key, at)), key)
    ensures key.row in s.log
    ensures var s' := Apply(s, ReleaseUnprocessed(key, at));
            var r, log := s.rows[key.row], s.log[key.row];
            && s'.rows[key.row] == ReleasedRow(r, "worker shutdown", at, 0)
            && s'.log[key.row] == if r.status == Processing then log + [Release(at)] else log
  {
    LoggedRelease(s, key.row, at);
  }

  lemma ReleaseUnprocessedInv(s: State, key: TaskKey, at: int)
    requires Inv(s) && Enabled(s, ReleaseUnprocessed(key, at))
    ensures Inv(Apply(s, ReleaseUnprocessed(key, at)))
  {
    var id := key.row;
    assert TaskInv(s, key);
    ReleaseChange(s, key, at);
    ReleaseKeepsRow(s.maxRetries, s.rows[id], s.log[id], s.outcomes[id], "worker shutdown", at, 0);
    OneRowInv(s, Apply(s, ReleaseUnprocessed(key, at)), key);
  }

  lemma CommitInv(s: State, id: nat, createdAt: int)
    requires Inv(s) && Enabled(s, Commit(id, createdAt))
    ensures Inv(Apply(s, Commit(id, createdAt)))
  {
    var s' := Apply(s, Commit(id, createdAt));
    forall k | k in s'.tasks ensures TaskInv(s', k) {
      assert TaskInv(s, k);
    }
    forall tx | tx in s'.txns ensures TxnInv(s', tx) {
      assert TxnInv(s, tx);
    }
  }

  lemma DropInv(s: State, step: Step)
    requires Inv(s) && Enabled(s, step) && (step.AbortClaim? || step.Lose?)
    ensures Inv(Apply(s, step))
  {
    var s' := Apply(s, step);
    forall tx | tx in s'.txns ensures TxnInv(s', tx) {
      assert TxnInv(s, tx);
    }
    SameRowsInv(s, s');
  }

  lemma StepInv(s: State, step: Step)
    requires Inv(s) && Enabled(s, step)
    ensures Inv(Apply(s, step))
  {
    match step
    case BeginClaim(tx, now, limit, chosen) => BeginClaimInv(s, tx, now, limit, chosen);
    case CommitClaim(tx) => CommitClaimInv(s, tx);
    case Relay(key, ok) => RelayInv(s, key, ok);
    case Record(key, errMsg, at) => RecordInv(s, key, errMsg, at);
    case ReleaseUnprocessed(key, at) => ReleaseUnprocessedInv(s, key, at);
    case Commit(id, createdAt) => CommitInv(s, id, createdAt);
    case _ => DropInv(s, step);
  }

  lemma {:induction false} RunInv(trace: seq<State>, i: nat)
    requires Run(trace) && i < |trace|
    ensures Inv(trace[i])
  {
    if i == 0 {
      InitInv(trace[0].maxRetries);
    } else {
      RunInv(trace, i - 1);
      assert NextAt(trace, i - 1);
      var step :| Enabled(trace[i - 1], step) && trace[i] == Apply(trace[i - 1], step);
      StepInv(trace[i - 1], step);
    }
  }

  // ---- the theorems ----

  ghost predicate ClaimableAfter(r: Row, instant: int) {
    forall now :: now > instant ==> Eligible(r, now)
  }

  /**
  No event is lost.  In every run, with crashes, lost bookkeeping and stale writers anywhere,
  a committed row is processed and some relay of it reported success, or failed after at least
  MaxRetries claims, or unfinished and claimable at every time after some instant.
  */
  lemma NoEventLost(trace: seq<State>, i: nat, id: nat)
    requires Run(trace) && i < |trace| && id in trace[i].rows
    ensures id in trace[i].outcomes
    ensures var r := trace[i].rows[id];
            || (r.status == Processed && true in trace[i].outcomes[id])
            || (r.status == Failed && r.attempts >= trace[i].maxRetries)
            || (!Terminal(r) && exists instant :: ClaimableAfter(r, instant))
  {
    RunInv(trace, i);
    var r := trace[i].rows[id];
    assert RowInv(trace[i].maxRetries, r, trace[i].log[id], trace[i].outcomes[id]);
    if r.status == Pending {
      assert ClaimableAfter(r, if r.nextAttemptAt.Some? then r.nextAttemptAt.value else 0);
    } else if r.status == Processing {
      assert ClaimableAfter(r, r.lockedUntil.value);
    }
  }

  /** What no step undoes: rows stay, attempts grow, finished rows stay finished. */
  ghost predicate Advances(rows: Table, rows': Table, id: nat)
    requires id in rows
  {
    && id in rows'
    && (Terminal(rows[id]) ==> Terminal(rows'[id]))
    && (rows[id].status == Failed ==> rows'[id].status == Failed)
    && rows[id].attempts <= rows'[id].attempts
  }

  lemma StepAdvances(s: State, step: Step, id: nat)
    requires Inv(s) && Enabled(s, step) && id in s.rows
    ensures Advances(s.rows, Apply(s, step).rows, id)
  {
    if step.CommitClaim? {
      ClaimAdvances(s, step.tx, id);
    } else if step.Record? || step.ReleaseUnprocessed? {
      assert TaskInv(s, step.key);
      WriteAdvances(s, step, id);
    }
  }

  lemma WriteAdvances(s: State, step: Step, id: nat)
    requires Enabled(s, step) && (step.Record? || step.ReleaseUnprocessed?)
    requires step.key.row in s.rows && s.log.Keys == s.rows.Keys && id in s.rows
    ensures Advances(s.rows, Apply(s, step).rows, id)
  {
    if step.Record? {
      RecordChange(s, step.key, step.errMsg, step.at);
    } else {
      ReleaseChange(s, step.key, step.at);
    }
  }

  lemma ClaimAdvances(s: State, tx: nat, id: nat)
    requires Inv(s) && Enabled(s, CommitClaim(tx)) && id in s.rows
    ensures Advances(s.rows, Apply(s, CommitClaim(tx)).rows, id)
  {
    assert TxnInv(s, tx);
  }

  lemma NextAdvances(s: State, s': State, id: nat)
    requires Inv(s) && Next(s, s') && id in s.rows
    ensures Advances(s.rows, s'.rows, id)
  {
    var step :| Enabled(s, step) && s' == Apply(s, step);
    StepAdvances(s, step, id);
  }

  lemma AdvancesInRun(trace: seq<State>, j: nat, id: nat)
    requires Run(trace) && j + 1 < |trace| && id in trace[j].rows
    ensures Advances(trace[j].rows, trace[j + 1].rows, id)
  {
    RunInv(trace, j);
    assert NextAt(trace, j);
    NextAdvances(trace[j], trace[j + 1], id);
  }

  /** No row disappears, none leaves {processed, failed}, and `failed` is final on its own. */
  lemma {:induction false} TerminalForever(trace: seq<State>, i: nat, j: nat, id: nat)
    requires Run(trace) && i <= j < |trace| && id in trace[i].rows
    ensures Advances(trace[i].rows, trace[j].rows, id)
  {
    if i < j {
      TerminalForever(trace, i, j - 1, id);
      AdvancesInRun(trace, j - 1, id);
    }
  }

  /** Between two places of the log there are only claims. */
  ghost predicate OnlyClaims(log: seq<LogEntry>, n: nat, m: nat) {
    forall k :: n < k <= m < |log| ==> log[k].Claim?
  }

  lemma {:induction false} ClaimsAfterRelease(log: seq<LogEntry>, n: nat, m: nat)
    requires LeasesRespected(log) && DelaysRespected(log)
    requires n < m < |log| && log[n].Release? && OnlyClaims(log, n, m)
    ensures log[m].Claim? && log[n].due <= log[m].now
  {
    if n + 1 < m {
      ClaimsAfterRelease(log, n, m - 1);
    }
  }

  /**
  Delays.  After a release no claim of the row, up to the next release of it, reads a database
  time before the release's own time plus its delay.
  */
  lemma DelayTheorem(trace: seq<State>, i: nat, id: nat, n: nat, m: nat)
    requires Run(trace) && i < |trace| && id in trace[i].rows
    ensures id in trace[i].log
    ensures var log := trace[i].log[id];
            n < m < |log| && log[n].Release? && OnlyClaims(log, n, m) ==> log[m].Claim? && log[m].now >= log[n].due
  {
    RunInv(trace, i);
    var log := trace[i].log[id];
    assert RowInv(trace[i].maxRetries, trace[i].rows[id], log, trace[i].outcomes[id]);
    if n < m < |log| && log[n].Release? && OnlyClaims(log, n, m) {
      ClaimsAfterRelease(log, n, m);
    }
  }

  /** What a release logs, and the only steps that log one: the process clock plus the delay it asks for. */
  lemma ReleasesLogged(trace: seq<State>, i: nat, step: Step, id: nat)
    requires Run(trace) && i < |trace| && Enabled(trace[i], step) && id in trace[i].rows
    ensures id in trace[i].log && id in Apply(trace[i], step).log
    ensures var log, log' := trace[i].log[id], Apply(trace[i], step).log[id];
            var released := trace[i].rows[id].status == Processing;
            && (step.Record? && step.key.row == id && released && !trace[i].tasks[step.key].ok
                && step.key.attempts < trace[i].maxRetries ==>
                  log' == log + [Release(step.at + DelayAfter(step.key.attempts))])
            && (step.ReleaseUnprocessed? && step.key.row == id && released ==> log' == log + [Release(step.at)])
            && (log' == log || (|log'| == |log| + 1 && log'[..|log|] == log && (log'[|log|].Claim? <==> step.CommitClaim?)))
  {
    RunInv(trace, i);
    var s := trace[i];
    if step.Record? || step.ReleaseUnprocessed? {
      assert TaskInv(s, step.key);
      WriteLogged(s, step);
    }
  }

  lemma WriteLogged(s: State, step: Step)
    requires Enabled(s, step) && (step.Record? || step.ReleaseUnprocessed?)
    requires step.key.row in s.rows && s.log.Keys == s.rows.Keys
    ensures var log, s' := s.log[step.key.row], Apply(s, step);
            var releases := step.ReleaseUnprocessed? || (!s.tasks[step.key].ok && step.key.attempts < s.maxRetries);
            && s'.log.Keys == s.log.Keys
            && (forall id :: id in s.log && id != step.key.row ==> s'.log[id] == s.log[id])
            && s'.log[step.key.row]
               == if releases && s.rows[step.key.row].status == Processing then
                    log + [Release(if step.Record? then step.at + DelayAfter(step.key.attempts) else step.at)]
                  else log
  {
    if step.Record? {
      RecordChange(s, step.key, step.errMsg, step.at);
    } else {
      ReleaseChange(s, step.key, step.at);
    }
  }

  /** Claims are logged with the time their transaction read, and only for rows that are due then. */
  lemma ClaimsLogged(trace: seq<State>, i: nat, tx: nat, id: nat)
    requires Run(trace) && i < |trace| && tx in trace[i].txns && id in trace[i].txns[tx].rows
    ensures id in trace[i].rows && id in trace[i].log && id in Apply(trace[i], CommitClaim(tx)).log
    ensures var r, now := trace[i].rows[id], trace[i].txns[tx].now;
            && Apply(trace[i], CommitClaim(tx)).log[id] == trace[i].log[id] + [Claim(now)]
            && (|| (&& r.status == Pending
                    && (r.lockedUntil.None? || r.lockedUntil.value < now)
                    && (r.nextAttemptAt.None? || r.nextAttemptAt.value <= now))
                || (r.status == Processing && r.lockedUntil.Some? && r.lockedUntil.value < now))
  {
    RunInv(trace, i);
    assert TxnInv(trace[i], tx);
  }

  /**
  Leases.  Two successive claims of a row are separated by a release or by more than thirty
  seconds of database time; the row's attempts count its claims and bound every task in flight.
  */
  lemma LeaseTheorem(trace: seq<State>, i: nat, id: nat, n: nat)
    requires Run(trace) && i < |trace| && id in trace[i].rows
    ensures id in trace[i].log
    ensures var log := trace[i].log[id];
            && trace[i].rows[id].attempts == Claims(log)
            && (n + 1 < |log| && log[n].Claim? && log[n + 1].Claim? ==> log[n + 1].now - log[n].now > 30 * SECOND)
    ensures forall k :: k in trace[i].tasks && k.row == id ==> 1 <= k.attempts <= trace[i].rows[id].attempts
  {
    RunInv(trace, i);
    assert RowInv(trace[i].maxRetries, trace[i].rows[id], trace[i].log[id], trace[i].outcomes[id]);
    forall k | k in trace[i].tasks && k.row == id ensures 1 <= k.attempts <= trace[i].rows[id].attempts {
      assert TaskInv(trace[i], k);
    }
  }

  /**
  No open claim holds more rows than its limit, what it chose is still eligible, unchanged, until
  it commits, and it shares no row with any other open claim.
  */
  lemma OpenClaimsAreDisjoint(trace: seq<State>, i: nat, tx: nat)
    requires Run(trace) && i < |trace| && tx in trace[i].txns
    ensures |trace[i].txns[tx].rows| <= trace[i].txns[tx].limit
    ensures forall id :: id in trace[i].txns[tx].rows ==>
              id in trace[i].rows && Eligible(trace[i].rows[id], trace[i].txns[tx].now)
    ensures forall ty :: ty in trace[i].txns && ty != tx ==> trace[i].txns[tx].rows !! trace[i].txns[ty].rows
  {
    RunInv(trace, i);
    assert TxnInv(trace[i], tx);
  }
}
