/**
The outbox_events table and the four statements that workers run against it.

Every statement is one atomic step on the rows.  Times are nanoseconds; `now` is the
database clock a claim transaction read, `at` the clock of the process that runs a
bookkeeping statement.  The two are unrelated numbers here: nothing below assumes that the
clocks agree, nor that either moves forward.
*/
module OutboxTable {
  import opened Wrappers
  import opened Backoff

  const LEASE: int := 30 * SECOND

  datatype Status = Pending | Processing | Processed | Failed

  datatype Row = Row(
    status: Status,
    attempts: nat,
    lockedUntil: Option<int>,
    nextAttemptAt: Option<int>,
    lastError: Option<string>,
    createdAt: int,
    processedAt: Option<int>)

  type Table = map<nat, Row>

  predicate Terminal(r: Row) {
    r.status == Processed || r.status == Failed
  }

  function NewRow(createdAt: int): Row {
    Row(Pending, 0, None, None, None, createdAt, None)
  }

  // ---- the statements, row by row ----

  predicate Eligible(r: Row, now: int) {
    || (&& r.status == Pending
        && (r.lockedUntil.None? || r.lockedUntil.value < now)
        && (r.nextAttemptAt.None? || r.nextAttemptAt.value <= now))
    || (&& r.status == Processing
        && r.lockedUntil.Some?
        && r.lockedUntil.value < now)
  }

  /** ORDER BY next_attempt_at NULLS FIRST, created_at: `a` comes strictly before `b`. */
  predicate Before(a: Row, b: Row) {
    match (a.nextAttemptAt, b.nextAttemptAt)
    case (None, Some(_)) => true
    case (Some(_), None) => false
    case (None, None) => a.createdAt < b.createdAt
    case (Some(x), Some(y)) => x < y || (x == y && a.createdAt < b.createdAt)
  }

  function ClaimedRow(r: Row, now: int): Row {
    r.(status := Processing, lockedUntil := Some(now + LEASE), attempts := r.attempts + 1)
  }

  function ProcessedRow(r: Row, at: int): Row {
    if r.status == Processing then
      r.(status := Processed, processedAt := Some(at), lockedUntil := None, nextAttemptAt := None)
    else r
  }

  function ReleasedRow(r: Row, errMsg: string, at: int, delay: int): Row {
    if r.status == Processing then
      r.(status := Pending, lastError := Some(errMsg), lockedUntil := None, nextAttemptAt := Some(at + delay))
    else r
  }

  function FailedRow(r: Row, errMsg: string, at: int): Row {
    r.(status := Failed, lastError := Some(errMsg), lockedUntil := None, processedAt := Some(at))
  }

  // ---- the statements, on the table ----

  /** The rows a claim may look at: eligible and not locked by another open claim. */
  function Candidates(t: Table, now: int, locked: set<nat>): set<nat> {
    set id | id in t && id !in locked && Eligible(t[id], now)
  }

  /** `chosen` is a least prefix of `pool`, at most `limit` long, and maximal. */
  ghost predicate LeastPrefix(t: Table, pool: set<nat>, limit: nat, chosen: set<nat>)
    requires pool <= t.Keys
  {
    && chosen <= pool
    && |chosen| == Min(limit, |pool|)
    && forall i, j :: i in chosen && j in pool && j !in chosen ==> !Before(t[j], t[i])
  }

  function ClaimAll(t: Table, chosen: set<nat>, now: int): Table {
    map id | id in t :: if id in chosen then ClaimedRow(t[id], now) else t[id]
  }

  function MarkedProcessed(t: Table, id: nat, at: int): Table {
    if id in t then t[id := ProcessedRow(t[id], at)] else t
  }

  function Released(t: Table, id: nat, errMsg: string, at: int, delay: int): Table {
    if id in t then t[id := ReleasedRow(t[id], errMsg, at, delay)] else t
  }

  function MarkedFailed(t: Table, id: nat, errMsg: string, at: int): Table {
    if id in t then t[id := FailedRow(t[id], errMsg, at)] else t
  }

  // ---- the repository ----

  datatype Event = Event(id: nat, row: Row)

  function Members(ids: seq<nat>): set<nat> {
    set id | id in ids
  }

  /** `picked` lists, without repetition, the candidates that are no longer in the pool. */
  ghost predicate Partition(candidates: set<nat>, picked: seq<nat>, pool: set<nat>) {
    && Members(picked) !! pool
    && Members(picked) + pool == candidates
    && |Members(picked)| == |picked|
    && forall i, j :: 0 <= i < j < |picked| ==> picked[i] != picked[j]
  }

  lemma TakeOne(candidates: set<nat>, picked: seq<nat>, pool: set<nat>, next: nat)
    requires Partition(candidates, picked, pool) && next in pool
    ensures Partition(candidates, picked + [next], pool - {next})
    ensures Members(picked + [next]) == Members(picked) + {next}
  {
    MembersAppend(picked, next);
  }

  lemma MembersAppend(picked: seq<nat>, next: nat)
    ensures Members(picked + [next]) == Members(picked) + {next}
  {
  }

  lemma {:induction false} DistinctSize(picked: seq<nat>)
    requires forall i, j :: 0 <= i < j < |picked| ==> picked[i] != picked[j]
    ensures |Members(picked)| == |picked|
  {
    if picked != [] {
      var n := |picked| - 1;
      DistinctSize(picked[..n]);
      assert picked == picked[..n] + [picked[n]];
      MembersAppend(picked[..n], picked[n]);
    }
  }

  lemma PartitionSize(candidates: set<nat>, picked: seq<nat>, pool: set<nat>)
    requires Partition(candidates, picked, pool)
    ensures |candidates| == |picked| + |pool|
  {
  }

  // ---- the claim once more, in the rows' fields ----

  /** A claim takes unlocked rows that are due, and all of them unless it reaches its limit. */
  lemma ChosenAreDue(t: Table, now: int, locked: set<nat>, limit: nat, chosen: set<nat>)
    requires LeastPrefix(t, Candidates(t, now, locked), limit, chosen)
    ensures forall id :: id in chosen ==> id in t && id !in locked
    ensures forall id :: id in t && id !in locked && (id in chosen || |chosen| < limit) ==>
              var r := t[id];
              (id in chosen <==>
               (|| (&& r.status == Pending
                    && (r.lockedUntil.None? || r.lockedUntil.value < now)
                    && (r.nextAttemptAt.None? || r.nextAttemptAt.value <= now))
                || (r.status == Processing && r.lockedUntil.Some? && r.lockedUntil.value < now)))
  {
    var pool := Candidates(t, now, locked);
    forall id | id in pool && |chosen| < limit ensures id in chosen {
      if id !in chosen {
        SmallerSubset(chosen, pool, id);
      }
    }
  }

  lemma SmallerSubset(a: set<nat>, b: set<nat>, x: nat)
    requires a <= b && x in b && x !in a
    ensures |a| < |b|
  {
    assert |b - a| > 0 && b == a + (b - a);
  }

  /** What is left out of the pool does not come first: by the next attempt, none before any, then by the creation. */
  lemma ChosenComeFirst(t: Table, pool: set<nat>, limit: nat, chosen: set<nat>, i: nat, j: nat)
    requires pool <= t.Keys && LeastPrefix(t, pool, limit, chosen) && i in chosen && j in pool && j !in chosen
    ensures t[j].nextAttemptAt.None? ==> t[i].nextAttemptAt.None?
    ensures t[i].nextAttemptAt.Some? && t[j].nextAttemptAt.Some? ==> t[i].nextAttemptAt.value <= t[j].nextAttemptAt.value
    ensures t[i].nextAttemptAt == t[j].nextAttemptAt ==> t[i].createdAt <= t[j].createdAt
  {
    assert !Before(t[j], t[i]);
  }

  class OutboxRepository {
    var rows: Table

    constructor ()
      ensures rows == map[]
    {
      rows := map[];
    }

    method Create(id: nat, createdAt: int)
      requires id !in rows
      modifies this
      ensures rows == old(rows)[id := Row(Pending, 0, None, None, None, createdAt, None)]
    {
      rows := rows[id := Row(Pending, 0, None, None, None, createdAt, None)];
    }

    /** The first row of a nonempty pool in claim order. */
    method First(pool: set<nat>) returns (least: nat)
      requires pool != {}
      requires pool <= rows.Keys
      ensures least in pool
      ensures forall j :: j in pool ==> !Before(rows[j], rows[least])
    {
      least :| least in pool;
      var rest := pool - {least};
      while rest != {}
        invariant least in pool && rest <= pool
        invariant forall j :: j in pool && j !in rest ==> !Before(rows[j], rows[least])
        decreases rest
      {
        var c :| c in rest;
        if Before(rows[c], rows[least]) {
          least := c;
        }
        rest := rest - {c};
      }
    }

    /** ORDER BY ... LIMIT: the first `limit` rows of the pool, in claim order. */
    method Choose(candidates: set<nat>, limit: nat) returns (picked: seq<nat>)
      requires candidates <= rows.Keys
      ensures LeastPrefix(rows, candidates, limit, Members(picked))
      ensures forall i, j :: 0 <= i < j < |picked| ==> picked[i] != picked[j]
    {
      var pool := candidates;
      picked := [];
      while |picked| < limit && pool != {}
        invariant Partition(candidates, picked, pool) && |picked| <= limit
        invariant forall i, j :: i in Members(picked) && j in pool ==> !Before(rows[j], rows[i])
        decreases pool
      {
        var next := First(pool);
        TakeOne(candidates, picked, pool, next);
        picked, pool := picked + [next], pool - {next};
      }
      PartitionSize(candidates, picked, pool);
    }

    /**
    Claims up to `limit` rows and returns their claimed versions.  `locked` holds the rows
    that other open claim transactions have locked; they are skipped, not waited for.
    */
    method FetchAndMarkProcessing(limit: nat, now: int, locked: set<nat>)
      returns (picked: seq<nat>, events: seq<Event>)
      modifies this
      ensures LeastPrefix(old(rows), Candidates(old(rows), now, locked), limit, Members(picked))
      ensures rows == ClaimAll(old(rows), Members(picked), now)
      ensures forall i, j :: 0 <= i < j < |picked| ==> picked[i] != picked[j]
      ensures |events| == |picked|
      ensures forall i :: 0 <= i < |picked| ==> picked[i] in rows && events[i] == Event(picked[i], rows[picked[i]])
      // which rows are taken: unlocked ones that are due, all of them unless the limit is reached
      ensures forall id :: id in picked ==> id in old(rows) && id !in locked
      ensures forall id :: id in old(rows) && id !in locked && (id in picked || |picked| < limit) ==>
                var r := old(rows)[id];
                (id in picked <==>
                 (|| (&& r.status == Pending
                      && (r.lockedUntil.None? || r.lockedUntil.value < now)
                      && (r.nextAttemptAt.None? || r.nextAttemptAt.value <= now))
                  || (r.status == Processing && r.lockedUntil.Some? && r.lockedUntil.value < now)))
      // what becomes of them, and of the others
      ensures rows.Keys == old(rows).Keys
      ensures forall id :: id in rows && id !in picked ==> rows[id] == old(rows)[id]
      ensures forall id :: id in rows && id in picked ==>
                rows[id] == old(rows)[id].(status := Processing, lockedUntil := Some(now + 30_000_000_000),
                                           attempts := old(rows)[id].attempts + 1)
    {
      picked := Choose(Candidates(rows, now, locked), limit);
      ChosenAreDue(rows, now, locked, limit, Members(picked));
      DistinctSize(picked);
      var claimed := ClaimAll(rows, Members(picked), now);
      rows := claimed;
      events := seq(|picked|, i requires 0 <= i < |picked| && picked[i] in claimed =>
        Event(picked[i], claimed[picked[i]]));
    }

    method MarkProcessed(id: nat, at: int)
      modifies this
      ensures rows == MarkedProcessed(old(rows), id, at)
      ensures id in old(rows) && old(rows)[id].status == Processing ==>
                rows == old(rows)[id := old(rows)[id].(status := Processed, processedAt := Some(at), lockedUntil := None,
                                                       nextAttemptAt := None)]
      ensures id !in old(rows) || old(rows)[id].status != Processing ==> rows == old(rows)
    {
      if id in rows && rows[id].status == Processing {
        rows := rows[id := rows[id].(status := Processed, processedAt := Some(at),
                                     lockedUntil := None, nextAttemptAt := None)];
      } else {
        assert id in rows ==> rows[id := rows[id]] == rows;
      }
    }

    method ReleaseForRetry(id: nat, errMsg: string, at: int, delay: int)
      modifies this
      ensures rows == Released(old(rows), id, errMsg, at, delay)
      ensures id in old(rows) && old(rows)[id].status == Processing ==>
                rows == old(rows)[id := old(rows)[id].(status := Pending, lastError := Some(errMsg), lockedUntil := None,
                                                       nextAttemptAt := Some(at + delay))]
      ensures id !in old(rows) || old(rows)[id].status != Processing ==> rows == old(rows)
    {
      var next := at + delay;
      if id in rows && rows[id].status == Processing {
        rows := rows[id := rows[id].(status := Pending, lastError := Some(errMsg),
                                     lockedUntil := None, nextAttemptAt := Some(next))];
      } else {
        assert id in rows ==> rows[id := rows[id]] == rows;
      }
    }

    method MarkFailed(id: nat, errMsg: string, at: int)
      modifies this
      ensures rows == MarkedFailed(old(rows), id, errMsg, at)
      ensures id in old(rows) ==>
                rows == old(rows)[id := old(rows)[id].(status := Failed, lastError := Some(errMsg), lockedUntil := None,
                                                       processedAt := Some(at))]
      ensures id !in old(rows) ==> rows == old(rows)
    {
      if id in rows {
        rows := rows[id := rows[id].(status := Failed, lastError := Some(errMsg),
                                     lockedUntil := None, processedAt := Some(at))];
      }
    }
  }
}
