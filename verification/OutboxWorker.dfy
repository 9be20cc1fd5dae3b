/**
What one worker goroutine writes for its event, and what the dispatch loop writes for the events
it gives back: the statements that the protocol's Record and ReleaseUnprocessed steps stand for.
A statement that fails is logged and not tried again; in the protocol its task is then lost.
*/
module OutboxWorker {
  import opened Wrappers
  import opened Backoff
  import opened OutboxTable
  import opened OutboxProtocol

  /** One bookkeeping statement: the process clock it read, and whether the database took it. */
  datatype Write = Write(at: int, ok: bool)

  /** The rows after trying to give back these events one after the other. */
  function GivenBack(rows: Table, events: seq<Event>, writes: seq<Write>): Table
    requires |writes| == |events|
  {
    if events == [] then rows
    else
      var n := |events| - 1;
      var before := GivenBack(rows, events[..n], writes[..n]);
      if writes[n].ok then Released(before, events[n].id, "worker shutdown", writes[n].at, 0) else before
  }

  class Worker {
    const repo: OutboxRepository
    const maxRetries: int

    constructor (repo: OutboxRepository, maxRetries: int)
      ensures this.repo == repo && this.maxRetries == maxRetries
    {
      this.repo := repo;
      this.maxRetries := maxRetries;
    }

    /** Records the outcome of relaying a claimed event, by the attempts the claim saw. */
    method HandleEvent(ev: Event, relayed: bool, errMsg: string, write: Write)
      modifies repo
      ensures repo.rows
           == if write.ok then Recorded(maxRetries, old(repo.rows), TaskKey(ev.id, ev.row.attempts), relayed, errMsg, write.at)
              else old(repo.rows)
      ensures !write.ok || ev.id !in old(repo.rows) ==> repo.rows == old(repo.rows)
      ensures write.ok && ev.id in old(repo.rows) ==>
                var r := old(repo.rows)[ev.id];
                repo.rows == old(repo.rows)[ev.id :=
                  if relayed then
                    if r.status != Processing then r
                    else r.(status := Processed, processedAt := Some(write.at), lockedUntil := None, nextAttemptAt := None)
                  else if ev.row.attempts >= maxRetries then
                    r.(status := Failed, lastError := Some(errMsg), lockedUntil := None, processedAt := Some(write.at))
                  else if r.status != Processing then r
                  else r.(status := Pending, lastError := Some(errMsg), lockedUntil := None,
                          nextAttemptAt := Some(write.at + DelayAfter(ev.row.attempts)))]
    {
      if !relayed {
        if ev.row.attempts >= maxRetries {
          if write.ok {
            repo.MarkFailed(ev.id, errMsg, write.at);
          }
          return;
        }
        var backoff := ComputeBackoff(ev.row.attempts);
        if write.ok {
          repo.ReleaseForRetry(ev.id, errMsg, write.at, backoff);
        }
        return;
      }
      if write.ok {
        repo.MarkProcessed(ev.id, write.at);
      }
    }

    /** Gives back the rest of a batch; a release that fails does not keep the others from being tried. */
    method ReleaseUnprocessed(events: seq<Event>, writes: seq<Write>)
      requires |writes| == |events|
      modifies repo
      ensures repo.rows == GivenBack(old(repo.rows), events, writes)
    {
      for i := 0 to |events|
        invariant repo.rows == GivenBack(old(repo.rows), events[..i], writes[..i])
      {
        assert events[..i + 1][..i] == events[..i] && writes[..i + 1][..i] == writes[..i];
        if writes[i].ok {
          repo.ReleaseForRetry(events[i].id, "worker shutdown", writes[i].at, 0);
        }
      }
      assert events[..|events|] == events && writes[..|events|] == writes;
    }
  }

  predicate WrittenFor(events: seq<Event>, writes: seq<Write>, id: nat, k: nat)
    requires k < |events| == |writes|
  {
    events[k].id == id && writes[k].ok
  }

  /** The position of the first release of this row that the database took, or the end if it took none. */
  ghost predicate FirstWritten(events: seq<Event>, writes: seq<Write>, id: nat, k: nat)
    requires |events| == |writes|
  {
    && k <= |events| && (k < |events| ==> WrittenFor(events, writes, id, k))
    && forall j :: 0 <= j < k ==> !WrittenFor(events, writes, id, j)
  }

  /**
  Each row ends as the first release of it that the database took leaves it, at that release's
  time, whatever order, repetition and failures there are; a row with no such release is untouched.
  */
  lemma {:induction false} GivenBackRow(rows: Table, events: seq<Event>, writes: seq<Write>, id: nat, k: nat)
    requires id in rows && |writes| == |events| && FirstWritten(events, writes, id, k)
    ensures id in GivenBack(rows, events, writes)
    ensures GivenBack(rows, events, writes)[id]
         == if k < |events| && rows[id].status == Processing
            then rows[id].(status := Pending, lastError := Some("worker shutdown"), lockedUntil := None,
                           nextAttemptAt := Some(writes[k].at))
            else rows[id]
    decreases |events|
  {
    if events != [] {
      var n := |events| - 1;
      forall j | 0 <= j < n ensures WrittenFor(events[..n], writes[..n], id, j) == WrittenFor(events, writes, id, j) {
      }
      GivenBackRow(rows, events[..n], writes[..n], id, if k < n then k else n);
      assert k == |events| ==> !WrittenFor(events, writes, id, n);
    }
  }
}
