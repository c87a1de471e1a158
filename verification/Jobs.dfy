/** The persistent job queue of `PostgresDatabase`.  Rows are never deleted, so row `i` of the table
    is the job with id `i + 1`.  Every method is one transaction; `now` is its `NOW()`. */
module Jobs {
  import opened Prelude

  datatype State = Queued | Running | Succeeded | Failed

  datatype Job<P> = Job(key: string, kind: string, payload: P, state: State, attempts: int, maxAttempts: int,
                        availableAt: int, lockedAt: Option<int>)

  predicate Finished<P>(j: Job<P>) { j.state == Succeeded || j.state == Failed }

  // ----- what the statements do to a row ---------------------------------------------------------

  function NewJob<P>(key: string, kind: string, payload: P, maxAttempts: int, now: int): Job<P> {
    Job(Prefix(key, 200), Prefix(kind, 80), payload, Queued, 0, Clamp(maxAttempts, 1, 20), now, None)
  }

  predicate LeaseOver<P>(j: Job<P>, lease: int, now: int) {
    j.state == Running && j.lockedAt.Some? && j.lockedAt.value < now - lease
  }

  function Requeued<P>(j: Job<P>, at: int): Job<P> { j.(state := Queued, lockedAt := None, availableAt := at) }

  /** A row whose worker has vanished goes back to the queue, or fails if that was its last attempt. */
  function Recovered<P>(j: Job<P>, lease: int, now: int): Job<P> {
    if !LeaseOver(j, lease, now) then j
    else if j.attempts < j.maxAttempts then Requeued(j, now)
    else j.(state := Failed, lockedAt := None)
  }

  function Started<P>(j: Job<P>, now: int): Job<P> {
    j.(state := Running, attempts := j.attempts + 1, lockedAt := Some(now))
  }

  function Completed<P>(j: Job<P>): Job<P> { j.(state := Succeeded, lockedAt := None) }

  predicate CanRetry<P>(j: Job<P>, retry: bool) { retry && j.attempts < j.maxAttempts }

  function Reported<P>(j: Job<P>, again: bool, delay: int, now: int): Job<P> {
    if again then Requeued(j, now + Clamp(delay, 1, 900)) else j.(state := Failed, lockedAt := None)
  }

  // ----- what the transactions do to the table ----------------------------------------------------

  predicate Eligible<P>(j: Job<P>, kinds: set<string>, now: int) {
    j.state == Queued && j.availableAt <= now && j.kind in kinds
  }

  /** `i` is the first row that may be claimed. */
  ghost predicate FirstEligible<P(!new)>(rows: seq<Job<P>>, kinds: set<string>, now: int, i: nat) {
    i < |rows| && Eligible(rows[i], kinds, now) && forall k :: 0 <= k < i ==> !Eligible(rows[k], kinds, now)
  }

  function Lease(seconds: int): (r: int)
    ensures 30 <= r <= 3600
  {
    Clamp(seconds, 30, 3600)
  }

  function Recover<P>(rows: seq<Job<P>>, lease: int, now: int): seq<Job<P>> {
    seq(|rows|, i requires 0 <= i < |rows| => Recovered(rows[i], lease, now))
  }

  /** One transaction.  `Write` is the second statement of a `fail_job` whose first statement ran
      earlier; `Fail` is a `fail_job` that nothing interrupts. */
  datatype Event<P> =
    | Enqueue(key: string, kind: string, payload: P, maxAttempts: int)
    | Claim(kinds: set<string>, lease: int, taken: Option<nat>)
    | Complete(id: nat)
    | Fail(id: nat, retry: bool, delay: int)
    | Write(id: nat, again: bool, delay: int)

  ghost predicate Leaves<P(!new)>(a: seq<Job<P>>, b: seq<Job<P>>, e: Event<P>, now: int) {
    match e
    case Enqueue(key, kind, payload, most) =>
      if exists i :: 0 <= i < |a| && a[i].key == Prefix(key, 200) then b == a
      else b == a + [NewJob(key, kind, payload, most, now)]
    case Claim(kinds, lease, taken) =>
      var swept := Recover(a, Lease(lease), now);
      if taken.None? then b == swept
      else FirstEligible(swept, kinds, now, taken.value) && b == swept[taken.value := Started(swept[taken.value], now)]
    case Complete(id) => b == if id < |a| then a[id := Completed(a[id])] else a
    case Fail(id, retry, delay) =>
      b == if id < |a| then a[id := Reported(a[id], CanRetry(a[id], retry), delay, now)] else a
    case Write(id, again, delay) => b == if id < |a| then a[id := Reported(a[id], again, delay, now)] else a
  }

  class PostgresDatabase<P(!new)> {
    var rows: seq<Job<P>>

    constructor (rows: seq<Job<P>>)
      ensures this.rows == rows
    {
      this.rows := rows;
    }

    /** Inserts a row unless its key is taken; a taken key changes nothing. */
    method EnqueueJob(key: string, kind: string, payload: P, maxAttempts: int, now: int) returns (id: nat)
      modifies this
      ensures id < |rows| && rows[id].key == Prefix(key, 200)
      ensures Leaves(old(rows), rows, Enqueue(key, kind, payload, maxAttempts), now)
      ensures (exists i :: 0 <= i < |old(rows)| && old(rows)[i].key == Prefix(key, 200)) ==> rows == old(rows)
      ensures (forall i :: 0 <= i < |old(rows)| ==> old(rows)[i].key != Prefix(key, 200)) ==>
        && id == |old(rows)| && rows == old(rows) + [rows[id]]
        && rows[id].kind == Prefix(kind, 80) && rows[id].payload == payload
        && rows[id].state == Queued && rows[id].attempts == 0 && rows[id].maxAttempts == Clamp(maxAttempts, 1, 20)
        && rows[id].availableAt == now && rows[id].lockedAt == None
    {
      var i := 0;
      while i < |rows|
        invariant 0 <= i <= |rows|
        invariant forall k :: 0 <= k < i ==> rows[k].key != Prefix(key, 200)
      {
        if rows[i].key == Prefix(key, 200) { return i; }
        i := i + 1;
      }
      rows := rows + [NewJob(key, kind, payload, maxAttempts, now)];
      return |rows| - 1;
    }

    /** Recovers rows whose lease ran out and starts the first row that is due. */
    method ClaimJob(kinds: set<string>, leaseSeconds: int, now: int) returns (id: Option<nat>)
      modifies this
      ensures Leaves(old(rows), rows, Claim(kinds, leaseSeconds, id), now)
      ensures |rows| == |old(rows)| && (id.Some? ==> id.value < |rows|)
      ensures forall k :: 0 <= k < |rows| && id != Some(k) ==>
        var j := old(rows)[k];
        rows[k] ==
          if j.state != Running || j.lockedAt.None? || j.lockedAt.value >= now - Clamp(leaseSeconds, 30, 3600) then j
          else if j.attempts < j.maxAttempts then j.(state := Queued, lockedAt := None, availableAt := now)
          else j.(state := Failed, lockedAt := None)
      ensures id.Some? ==>
        var j, j' := old(rows)[id.value], rows[id.value];
        && (if j.state == Queued then j'.availableAt == j.availableAt <= now
            else && j.state == Running && j.lockedAt.Some? && j.lockedAt.value < now - Clamp(leaseSeconds, 30, 3600)
                 && j.attempts < j.maxAttempts && j'.availableAt == now)
        && j.kind in kinds
        && j' == j.(state := Running, attempts := j.attempts + 1, lockedAt := Some(now), availableAt := j'.availableAt)
      ensures forall k :: 0 <= k < (if id.Some? then id.value else |rows|) ==>
        !(rows[k].state == Queued && rows[k].availableAt <= now && rows[k].kind in kinds)
    {
      var lease := Lease(leaseSeconds);
      ghost var swept := Recover(rows, lease, now);
      for i := 0 to |rows|   // back to the queue
        invariant |rows| == |old(rows)|
        invariant forall k :: i <= k < |rows| ==> rows[k] == old(rows)[k]
        invariant forall k :: 0 <= k < i ==>
          rows[k] == if old(rows)[k].attempts < old(rows)[k].maxAttempts then swept[k] else old(rows)[k]
      {
        if LeaseOver(rows[i], lease, now) && rows[i].attempts < rows[i].maxAttempts {
          rows := rows[i := Requeued(rows[i], now)];
        }
      }
      for i := 0 to |rows|   // out of attempts
        invariant |rows| == |old(rows)|
        invariant forall k :: 0 <= k < i ==> rows[k] == swept[k]
        invariant forall k :: i <= k < |rows| ==>
          rows[k] == if old(rows)[k].attempts < old(rows)[k].maxAttempts then swept[k] else old(rows)[k]
      {
        if LeaseOver(rows[i], lease, now) && rows[i].attempts >= rows[i].maxAttempts {
          rows := rows[i := rows[i].(state := Failed, lockedAt := None)];
        }
      }
      assert rows == swept;
      var i := 0;
      while i < |rows|
        invariant 0 <= i <= |rows|
        invariant forall k :: 0 <= k < i ==> !Eligible(rows[k], kinds, now)
      {
        if Eligible(rows[i], kinds, now) {
          rows := rows[i := Started(rows[i], now)];
          return Some(i);
        }
        i := i + 1;
      }
      return None;
    }

    method CompleteJob(id: nat, ghost now: int)
      modifies this
      ensures Leaves(old(rows), rows, Complete(id), now)
      ensures id >= |old(rows)| ==> rows == old(rows)
      ensures id < |old(rows)| ==> rows == old(rows)[id := old(rows)[id].(state := Succeeded, lockedAt := None)]
    {
      if id < |rows| { rows := rows[id := Completed(rows[id])]; }
    }

    /** First half of `fail_job`: reads the attempt counters. */
    method FailRead(id: nat, retry: bool) returns (again: bool)
      ensures again <==> id < |rows| && CanRetry(rows[id], retry)
      ensures again <==> retry && id < |rows| && rows[id].attempts < rows[id].maxAttempts
    {
      return id < |rows| && retry && rows[id].attempts < rows[id].maxAttempts;
    }

    /** Second half of `fail_job`: a separate statement that acts on what was read. */
    method FailWrite(id: nat, again: bool, delay: int, now: int)
      modifies this
      ensures Leaves(old(rows), rows, Write(id, again, delay), now)
      ensures id >= |old(rows)| ==> rows == old(rows)
      ensures id < |old(rows)| ==>
        var j := old(rows)[id];
        rows == old(rows)[id :=
          if again then j.(state := Queued, lockedAt := None, availableAt := now + Clamp(delay, 1, 900))
          else j.(state := Failed, lockedAt := None)]
    {
      if id < |rows| { rows := rows[id := Reported(rows[id], again, delay, now)]; }
    }

    /** `fail_job` when nothing comes between its two statements. */
    method FailJob(id: nat, retry: bool, delay: int, now: int) returns (again: bool)
      modifies this
      ensures again <==> id < |old(rows)| && CanRetry(old(rows)[id], retry)
      ensures Leaves(old(rows), rows, Event.Fail(id, retry, delay), now)
    {
      again := FailRead(id, retry);
      FailWrite(id, again, delay, now);
    }
  }
}
