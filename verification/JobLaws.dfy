/** What the job queue guarantees over every interleaving of transactions by any number of workers. */
module JobLaws {
  import opened Prelude
  import opened Jobs

  /** A history: the tables between transactions, the transactions and their times. */
  datatype History<P> = History(tables: seq<seq<Job<P>>>, events: seq<Event<P>>, times: seq<int>)

  ghost predicate Possible<P(!new)>(h: History<P>) {
    && |h.tables| == |h.events| + 1 && |h.times| == |h.events|
    && forall i :: 0 <= i < |h.events| ==> Step(h, i)
  }

  ghost predicate Step<P(!new)>(h: History<P>, i: nat)
    requires |h.tables| == |h.events| + 1 && |h.times| == |h.events| && i < |h.events|
  {
    Leaves(h.tables[i], h.tables[i + 1], h.events[i], h.times[i])
  }

  // ----- attempt counters ---------------------------------------------------------------------------

  predicate WithinBounds<P>(j: Job<P>) {
    && 1 <= j.maxAttempts <= 20 && 0 <= j.attempts <= j.maxAttempts
    && (j.state == Queued ==> j.attempts < j.maxAttempts)
    && (j.state == Running ==> j.lockedAt.Some?)
  }

  ghost predicate OneRowPerKey<P(!new)>(rows: seq<Job<P>>) {
    forall i, j :: 0 <= i < j < |rows| ==> rows[i].key != rows[j].key
  }

  ghost predicate Sane<P(!new)>(rows: seq<Job<P>>) {
    OneRowPerKey(rows) && forall i :: 0 <= i < |rows| ==> WithinBounds(rows[i])
  }

  predicate SameJob<P(==)>(a: Job<P>, b: Job<P>) {
    a.key == b.key && a.kind == b.kind && a.payload == b.payload && a.maxAttempts == b.maxAttempts
  }

  ghost predicate Extends<P(!new)>(a: seq<Job<P>>, b: seq<Job<P>>) {
    |a| <= |b| && forall i :: 0 <= i < |a| ==> SameJob(a[i], b[i])
  }

  /** A late write of `fail_job` keeps the counters within bounds if and only if it does not requeue
      a row whose attempts were used up since they were read. */
  lemma LateWrite<P(!new)>(a: seq<Job<P>>, b: seq<Job<P>>, id: nat, again: bool, delay: int, now: int)
    requires Sane(a) && Leaves(a, b, Write(id, again, delay), now)
    ensures Sane(b) <==> !(again && id < |a| && a[id].attempts >= a[id].maxAttempts)
    ensures Extends(a, b)
  {
    if id < |a| {
      assert forall k :: 0 <= k < |a| && k != id ==> b[k] == a[k];
      assert b[id] == Reported(a[id], again, delay, now);
    }
  }

  predicate Careful<P>(a: seq<Job<P>>, e: Event<P>) {
    e.Write? && e.again && e.id < |a| ==> a[e.id].attempts < a[e.id].maxAttempts
  }

  lemma StepKeepsSane<P(!new)>(a: seq<Job<P>>, b: seq<Job<P>>, e: Event<P>, now: int)
    requires Sane(a) && Leaves(a, b, e, now) && Careful(a, e)
    ensures Sane(b) && Extends(a, b)
    ensures forall id :: 0 <= id < |a| ==>
      b[id].attempts == a[id].attempts + if e.Claim? && e.taken == Some(id) then 1 else 0
    ensures forall id :: |a| <= id < |b| ==> b[id].attempts == 0
    ensures e.Claim? && e.taken.Some? ==> e.taken.value < |a|
  {
    match e {
      case Enqueue(key, kind, payload, most) =>
      case Claim(kinds, lease, taken) =>
        SweepKeepsSane(a, Lease(lease), now);
        var swept := Recover(a, Lease(lease), now);
        if taken.Some? { OneRowChange(swept, taken.value, Started(swept[taken.value], now)); }
      case Complete(id) =>
        if id < |a| { OneRowChange(a, id, Completed(a[id])); }
      case Fail(id, retry, delay) =>
        if id < |a| { OneRowChange(a, id, Reported(a[id], CanRetry(a[id], retry), delay, now)); }
      case Write(id, again, delay) =>
        if id < |a| { OneRowChange(a, id, Reported(a[id], again, delay, now)); }
    }
  }

  lemma OneRowChange<P(!new)>(a: seq<Job<P>>, id: nat, x: Job<P>)
    requires Sane(a) && id < |a| && WithinBounds(x) && SameJob(a[id], x)
    ensures Sane(a[id := x]) && Extends(a, a[id := x])
  {
  }

  lemma SweepKeepsSane<P(!new)>(a: seq<Job<P>>, lease: int, now: int)
    requires Sane(a)
    ensures Sane(Recover(a, lease, now)) && Extends(a, Recover(a, lease, now))
    ensures forall id :: 0 <= id < |a| ==> Recover(a, lease, now)[id].attempts == a[id].attempts
  {
  }

  /** How often row `id` was claimed. */
  function Starts<P>(events: seq<Event<P>>, id: nat): nat {
    if events == [] then 0
    else
      var last := events[|events| - 1];
      Starts(events[..|events| - 1], id) + if last.Claim? && last.taken == Some(id) then 1 else 0
  }

  ghost predicate Counted<P(!new)>(rows: seq<Job<P>>, events: seq<Event<P>>) {
    && (forall id :: 0 <= id < |rows| ==> rows[id].attempts == Starts(events, id))
    && (forall id :: id >= |rows| ==> Starts(events, id) == 0)
  }

  ghost predicate AllCareful<P(!new)>(h: History<P>)
    requires Possible(h)
  {
    h.tables[0] == [] && forall i :: 0 <= i < |h.events| ==> Careful(h.tables[i], h.events[i])
  }

  lemma {:induction false} CountedUpTo<P(!new)>(h: History<P>, n: nat)
    requires Possible(h) && AllCareful(h) && n <= |h.events|
    ensures Sane(h.tables[n]) && Counted(h.tables[n], h.events[..n])
  {
    if n > 0 {
      CountedUpTo(h, n - 1);
      assert Step(h, n - 1);
      StepKeepsSane(h.tables[n - 1], h.tables[n], h.events[n - 1], h.times[n - 1]);
      assert h.events[..n] == h.events[..n - 1] + [h.events[n - 1]];
      forall id: nat
        ensures Starts(h.events[..n], id) == Starts(h.events[..n - 1], id)
                + if h.events[n - 1].Claim? && h.events[n - 1].taken == Some(id) then 1 else 0
      {
        StartsAppend(h.events[..n - 1], h.events[n - 1], id);
      }
    }
  }

  /** However many workers there are and whoever of them vanishes: `attempts` is the number of times
      a job was started, no job is started more than `max_attempts` times, and every key has one row. */
  lemma StartsAreCounted<P(!new)>(h: History<P>, id: nat)
    requires Possible(h) && AllCareful(h) && id < |h.tables[|h.events|]|
    ensures var last := h.tables[|h.events|];
      OneRowPerKey(last) && last[id].attempts == Starts(h.events, id) <= last[id].maxAttempts <= 20
  {
    CountedUpTo(h, |h.events|);
    assert h.events[..|h.events|] == h.events;
  }

  /** A row stays the job it was enqueued as. */
  lemma {:induction false} RowsKeepTheirJob<P(!new)>(h: History<P>, i: nat, n: nat)
    requires Possible(h) && AllCareful(h) && i <= n <= |h.events|
    ensures Extends(h.tables[i], h.tables[n])
  {
    if i < n {
      RowsKeepTheirJob(h, i, n - 1);
      CountedUpTo(h, n - 1);
      assert Step(h, n - 1);
      StepKeepsSane(h.tables[n - 1], h.tables[n], h.events[n - 1], h.times[n - 1]);
      ExtendsTransitive(h.tables[i], h.tables[n - 1], h.tables[n]);
    }
  }

  lemma ExtendsTransitive<P(!new)>(a: seq<Job<P>>, b: seq<Job<P>>, c: seq<Job<P>>)
    requires Extends(a, b) && Extends(b, c)
    ensures Extends(a, c)
  {
  }

  /** Without that care the bound is lost: a job limited to two attempts starts a third time. */
  lemma LateWriteBreaksBound<P(!new)>(payload: P) returns (h: History<P>)
    ensures Possible(h) && h.tables[0] == []
    ensures Starts(h.events, 0) == 3 && |h.tables[|h.events|]| == 1 && h.tables[|h.events|][0].maxAttempts == 2
  {
    var j := NewJob("k", "document", payload, 2, 0);
    var once, late := Started(j, 0), Started(Requeued(Started(j, 0), 100), 100);
    var requeued := Requeued(late, 102);
    var third := Started(requeued, 102);
    var claim: Event<P> := Claim({"document"}, 30, Some(0));
    h := History([[], [j], [once], [late], [requeued], [third]],
                 [Enqueue("k", "document", payload, 2), claim, claim, Write(0, true, 1), claim],
                 [0, 0, 100, 101, 102]);
    assert |h.events| == 5 && h.tables[5] == [third];
    assert Recover([j], 30, 0) == [j];
    assert Recover([once], 30, 100) == [Requeued(once, 100)];
    assert Recover([requeued], 30, 102) == [requeued];
    forall i | 0 <= i < 5 ensures Step(h, i) { }
    StartsAppend([], h.events[0], 0);
    StartsAppend([] + [h.events[0]], claim, 0);
    StartsAppend([] + [h.events[0]] + [claim], claim, 0);
    StartsAppend([] + [h.events[0]] + [claim] + [claim], h.events[3], 0);
    StartsAppend([] + [h.events[0]] + [claim] + [claim] + [h.events[3]], claim, 0);
    assert h.events == [] + [h.events[0]] + [claim] + [claim] + [h.events[3]] + [claim];
  }

  lemma StartsAppend<P>(events: seq<Event<P>>, e: Event<P>, id: nat)
    ensures Starts(events + [e], id) == Starts(events, id) + if e.Claim? && e.taken == Some(id) then 1 else 0
  {
  }

  // ----- termination --------------------------------------------------------------------------------

  /** Transactions that a row can still undergo. */
  function Work<P>(j: Job<P>): nat
    requires WithinBounds(j)
  {
    if Finished(j) then 0 else 2 * (j.maxAttempts - j.attempts) + if j.state == Running then 1 else 0
  }

  ghost function TotalWork<P(!new)>(rows: seq<Job<P>>): nat
    requires forall i :: 0 <= i < |rows| ==> WithinBounds(rows[i])
  {
    if rows == [] then 0 else TotalWork(rows[..|rows| - 1]) + Work(rows[|rows| - 1])
  }

  lemma {:induction false} LessWork<P(!new)>(a: seq<Job<P>>, b: seq<Job<P>>)
    requires |a| == |b|
    requires forall i :: 0 <= i < |a| ==> WithinBounds(a[i]) && WithinBounds(b[i])
    requires forall i :: 0 <= i < |a| ==> b[i] == a[i] || Work(b[i]) < Work(a[i])
    ensures b == a || TotalWork(b) < TotalWork(a)
  {
    if a != [] {
      var n := |a| - 1;
      LessWork(a[..n], b[..n]);
      assert a == a[..n] + [a[n]] && b == b[..n] + [b[n]];
    }
  }

  /** Only the holder of a lease reports on its job. */
  predicate LiveReport<P>(a: seq<Job<P>>, e: Event<P>) {
    && (e.Complete? && e.id < |a| ==> a[e.id].state == Running)
    && (e.Fail? && e.id < |a| ==> a[e.id].state == Running)
    && !e.Write?
  }

  /** Every claim, expiry, failure and completion uses up work; finished rows never change. */
  lemma EveryChangeIsProgress<P(!new)>(a: seq<Job<P>>, b: seq<Job<P>>, e: Event<P>, now: int)
    requires Sane(a) && Sane(b) && Leaves(a, b, e, now) && LiveReport(a, e) && !e.Enqueue?
    ensures |b| == |a| && forall i :: 0 <= i < |a| ==> b[i] == a[i] || Work(b[i]) < Work(a[i])
    ensures b == a || TotalWork(b) < TotalWork(a)
    ensures forall i :: 0 <= i < |a| && (a[i].state == Succeeded || a[i].state == Failed) ==> b[i] == a[i]
  {
    forall i | 0 <= i < |a| ensures b[i] == a[i] || (Work(b[i]) < Work(a[i]) && !Finished(a[i])) {
      assert WithinBounds(a[i]) && WithinBounds(b[i]);
    }
    LessWork(a, b);
  }

  /** How many of the first `n` transactions, other than enqueueing, changed something. */
  ghost function Changes<P(!new)>(h: History<P>, n: nat): nat
    requires Possible(h) && n <= |h.events|
  {
    if n == 0 then 0
    else Changes(h, n - 1) + if !h.events[n - 1].Enqueue? && h.tables[n - 1] != h.tables[n] then 1 else 0
  }

  function Enqueues<P>(events: seq<Event<P>>, n: nat): nat
    requires n <= |events|
  {
    if n == 0 then 0 else Enqueues(events, n - 1) + if events[n - 1].Enqueue? then 1 else 0
  }

  /** Every history makes at most forty changes per enqueued job: no job is retried for ever. */
  lemma {:induction false} QueueTerminates<P(!new)>(h: History<P>, n: nat)
    requires Possible(h) && h.tables[0] == [] && n <= |h.events|
    requires forall i :: 0 <= i < |h.events| ==> LiveReport(h.tables[i], h.events[i])
    ensures Sane(h.tables[n])
    ensures Changes(h, n) + TotalWork(h.tables[n]) <= 40 * Enqueues(h.events, n)
  {
    if n > 0 {
      QueueTerminates(h, n - 1);
      assert Step(h, n - 1);
      var a, b, e := h.tables[n - 1], h.tables[n], h.events[n - 1];
      StepKeepsSane(a, b, e, h.times[n - 1]);
      if e.Enqueue? {
        assert b == a || (b[..|a|] == a && |b| == |a| + 1 && Work(b[|a|]) <= 40);
      } else {
        EveryChangeIsProgress(a, b, e, h.times[n - 1]);
      }
    }
  }

  /** The hypothesis on reporters is needed: a report that arrives late reopens a finished job, exactly
      when it asks for a retry and attempts are left. */
  lemma LateReport<P(!new)>(a: seq<Job<P>>, b: seq<Job<P>>, id: nat, retry: bool, delay: int, now: int)
    requires id < |a| && (a[id].state == Succeeded || a[id].state == Failed)
    requires Leaves(a, b, Event.Fail(id, retry, delay), now)
    ensures b[id].state == if retry && a[id].attempts < a[id].maxAttempts then Queued else Failed
  {
  }

  // ----- leases -------------------------------------------------------------------------------------

  predicate Reports<P>(e: Event<P>, id: nat) {
    (e.Complete? && e.id == id) || (e.Fail? && e.id == id) || (e.Write? && e.id == id)
  }

  predicate HeldSince<P>(rows: seq<Job<P>>, id: nat, at: int) {
    id < |rows| && rows[id].state == Running && rows[id].lockedAt == Some(at)
  }

  /** Some claim among the transactions after `i` and before `m` found the lease of a start at transaction
      `i` to be over. */
  ghost predicate Expired<P(!new)>(h: History<P>, i: nat, m: nat)
    requires Possible(h) && i < m <= |h.events|
  {
    exists k :: i < k < m && h.events[k].Claim? && h.times[k] > h.times[i] + Lease(h.events[k].lease)
  }

  lemma {:induction false} StillHeld<P(!new)>(h: History<P>, i: nat, m: nat, id: nat)
    requires Possible(h) && i < m <= |h.events|
    requires h.events[i].Claim? && h.events[i].taken == Some(id)
    requires forall k :: i < k < m ==> !Reports(h.events[k], id)
    ensures HeldSince(h.tables[m], id, h.times[i]) || Expired(h, i, m)
    decreases m
  {
    if m > i + 1 {
      StillHeld(h, i, m - 1, id);
      assert Step(h, m - 1);
      assert !Reports(h.events[m - 1], id);
    } else {
      assert Step(h, i);
    }
  }

  /** A job that was started and not reported on is not started again until a claim finds that its own
      lease has passed since the start: the second start itself, or an earlier claim. */
  lemma StartsAreApart<P(!new)>(h: History<P>, i: nat, j: nat, id: nat)
    requires Possible(h) && i < j < |h.events|
    requires h.events[i].Claim? && h.events[i].taken == Some(id)
    requires h.events[j].Claim? && h.events[j].taken == Some(id)
    requires forall k :: i < k < j ==> !Reports(h.events[k], id)
    ensures Expired(h, i, j + 1)
  {
    StillHeld(h, i, j, id);
    assert Step(h, j);
    if HeldSince(h.tables[j], id, h.times[i]) {
      assert LeaseOver(h.tables[j][id], Lease(h.events[j].lease), h.times[j]);
    }
  }

  /** So two starts without a report between them are a full lease apart, for the shortest lease that any
      claim in between asked for. */
  lemma StartsAreALeaseApart<P(!new)>(h: History<P>, i: nat, j: nat, id: nat, lease: int)
    requires Possible(h) && Monotone(h.times) && i < j < |h.events|
    requires h.events[i].Claim? && h.events[i].taken == Some(id)
    requires h.events[j].Claim? && h.events[j].taken == Some(id)
    requires forall k :: i < k < j ==> !Reports(h.events[k], id)
    requires forall k :: i < k <= j && h.events[k].Claim? ==> Lease(h.events[k].lease) >= lease
    ensures h.times[j] > h.times[i] + lease
  {
    StartsAreApart(h, i, j, id);
  }
}
