/** `TokenBucket`: how many requests a bot or an administrator may make. */
module Rate {

  /** `at` is the monotonic clock of the call. */
  datatype Call = Call(at: real, cost: real)

  /** Tokens per second, capacity, and the time of construction. */
  datatype Bucket = Bucket(rate: real, capacity: real, start: real)

  function Max(a: int, b: int): int { if a >= b then a else b }

  function Min(a: real, b: real): real { if a <= b then a else b }

  function Configured(perMinute: int, burst: int, start: real): Bucket {
    Bucket(Max(1, perMinute) as real / 60.0, Max(1, burst) as real, start)
  }

  class TokenBucket {
    const rate: real
    const capacity: real
    var tokens: real
    var updated: real

    constructor (perMinute: int, burst: int, now: real)
      ensures Bucket(rate, capacity, now) == Configured(perMinute, burst, now)
      ensures tokens == capacity && updated == now
    {
      rate := Max(1, perMinute) as real / 60.0;
      capacity := Max(1, burst) as real;
      tokens := Max(1, burst) as real;
      updated := now;
    }

    method Allow(now: real, cost: real) returns (granted: bool)
      modifies this
      ensures var level := Refilled(rate, capacity, old(tokens), old(updated), now);
        && granted == (cost <= level) && updated == now
        && tokens == if granted then level - cost else level
    {
      var elapsed := if now - updated > 0.0 then now - updated else 0.0;
      updated := now;
      tokens := Min(capacity, tokens + elapsed * rate);
      if tokens < cost { return false; }
      tokens := tokens - cost;
      return true;
    }
  }

  /** The tokens in the bucket once the time since the last call has been credited. */
  function Refilled(rate: real, capacity: real, tokens: real, updated: real, now: real): real {
    Min(capacity, tokens + (if now - updated > 0.0 then now - updated else 0.0) * rate)
  }

  // ----- runs, by what each call brings in and asks for -------------------------------------------------

  /** A call with the tokens credited for the time since the call before it. */
  datatype Turn = Turn(credit: real, cost: real)

  /** Tokens left after the first `n` calls of a full bucket. */
  function Tokens(capacity: real, turns: seq<Turn>, n: nat): real
    requires n <= |turns|
    decreases n, 0
  {
    if n == 0 then capacity
    else Level(capacity, turns, n - 1) - if Granted(capacity, turns, n - 1) then turns[n - 1].cost else 0.0
  }

  function Level(capacity: real, turns: seq<Turn>, i: nat): real
    requires i < |turns|
    decreases i, 1
  {
    Min(capacity, Tokens(capacity, turns, i) + turns[i].credit)
  }

  predicate Granted(capacity: real, turns: seq<Turn>, i: nat)
    requires i < |turns|
    decreases i, 2
  {
    turns[i].cost <= Level(capacity, turns, i)
  }

  /** What calls `i` to `j - 1` were granted. */
  function Spent(capacity: real, turns: seq<Turn>, i: nat, j: nat): real
    requires i <= j <= |turns|
    decreases j
  {
    if i == j then 0.0
    else Spent(capacity, turns, i, j - 1) + if Granted(capacity, turns, j - 1) then turns[j - 1].cost else 0.0
  }

  /** What was credited from just after call `i` up to call `j`. */
  function Earned(turns: seq<Turn>, i: nat, j: nat): real
    requires i <= j < |turns|
    decreases j
  {
    if i == j then 0.0 else Earned(turns, i, j - 1) + turns[j].credit
  }

  /** What the bucket could still give at call `i` if only the calls from `k` on counted. */
  function Allowance(capacity: real, turns: seq<Turn>, k: nat, i: nat): real
    requires k <= i < |turns|
  {
    capacity + Earned(turns, k, i) - Spent(capacity, turns, k, i)
  }

  /** The level of the bucket is the smallest allowance over all windows that end with this call. */
  lemma {:induction false} LevelIsLeastAllowance(capacity: real, turns: seq<Turn>, i: nat) returns (k: nat)
    requires i < |turns| && forall x :: 0 <= x < |turns| ==> turns[x].credit >= 0.0
    ensures forall w :: 0 <= w <= i ==> Level(capacity, turns, i) <= Allowance(capacity, turns, w, i)
    ensures k <= i && Level(capacity, turns, i) == Allowance(capacity, turns, k, i)
    decreases i
  {
    if i == 0 {
      k := 0;
    } else {
      k := LevelIsLeastAllowance(capacity, turns, i - 1);
      forall w | 0 <= w <= i ensures Level(capacity, turns, i) <= Allowance(capacity, turns, w, i) {
        if w < i { assert Level(capacity, turns, i - 1) <= Allowance(capacity, turns, w, i - 1); }
      }
      if Level(capacity, turns, i) == capacity { k := i; }
    }
  }

  lemma {:induction false} SpentWithin(capacity: real, turns: seq<Turn>, i: nat, j: nat, earned: real)
    requires i <= j <= |turns| && capacity >= 0.0 && earned >= 0.0
    requires forall x :: 0 <= x < |turns| ==> turns[x].credit >= 0.0
    requires forall x :: i <= x < j ==> Earned(turns, i, x) <= earned
    ensures Spent(capacity, turns, i, j) <= capacity + earned
    decreases j
  {
    if i < j {
      if Granted(capacity, turns, j - 1) {
        var k := LevelIsLeastAllowance(capacity, turns, j - 1);
        assert Level(capacity, turns, j - 1) <= Allowance(capacity, turns, i, j - 1);
      } else {
        SpentWithin(capacity, turns, i, j - 1, earned);
      }
    }
  }

  // ----- runs, by the clock -----------------------------------------------------------------------------

  /** The clock does not go back. */
  ghost predicate Regular(start: real, calls: seq<Call>) {
    && (forall i :: 0 <= i < |calls| ==> start <= calls[i].at)
    && (forall i, j :: 0 <= i <= j < |calls| ==> calls[i].at <= calls[j].at)
  }

  function Plus(x: real, y: real): real { x + y }

  /** Tokens earned in a stretch of time add up and are not negative. */
  ghost predicate Additive(earn: real -> real) {
    && earn(0.0) == 0.0
    && (forall x, y {:trigger Plus(x, y)} :: earn(Plus(x, y)) == earn(x) + earn(y))
    && (forall x :: x >= 0.0 ==> earn(x) >= 0.0)
  }

  function Gap(start: real, calls: seq<Call>, i: nat): real
    requires i < |calls|
  {
    var gap := calls[i].at - if i == 0 then start else calls[i - 1].at;
    if gap > 0.0 then gap else 0.0
  }

  function Turns(earn: real -> real, start: real, calls: seq<Call>): (turns: seq<Turn>)
    ensures |turns| == |calls|
    ensures forall i {:trigger turns[i]} :: 0 <= i < |calls| ==>
      turns[i] == Turn(earn(Gap(start, calls, i)), calls[i].cost)
  {
    seq(|calls|, i requires 0 <= i < |calls| => Turn(earn(Gap(start, calls, i)), calls[i].cost))
  }

  lemma {:induction false} EarnedBetween(earn: real -> real, at: seq<real>, turns: seq<Turn>, i: nat, j: nat)
    requires |at| == |turns| && i <= j < |turns| && Additive(earn)
    requires forall x {:trigger turns[x]} :: 0 < x < |turns| ==> turns[x].credit == earn(at[x] - at[x - 1])
    ensures Earned(turns, i, j) == earn(at[j] - at[i])
    decreases j
  {
    if i == j {
      assert at[j] - at[i] == 0.0;
    } else {
      EarnedBetween(earn, at, turns, i, j - 1);
      AddsUp(earn, at[i], at[j - 1], at[j]);
      assert turns[j].credit == earn(at[j] - at[j - 1]);
    }
  }

  lemma AddsUp(earn: real -> real, x: real, y: real, z: real)
    requires Additive(earn)
    ensures earn(z - x) == earn(y - x) + earn(z - y)
  {
    assert Plus(y - x, z - y) == z - x;
  }

  lemma EarnedInTime(earn: real -> real, start: real, calls: seq<Call>, i: nat, j: nat)
    requires Regular(start, calls) && Additive(earn) && i <= j < |calls|
    ensures Earned(Turns(earn, start, calls), i, j) == earn(calls[j].at - calls[i].at)
  {
    var at := seq(|calls|, x requires 0 <= x < |calls| => calls[x].at);
    var turns := Turns(earn, start, calls);
    forall x {:trigger turns[x]} | 0 < x < |turns| ensures turns[x].credit == earn(at[x] - at[x - 1]) {
      assert calls[x - 1].at <= calls[x].at;
    }
    EarnedBetween(earn, at, turns, i, j);
  }

  /** A call is granted if and only if granting it keeps every window that began with an earlier call,
      or begins with this one, within burst plus what is earned over its length. */
  lemma GrantedIffEarned(earn: real -> real, capacity: real, start: real, calls: seq<Call>, i: nat)
    requires Regular(start, calls) && Additive(earn) && i < |calls|
    ensures Granted(capacity, Turns(earn, start, calls), i) <==>
            forall k :: 0 <= k <= i ==>
              Spent(capacity, Turns(earn, start, calls), k, i) + calls[i].cost <=
              capacity + earn(calls[i].at - calls[k].at)
  {
    var turns := Turns(earn, start, calls);
    var least := LevelIsLeastAllowance(capacity, turns, i);
    forall k | 0 <= k <= i
      ensures Allowance(capacity, turns, k, i) ==
              capacity + earn(calls[i].at - calls[k].at) - Spent(capacity, turns, k, i)
    {
      EarnedInTime(earn, start, calls, k, i);
    }
    assert Level(capacity, turns, i) == Allowance(capacity, turns, least, i);
  }

  lemma SpentInTime(earn: real -> real, capacity: real, start: real, calls: seq<Call>, i: nat, j: nat, s: real, t: real)
    requires Regular(start, calls) && Additive(earn) && capacity >= 0.0 && i <= j <= |calls| && s <= t
    requires forall x :: i <= x < j ==> s <= calls[x].at <= t
    ensures Spent(capacity, Turns(earn, start, calls), i, j) <= capacity + earn(t - s)
  {
    forall x | i <= x < j ensures Earned(Turns(earn, start, calls), i, x) <= earn(t - s) {
      EarnedInTime(earn, start, calls, i, x);
      var used := calls[x].at - calls[i].at;
      assert Plus(used, t - s - used) == t - s;
    }
    SpentWithin(capacity, Turns(earn, start, calls), i, j, earn(t - s));
  }

  // ----- the bucket -------------------------------------------------------------------------------------

  function Earn(rate: real): real -> real { gap => gap * rate }

  lemma EarnIs(rate: real, gap: real)
    ensures Earn(rate)(gap) == gap * rate
  {
  }

  lemma EarnIsAdditive(rate: real)
    requires rate > 0.0
    ensures Additive(Earn(rate))
  {
    var earn := Earn(rate);
    forall x, y ensures earn(Plus(x, y)) == earn(x) + earn(y) { Distribute(x, y, rate); }
    forall x | x >= 0.0 ensures earn(x) >= 0.0 { NotNegative(x, rate); }
  }

  lemma Distribute(x: real, y: real, rate: real)
    ensures (x + y) * rate == x * rate + y * rate
  {
  }

  lemma NotNegative(x: real, rate: real)
    requires x >= 0.0 && rate > 0.0
    ensures x * rate >= 0.0
  {
  }

  function Admits(b: Bucket, calls: seq<Call>, i: nat): bool
    requires i < |calls|
  {
    Granted(b.capacity, Turns(Earn(b.rate), b.start, calls), i)
  }

  /** What calls `i` to `j - 1` were granted. */
  function Used(b: Bucket, calls: seq<Call>, i: nat, j: nat): real
    requires i <= j <= |calls|
  {
    Spent(b.capacity, Turns(Earn(b.rate), b.start, calls), i, j)
  }

  /** A call is granted if and only if granting it keeps every window that began with an earlier call,
      or begins with this one, within burst plus rate times length. */
  lemma GrantedIffWithinRate(b: Bucket, calls: seq<Call>, i: nat)
    requires b.rate > 0.0 && Regular(b.start, calls) && i < |calls|
    ensures Admits(b, calls, i) <==>
            forall k :: 0 <= k <= i ==>
              Used(b, calls, k, i) + calls[i].cost <= b.capacity + Earn(b.rate)(calls[i].at - calls[k].at)
  {
    EarnIsAdditive(b.rate);
    GrantedIffEarned(Earn(b.rate), b.capacity, b.start, calls, i);
  }

  /** In every interval from `s` to `t`, the calls made then are granted at most burst plus rate times
      length: with unit costs, at most that many calls. */
  lemma RateBound(b: Bucket, calls: seq<Call>, i: nat, j: nat, s: real, t: real)
    requires b.rate > 0.0 && b.capacity >= 0.0 && Regular(b.start, calls) && i <= j <= |calls| && s <= t
    requires forall x :: i <= x < j ==> s <= calls[x].at <= t
    ensures Used(b, calls, i, j) <= b.capacity + Earn(b.rate)(t - s)
  {
    EarnIsAdditive(b.rate);
    SpentInTime(Earn(b.rate), b.capacity, b.start, calls, i, j, s, t);
  }

  /** With the configured numbers and unit costs: at most `burst` plus `perMinute` requests in any minute,
      where less than one counts as one. */
  lemma MinuteBound(perMinute: int, burst: int, start: real, calls: seq<Call>, i: nat, j: nat, s: real)
    requires Regular(start, calls) && i <= j <= |calls| && perMinute >= 1 && burst >= 1
    requires forall x :: i <= x < j ==> s <= calls[x].at <= s + 60.0
    ensures Used(Configured(perMinute, burst, start), calls, i, j) <= burst as real + perMinute as real
    ensures Configured(perMinute, burst, start).start == start
    ensures forall p, q :: p <= 1 && q <= 1 ==> Configured(p, q, start) == Configured(1, 1, start)
  {
    var b := Configured(perMinute, burst, start);
    RateBound(b, calls, i, j, s, s + 60.0);
    EarnIs(b.rate, 60.0);
    assert 60.0 * b.rate == perMinute as real;
  }

  /** A bucket that was not used gives all of `burst` at once, and a minute later `perMinute` more. */
  lemma FullBucket(perMinute: int, burst: int, start: real, cost: real)
    requires perMinute >= 1 && burst >= 1
    ensures var b := Configured(perMinute, burst, start);
      && (Admits(b, [Call(start, cost)], 0) <==> cost <= burst as real)
      && Earn(b.rate)(60.0) == perMinute as real
  {
    var b := Configured(perMinute, burst, start);
    EarnIs(b.rate, 60.0);
    EarnIs(b.rate, 0.0);
    assert 60.0 * b.rate == perMinute as real;
    var turns := Turns(Earn(b.rate), start, [Call(start, cost)]);
    assert turns[0] == Turn(0.0, cost);
  }

  /** The run on values is what a bucket object does, call by call. */
  method Replay(perMinute: int, burst: int, start: real, calls: seq<Call>) returns (granted: seq<bool>)
    ensures |granted| == |calls|
    ensures forall i :: 0 <= i < |calls| ==> granted[i] == Admits(Configured(perMinute, burst, start), calls, i)
  {
    var bucket := new TokenBucket(perMinute, burst, start);
    ghost var turns := Turns(Earn(bucket.rate), start, calls);
    granted := [];
    for i := 0 to |calls|
      invariant |granted| == i
      invariant bucket.tokens == Tokens(bucket.capacity, turns, i)
      invariant bucket.updated == if i == 0 then start else calls[i - 1].at
      invariant forall k :: 0 <= k < i ==> granted[k] == Granted(bucket.capacity, turns, k)
    {
      LevelIs(bucket.rate, bucket.capacity, start, calls, i);
      var ok := bucket.Allow(calls[i].at, calls[i].cost);
      granted := granted + [ok];
    }
  }

  lemma LevelIs(rate: real, capacity: real, start: real, calls: seq<Call>, i: nat)
    requires i < |calls|
    ensures var turns := Turns(Earn(rate), start, calls);
      && turns[i].cost == calls[i].cost
      && Level(capacity, turns, i) == Refilled(rate, capacity, Tokens(capacity, turns, i),
                                               if i == 0 then start else calls[i - 1].at, calls[i].at)
  {
    EarnIs(rate, Gap(start, calls, i));
  }
}
