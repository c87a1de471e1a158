/** The restart policy of the process runner: the sliding window of `_record_restart`, the loop of
    `_monitor`, and the resets of `start_app` and `restart_app`. */
module Restart {
  import opened Prelude

  datatype Policy = Always | OnFailure | Never

  /** One pass through the monitor's loop: the app was started at `from` and exited at `until`, by
      itself or because it was stopped; or starting it raised an exception at `until`. */
  datatype Pass =
    | Exited(from: int, until: int, code: int, stopped: bool)
    | Broke(until: int)

  /** How many of the times lie within `window` of `now`. */
  function Recent(times: seq<int>, window: int, now: int): nat {
    if times == [] then 0
    else Recent(times[..|times| - 1], window, now) + if now - times[|times| - 1] <= window then 1 else 0
  }

  /** Any `most + 1` successive times span more than `window`. */
  ghost predicate Spaced(times: seq<int>, most: nat, window: int) {
    forall i, j :: 0 <= i <= j < |times| && j - i >= most ==> times[j] - times[i] > window
  }

  lemma {:induction false} RecentIsSuffix(times: seq<int>, n: nat, window: int, now: int)
    requires n <= |times| && Monotone(times)
    requires forall i :: 0 <= i < n ==> now - times[i] > window
    requires n < |times| ==> now - times[n] <= window
    ensures Recent(times, window, now) == |times| - n
  {
    if times != [] {
      var m := |times| - 1;
      if n <= m {
        assert times[n] <= times[m];
        RecentIsSuffix(times[..m], n, window, now);
      } else {
        NoneRecent(times, window, now);
      }
    }
  }

  lemma {:induction false} NoneRecent(times: seq<int>, window: int, now: int)
    requires forall i :: 0 <= i < |times| ==> now - times[i] > window
    ensures Recent(times, window, now) == 0
  {
    if times != [] { NoneRecent(times[..|times| - 1], window, now); }
  }

  /** The deque holds the end of the history; what it dropped is too old to count ever again. */
  ghost predicate Tracks(deque: seq<int>, history: seq<int>, clock: int, most: nat, window: int) {
    && Monotone(history) && Spaced(history, most, window)
    && (forall i :: 0 <= i < |history| ==> history[i] <= clock)
    && |deque| <= |history| && deque == history[|history| - |deque|..]
    && AllOld(history, |history| - |deque|, clock, window)
  }

  ghost predicate AllOld(history: seq<int>, n: nat, now: int, window: int)
    requires n <= |history|
  {
    forall i :: 0 <= i < n ==> now - history[i] > window
  }

  lemma DroppedMore(history: seq<int>, gone: nat, deque: seq<int>, n: nat, clock: int, now: int, window: int)
    requires gone <= |history| && deque == history[gone..] && AllOld(history, gone, clock, window) && now >= clock
    requires n <= |deque| && AllOld(deque, n, now, window)
    ensures AllOld(history, gone + n, now, window) && deque[n..] == history[gone + n..]
  {
  }

  lemma Forgotten(deque: seq<int>, history: seq<int>, clock: int, n: nat, now: int, most: nat, window: int)
    requires Tracks(deque, history, clock, most, window) && n <= |deque| && AllOld(deque, n, now, window)
    requires now >= clock && (deque[n..] != [] ==> now - deque[n..][0] <= window)
    ensures Tracks(deque[n..], history, now, most, window) && Recent(history, window, now) == |deque[n..]|
  {
    var gone := |history| - |deque|;
    DroppedMore(history, gone, deque, n, clock, now, window);
    RecentIsSuffix(history, gone + n, window, now);
  }

  lemma AppendTracks(deque: seq<int>, history: seq<int>, most: nat, window: int, now: int)
    requires window >= 1 && Tracks(deque, history, now, most, window) && |deque| < most
    ensures Tracks(deque + [now], history + [now], now, most, window)
  {
  }

  class AppState {
    const policy: Policy
    const maxRestarts: nat
    const window: int
    var desiredRunning: bool
    var circuitOpen: bool
    var restartTimes: seq<int>
    var restartCount: nat
    ghost var history: seq<int>   // all restarts recorded since the last reset
    ghost var clock: int

    constructor (policy: Policy, maxRestarts: int, window: int, enabled: bool, now: int)
      ensures Valid() && history == [] && !circuitOpen && desiredRunning == enabled && restartCount == 0
      ensures this.policy == policy && this.clock == now
      ensures this.maxRestarts == if maxRestarts > 0 then maxRestarts else 0
      ensures this.window == if window > 1 then window else 1
    {
      this.policy, this.maxRestarts := policy, if maxRestarts > 0 then maxRestarts else 0;
      this.window := if window > 1 then window else 1;
      desiredRunning, circuitOpen, restartTimes, restartCount := enabled, false, [], 0;
      history, clock := [], now;
    }

    ghost predicate Valid()
      reads this
    {
      window >= 1 && Tracks(restartTimes, history, clock, maxRestarts, window)
    }

    predicate ShouldRestart(code: int)
      reads this
    {
      desiredRunning && (policy == Always || (policy == OnFailure && code != 0))
    }

    /** Records a restart if and only if fewer than `maxRestarts` were recorded within the window; if
        not, the circuit opens. */
    method RecordRestart(now: int) returns (recorded: bool)
      requires Valid() && now >= clock
      modifies this
      ensures Valid() && clock == now && desiredRunning == old(desiredRunning)
      ensures recorded <==> Recent(old(history), window, now) < maxRestarts
      ensures history == if recorded then old(history) + [now] else old(history)
      ensures circuitOpen == (old(circuitOpen) || !recorded)
      ensures restartCount == old(restartCount) + |history| - |old(history)|
    {
      var recent := Forget(now);
      if recent >= maxRestarts {
        circuitOpen := true;
        return false;
      }
      Push(now);
      return true;
    }

    method Push(now: int)
      requires Valid() && |restartTimes| < maxRestarts && now == clock
      modifies this`restartTimes, this`restartCount, this`history
      ensures Valid() && history == old(history) + [now] && restartCount == old(restartCount) + 1
    {
      AppendTracks(restartTimes, history, maxRestarts, window, clock);
      restartTimes, restartCount := restartTimes + [now], restartCount + 1;
      history := history + [now];
    }

    /** Drops what has left the window. */
    method Forget(now: int) returns (recent: nat)
      requires Valid() && now >= clock
      modifies this`restartTimes, this`clock
      ensures Valid() && clock == now
      ensures recent == |restartTimes| == Recent(history, window, now)
    {
      ghost var deque, n := restartTimes, 0;
      restartTimes, n := DropOld(restartTimes, now);
      Forgotten(deque, history, clock, n, now, maxRestarts, window);
      recent, clock := |restartTimes|, now;
    }

    method DropOld(times: seq<int>, now: int) returns (kept: seq<int>, ghost n: nat)
      ensures n <= |times| && kept == times[n..] && AllOld(times, n, now, window)
      ensures kept != [] ==> now - kept[0] <= window
    {
      kept, n := times, 0;
      while kept != [] && now - kept[0] > window
        invariant 0 <= n <= |times| && kept == times[n..]
        invariant AllOld(times, n, now, window)
        decreases |kept|
      {
        kept, n := kept[1..], n + 1;
      }
    }

    /** `start_app`: nothing if the app runs or a monitor is at work on it, else a new window, a closed
        circuit and a new monitor (`true`). */
    method StartApp(running: bool, monitored: bool) returns (begun: bool)
      requires Valid()
      modifies this
      ensures Valid() && clock == old(clock) && restartCount == old(restartCount)
      ensures begun <==> !running && !(monitored && old(desiredRunning))
      ensures begun ==> history == [] && restartTimes == [] && !circuitOpen && desiredRunning
      ensures !begun ==>
        && history == old(history) && restartTimes == old(restartTimes)
        && circuitOpen == old(circuitOpen) && desiredRunning == old(desiredRunning)
    {
      if running || (monitored && desiredRunning) { return false; }
      Reset();
      return true;
    }

    /** `restart_app`, once the old process and monitor are gone. */
    method Reset()
      requires Valid()
      modifies this
      ensures Valid() && history == [] && restartTimes == [] && !circuitOpen && desiredRunning
      ensures clock == old(clock) && restartCount == old(restartCount)
    {
      desiredRunning, circuitOpen, restartTimes := true, false, [];
      history := [];
    }

    /** One pass through the loop.  `start` is the time at which a process was started, if one was. */
    method RunOnce(pass: Pass) returns (start: seq<int>, again: bool)
      requires Valid() && desiredRunning && !circuitOpen && clock <= pass.until
      modifies this
      ensures Valid() && clock <= pass.until
      ensures start == if pass.Exited? then [pass.from] else []
      ensures history == old(history) || history == old(history) + [pass.until]
      ensures again ==> history == old(history) + [pass.until] && clock == pass.until && !circuitOpen
      ensures !again ==> circuitOpen || (pass.Exited? && !ShouldRestart(pass.code))
      ensures desiredRunning == !(pass.Exited? && pass.stopped)
      ensures again <==>
        && (pass.Exited? ==>
              && !pass.stopped
              && match policy case Always => true case OnFailure => pass.code != 0 case Never => false)
        && Recent(old(history), window, pass.until) < maxRestarts
    {
      match pass {
        case Exited(from, until, code, stopped) =>
          start := [from];
          if stopped { desiredRunning := false; }
          if !ShouldRestart(code) { return start, false; }
          again := RecordRestart(until);
        case Broke(until) =>
          start := [];
          again := RecordRestart(until);
      }
    }

    method RunNext(passes: seq<Pass>, n: nat) returns (start: seq<int>, again: bool)
      requires n < |passes| && Valid() && InOrder(clock, passes[n..]) && desiredRunning && !circuitOpen
      modifies this
      ensures Valid() && Starts(passes[..n + 1]) == Starts(passes[..n]) + start
      ensures history == old(history) || history == old(history) + [passes[n].until]
      ensures Ends(passes[..n + 1]) == Ends(passes[..n]) + [passes[n].until]
      ensures again ==>
        history == old(history) + [passes[n].until] && !circuitOpen && InOrder(clock, passes[n + 1..])
      ensures !again ==> circuitOpen || (passes[n].Exited? && !ShouldRestart(passes[n].code))
    {
      InOrderStep(clock, passes[n..]);
      start, again := RunOnce(passes[n]);
      OneMorePass(passes, n);
    }

    /** Runs the monitor's loop over the passes that the world has in store; it ends after `n` of them.
        Every pass but the last, and possibly that one too, recorded a restart.  Whatever happens, no
        window sees more than `maxRestarts + 1` processes started. */
    method Monitor(passes: seq<Pass>) returns (starts: seq<int>, n: nat)
      requires Valid() && InOrder(clock, passes)
      modifies this
      ensures Valid() && n <= |passes| && starts == Starts(passes[..n])
      ensures history == old(history) + Ends(passes[..n]) || (n > 0 && history == old(history) + Ends(passes[..n - 1]))
      ensures old(circuitOpen) ==> n == 0
      ensures n < |passes| ==>
        !desiredRunning || circuitOpen || (n > 0 && passes[n - 1].Exited? && !ShouldRestart(passes[n - 1].code))
      ensures forall a :: InWindow(starts, a, window) <= maxRestarts + 1
    {
      ghost var begin := clock;
      starts, n := RunPasses(passes);
      forall a ensures InWindow(starts, a, window) <= maxRestarts + 1 {
        StartsAreFew(begin, passes, n, old(history), history, maxRestarts, window, a);
      }
    }

    method RunPasses(passes: seq<Pass>) returns (starts: seq<int>, n: nat)
      requires Valid() && InOrder(clock, passes)
      modifies this
      ensures Valid() && n <= |passes| && starts == Starts(passes[..n])
      ensures history == old(history) + Ends(passes[..n]) || (n > 0 && history == old(history) + Ends(passes[..n - 1]))
      ensures old(circuitOpen) ==> n == 0
      ensures n < |passes| ==>
        !desiredRunning || circuitOpen || (n > 0 && passes[n - 1].Exited? && !ShouldRestart(passes[n - 1].code))
    {
      starts, n := [], 0;
      while n < |passes| && desiredRunning
        invariant n <= |passes| && Valid() && InOrder(clock, passes[n..])
        invariant starts == Starts(passes[..n]) && history == old(history) + Ends(passes[..n])
        invariant old(circuitOpen) ==> n == 0 && circuitOpen
      {
        if circuitOpen { return; }
        var start, again := RunNext(passes, n);
        starts, n := starts + start, n + 1;
        if !again { return; }
      }
    }
  }

  /** When the passes started a process. */
  function Starts(passes: seq<Pass>): seq<int> {
    if passes == [] then []
    else
      var last := passes[|passes| - 1];
      Starts(passes[..|passes| - 1]) + if last.Exited? then [last.from] else []
  }

  function Ends(passes: seq<Pass>): (ends: seq<int>)
    ensures |ends| == |passes| && forall i :: 0 <= i < |passes| ==> ends[i] == passes[i].until
  {
    seq(|passes|, i requires 0 <= i < |passes| => passes[i].until)
  }

  lemma OneMorePass(passes: seq<Pass>, n: nat)
    requires n < |passes|
    ensures Starts(passes[..n + 1]) == Starts(passes[..n]) + if passes[n].Exited? then [passes[n].from] else []
    ensures Ends(passes[..n + 1]) == Ends(passes[..n]) + [passes[n].until]
    ensures passes[n..][1..] == passes[n + 1..]
  {
    assert passes[..n + 1][..n] == passes[..n];
  }

  /** Passes follow one another in time. */
  ghost predicate InOrder(clock: int, passes: seq<Pass>)
    decreases |passes|
  {
    passes != [] ==>
      && clock <= passes[0].until && (passes[0].Exited? ==> clock <= passes[0].from <= passes[0].until)
      && InOrder(passes[0].until, passes[1..])
  }

  lemma InOrderStep(clock: int, passes: seq<Pass>)
    requires InOrder(clock, passes) && passes != []
    ensures clock <= passes[0].until && (passes[0].Exited? ==> clock <= passes[0].from <= passes[0].until)
    ensures InOrder(passes[0].until, passes[1..])
  {
  }

  // ----- bounds --------------------------------------------------------------------------------------

  /** How many of the times lie in a closed interval. */
  function Within(times: seq<int>, a: int, b: int): nat {
    if times == [] then 0 else Within(times[..|times| - 1], a, b) + if a <= times[|times| - 1] <= b then 1 else 0
  }

  /** Between resets, no closed interval of the length of the window holds more than `most` restarts. */
  lemma {:induction false} RestartBound(times: seq<int>, most: nat, window: int, a: int)
    requires Monotone(times) && Spaced(times, most, window)
    ensures Within(times, a, a + window) <= most
  {
    if times != [] {
      var n := |times| - 1;
      var before := times[..n];
      if a <= times[n] <= a + window {
        // only the last `most - 1` of the earlier times can lie in the interval with this one
        assert most > 0 by { assert times[n] == times[n]; }
        var m := if n >= most then n - most + 1 else 0;
        forall i | 0 <= i < m ensures times[i] < a {
          assert times[n] - times[i] > window;
        }
        WithinSuffix(before, m, a, a + window);
      } else {
        RestartBound(before, most, window, a);
      }
    }
  }

  /** For times that have passed, the recent ones are those in the closed interval that ends now. */
  lemma {:induction false} RecentIsWithin(times: seq<int>, window: int, clock: int, now: int)
    requires clock <= now && forall i :: 0 <= i < |times| ==> times[i] <= clock
    ensures Recent(times, window, now) == Within(times, now - window, now)
  {
    if times != [] { RecentIsWithin(times[..|times| - 1], window, clock, now); }
  }

  lemma {:induction false} WithinSuffix(times: seq<int>, m: nat, a: int, b: int)
    requires m <= |times| && forall i :: 0 <= i < m ==> times[i] < a
    ensures Within(times, a, b) <= |times| - m
  {
    if m < |times| {
      WithinSuffix(times[..|times| - 1], m, a, b);
    } else if times != [] {
      WithinSuffix(times[..|times| - 1], m - 1, a, b);
    }
  }

  lemma {:induction false} EndsBefore(clock: int, passes: seq<Pass>, i: nat, j: nat)
    requires InOrder(clock, passes) && i < j < |passes| && passes[j].Exited?
    ensures passes[i].until <= passes[j].from
    decreases |passes|
  {
    if i > 0 {
      EndsBefore(passes[0].until, passes[1..], i - 1, j - 1);
    } else if j > 1 {
      EndsBefore(passes[0].until, passes[1..], 0, j - 1);
      InOrderStep(passes[0].until, passes[1..]);
    } else {
      InOrderStep(passes[0].until, passes[1..]);
    }
  }

  lemma {:induction false} StartsBeforeEnd(clock: int, passes: seq<Pass>, i: nat)
    requires InOrder(clock, passes) && i < |passes| && passes[i].Exited?
    ensures passes[i].from <= passes[i].until
    decreases |passes|
  {
    if i > 0 { StartsBeforeEnd(passes[0].until, passes[1..], i - 1); }
  }

  /** A monitor starts at most one process more than that: two passes that started a process less than
      a window apart have fewer than `most` passes between them. */
  lemma StartBound(clock: int, passes: seq<Pass>, earlier: seq<int>, most: nat, window: int, i: nat, j: nat)
    requires InOrder(clock, passes) && i < j < |passes| && passes[i].Exited? && passes[j].Exited?
    requires Spaced(earlier + Ends(passes[..|passes| - 1]), most, window)
    requires passes[j].from - passes[i].from <= window
    ensures j - i <= most
  {
    StartsBeforeEnd(clock, passes, i);
    EndsBefore(clock, passes, j - 1, j);
    var history := earlier + Ends(passes[..|passes| - 1]);
    assert history[|earlier| + i] == passes[i].until && history[|earlier| + j - 1] == passes[j - 1].until;
  }

  function InWindow(times: seq<int>, a: int, window: int): nat { Within(times, a, a + window) }

  lemma {:induction false} InOrderPrefix(clock: int, passes: seq<Pass>, n: nat)
    requires InOrder(clock, passes) && n <= |passes|
    ensures InOrder(clock, passes[..n])
    decreases n
  {
    if n > 0 {
      InOrderPrefix(passes[0].until, passes[1..], n - 1);
      assert passes[..n][1..] == passes[1..][..n - 1];
    }
  }

  /** How many of the first `k` passes started a process in a closed interval. */
  function StartsIn(passes: seq<Pass>, k: nat, a: int, b: int): nat
    requires k <= |passes|
  {
    if k == 0 then 0
    else StartsIn(passes, k - 1, a, b) + if passes[k - 1].Exited? && a <= passes[k - 1].from <= b then 1 else 0
  }

  lemma {:induction false} StartsInIsWithin(passes: seq<Pass>, k: nat, a: int, b: int)
    requires k <= |passes|
    ensures Within(Starts(passes[..k]), a, b) == StartsIn(passes, k, a, b)
  {
    if k > 0 {
      StartsInIsWithin(passes, k - 1, a, b);
      OneMorePass(passes, k - 1);
      WithinStep(Starts(passes[..k - 1]), Starts(passes[..k]), passes[k - 1], a, b);
    }
  }

  lemma WithinStep(before: seq<int>, after: seq<int>, pass: Pass, a: int, b: int)
    requires after == before + if pass.Exited? then [pass.from] else []
    ensures Within(after, a, b) == Within(before, a, b) + if pass.Exited? && a <= pass.from <= b then 1 else 0
  {
    if pass.Exited? {
      WithinAppend(before, pass.from, a, b);
    } else {
      assert after == before;
    }
  }

  lemma WithinAppend(times: seq<int>, x: int, a: int, b: int)
    ensures Within(times + [x], a, b) == Within(times, a, b) + if a <= x <= b then 1 else 0
  {
    assert (times + [x])[..|times + [x]| - 1] == times;
  }

  /** Passes that started their process too early, or none, do not count. */
  lemma {:induction false} StartsFrom(passes: seq<Pass>, k: nat, m: nat, a: int, b: int)
    requires m <= k <= |passes| && forall i :: 0 <= i < m && passes[i].Exited? ==> passes[i].from < a
    ensures StartsIn(passes, k, a, b) <= k - m
  {
    if k > 0 { StartsFrom(passes, k - 1, if m < k then m else m - 1, a, b); }
  }

  /** Starts that are more than `most` passes apart are more than a window apart. */
  ghost predicate Apart(passes: seq<Pass>, most: nat, window: int) {
    forall i, j :: 0 <= i < j < |passes| && j - i > most && passes[i].Exited? && passes[j].Exited? ==>
      passes[i].from < passes[j].from - window
  }

  /** Then any window sees at most `most + 1` starts. */
  lemma {:induction false} FewStarts(passes: seq<Pass>, most: nat, window: int, a: int, k: nat)
    requires Apart(passes, most, window) && k <= |passes|
    ensures StartsIn(passes, k, a, a + window) <= most + 1
  {
    if k > 0 {
      var n := k - 1;
      if passes[n].Exited? && a <= passes[n].from <= a + window {
        StartsFrom(passes, n, if n > most then n - most else 0, a, a + window);
      } else {
        FewStarts(passes, most, window, a, n);
      }
    }
  }

  lemma PassesAreApart(clock: int, passes: seq<Pass>, earlier: seq<int>, most: nat, window: int)
    requires InOrder(clock, passes)
    requires passes != [] ==> Spaced(earlier + Ends(passes[..|passes| - 1]), most, window)
    ensures Apart(passes, most, window)
  {
    forall i, j | 0 <= i < j < |passes| && j - i > most && passes[i].Exited? && passes[j].Exited?
      ensures passes[i].from < passes[j].from - window
    {
      if passes[j].from - passes[i].from <= window { StartBound(clock, passes, earlier, most, window, i, j); }
    }
  }

  lemma SpacedPrefix(times: seq<int>, n: nat, most: nat, window: int)
    requires Spaced(times, most, window) && n <= |times|
    ensures Spaced(times[..n], most, window)
  {
  }

  lemma StartsAreFew(clock: int, passes: seq<Pass>, n: nat, earlier: seq<int>, history: seq<int>, most: nat,
                     window: int, a: int)
    requires n <= |passes| && InOrder(clock, passes) && Spaced(history, most, window)
    requires history == earlier + Ends(passes[..n]) || (n > 0 && history == earlier + Ends(passes[..n - 1]))
    ensures InWindow(Starts(passes[..n]), a, window) <= most + 1
  {
    InOrderPrefix(clock, passes, n);
    var run := passes[..n];
    assert run[..n] == run;
    if n > 0 {
      assert run[..n - 1] == passes[..n - 1];
      if history == earlier + Ends(run) {
        SpacedPrefix(history, |history| - 1, most, window);
        assert history[..|history| - 1] == earlier + Ends(run[..n - 1]);
      }
    }
    PassesAreApart(clock, run, earlier, most, window);
    FewStarts(run, most, window, a, n);
    StartsInIsWithin(run, n, a, a + window);
  }
}
