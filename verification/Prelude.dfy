/** Shared vocabulary: optional values, the outcome of an operation that may raise or be
    cut short by a process crash, and the environment that decides which of these happens. */
module Prelude {

  datatype Option<+T> = None | Some(value: T)

  /** `Rejected` is the program's own DeployError, `Tampered` the StorageIntegrityError of the
      durable store and `Broken` any other exception.  Callers treat them differently. */
  datatype Fault = Rejected | Tampered | Broken

  /** `Done` is a normal return, `Raised` an exception, `Crashed` the death of the process
      between two effects: nothing after that point runs, not even an exception handler. */
  datatype Outcome<+T> = Done(value: T) | Raised(fault: Fault) | Crashed {
    predicate IsFailure() { !Done? }

    function PropagateFailure<U>(): Outcome<U>
      requires !Done?
    {
      match this
      case Raised(f) => Raised(f)
      case Crashed => Crashed
    }

    function Extract(): T
      requires Done?
    {
      value
    }
  }

  /** What becomes of the next effect.  `Fail` raises, after the effect took place if `applied`;
      `Crash` kills the process before the effect.  `kept` says which paths survive when the
      effect was filling or deleting a whole directory. */
  datatype Fate =
    | Go
    | Fail(applied: bool, kept: set<seq<string>>)
    | Crash(kept: set<seq<string>>)

  /** The environment of a run: a fixed but arbitrary list of fates, used up one effect at a
      time.  A contract proved for every script holds for every failure and crash point. */
  class Environment {
    var script: seq<Fate>

    constructor (script: seq<Fate>)
      ensures this.script == script
    {
      this.script := script;
    }

    method Next() returns (fate: Fate)
      modifies this
      ensures old(script) == [] ==> fate == Go && script == []
      ensures old(script) != [] ==> fate == old(script)[0] && script == old(script)[1..]
    {
      if script == [] {
        fate := Go;
      } else {
        fate, script := script[0], script[1..];
      }
    }
  }

  type Bytes = seq<bv8>

  /** No effect fails; the process may still crash anywhere. */
  predicate Reliable(script: seq<Fate>) {
    forall i :: 0 <= i < |script| ==> !script[i].Fail?
  }

  /** Nothing fails and nothing crashes. */
  predicate Undisturbed(script: seq<Fate>) {
    forall i :: 0 <= i < |script| ==> script[i] == Go
  }

  /** The next `n` effects take place. */
  predicate Goes(script: seq<Fate>, n: nat) {
    n <= |script| && forall i :: 0 <= i < n ==> script[i].Go?
  }

  /** What becomes of the next effect: a script that is used up lets everything happen. */
  function NextFate(script: seq<Fate>): Fate { if script == [] then Go else script[0] }

  /** The next effect fails. */
  predicate FailsNext(script: seq<Fate>) { script != [] && script[0].Fail? }

  /** The process dies before the next effect. */
  predicate CrashesNext(script: seq<Fate>) { script != [] && script[0].Crash? }

  /** Using up fates keeps a reliable script reliable and an undisturbed one undisturbed. */
  predicate Keeps(before: seq<Fate>, after: seq<Fate>) {
    (Reliable(before) ==> Reliable(after)) && (Undisturbed(before) ==> Undisturbed(after))
  }

  /** An operation that raises only if the environment made some effect fail. */
  predicate Faithful<T>(before: seq<Fate>, out: Outcome<T>) {
    (Reliable(before) ==> !out.Raised?) && (Undisturbed(before) ==> out.Done?)
  }

  /** What every step keeps, a run keeps. */
  lemma {:induction false} RunKeeps<S(!new), L(!new)>(step: (S, L, S) -> bool, inv: S -> bool,
                                                      states: seq<S>, labels: seq<L>, n: nat)
    requires |states| == |labels| + 1 && n <= |labels| && inv(states[0])
    requires forall i {:trigger labels[i]} :: 0 <= i < |labels| ==> step(states[i], labels[i], states[i + 1])
    requires forall s, l, t :: inv(s) && step(s, l, t) ==> inv(t)
    ensures inv(states[n])
  {
    if n > 0 {
      RunKeeps(step, inv, states, labels, n - 1);
      assert step(states[n - 1], labels[n - 1], states[n - 1 + 1]);
    }
  }

  /** The number of the interval that is nearest to `n`. */
  function Clamp(n: int, lo: int, hi: int): (r: int)
    requires lo <= hi
    ensures lo <= r <= hi && (n <= lo ==> r == lo) && (n >= hi ==> r == hi) && (lo <= n <= hi ==> r == n)
  {
    if n < lo then lo else if n > hi then hi else n
  }

  /** The longest beginning of `s` with at most `n` characters. */
  function Prefix(s: string, n: nat): (t: string)
    ensures t <= s && |t| <= n && (t == s || |t| == n)
  {
    if |s| <= n then s else s[..n]
  }

  ghost predicate Monotone(times: seq<int>) { forall i, j :: 0 <= i <= j < |times| ==> times[i] <= times[j] }
}
