/** Repeating an operation: after any number of crashes, each followed by a restart and a repetition,
    a deployment ends where one undisturbed execution ends, and a frozen rollback stays put. */
module Replay {
  import opened Prelude
  import opened Chronology
  import opened Paths
  import opened Manifest
  import opened LocalState
  import opened Releases
  import opened Worker
  import RemoteLaws
  import RemoteState

  // ----- deployments -------------------------------------------------------------------------------

  /** The files a deployment aims at depend on the disk only through the files of the current release. */
  ghost predicate Stable(tools: Tools, aim: Disk -> Option<Files>)
    requires Sorts(tools)
  {
    forall d, d' {:trigger SameCurrentFiles(tools, d, d')} ::
      SameCurrentFiles(tools, d, d') && aim(d).Some? && aim(d').Some? ==> aim(d) == aim(d')
  }

  ghost predicate SameCurrentFiles(tools: Tools, d: Disk, d': Disk)
    requires Sorts(tools)
  {
    && d.current == d'.current
    && (d.current.Some? ==>
          && Content(tools, d, d.current.value).Some?
          && Content(tools, d, d.current.value) == Content(tools, d', d.current.value))
  }

  lemma ZipAimIsStable(m: DeploymentManager, upload: Bytes)
    requires Sorts(m.tools)
    ensures Stable(m.tools, (d: Disk) => m.Goal(Zip(upload)))
  {
  }

  lemma CloneDependsOnFiles(a: Tree, b: Tree)
    requires FilesOf(a) == FilesOf(b)
    ensures FilesOf(Cloned(a)) == FilesOf(Cloned(b))
  {
    assert FilesOf(a).Keys == FilesOf(b).Keys;
    forall p | p in FilesOf(Cloned(a))
      ensures p in FilesOf(Cloned(b)) && FilesOf(Cloned(a))[p] == FilesOf(Cloned(b))[p]
    {
      assert p in FilesOf(a) && FilesOf(a)[p] == FilesOf(b)[p];
    }
    forall p | p in FilesOf(Cloned(b)) ensures p in FilesOf(Cloned(a)) {
      assert p in FilesOf(b) && p in FilesOf(a);
    }
  }

  lemma PutAimIsStable(m: DeploymentManager, path: string, upload: Bytes)
    requires Sorts(m.tools)
    ensures Stable(m.tools, d => m.PutGoal(d, path, upload))
  {
    var aim := d => m.PutGoal(d, path, upload);
    forall d, d' | SameCurrentFiles(m.tools, d, d') && aim(d).Some? && aim(d').Some? ensures aim(d) == aim(d') {
      var a, b := m.PutSource(d, path, upload).value, m.PutSource(d', path, upload).value;
      m.PutChangesOneFile(a.base, a.target, upload);
      m.PutChangesOneFile(b.base, b.target, upload);
      assert Content(m.tools, d, d.current.value) == Some(FilesOf(a.base.tree));
      CloneDependsOnFiles(a.base.tree, b.base.tree);
    }
  }

  ghost predicate Step(tools: Tools, aim: Disk -> Option<Files>, states: seq<Disk>, done: seq<bool>, r: string, i: nat)
    requires Sorts(tools) && |states| == |done| + 1 && i < |done|
  {
    DeploymentLeaves(tools, states[i], states[i + 1], r, aim(states[i]), done[i])
  }

  /** A run of executions of one deployment, with nothing else going on in the project. */
  ghost predicate Repeats(tools: Tools, aim: Disk -> Option<Files>, states: seq<Disk>, done: seq<bool>, r: string) {
    && Sorts(tools) && |states| == |done| + 1
    && Sound(tools, states[0]) && states[0].current != Some(r)
    && forall i :: 0 <= i < |done| ==> Step(tools, aim, states, done, r, i)
  }

  /** The release that was current stays current until `r` is, and stays intact for good; when `r` is
      current it holds the files that the first execution aimed at.  No other release appears or changes
      its files. */
  ghost predicate OnTheWay(v: View, v': View, r: string, goal: Option<Files>) {
    && CurrentUsable(v')
    && (forall n :: n in v'.names && n != r ==> n in v.names)
    && (forall n :: n in v'.usable && n != r ==> n in v.usable && v'.usable[n] == v.usable[n])
    && (v'.current == Some(r) || v'.current == v.current)
    && (v.current.Some? ==> FilesAt(v', v.current.value) == FilesAt(v, v.current.value))
    && (goal.Some? && v'.current == Some(r) ==> FilesAt(v', r) == goal)
  }

  lemma OneMore(v: View, w: View, v': View, r: string, goal: Option<Files>, again: Option<Files>)
    requires CurrentUsable(v) && v.current != Some(r) && OnTheWay(v, w, r, goal) && Attempts(w, v', r, again)
    requires w.current == Some(r) ==> v' == w
    requires w.current != Some(r) && goal.Some? && again.Some? ==> again == goal
    ensures OnTheWay(v, v', r, goal)
  {
  }

  lemma NothingYet(v: View, r: string, goal: Option<Files>)
    requires CurrentUsable(v) && v.current != Some(r)
    ensures OnTheWay(v, v, r, goal)
  {
  }

  /** `d` was reached from `d0`. */
  ghost predicate Reached(tools: Tools, aim: Disk -> Option<Files>, d0: Disk, d: Disk, r: string)
    requires Sorts(tools)
  {
    Sound(tools, d) && OnTheWay(ViewOf(tools, d0), ViewOf(tools, d), r, aim(d0))
  }

  lemma StepOnTheWay(tools: Tools, aim: Disk -> Option<Files>, d0: Disk, d: Disk, d': Disk, r: string, done: bool)
    requires Sorts(tools) && Stable(tools, aim) && Sound(tools, d0) && d0.current != Some(r)
    requires Reached(tools, aim, d0, d, r) && DeploymentLeaves(tools, d, d', r, aim(d), done)
    ensures Reached(tools, aim, d0, d', r)
  {
    if d.current == Some(r) {
      SameReleases(tools, d, d');
    } else {
      assert SameCurrentFiles(tools, d0, d);
    }
    OneMore(ViewOf(tools, d0), ViewOf(tools, d), ViewOf(tools, d'), r, aim(d0), aim(d));
  }

  lemma RunIsOnTheWay(tools: Tools, aim: Disk -> Option<Files>, states: seq<Disk>, done: seq<bool>, r: string, n: nat)
    requires Repeats(tools, aim, states, done, r) && Stable(tools, aim) && n <= |done|
    ensures Reached(tools, aim, states[0], states[n], r)
  {
    var d0 := states[0];
    var step := (d, x, d') => DeploymentLeaves(tools, d, d', r, aim(d), x);
    var inv := d => Reached(tools, aim, d0, d, r);
    forall d, x, d' | inv(d) && step(d, x, d') ensures inv(d') { StepOnTheWay(tools, aim, d0, d, d', r, x); }
    forall i | 0 <= i < |done| ensures step(states[i], done[i], states[i + 1]) {
      assert Step(tools, aim, states, done, r, i);
    }
    NothingYet(ViewOf(tools, d0), r, aim(d0));
    RunKeeps(step, inv, states, done, n);
  }

  /** Crash-replay equivalence: however many executions were cut short at whatever point, once one of
      them returns normally the disk has the same `current` and the same files under it as after a
      single execution that nothing disturbed, and no second new release. */
  lemma ReplayEqualsOneRun(tools: Tools, aim: Disk -> Option<Files>, states: seq<Disk>, done: seq<bool>, r: string,
                           n: nat, once: Disk)
    requires Repeats(tools, aim, states, done, r) && Stable(tools, aim)
    requires n < |done| && done[n]
    requires DeploymentLeaves(tools, states[0], once, r, aim(states[0]), true)
    ensures states[n + 1].current == once.current == Some(r)
    ensures Content(tools, states[n + 1], r) == Content(tools, once, r) == aim(states[0])
    ensures states[n + 1].releases.Keys <= states[0].releases.Keys + {r}
  {
    RunIsOnTheWay(tools, aim, states, done, r, n + 1);
    assert Step(tools, aim, states, done, r, n);
    OneRunAgrees(tools, states[0], states[n + 1], once, r, aim(states[0]));
  }

  lemma OneRunAgrees(tools: Tools, d: Disk, d': Disk, once: Disk, r: string, goal: Option<Files>)
    requires Sorts(tools) && d.current != Some(r) && d'.current == Some(r)
    requires OnTheWay(ViewOf(tools, d), ViewOf(tools, d'), r, goal) && DeploymentLeaves(tools, d, once, r, goal, true)
    ensures once.current == Some(r) && Content(tools, d', r) == Content(tools, once, r) == goal
    ensures d'.releases.Keys <= d.releases.Keys + {r}
  {
    var v, v' := ViewOf(tools, d), ViewOf(tools, d');
    forall x | x in v'.names && x != r ensures x in v.names { }
  }

  // ----- the durable store meanwhile --------------------------------------------------------------------

  /** The `current` link, the durable store, and the time of the last activation attempt. */
  datatype Moment = Moment(current: Option<string>, objects: RemoteState.Objects, clock: int)

  /** An execution in which nothing but a crash goes wrong, at a later time than all before it. */
  ghost predicate Executes(m: DeploymentManager, name: string, x: Moment, done: bool, y: Moment) {
    && y.clock > x.clock
    && exists script :: Reliable(script)
         && m.Replayed(x.current, x.objects, y.current, y.objects, script, name, y.clock, done)
  }

  ghost predicate Ready(m: DeploymentManager, name: string, x: Moment) {
    m.Resumable(x.current, x.objects, name) && RemoteLaws.NotAfter(x.objects, m.project, x.clock)
  }

  lemma ExecutionKeepsReady(m: DeploymentManager, name: string, x: Moment, done: bool, y: Moment)
    requires m.store.enabled && m.WorkingStore(name) && Ready(m, name, x) && Executes(m, name, x, done, y)
    ensures Ready(m, name, y)
    ensures done && m.durabilityRequired ==> RemoteState.Committed(m.store.scheme, y.objects, m.project, name, y.clock)
  {
  }

  /** Wherever the process died, the durable store is ready for a repetition: before the release is
      current it has no marker, and from then on its candidate is complete.  When an execution returns
      normally, marker, metadata, pointer and archive agree.  `Recovery.Repeat` adds the disk: an
      execution that nothing disturbs does return normally. */
  lemma AlwaysResumable(m: DeploymentManager, name: string, moments: seq<Moment>, done: seq<bool>, n: nat)
    requires |moments| == |done| + 1 && n < |done|
    requires m.store.enabled && m.WorkingStore(name) && Ready(m, name, moments[0])
    requires forall i {:trigger done[i]} :: 0 <= i < |done| ==> Executes(m, name, moments[i], done[i], moments[i + 1])
    ensures Ready(m, name, moments[n + 1])
    ensures done[n] && m.durabilityRequired ==>
      RemoteState.Committed(m.store.scheme, moments[n + 1].objects, m.project, name, moments[n + 1].clock)
  {
    var step := (x, d, y) => Executes(m, name, x, d, y);
    var inv := x => Ready(m, name, x);
    forall x, d, y | inv(x) && step(x, d, y) ensures inv(y) { ExecutionKeepsReady(m, name, x, d, y); }
    RunKeeps(step, inv, moments, done, n);
    var last := done[n];
    ExecutionKeepsReady(m, name, moments[n], last, moments[n + 1]);
  }

  // ----- rollbacks ------------------------------------------------------------------------------------

  /** An execution of a rollback job: what the durable store held, and whether it returned normally. */
  datatype Execution = Execution(store: RemoteState.Objects, done: bool)

  ghost predicate RollsBack(w: JobWorker, key: string, target: string, d: Disk, x: Execution, d': Disk)
    requires Sorts(w.manager.tools)
  {
    w.RequestLeaves(x.store, d, d', key, Rollback(Some(target)), x.done)
  }

  /** The release that this job makes from the archive stored for the target. */
  ghost predicate Fetched(w: JobWorker, key: string, target: string, objs: RemoteState.Objects, name: Option<string>,
                          u: Bytes)
  {
    w.manager.Restorable(objs, target, u) && name == Some(w.manager.jobName(key, u))
  }

  ghost predicate FetchedSome(w: JobWorker, key: string, target: string, objs: RemoteState.Objects,
                              name: Option<string>)
  {
    exists u :: Fetched(w, key, target, objs, name, u)
  }

  /** A restored copy of the target: its archive passed every check. */
  ghost predicate Restored(w: JobWorker, key: string, target: string, objs: RemoteState.Objects, name: Option<string>) {
    exists u :: Fetched(w, key, target, objs, name, u) && w.manager.Goal(Zip(u)).Some?
  }

  lemma FrozenStep(w: JobWorker, d: Disk, d': Disk, key: string, target: string, x: Execution)
    requires Sorts(w.manager.tools) && Sound(w.manager.tools, d) && target != "latest"
    requires RollsBack(w, key, target, d, x, d')
    ensures Sound(w.manager.tools, d')
    ensures d'.current == d.current || d'.current == Some(target) || Restored(w, key, target, x.store, d'.current)
    ensures x.done ==> d'.current == Some(target) || FetchedSome(w, key, target, x.store, d'.current)
  {
    w.StaysSound(x.store, d, d', key, Rollback(Some(target)), x.done);
    var mid, fetched :| w.RollbackLeaves(x.store, d, mid, d', key, Some(target), fetched, x.done);
    if fetched.Some? {
      var u := fetched.value;
      assert w.manager.Restorable(x.store, target, u);
      assert mid.current == d.current || mid.current == Some(target);
      SwitchedToCopy(w.manager.tools, mid, d', w.manager.jobName(key, u), w.manager.Goal(Zip(u)), x.done);
      assert d'.current == Some(w.manager.jobName(key, u)) ==> Fetched(w, key, target, x.store, d'.current, u);
    }
  }

  lemma SwitchedToCopy(tools: Tools, d: Disk, d': Disk, r: string, goal: Option<Files>, done: bool)
    requires Sorts(tools) && DeploymentLeaves(tools, d, d', r, goal, done)
    ensures d'.current == d.current || (d'.current == Some(r) && goal.Some?)
    ensures done ==> d'.current == Some(r)
  {
  }

  /** `current` was there before, or is the target, or a copy of it that one of the executions restored. */
  ghost predicate StaysPut(w: JobWorker, key: string, target: string, before: Option<string>, runs: seq<Execution>,
                           now: Option<string>)
  {
    || now == before || now == Some(target)
    || exists i :: 0 <= i < |runs| && Restored(w, key, target, runs[i].store, now)
  }

  /** Over any number of repetitions and crashes of a rollback whose target was frozen when it was
      enqueued, `current` is what was active before, or the target, or a copy of the target restored from
      the durable store; and after a successful execution it is the target or such a copy. */
  lemma {:induction false} FrozenRollback(w: JobWorker, key: string, target: string, states: seq<Disk>,
                                          runs: seq<Execution>)
    requires Sorts(w.manager.tools) && |states| == |runs| + 1
    requires Sound(w.manager.tools, states[0]) && target != "latest"
    requires forall i {:trigger runs[i]} :: 0 <= i < |runs| ==>
               RollsBack(w, key, target, states[i], runs[i], states[i + 1])
    ensures Sound(w.manager.tools, states[|runs|])
    ensures StaysPut(w, key, target, states[0].current, runs, states[|runs|].current)
    ensures runs != [] && runs[|runs| - 1].done ==>
      states[|runs|].current == Some(target)
      || FetchedSome(w, key, target, runs[|runs| - 1].store, states[|runs|].current)
  {
    if runs != [] {
      var n := |runs| - 1;
      FrozenRollback(w, key, target, states[..n + 1], runs[..n]);
      var x := runs[n];
      FrozenStep(w, states[n], states[n + 1], key, target, x);
      var earlier := states[n].current;
      if i :| 0 <= i < n && Restored(w, key, target, runs[..n][i].store, earlier) {
        assert Restored(w, key, target, runs[i].store, earlier);
      }
    }
  }

  /** The archive stored for a release does not unpack, as is the case for every archive that this
      system has packed (`OwnBackupIsRefused`). */
  ghost predicate CannotBeRestored(w: JobWorker, objs: RemoteState.Objects, release: string) {
    forall u :: w.manager.Restorable(objs, release, u) ==> w.manager.Goal(Zip(u)).None?
  }

  /** Not a release that this very job has made. */
  ghost predicate NotOwn(w: JobWorker, name: Option<string>, key: string) {
    forall u :: name != Some(w.manager.jobName(key, u))
  }

  /** While the stored archive of the target does not unpack, there are no copies: `current` is what was
      active before or the target, and after a successful execution it is the target. */
  lemma FrozenWithoutCopy(w: JobWorker, key: string, target: string, states: seq<Disk>, runs: seq<Execution>)
    requires Sorts(w.manager.tools) && |states| == |runs| + 1
    requires Sound(w.manager.tools, states[0]) && target != "latest"
    requires forall i {:trigger runs[i]} :: 0 <= i < |runs| ==>
               RollsBack(w, key, target, states[i], runs[i], states[i + 1])
    requires NotOwn(w, states[0].current, key)
    requires forall i :: 0 <= i < |runs| ==> CannotBeRestored(w, runs[i].store, target)
    ensures states[|runs|].current == states[0].current || states[|runs|].current == Some(target)
    ensures runs != [] && runs[|runs| - 1].done ==> states[|runs|].current == Some(target)
  {
    FrozenRollback(w, key, target, states, runs);
  }

  /** Without freezing, the second execution goes back to where the first one came from, exactly when
      that release is newer than every release but the target. */
  lemma UnfrozenRollbackReturns(m: DeploymentManager, d: Disk, first: string, target: string)
    requires d.current == Some(first) && first in d.releases && m.RollsTo(d, None, target)
    ensures m.RollsTo(d.(current := Some(target)), None, first) <==>
            forall n :: n in d.releases && n != first && n != target ==>
              Newer(Row(d.releases[first].mtime, first), Row(d.releases[n].mtime, n))
  {
  }
}
