/** Process death and what comes after it: a new process on the disk and the durable store that the old
    one left behind, and the operation again.  However often an operation is cut short, one execution
    that nothing disturbs completes it. */
module Recovery {
  import opened Prelude
  import opened Paths
  import opened Archive
  import opened Manifest
  import opened LocalState
  import opened RemoteState
  import opened Storage
  import opened Releases
  import opened Replay

  /** What survives a process: the disk and the objects in the durable store. */
  datatype Remains = Remains(disk: Disk, objects: Objects)

  /** The settings of two processes are the same. */
  ghost predicate Alike(m: DeploymentManager, n: DeploymentManager) {
    && n.project == m.project && n.limits == m.limits && n.keepReleases == m.keepReleases
    && n.tools == m.tools && n.unicode == m.unicode && n.unzip == m.unzip && n.parses == m.parses
    && n.pack == m.pack && n.jobName == m.jobName && n.monitored == m.monitored
    && n.durabilityRequired == m.durabilityRequired && n.steadyDisk == m.steadyDisk
    && n.store.enabled == m.store.enabled && n.store.scheme == m.store.scheme && n.store.keep == m.store.keep
    && n.store.steadyDeletes == m.store.steadyDeletes
  }

  /** Settings as the constructors leave them. */
  ghost predicate Configured(m: DeploymentManager) { Sorts(m.tools) && 2 <= m.store.keep <= 500 }

  /** A new process with the settings of `m`: it finds the releases, the link and the stored objects,
      and clears the staging directories. */
  method Restarted(m: DeploymentManager, x: Remains, script: seq<Fate>) returns (n: DeploymentManager)
    requires Configured(m) && Sound(m.tools, x.disk)
    ensures fresh(n) && fresh(n.store) && fresh(n.env) && n.Valid() && Alike(m, n)
    ensures n.State() == x.disk.(staging := map[]) && n.store.objects == x.objects && n.env.script == script
  {
    var env := new Environment(script);
    var store := new DurableReleaseStore(m.store.enabled, m.store.scheme, m.store.keep, m.store.steadyDeletes, env,
                                         x.objects, m.store.ledger);
    n := new DeploymentManager(m.project, m.limits, m.keepReleases, m.tools, m.unicode, m.unzip, m.parses, m.pack,
                               m.jobName, m.monitored, m.durabilityRequired, m.steadyDisk, store, x.disk);
    SameReleases(m.tools, x.disk, n.State());
  }

  // ----- what is asked for, and when it can be carried out ------------------------------------------

  /** A deployment as a job asks for it. */
  datatype Order = Unpack(upload: Bytes) | PutAt(path: string, upload: Bytes)

  function SourceOf(m: DeploymentManager, order: Order, d: Disk): Option<Source> {
    match order
    case Unpack(upload) => if |upload| <= m.limits.maxUpload then Some(Zip(upload)) else None
    case PutAt(path, upload) => m.PutSource(d, path, upload)
  }

  /** The files that an order aims at. */
  ghost function AimOf(m: DeploymentManager, order: Order, d: Disk): Option<Files> {
    var source := SourceOf(m, order, d);
    if source.Some? then m.Goal(source.value) else None
  }

  /** A source that passes every check, under a name that the durable store accepts. */
  ghost predicate Passes(m: DeploymentManager, source: Source, name: string) {
    m.WorkingStore(name) && m.Planned(source).Some? && m.Acceptable(m.Planned(source).value)
  }

  /** What an execution needs to go through: the release is current already, or can be built. */
  ghost predicate Executable(m: DeploymentManager, order: Order, name: string, d: Disk) {
    var source := SourceOf(m, order, d);
    source.Some? && m.WorkingStore(name) && (d.current == Some(name) || Passes(m, source.value, name))
  }

  /** An upload that is acceptable, on a store that works or without one. */
  lemma GoodUploadIsExecutable(m: DeploymentManager, upload: Bytes, raw: seq<RawMember>, name: string, d: Disk)
    requires |upload| <= m.limits.maxUpload && m.unzip(upload) == Some(raw)
    requires Accepts(m.limits, ParseAll(m.unicode, raw))
    requires var t := Flatten(TreeOf(Elements(ParseAll(m.unicode, raw))));
      && |FilesOf(t)| <= m.limits.maxFiles && TotalBytes(FilesOf(t)) <= m.limits.maxBytes
      && (forall p :: p in FilesOf(t) ==> m.parses(p, FilesOf(t)[p])) && !(MANIFEST in t && t[MANIFEST].Dir?)
    requires m.store.enabled ==> m.store.steadyDeletes && SafeProject(m.project) && SafeRelease(name)
    ensures Executable(m, Unpack(upload), name, d)
  {
    var t := Flatten(TreeOf(Elements(ParseAll(m.unicode, raw))));
    assert m.Planned(Zip(upload)) == Some(t) && m.WellFormed(FilesOf(t));
  }

  lemma AlikeExecutable(m: DeploymentManager, n: DeploymentManager, order: Order, name: string, d: Disk)
    requires Alike(m, n)
    ensures Executable(n, order, name, d) == Executable(m, order, name, d)
    ensures AimOf(n, order, d) == AimOf(m, order, d) && n.jobName == m.jobName
  {
    if SourceOf(m, order, d).Some? { AlikePlans(m, n, SourceOf(m, order, d).value); }
  }

  lemma AlikePlans(m: DeploymentManager, n: DeploymentManager, source: Source)
    requires Alike(m, n)
    ensures n.Planned(source) == m.Planned(source)
    ensures m.Planned(source).Some? ==>
      n.Acceptable(m.Planned(source).value) == m.Acceptable(m.Planned(source).value)
  {
    match source {
      case Zip(upload) => assert n.Unzipped(upload) == m.Unzipped(upload);
      case Clone(base, target, upload) =>
    }
    if m.Planned(source).Some? { AlikeAccepts(m, n, m.Planned(source).value); }
  }

  lemma AlikeAccepts(m: DeploymentManager, n: DeploymentManager, full: Tree)
    requires Alike(m, n)
    ensures n.Acceptable(full) == m.Acceptable(full)
  {
    assert n.WellFormed(FilesOf(full)) == m.WellFormed(FilesOf(full));
  }

  /** Until the release is current, every execution starts from the same source; after that there is
      nothing to build. */
  lemma ExecutableStays(m: DeploymentManager, order: Order, name: string, d: Disk, d': Disk, done: bool)
    requires Sorts(m.tools) && Sound(m.tools, d) && Executable(m, order, name, d)
    requires DeploymentLeaves(m.tools, d, d', name, AimOf(m, order, d), done)
    ensures Executable(m, order, name, d')
    ensures d'.current != Some(name) ==> AimOf(m, order, d') == AimOf(m, order, d)
  {
    assert CurrentUsable(ViewOf(m.tools, d'));
    if d'.current != Some(name) { assert SourceOf(m, order, d') == SourceOf(m, order, d); }
  }

  // ----- one execution ----------------------------------------------------------------------------------

  /** If there is a durable store, it is ready for the operation, and no activation recorded in it is
      later than `clock`. */
  ghost predicate StoreReady(m: DeploymentManager, name: string, x: Remains, clock: int) {
    m.store.enabled ==> Ready(m, name, Moment(x.disk.current, x.objects, clock))
  }

  ghost predicate CommittedAt(m: DeploymentManager, name: string, objs: Objects, now: int) {
    m.store.enabled && m.durabilityRequired ==> Committed(m.store.scheme, objs, m.project, name, now)
  }

  /** What one execution at time `now` makes of `x`. */
  ghost predicate Leads(m: DeploymentManager, order: Order, name: string, x: Remains, y: Remains, now: int, done: bool)
    requires Sorts(m.tools)
  {
    && DeploymentLeaves(m.tools, x.disk, y.disk, name, AimOf(m, order, x.disk), done)
    && StoreReady(m, name, y, now) && (done ==> CommittedAt(m, name, y.objects, now))
  }

  /** One execution by a process that has just been started, in which nothing but a crash goes wrong. */
  method ExecuteZip(n: DeploymentManager, upload: Bytes, key: string, name: string, clock: int, now: int)
    returns (out: Outcome<DeployResult>, y: Remains)
    requires key != "" && name == n.jobName(key, upload) && clock < now
    requires n.Valid() && n.staging == map[] && Reliable(n.env.script)
    requires StoreReady(n, name, Remains(n.State(), n.store.objects), clock)
    requires Executable(n, Unpack(upload), name, n.State())
    modifies n`releases, n`staging, n`current, n`healthy, n.store`objects, n.store`ledger, n.env
    ensures Leads(n, Unpack(upload), name, Remains(old(n.State()), old(n.store.objects)), y, now, out.Done?)
    ensures out.Done? ==> n.monitored ==> n.healthy == Some(name)
    ensures !out.Raised? && (Undisturbed(old(n.env.script)) ==> out.Done?)
  {
    out := n.DeployZip(upload, Some(key), "", now, false);
    y := Remains(n.State(), n.store.objects);
  }

  method ExecutePut(n: DeploymentManager, path: string, upload: Bytes, key: string, name: string, clock: int, now: int)
    returns (out: Outcome<DeployResult>, y: Remains)
    requires key != "" && name == n.jobName(key, upload) && clock < now
    requires n.Valid() && n.staging == map[] && Reliable(n.env.script)
    requires StoreReady(n, name, Remains(n.State(), n.store.objects), clock)
    requires Executable(n, PutAt(path, upload), name, n.State())
    modifies n`releases, n`staging, n`current, n`healthy, n.store`objects, n.store`ledger, n.env
    ensures Leads(n, PutAt(path, upload), name, Remains(old(n.State()), old(n.store.objects)), y, now, out.Done?)
    ensures out.Done? ==> n.monitored ==> n.healthy == Some(name)
    ensures !out.Raised? && (Undisturbed(old(n.env.script)) ==> out.Done?)
  {
    ghost var source := n.PutSource(n.State(), path, upload).value;
    assert n.Feasible(source, name) && AimOf(n, PutAt(path, upload), n.State()) == n.Goal(source);
    out := n.PutFile(path, upload, Some(key), "", now);
    y := Remains(n.State(), n.store.objects);
  }

  /** A new process executes the order on what the last one left behind. */
  method RestartAndExecute(m: DeploymentManager, order: Order, key: string, name: string, x: Remains,
                           script: seq<Fate>, clock: int, now: int)
    returns (out: Outcome<DeployResult>, y: Remains, ghost healthy: Option<string>)
    requires key != "" && name == m.jobName(key, order.upload) && clock < now && Reliable(script)
    requires Configured(m) && Sound(m.tools, x.disk) && StoreReady(m, name, x, clock)
    requires Executable(m, order, name, x.disk)
    ensures Leads(m, order, name, x, y, now, out.Done?)
    ensures out.Done? ==> m.monitored ==> healthy == Some(name)
    ensures !out.Raised? && (Undisturbed(script) ==> out.Done?)
  {
    var n := Restarted(m, x, script);
    ghost var cleared := Remains(n.State(), n.store.objects);
    AlikeExecutable(m, n, order, name, x.disk);
    ClearedIsTheSame(m, order, name, x, cleared);
    match order {
      case Unpack(upload) => out, y := ExecuteZip(n, upload, key, name, clock, now);
      case PutAt(path, upload) => out, y := ExecutePut(n, path, upload, key, name, clock, now);
    }
    healthy := n.healthy;
    LeadsAlike(m, n, order, name, x, cleared, y, now, out.Done?);
  }

  lemma ClearedIsTheSame(m: DeploymentManager, order: Order, name: string, x: Remains, y: Remains)
    requires y == Remains(x.disk.(staging := map[]), x.objects)
    ensures Executable(m, order, name, y.disk) == Executable(m, order, name, x.disk)
    ensures AimOf(m, order, y.disk) == AimOf(m, order, x.disk)
  {
  }

  lemma LeadsAlike(m: DeploymentManager, n: DeploymentManager, order: Order, name: string, w: Remains, x: Remains,
                   y: Remains, now: int, done: bool)
    requires Alike(m, n) && Sorts(m.tools) && Leads(n, order, name, x, y, now, done)
    requires x == Remains(w.disk.(staging := map[]), w.objects)
    ensures Leads(m, order, name, w, y, now, done)
  {
    AlikeExecutable(m, n, order, name, x.disk);
    ClearedIsTheSame(m, order, name, w, x);
    SameReleases(m.tools, w.disk, x.disk);
  }

  // ----- any number of executions -----------------------------------------------------------------------

  /** Executions in none of which anything but a crash goes wrong, at later and later times. */
  ghost predicate Scheduled(scripts: seq<seq<Fate>>, clock: int, times: seq<int>) {
    && |scripts| == |times| > 0
    && (forall i :: 0 <= i < |scripts| ==> Reliable(scripts[i]))
    && (forall i :: 0 <= i < |times| ==> clock < times[i])
    && (forall i, j :: 0 <= i < j < |times| ==> times[i] < times[j])
  }

  /** Between two executions that began with disk `d0` and aim at `goal`. */
  ghost predicate Underway(m: DeploymentManager, order: Order, name: string, d0: Disk, goal: Option<Files>, x: Remains,
                           clock: int)
    requires Sorts(m.tools)
  {
    && Sound(m.tools, x.disk) && StoreReady(m, name, x, clock) && Executable(m, order, name, x.disk)
    && OnTheWay(ViewOf(m.tools, d0), ViewOf(m.tools, x.disk), name, goal)
    && (x.disk.current != Some(name) ==> AimOf(m, order, x.disk) == goal)
  }

  lemma UnderwayAdvances(m: DeploymentManager, order: Order, name: string, d0: Disk, goal: Option<Files>, x: Remains,
                         y: Remains, clock: int, now: int, done: bool)
    requires Sorts(m.tools) && Sound(m.tools, d0) && d0.current != Some(name)
    requires Underway(m, order, name, d0, goal, x, clock) && Leads(m, order, name, x, y, now, done)
    ensures Underway(m, order, name, d0, goal, y, now)
  {
    ExecutableStays(m, order, name, x.disk, y.disk, done);
    if x.disk.current == Some(name) { SameReleases(m.tools, x.disk, y.disk); }
    OneMore(ViewOf(m.tools, d0), ViewOf(m.tools, x.disk), ViewOf(m.tools, y.disk), name, goal, AimOf(m, order, x.disk));
  }

  /** The operation is over: its release is current and has the files aimed at; the release that was
      current before is still there to return to; no other release was added; and if durability is
      required, the durable store names the release as well. */
  ghost predicate Completed(m: DeploymentManager, name: string, d0: Disk, goal: Option<Files>, x: Remains, now: int)
    requires Sorts(m.tools)
  {
    && x.disk.current == Some(name) && goal.Some? && Content(m.tools, x.disk, name) == goal
    && x.disk.releases.Keys <= d0.releases.Keys + {name}
    && (d0.current.Some? ==>
          Content(m.tools, x.disk, d0.current.value) == Content(m.tools, d0, d0.current.value))
    && CommittedAt(m, name, x.objects, now)
  }

  lemma DoneMeansCompleted(m: DeploymentManager, order: Order, name: string, d0: Disk, goal: Option<Files>, x: Remains,
                           now: int)
    requires Sorts(m.tools) && goal.Some? && Underway(m, order, name, d0, goal, x, now)
    requires x.disk.current == Some(name) && CommittedAt(m, name, x.objects, now)
    ensures Completed(m, name, d0, goal, x, now)
  {
    var v, v' := ViewOf(m.tools, d0), ViewOf(m.tools, x.disk);
    forall r | r in v'.names && r != name ensures r in v.names { }
  }

  method ExecuteAgain(m: DeploymentManager, order: Order, key: string, name: string, ghost d0: Disk,
                      ghost goal: Option<Files>, x: Remains, script: seq<Fate>, clock: int, now: int)
    returns (out: Outcome<DeployResult>, y: Remains, ghost healthy: Option<string>)
    requires key != "" && name == m.jobName(key, order.upload) && clock < now && Reliable(script)
    requires Configured(m) && Sound(m.tools, d0) && d0.current != Some(name)
    requires goal == AimOf(m, order, d0) && Executable(m, order, name, d0)
    requires Underway(m, order, name, d0, goal, x, clock)
    ensures Underway(m, order, name, d0, goal, y, now)
    ensures out.Done? ==> Completed(m, name, d0, goal, y, now) && (m.monitored ==> healthy == Some(name))
    ensures !out.Raised? && (Undisturbed(script) ==> out.Done?)
  {
    out, y, healthy := RestartAndExecute(m, order, key, name, x, script, clock, now);
    UnderwayAdvances(m, order, name, d0, goal, x, y, clock, now, out.Done?);
    if out.Done? { DoneMeansCompleted(m, order, name, d0, goal, y, now); }
  }

  /** A deployment or `/put` survives every crash: executed again and again, with the process dying at
      any point of any execution, it never raises, and the first execution that is left alone completes
      it.  A repeated `/put` does not build on its own result. */
  method Repeat(m: DeploymentManager, order: Order, key: string, scripts: seq<seq<Fate>>, start: Remains, clock: int,
                times: seq<int>)
    returns (out: Outcome<DeployResult>, x: Remains, ghost healthy: Option<string>)
    requires key != "" && Scheduled(scripts, clock, times) && Configured(m) && Sound(m.tools, start.disk)
    requires var name := m.jobName(key, order.upload);
             && start.disk.current != Some(name)
             && Executable(m, order, name, start.disk) && StoreReady(m, name, start, clock)
    ensures !out.Raised? && (Undisturbed(scripts[|scripts| - 1]) ==> out.Done?)
    ensures out.Done? ==>
      && Completed(m, m.jobName(key, order.upload), start.disk, AimOf(m, order, start.disk), x, times[|times| - 1])
      && (m.monitored ==> healthy == Some(m.jobName(key, order.upload)))
    ensures Underway(m, order, m.jobName(key, order.upload), start.disk, AimOf(m, order, start.disk), x,
                     times[|times| - 1])
  {
    var name := m.jobName(key, order.upload);
    ghost var goal := AimOf(m, order, start.disk);
    NothingYet(ViewOf(m.tools, start.disk), name, goal);
    out, x, healthy := ExecuteAgain(m, order, key, name, start.disk, goal, start, scripts[0], clock, times[0]);
    for i := 1 to |scripts|
      invariant Underway(m, order, name, start.disk, goal, x, times[i - 1])
      invariant !out.Raised? && (Undisturbed(scripts[i - 1]) ==> out.Done?)
      invariant out.Done? ==>
        Completed(m, name, start.disk, goal, x, times[i - 1]) && (m.monitored ==> healthy == Some(name))
    {
      out, x, healthy :=
        ExecuteAgain(m, order, key, name, start.disk, goal, x, scripts[i], times[i - 1], times[i]);
    }
  }

  // ----- a repetition that promotes and then fails --------------------------------------------------------

  /** The promotion is written, retention is skipped because the listing fails, the app is unhealthy. */
  function UnhealthyApp(): (script: seq<Fate>)
    ensures OnlyRetentionFails(script) && FailsNext(script[5..])
  {
    [Go, Go, Go, Go, Fail(false, {}), Fail(false, {})]
  }

  lemma PromotionIsAnswer(s: Scheme, objs: Objects, p: string, r: string, now: int)
    requires Promotable(s, objs, p, r) && SafeProject(p) && SafeRelease(r)
    ensures Answer(s, Promotion(s, objs, p, r, now, 3), p) == Some(r)
  {
  }

  method ResumeUnhealthy(n: DeploymentManager, name: string, now: int)
    returns (out: Outcome<DeployResult>, objs: Objects, ghost promoted: bool)
    requires n.Valid() && n.current == Some(name) && n.env.script == UnhealthyApp()
    modifies n`healthy, n.store`objects, n.store`ledger, n.env
    ensures objs == n.store.objects
    ensures out.Raised? && promoted <==> n.Renewable(old(n.store.objects), name) && n.monitored
    ensures out.Raised? && promoted ==>
      objs == Promotion(n.store.scheme, old(n.store.objects), n.project, name, now, 3)
  {
    out, promoted := n.ResumeCurrent(name, now);
    objs := n.store.objects;
  }

  /** A repetition finds its release current, promotes it, and only then finds the app unhealthy.  It is
      an error, but nothing is taken back: the release stays current, and `latest` now answers with it.
      This happens under the script below exactly if the store can promote the release and the app is
      run here; by the contract of `ResumeCurrent` it happens under no script otherwise. */
  method PromotedThenUnhealthy(m: DeploymentManager, name: string, x: Remains, now: int)
    returns (out: Outcome<DeployResult>, y: Remains, ghost promoted: bool)
    requires Configured(m) && Sound(m.tools, x.disk) && x.disk.current == Some(name)
    ensures !(m.Renewable(x.objects, name) && m.monitored) ==> !(out.Raised? && promoted)
    ensures m.Renewable(x.objects, name) && m.monitored ==>
      && out.Raised? && promoted && SameDisk(x.disk, y.disk)
      && y.objects == Promotion(m.store.scheme, x.objects, m.project, name, now, 3)
      && Answer(m.store.scheme, y.objects, m.project) == Some(name)
  {
    var n := Restarted(m, x, UnhealthyApp());
    var objs;
    out, objs, promoted := ResumeUnhealthy(n, name, now);
    y := Remains(n.State(), objs);
    if out.Raised? && promoted { PromotionIsAnswer(m.store.scheme, x.objects, m.project, name, now); }
  }

  // ----- a repetition that can never complete ---------------------------------------------------------------

  /** The release is current, but durability is required and the store has no candidate to promote. */
  ghost predicate Stuck(m: DeploymentManager, name: string, x: Remains)
    requires Sorts(m.tools)
  {
    && Sound(m.tools, x.disk) && x.disk.current == Some(name)
    && m.store.enabled && m.durabilityRequired && !m.Renewable(x.objects, name)
  }

  /** One repetition by a new process that finds the release current.  Undisturbed, it completes if and
      only if durability is not required or the store can promote the release; stuck, it stays so under
      any script. */
  method Resume(m: DeploymentManager, name: string, x: Remains, script: seq<Fate>, now: int)
    returns (out: Outcome<DeployResult>, y: Remains)
    requires Configured(m) && Sound(m.tools, x.disk) && x.disk.current == Some(name)
    ensures SameDisk(x.disk, y.disk)
    ensures Undisturbed(script) ==> (out.Done? <==> !Stuck(m, name, x))
    ensures Stuck(m, name, x) ==> !out.Done? && Stuck(m, name, y)
  {
    var n := Restarted(m, x, script);
    ghost var promoted;
    out, promoted := n.ResumeCurrent(name, now);
    y := Remains(n.State(), n.store.objects);
    SameReleases(m.tools, x.disk, y.disk);
  }

  /** Once stuck, the operation never completes, however often it is executed. */
  method NeverCompletes(m: DeploymentManager, name: string, start: Remains, scripts: seq<seq<Fate>>, times: seq<int>)
    returns (completed: bool, x: Remains)
    requires Configured(m) && Stuck(m, name, start) && |times| == |scripts|
    ensures !completed && Stuck(m, name, x)
  {
    completed, x := false, start;
    for i := 0 to |scripts|
      invariant !completed && Stuck(m, name, x)
    {
      var out;
      out, x := Resume(m, name, x, scripts[i], times[i]);
      completed := out.Done?;
    }
  }

  /** How it comes to that: the release is activated and confirmed, its promotion fails, the candidate is
      withdrawn, and the process dies before the release that was current before is current again. */
  function WithdrawnThenKilled(): (script: seq<Fate>)
    ensures KilledAfterWithdrawal(script)
  {
    [Fail(false, {}), Go, Go, Go, Crash({})]
  }

  lemma WithdrawnIsStuck(m: DeploymentManager, name: string, x: Remains, y: Remains)
    requires Sorts(m.tools) && Sound(m.tools, x.disk) && x.disk.current == Some(name) && SameDisk(x.disk, y.disk)
    requires m.store.enabled && m.durabilityRequired && y.objects == x.objects - KeysOf(m.project, name)
    ensures Stuck(m, name, y)
  {
    assert Meta(m.project, name) in KeysOf(m.project, name);
    SameReleases(m.tools, x.disk, y.disk);
  }

  method GetsStuck(n: DeploymentManager, name: string, previous: Option<string>, now: int)
    returns (out: Outcome<bool>, y: Remains)
    requires n.Valid() && n.env.script == WithdrawnThenKilled() && n.durabilityRequired
    requires n.current == Some(name) && n.store.enabled && SafeProject(n.project) && SafeRelease(name)
    requires previous.Some? ==> Content(n.tools, n.State(), previous.value).Some?
    requires Backed(n.store.scheme, n.store.objects, n.project, name)
    modifies n`current, n`healthy, n.store`objects, n.store`ledger, n.env
    ensures out.Crashed? && y == Remains(n.State(), n.store.objects) && Stuck(n, name, y)
  {
    ghost var before := Remains(n.State(), n.store.objects);
    out := n.CommitCandidate(name, previous, now);
    y := Remains(n.State(), n.store.objects);
    WithdrawnIsStuck(n, name, before, y);
  }
}
