/** The job worker of the deployment plugin: it claims persistent jobs and drives the deployment
    manager, so that at-least-once execution has the effect of executing once. */
module Worker {
  import opened Prelude
  import opened Paths
  import opened Chronology
  import opened Manifest
  import opened LocalState
  import opened Releases
  import opened RemoteState
  import opened Storage
  import opened Jobs

  /** What a job asks for, as frozen when it was enqueued.  Files are named by their Telegram id. */
  datatype Request =
    | Deploy(file: string)
    | Put(path: string, file: string)
    | Rollback(release: Option<string>)
    | Restore(name: string)
    | Restart
    | Malformed

  datatype Payload = Payload(actor: int, request: Request)

  const KINDS: set<string> := {"document", "rollback", "restart", "restore"}
  const LEASE := 600

  /** Seconds before a job that failed unexpectedly is tried again: doubled with every attempt up to 32. */
  function Backoff(attempts: int): (delay: int)
    ensures attempts <= 1 ==> delay == 2
    ensures 1 <= attempts < 5 ==> Backoff(attempts + 1) == 2 * delay
    ensures attempts >= 5 ==> delay == 32
    decreases if attempts < 5 then 5 - attempts else 0
  {
    if attempts <= 1 then 2 else if attempts == 2 then 4 else if attempts == 3 then 8
    else if attempts == 4 then 16 else 32
  }

  /** What was reported to the queue about a claimed job. */
  datatype Report = Nothing | Success | Failure(retry: bool, delay: int) | SuccessThenFailure(delay: int)

  function Closed(rows: seq<Job<Payload>>, id: nat, report: Report, now: int): seq<Job<Payload>>
    requires id < |rows|
  {
    var j := rows[id];
    match report
    case Nothing => rows
    case Success => rows[id := Completed(j)]
    case Failure(retry, delay) => rows[id := Reported(j, CanRetry(j, retry), delay, now)]
    case SuccessThenFailure(delay) => rows[id := Reported(Completed(j), CanRetry(j, true), delay, now)]
  }

  /** Which reports an outcome can lead to: a DeployError is final, any other exception is retried. */
  predicate Justifies(verdict: Outcome<()>, attempts: int, report: Report) {
    match report
    case Nothing => true
    case Success => verdict.Done?
    case Failure(retry, delay) =>
      if retry then delay == Backoff(attempts) && !verdict.Crashed? && verdict != Raised(Rejected)
      else verdict == Raised(Rejected)
    case SuccessThenFailure(delay) => verdict.Done? && delay == Backoff(attempts)
  }

  datatype World = World(disk: Disk, objects: Objects, rows: seq<Job<Payload>>)

  class JobWorker {
    const database: PostgresDatabase<Payload>
    const manager: DeploymentManager
    const admins: set<int>
    const contents: string -> Bytes     // uploads are immutable
    const env: Environment

    constructor (database: PostgresDatabase<Payload>, manager: DeploymentManager, admins: set<int>,
                 contents: string -> Bytes)
      ensures this.database == database && this.manager == manager && this.admins == admins
      ensures this.contents == contents && this.env == manager.env
    {
      this.database, this.manager, this.admins, this.contents := database, manager, admins, contents;
      this.env := manager.env;
    }

    ghost predicate Valid()
      reads manager, database
    {
      && manager.Valid() && env == manager.env
      && forall i :: 0 <= i < |database.rows| ==> database.rows[i].key != ""
    }

    function Snapshot(): World
      reads manager, manager.store, database
    {
      World(manager.State(), manager.store.objects, database.rows)
    }

    // ----- what one execution of a request may do to the disk ----------------------------------------

    /** A restore of the bytes fetched from the durable store, if it got that far. */
    ghost predicate RestoreLeaves(d: Disk, d': Disk, key: string, fetched: Option<Bytes>, done: bool)
      requires Sorts(manager.tools)
    {
      if fetched.None? then SameDisk(d, d') && !done
      else
        DeploymentLeaves(manager.tools, d, d', manager.jobName(key, fetched.value),
                         manager.Goal(Zip(fetched.value)), done)
    }

    /** `current` stays or moves to the target; no release is changed. */
    ghost predicate Switches(d: Disk, d': Disk, release: Option<string>)
      requires Sorts(manager.tools)
    {
      && Sound(manager.tools, d') && d'.releases == d.releases
      && (d'.current == d.current || (d'.current.Some? && manager.RollsTo(d, release, d'.current.value)))
    }

    /** A switch to the target, and a restore of it if it could not be made current locally. */
    ghost predicate RollbackLeaves(objs: Objects, d: Disk, mid: Disk, d': Disk, key: string, release: Option<string>,
                                   fetched: Option<Bytes>, done: bool)
      requires Sorts(manager.tools)
    {
      && Switches(d, mid, release)
      && (if fetched.None?
          then SameDisk(mid, d') && (done ==> mid.current.Some? && manager.RollsTo(d, release, mid.current.value))
          else
            && release.Some? && release != Some("") && RestoreLeaves(mid, d', key, fetched, done)
            && (release != Some("latest") ==> manager.Restorable(objs, release.value, fetched.value)))
    }

    /** What was fetched belongs to the release that was asked for by its name. */
    ghost predicate Asked(objs: Objects, name: string, fetched: Option<Bytes>) {
      fetched.Some? && name != "" && name != "latest" ==> manager.Restorable(objs, name, fetched.value)
    }

    ghost predicate RequestLeaves(objs: Objects, d: Disk, d': Disk, key: string, request: Request, done: bool)
      requires Sorts(manager.tools)
    {
      match request
      case Deploy(file) =>
        DeploymentLeaves(manager.tools, d, d', manager.jobName(key, contents(file)),
                         manager.Goal(Zip(contents(file))), done)
      case Put(path, file) =>
        DeploymentLeaves(manager.tools, d, d', manager.jobName(key, contents(file)),
                         manager.PutGoal(d, path, contents(file)), done)
      case Rollback(release) => exists mid, fetched :: RollbackLeaves(objs, d, mid, d', key, release, fetched, done)
      case Restore(name) => exists fetched :: RestoreLeaves(d, d', key, fetched, done) && Asked(objs, name, fetched)
      case Restart => SameDisk(d, d')
      case Malformed => SameDisk(d, d') && !done
    }

    lemma NothingPerformed(objs: Objects, d: Disk, d': Disk, key: string, request: Request)
      requires Sorts(manager.tools) && Sound(manager.tools, d) && SameDisk(d, d')
      ensures RequestLeaves(objs, d, d', key, request, false)
    {
      SameReleases(manager.tools, d, d');
      match request {
        case Deploy(file) =>
          NothingDone(manager.tools, d, d', manager.jobName(key, contents(file)), manager.Goal(Zip(contents(file))));
        case Put(path, file) =>
          NothingDone(manager.tools, d, d', manager.jobName(key, contents(file)),
                      manager.PutGoal(d, path, contents(file)));
        case Rollback(release) => assert RollbackLeaves(objs, d, d, d', key, release, None, false);
        case Restore(name) => assert RestoreLeaves(d, d', key, None, false) && Asked(objs, name, None);
        case Restart =>
        case Malformed =>
      }
    }

    lemma SwitchedOnly(objs: Objects, d: Disk, d': Disk, key: string, release: Option<string>, done: bool)
      requires Sorts(manager.tools) && Switches(d, d', release)
      requires done ==> d'.current.Some? && manager.RollsTo(d, release, d'.current.value)
      ensures RequestLeaves(objs, d, d', key, Rollback(release), done)
    {
      assert RollbackLeaves(objs, d, d', d', key, release, None, done);
    }

    lemma SwitchedAndRestored(objs: Objects, d: Disk, mid: Disk, d': Disk, key: string, release: Option<string>,
                              fetched: Option<Bytes>, done: bool)
      requires Sorts(manager.tools) && Switches(d, mid, release)
      requires release.Some? && release.value != "" && RestoreLeaves(mid, d', key, fetched, done)
      requires Asked(objs, release.value, fetched)
      ensures RequestLeaves(objs, d, d', key, Rollback(release), done)
    {
      assert RollbackLeaves(objs, d, mid, d', key, release, fetched, done);
    }

    // ----- freezing targets when a job is enqueued --------------------------------------------------------

    /** `_resolve_rollback_target`: the release a rollback job will go to, however late it runs. */
    method ResolveRollbackTarget(release: Option<string>) returns (out: Outcome<string>)
      ensures out.Done? <==>
        exists n :: manager.current.Some? && manager.current != Some(n) && manager.RollsTo(manager.State(), release, n)
      ensures out.Done? ==> manager.RollsTo(manager.State(), release, out.value) && manager.current != Some(out.value)
      ensures !out.Done? ==> out == Raised(Rejected)
    {
      manager.TargetIsUnique(manager.State(), release);
      out := manager.RollbackTarget(release);
      if out.Done? && manager.current == Some(out.value) { return Raised(Rejected); }
    }

    /** `_resolve_restore_target`: `latest` becomes the newest active release by its activation marker,
        even if `latest.json` names another. */
    method ResolveRestoreTarget(release: string) returns (out: Outcome<string>)
      requires env == manager.store.env
      modifies env
      ensures release != "" && release != "latest" ==> out == Done(release)
      ensures out.Raised? ==> out.fault == Rejected
      ensures (release == "" || release == "latest") && out.Done? ==>
        RemoteState.Marker(manager.project, out.value) in manager.store.objects
      ensures (release == "" || release == "latest") && out.Done?
              && Reliable(old(env.script)) && SafeProject(manager.project)
              && |ProjectKeys(manager.store.objects, manager.project)| <= 55 ==>
        NewestActive(manager.store.objects, manager.project) == Some(out.value)
    {
      if release != "" && release != "latest" { return Done(release); }
      if !manager.store.enabled { return Raised(Rejected); }
      var backups := manager.store.ListReleases(manager.project, 1);
      if backups.Crashed? { return Crashed; }
      if backups.Raised? || backups.value == [] { return Raised(Rejected); }
      assert backups.value[0] in backups.value;
      return Done(backups.value[0]);
    }

    // ----- executing a request ----------------------------------------------------------------------------

    /** Fetching the uploaded file again from Telegram. */
    method Download(file: string) returns (out: Outcome<Bytes>)
      modifies env
      ensures out.Done? ==> out.value == contents(file) && |out.value| <= manager.limits.maxUpload
      ensures FailsNext(old(env.script)) ==> out == Raised(Broken)
      ensures CrashesNext(old(env.script)) ==> out.Crashed?
      ensures !FailsNext(old(env.script)) && out.Raised? ==> out.fault == Rejected
      ensures |contents(file)| <= manager.limits.maxUpload ==> Faithful(old(env.script), out)
      ensures Keeps(old(env.script), env.script)
    {
      var fate := env.Next();
      if fate.Crash? { return Crashed; }
      if fate.Fail? { return Raised(Broken); }
      if |contents(file)| > manager.limits.maxUpload { return Raised(Rejected); }
      return Done(contents(file));
    }

    /** A listing of a hundred releases shows them all. */
    ghost predicate AllShown()
      reads manager.store
    {
      var store, project := manager.store, manager.project;
      && SafeProject(project) && MarkersValid(store.scheme, store.objects, project)
      && |ProjectKeys(store.objects, project)| <= 550 && |Listing(ActiveRows(store.objects, project))| <= 100
    }

    /** The disk has lost the release, but it can be restored. */
    ghost predicate FallsBack(key: string, release: Option<string>)
      reads manager, manager.store
    {
      && release.Some?
      && (manager.current.None? || release.value !in manager.releases)
      && AllShown() && manager.Retrievable(release.value, Some(key), "")
    }

    /** A request that fails only if the environment makes it fail. */
    ghost predicate Doable(key: string, request: Request)
      reads manager, manager.store
    {
      match request
      case Deploy(file) =>
        |contents(file)| <= manager.limits.maxUpload
        && manager.Feasible(Zip(contents(file)), manager.jobName(key, contents(file)))
      case Put(path, file) =>
        var source := manager.PutSource(manager.State(), path, contents(file));
        source.Some? && manager.Feasible(source.value, manager.jobName(key, contents(file)))
      case Rollback(release) =>
        FallsBack(key, release) || manager.Possible(release, true)
      case Restore(name) => manager.Retrievable(name, Some(key), "")
      case Restart => manager.monitored
      case Malformed => false
    }

    /** Requests other than documents that can be carried out: a restart of a configured app, a rollback to
        a release that verifies, and the restore of a named release, also in place of a rollback to it. */
    lemma WhatCanBeDone(key: string, r: string, u: Bytes)
      requires manager.Valid() && key != "" && r != "" && r != "latest"
      ensures manager.monitored ==> Doable(key, Restart)
      ensures manager.current.Some? && r in manager.releases
              && Verifies(manager.tools, FilesOf(manager.releases[r].tree), manager.releases[r].manifest) ==>
        Doable(key, Rollback(Some(r)))
      ensures var store, limits := manager.store, manager.limits;
        store.enabled && manager.Restorable(store.objects, r, u) && manager.Feasible(Zip(u), manager.jobName(key, u))
        && |u| <= limits.maxBytes + 1024 * limits.maxFiles + 1048576 ==>
          && Doable(key, Restore(r))
          && ((manager.current.None? || r !in manager.releases) && SafeProject(manager.project)
              && MarkersValid(store.scheme, store.objects, manager.project)
              && |ProjectKeys(store.objects, manager.project)| <= 550
              && |Listing(ActiveRows(store.objects, manager.project))| <= 100 ==>
                Doable(key, Rollback(Some(r))))
    {
      if manager.current.Some? && r in manager.releases
         && Verifies(manager.tools, FilesOf(manager.releases[r].tree), manager.releases[r].manifest)
      {
        assert manager.PossibleTo(Some(r), true, r);
      }
      assert manager.NewReleaseName(u, Some(key), "") == manager.jobName(key, u);
    }

    method HandleDocument(key: string, request: Request, now: int) returns (out: Outcome<()>)
      requires manager.Valid() && env == manager.env && key != "" && (request.Deploy? || request.Put?)
      modifies manager`releases, manager`staging, manager`current, manager`healthy
      modifies manager.store`objects, manager.store`ledger, env
      ensures RequestLeaves(old(manager.store.objects), old(manager.State()), manager.State(), key, request, out.Done?)
      ensures out.Done? ==> manager.Confirmed()
      ensures old(Doable(key, request)) ==> Faithful(old(env.script), out)
      ensures Keeps(old(env.script), env.script)
    {
      NothingPerformed(manager.store.objects, manager.State(), manager.State(), key, request);
      var upload := Download(request.file);
      if !upload.Done? { return upload.PropagateFailure(); }
      var deployed: Outcome<DeployResult>;
      if request.Deploy? {
        deployed := manager.DeployZip(upload.value, Some(key), "", now, false);
      } else {
        deployed := manager.PutFile(request.path, upload.value, Some(key), "", now);
      }
      if !deployed.Done? { return deployed.PropagateFailure(); }
      return Done(());
    }

    /** Whether the release is among those that the durable store lists. */
    method IsListed(r: string) returns (out: Outcome<bool>)
      requires env == manager.env == manager.store.env
      modifies env
      ensures out == Done(true) ==>
        manager.store.enabled && RemoteState.Marker(manager.project, r) in manager.store.objects
      ensures !manager.store.enabled ==> out == Done(false)
      ensures manager.store.enabled && SafeProject(manager.project) && FailsNext(old(env.script)) ==> out.Raised?
      ensures AllShown() ==> Faithful(old(env.script), out)
      ensures AllShown() && manager.store.enabled && Reliable(old(env.script)) && out.Done?
              && (exists u :: manager.Restorable(manager.store.objects, r, u)) ==>
        out.value
      ensures Keeps(old(env.script), env.script)
    {
      if !manager.store.enabled { return Done(false); }
      var listed := manager.store.ListReleases(manager.project, 100);
      if !listed.Done? { return listed.PropagateFailure(); }
      if AllShown() && Reliable(old(env.script)) && exists u :: manager.Restorable(manager.store.objects, r, u) {
        RestorableIsListed(r, listed.value);
      }
      return Done(r in listed.value);
    }

    /** The release as the durable store has it. */
    method DoRestore(key: string, name: string, now: int) returns (out: Outcome<()>, ghost fetched: Option<Bytes>)
      requires manager.Valid() && env == manager.env && key != ""
      modifies manager`releases, manager`staging, manager`current, manager`healthy
      modifies manager.store`objects, manager.store`ledger, env
      ensures RestoreLeaves(old(manager.State()), manager.State(), key, fetched, out.Done?)
      ensures Asked(old(manager.store.objects), name, fetched)
      ensures out.Done? ==> manager.Confirmed()
      ensures out.Raised? ==> out.fault == Rejected
      ensures old(manager.Retrievable(name, Some(key), "")) ==> Faithful(old(env.script), out)
      ensures Keeps(old(env.script), env.script)
    {
      var restored, bytes := manager.RestoreBackup(Some(name), Some(key), "", now);
      fetched := bytes;
      if !restored.Done? { return restored.PropagateFailure(), fetched; }
      return Done(()), fetched;
    }

    /** The durable fallback of a rollback: restores the release if it is listed. */
    method RestoreListed(key: string, r: string, now: int) returns (out: Outcome<()>, ghost fetched: Option<Bytes>)
      requires manager.Valid() && env == manager.env && key != "" && r != ""
      modifies manager`releases, manager`staging, manager`current, manager`healthy
      modifies manager.store`objects, manager.store`ledger, env
      ensures RestoreLeaves(old(manager.State()), manager.State(), key, fetched, out.Done?)
      ensures Asked(old(manager.store.objects), r, fetched)
      ensures out.Done? ==> manager.Confirmed()
      ensures out.Raised? ==> out.fault == Rejected
      ensures old(AllShown() && manager.Retrievable(r, Some(key), "")) ==> Faithful(old(env.script), out)
      ensures !manager.store.enabled || (SafeProject(manager.project) && FailsNext(old(env.script))) ==>
        out == Raised(Rejected) && fetched.None?
      ensures Keeps(old(env.script), env.script)
    {
      var listed := IsListed(r);
      if listed.Crashed? { return Crashed, None; }
      if listed != Done(true) { return Raised(Rejected), None; }
      out, fetched := DoRestore(key, r, now);
    }

    /** The frozen target from the local disk. */
    method TrySwitch(key: string, release: Option<string>) returns (out: Outcome<()>)
      requires manager.Valid() && env == manager.env
      modifies manager`current, manager`healthy, env
      ensures manager.Valid() && Switches(old(manager.State()), manager.State(), release)
      ensures RequestLeaves(manager.store.objects, old(manager.State()), manager.State(), key, Rollback(release),
                            out.Done?)
      ensures out.Done? ==> manager.Confirmed()
      ensures old(FallsBack(key, release)) ==> out == Raised(Rejected) && FallsBack(key, release)
      ensures old(manager.Possible(release, true)) ==> Faithful(old(env.script), out)
      ensures Keeps(old(env.script), env.script)
    {
      ghost var lost := FallsBack(key, release);
      var switched := manager.Rollback(release, true);
      assert lost ==> switched == Raised(Rejected) && FallsBack(key, release);
      SwitchedOnly(manager.store.objects, old(manager.State()), manager.State(), key, release, switched.Done?);
      return if switched.Done? then Done(()) else switched.PropagateFailure();
    }

    /** The frozen target from the local disk, or from the durable store if the disk has lost it. */
    method DoRollback(key: string, release: Option<string>, now: int) returns (out: Outcome<()>)
      requires manager.Valid() && env == manager.env && key != ""
      modifies manager`releases, manager`staging, manager`current, manager`healthy
      modifies manager.store`objects, manager.store`ledger, env
      ensures RequestLeaves(old(manager.store.objects), old(manager.State()), manager.State(), key,
                            Rollback(release), out.Done?)
      ensures out.Done? ==> manager.Confirmed()
      ensures old(Doable(key, Rollback(release))) ==> Faithful(old(env.script), out)
      ensures Keeps(old(env.script), env.script)
    {
      ghost var objs, before := manager.store.objects, manager.State();
      out := TrySwitch(key, release);
      if out == Raised(Rejected) && release.Some? && release.value != "" {
        ghost var mid, fetched := manager.State(), None;
        out, fetched := RestoreListed(key, release.value, now);
        SwitchedAndRestored(objs, before, mid, manager.State(), key, release, fetched, out.Done?);
      }
    }

    lemma RestorableIsListed(r: string, listed: seq<string>)
      requires exists u :: manager.Restorable(manager.store.objects, r, u)
      requires listed == Names(Listing(ActiveRows(manager.store.objects, manager.project)))
      ensures r in listed
    {
      var objs, p := manager.store.objects, manager.project;
      InActiveRows(manager.store.scheme, objs, p, r);
      var row := Row(objs[RemoteState.Marker(p, r)].payload.activatedAt.value, r);
      var rows := Listing(ActiveRows(objs, p));
      assert row in rows;
      var i :| 0 <= i < |rows| && rows[i] == row;
      assert listed[i] == r;
    }

    method Perform(key: string, request: Request, now: int) returns (out: Outcome<()>)
      requires manager.Valid() && env == manager.env && key != ""
      modifies manager`releases, manager`staging, manager`current, manager`healthy
      modifies manager.store`objects, manager.store`ledger, env
      ensures RequestLeaves(old(manager.store.objects), old(manager.State()), manager.State(), key, request, out.Done?)
      ensures out.Done? ==> manager.Confirmed()
      ensures old(Doable(key, request)) ==> Faithful(old(env.script), out)
      ensures request.Malformed? || (request.Restart? && !manager.monitored) ==> out == Raised(Rejected)
      ensures request.Restore? && out.Raised? ==> out.fault == Rejected
      ensures Keeps(old(env.script), env.script)
    {
      match request {
        case Deploy(_) => out := HandleDocument(key, request, now);
        case Put(_, _) => out := HandleDocument(key, request, now);
        case Rollback(release) => out := DoRollback(key, release, now);
        case Restore(name) =>
          ghost var fetched;
          out, fetched := DoRestore(key, name, now);
          assert RestoreLeaves(old(manager.State()), manager.State(), key, fetched, out.Done?)
                 && Asked(old(manager.store.objects), name, fetched);
        case Restart =>
          if !manager.monitored { return Raised(Rejected); }
          var restarted := manager.RestartAndVerify();
          if !restarted.Done? { return restarted.PropagateFailure(); }
          out := Done(());
        case Malformed => out := Raised(Rejected);
      }
    }

    // ----- reporting -------------------------------------------------------------------------------------

    /** A statement that fails raises, and a crash before it ends the run. */
    predicate Answers<T>(script: seq<Fate>, out: Outcome<T>) {
      && (CrashesNext(script) <==> out.Crashed?)
      && (FailsNext(script) ==> out == Raised(Broken))
    }

    method Complete(id: nat, now: int) returns (out: Outcome<()>)
      requires id < |database.rows|
      modifies database, env
      ensures database.rows == old(database.rows) || database.rows == Closed(old(database.rows), id, Success, now)
      ensures out.Done? ==> database.rows == Closed(old(database.rows), id, Success, now)
      ensures out.Crashed? ==> database.rows == old(database.rows)
      ensures Answers(old(env.script), out)
      ensures Keeps(old(env.script), env.script) && Faithful(old(env.script), out)
    {
      var fate := env.Next();
      if fate.Crash? { return Crashed; }
      if fate.Go? || fate.applied { database.CompleteJob(id, now); }
      if fate.Fail? { return Raised(Broken); }
      return Done(());
    }

    method Fail(id: nat, retry: bool, delay: int, now: int) returns (out: Outcome<()>)
      requires id < |database.rows|
      modifies database, env
      ensures database.rows == old(database.rows)
              || database.rows == Closed(old(database.rows), id, Failure(retry, delay), now)
      ensures out.Done? ==> database.rows == Closed(old(database.rows), id, Failure(retry, delay), now)
      ensures Answers(old(env.script), out)
      ensures Keeps(old(env.script), env.script) && Faithful(old(env.script), out)
    {
      var fate := env.Next();
      if fate.Crash? { return Crashed; }
      var again := database.FailRead(id, retry);
      if fate.Go? || fate.applied { database.FailWrite(id, again, delay, now); }
      if fate.Fail? { return Raised(Broken); }
      return Done(());
    }

    /** The row of a job that was executed and reported on with nothing in the way. */
    ghost function Settled(j: Job<Payload>, verdict: Outcome<()>, now: int): Job<Payload> {
      if verdict.Done? then j.(state := Succeeded, lockedAt := None)
      else if verdict != Raised(Rejected) && j.attempts < j.maxAttempts then
        j.(state := Queued, lockedAt := None, availableAt := now + Backoff(j.attempts))
      else j.(state := Failed, lockedAt := None)
    }

    /** `_process_job`: executes a claimed job and reports on it.  The ghost results say how the
        execution ended and what was reported. */
    method ProcessJob(id: nat, now: int) returns (out: Outcome<()>, ghost verdict: Outcome<()>, ghost report: Report)
      requires Valid() && id < |database.rows|
      modifies manager`releases, manager`staging, manager`current, manager`healthy
      modifies manager.store`objects, manager.store`ledger, env, database
      ensures var job := old(database.rows)[id];
        RequestLeaves(old(manager.store.objects), old(manager.State()), manager.State(), job.key, job.payload.request,
                      verdict.Done?)
      ensures database.rows == Closed(old(database.rows), id, report, now)
      ensures Justifies(verdict, old(database.rows)[id].attempts, report)
      ensures out.Done? ==> report != Nothing
      ensures verdict.Done? ==> manager.Confirmed()
      ensures Undisturbed(old(env.script)) && !verdict.Crashed? ==>
        database.rows == old(database.rows)[id := Settled(old(database.rows)[id], verdict, now)]
      ensures var job := old(database.rows)[id];
        old(Doable(job.key, job.payload.request)) && job.payload.actor in admins && Undisturbed(old(env.script)) ==>
          && report == Success && out.Done?
          && database.rows == old(database.rows)[id := job.(state := Succeeded, lockedAt := None)]
      ensures old(database.rows)[id].payload.actor !in admins ==>
        verdict == Raised(Rejected) && SameDisk(old(manager.State()), manager.State())
    {
      var job := database.rows[id];
      report := Nothing;
      if job.payload.actor !in admins {
        verdict := Raised(Rejected);
        NothingPerformed(manager.store.objects, manager.State(), manager.State(), job.key, job.payload.request);
        out := Fail(id, false, 5, now);
        if database.rows != old(database.rows) { report := Failure(false, 5); }
        if out.Done? { report := Failure(false, 5); }
        return;
      }
      var performed := Perform(job.key, job.payload.request, now);
      verdict := performed;
      match performed {
        case Crashed => out := Crashed;
        case Raised(fault) =>
          var retry, delay := fault != Rejected, if fault != Rejected then Backoff(job.attempts) else 5;
          out := Fail(id, retry, delay, now);
          if out.Done? || database.rows != old(database.rows) { report := Failure(retry, delay); }
        case Done(_) =>
          var completed := Complete(id, now);
          if completed.Done? { report := Success; return Done(()), verdict, report; }
          if completed.Crashed? { return Crashed, verdict, report; }
          if database.rows != old(database.rows) { report := Success; }
          out, report := Retry(id, old(database.rows), Backoff(job.attempts), report, now);
      }
    }

    /** The answer of `complete_job` was lost: the job is reported as failed, to be tried again. */
    method Retry(id: nat, ghost claimed: seq<Job<Payload>>, delay: int, ghost soFar: Report, now: int)
      returns (out: Outcome<()>, ghost report: Report)
      requires id < |claimed| && database.rows == Closed(claimed, id, soFar, now)
      requires soFar == Nothing || soFar == Success
      requires delay == Backoff(claimed[id].attempts)
      modifies database, env
      ensures database.rows == Closed(claimed, id, report, now)
      ensures Justifies(Done(()), claimed[id].attempts, report)
      ensures out.Done? ==> report != Nothing
    {
      out := Fail(id, true, delay, now);
      report := soFar;
      if out.Done? || database.rows != old(database.rows) {
        report := if soFar == Success then SuccessThenFailure(delay) else Failure(true, delay);
      }
    }

    // ----- the worker loop -----------------------------------------------------------------------------

    /** One turn of the loop: a claim that found nothing or got lost, or a job claimed, executed as far
        as it went, and reported on. */
    ghost predicate Worked(w: World, w': World, claimed: seq<Job<Payload>>, taken: Option<nat>,
                           verdict: Outcome<()>, report: Report, now: int)
      requires Sorts(manager.tools)
    {
      && (Leaves(w.rows, claimed, Claim(KINDS, LEASE, taken), now) || (taken.None? && claimed == w.rows))
      && if taken.None? then SameDisk(w.disk, w'.disk) && w'.rows == claimed
         else
           && taken.value < |claimed|
           && RequestLeaves(w.objects, w.disk, w'.disk, claimed[taken.value].key, claimed[taken.value].payload.request,
                            verdict.Done?)
           && w'.rows == Closed(claimed, taken.value, report, now)
           && Justifies(verdict, claimed[taken.value].attempts, report)
    }

    lemma ClaimKeepsKeys(a: seq<Job<Payload>>, b: seq<Job<Payload>>, taken: Option<nat>, now: int)
      requires Leaves(a, b, Claim(KINDS, LEASE, taken), now)
      ensures |b| == |a| && forall i :: 0 <= i < |a| ==> b[i].key == a[i].key
      ensures taken.Some? ==> taken.value < |b|
    {
    }

    lemma StaysSound(objs: Objects, d: Disk, d': Disk, key: string, request: Request, done: bool)
      requires Sorts(manager.tools) && Sound(manager.tools, d) && RequestLeaves(objs, d, d', key, request, done)
      ensures Sound(manager.tools, d')
    {
    }

    lemma SameStaysSound(d: Disk, d': Disk)
      requires Sorts(manager.tools) && Sound(manager.tools, d) && SameDisk(d, d')
      ensures Sound(manager.tools, d')
    {
    }

    /** No worker has held a job for more than ten minutes. */
    predicate NoneOverdue(rows: seq<Job<Payload>>, now: int) {
      forall i :: 0 <= i < |rows| ==>
        !(rows[i].state == Running && rows[i].lockedAt.Some? && rows[i].lockedAt.value < now - 600)
    }

    /** Claims a job; a claim can take effect and still be lost. */
    method TryClaim(now: int) returns (out: Outcome<Option<nat>>, ghost taken: Option<nat>)
      requires Valid()
      modifies database, env
      ensures Valid()
      ensures Leaves(old(database.rows), database.rows, Claim(KINDS, LEASE, taken), now)
              || (taken.None? && database.rows == old(database.rows))
      ensures out.Done? ==>
        && out.value == taken
        && (taken.None? ==> forall i :: 0 <= i < |database.rows| ==> !Eligible(database.rows[i], KINDS, now))
      ensures out.Done? ==> NoneOverdue(database.rows, now)
      ensures Answers(old(env.script), out)
      ensures CrashesNext(old(env.script)) ==> database.rows == old(database.rows)
      ensures FailsNext(old(env.script)) && !old(env.script)[0].applied ==> database.rows == old(database.rows)
      ensures Faithful(old(env.script), out) && Keeps(old(env.script), env.script)
      ensures taken.Some? ==> taken.value < |database.rows|
    {
      taken := None;
      var fate := env.Next();
      if fate.Crash? { return Crashed, taken; }
      if fate.Fail? && !fate.applied { return Raised(Broken), taken; }
      var id := database.ClaimJob(KINDS, LEASE, now);
      ClaimKeepsKeys(old(database.rows), database.rows, id, now);
      return if fate.Fail? then Raised(Broken) else Done(id), id;
    }

    method Turn(now: int)
      returns (out: Outcome<()>, ghost claimed: seq<Job<Payload>>, ghost taken: Option<nat>,
               ghost verdict: Outcome<()>, ghost report: Report)
      requires Valid()
      modifies manager`releases, manager`staging, manager`current, manager`healthy
      modifies manager.store`objects, manager.store`ledger, env, database
      ensures manager.Valid()
      ensures Worked(old(Snapshot()), Snapshot(), claimed, taken, verdict, report, now)
      ensures Undisturbed(old(env.script)) ==> NoneOverdue(claimed, now)
      ensures Undisturbed(old(env.script)) && taken.None? ==>
        forall i :: 0 <= i < |database.rows| ==>
          var j := database.rows[i];
          !(j.state == Queued && j.availableAt <= now && j.kind in {"document", "rollback", "restart", "restore"})
      ensures Undisturbed(old(env.script)) && taken.Some? && taken.value < |claimed| ==>
        var job := claimed[taken.value];
        old(Doable(job.key, job.payload.request)) && job.payload.actor in admins ==>
          && report == Success
          && database.rows == claimed[taken.value := job.(state := Succeeded, lockedAt := None)]
    {
      var id, it := TryClaim(now);
      claimed, taken, verdict, report := database.rows, it, Crashed, Nothing;
      if id.Done? && id.value.Some? {
        out, verdict, report := ProcessJob(id.value.value, now);
        ghost var job := claimed[id.value.value];
        StaysSound(old(manager.store.objects), old(manager.State()), manager.State(), job.key, job.payload.request,
                   verdict.Done?);
        return;
      }
      if taken.Some? {
        NothingPerformed(manager.store.objects, manager.State(), manager.State(), claimed[taken.value].key,
                         claimed[taken.value].payload.request);
      }
      return if id.Done? then Done(()) else id.PropagateFailure(), claimed, taken, verdict, report;
    }
  }
}
