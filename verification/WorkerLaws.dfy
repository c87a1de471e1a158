/** Queue, worker and deployment manager together: what holds in every history of a project whose
    jobs are executed by one worker process at a time, with crashes anywhere and the disk kept. */
module WorkerLaws {
  import opened Prelude
  import opened Paths
  import opened Manifest
  import opened LocalState
  import opened Releases
  import RemoteState
  import opened Jobs
  import opened JobLaws
  import opened Worker

  /** Release names computed from different operations or uploads differ. */
  ghost predicate Distinctive(w: JobWorker) {
    forall k, u, k', u' :: w.manager.jobName(k, u) == w.manager.jobName(k', u') ==> k == k' && u == u'
  }

  predicate IsDocument(r: Request) { r.Deploy? || r.Put? }

  /** `files` is what the document asked for. */
  ghost predicate Satisfies(w: JobWorker, request: Request, files: Files) {
    match request
    case Deploy(file) => w.manager.Goal(Zip(w.contents(file))) == Some(files)
    case Put(path, file) =>
      var target := TargetPath(w.manager.unicode, path);
      && target.Some?
      && (exists base :: w.manager.Goal(Clone(base, target.value, w.contents(file))) == Some(files))
      && (target.value != MANIFEST ==> target.value in files && files[target.value] == w.contents(file))
    case _ => true
  }

  ghost predicate HasKey(rows: seq<Job<Payload>>, key: string) {
    exists i :: 0 <= i < |rows| && rows[i].key == key
  }

  /** Every release that carries the name of a job was made by that job: each document job has at most
      one release, and a usable one contains what the document asked for. */
  ghost predicate Provenance(w: JobWorker, d: Disk, rows: seq<Job<Payload>>)
    requires Sorts(w.manager.tools)
  {
    && (forall k, u :: w.manager.jobName(k, u) in d.releases ==> HasKey(rows, k))
    && (forall i, u ::
          0 <= i < |rows| && IsDocument(rows[i].payload.request) && w.manager.jobName(rows[i].key, u) in d.releases ==>
            OwnRelease(w, d, rows[i], u))
  }

  ghost predicate OwnRelease(w: JobWorker, d: Disk, j: Job<Payload>, u: Bytes)
    requires Sorts(w.manager.tools) && IsDocument(j.payload.request)
  {
    && u == w.contents(j.payload.request.file)
    && var files := Content(w.manager.tools, d, w.manager.jobName(j.key, u));
       files.Some? ==> Satisfies(w, j.payload.request, files.value)
  }

  /** The document of row `i` is what is deployed. */
  ghost predicate Deployed(w: JobWorker, d: Disk, j: Job<Payload>)
    requires Sorts(w.manager.tools) && IsDocument(j.payload.request)
  {
    var name := w.manager.jobName(j.key, w.contents(j.payload.request.file));
    && d.current == Some(name)
    && Content(w.manager.tools, d, name).Some?
    && Satisfies(w, j.payload.request, Content(w.manager.tools, d, name).value)
  }

  ghost predicate Inv(w: JobWorker, x: World) {
    && Sorts(w.manager.tools) && Sane(x.rows) && Sound(w.manager.tools, x.disk)
    && Provenance(w, x.disk, x.rows)
  }

  // ----- the disk part of a step ------------------------------------------------------------------

  lemma PutGoalSatisfies(w: JobWorker, d: Disk, path: string, file: string)
    requires w.manager.PutGoal(d, path, w.contents(file)).Some?
    ensures Satisfies(w, Put(path, file), w.manager.PutGoal(d, path, w.contents(file)).value)
  {
  }

  /** An attempt under the name of row `i` with a goal that satisfies it. */
  lemma AttemptKeepsProvenance(w: JobWorker, d: Disk, d': Disk, rows: seq<Job<Payload>>, i: nat, u: Bytes,
                               goal: Option<Files>)
    requires Distinctive(w) && Sorts(w.manager.tools) && Sane(rows) && Provenance(w, d, rows) && i < |rows|
    requires AttemptLeaves(w.manager.tools, d, d', w.manager.jobName(rows[i].key, u), goal)
    requires IsDocument(rows[i].payload.request) ==>
               && u == w.contents(rows[i].payload.request.file)
               && (goal.Some? ==> Satisfies(w, rows[i].payload.request, goal.value))
    ensures Provenance(w, d', rows)
  {
    var v' := ViewOf(w.manager.tools, d');
    forall k, x | w.manager.jobName(k, x) in d'.releases ensures HasKey(rows, k) {
      assert w.manager.jobName(k, x) in v'.names;
    }
    forall j, x |
        0 <= j < |rows| && IsDocument(rows[j].payload.request) && w.manager.jobName(rows[j].key, x) in d'.releases
      ensures OwnRelease(w, d', rows[j], x)
    {
      if j == i {
        AttemptKeepsOwn(w, d, d', rows[i], u, goal, x);
      } else {
        assert rows[i].key != rows[j].key;
        AttemptKeepsOther(w, d, d', w.manager.jobName(rows[i].key, u), goal, rows[j], x);
      }
    }
  }

  lemma AttemptKeepsOwn(w: JobWorker, d: Disk, d': Disk, j: Job<Payload>, u: Bytes, goal: Option<Files>, x: Bytes)
    requires Distinctive(w) && Sorts(w.manager.tools) && IsDocument(j.payload.request)
    requires AttemptLeaves(w.manager.tools, d, d', w.manager.jobName(j.key, u), goal)
    requires u == w.contents(j.payload.request.file) && (goal.Some? ==> Satisfies(w, j.payload.request, goal.value))
    requires w.manager.jobName(j.key, x) in d.releases ==> OwnRelease(w, d, j, x)
    requires w.manager.jobName(j.key, x) in d'.releases
    ensures OwnRelease(w, d', j, x)
  {
  }

  lemma AttemptKeepsOther(w: JobWorker, d: Disk, d': Disk, r: string, goal: Option<Files>, j: Job<Payload>, x: Bytes)
    requires Sorts(w.manager.tools) && IsDocument(j.payload.request) && w.manager.jobName(j.key, x) != r
    requires AttemptLeaves(w.manager.tools, d, d', r, goal)
    requires w.manager.jobName(j.key, x) in d.releases ==> OwnRelease(w, d, j, x)
    requires w.manager.jobName(j.key, x) in d'.releases
    ensures OwnRelease(w, d', j, x)
  {
    assert w.manager.jobName(j.key, x) in ViewOf(w.manager.tools, d').names;
  }

  lemma SameDiskKeepsProvenance(w: JobWorker, d: Disk, d': Disk, rows: seq<Job<Payload>>)
    requires Sorts(w.manager.tools) && Provenance(w, d, rows) && d'.releases == d.releases
    ensures Provenance(w, d', rows)
  {
  }

  lemma RestoreKeepsProvenance(w: JobWorker, d: Disk, d': Disk, rows: seq<Job<Payload>>, i: nat, fetched: Option<Bytes>,
                               done: bool)
    requires Distinctive(w) && Sorts(w.manager.tools) && Sane(rows) && Provenance(w, d, rows) && i < |rows|
    requires !IsDocument(rows[i].payload.request) && w.RestoreLeaves(d, d', rows[i].key, fetched, done)
    ensures Provenance(w, d', rows)
  {
    if fetched.None? {
      SameDiskKeepsProvenance(w, d, d', rows);
    } else {
      AttemptKeepsProvenance(w, d, d', rows, i, fetched.value, w.manager.Goal(Zip(fetched.value)));
    }
  }

  lemma RequestKeepsProvenance(w: JobWorker, objs: RemoteState.Objects, d: Disk, d': Disk, rows: seq<Job<Payload>>,
                               i: nat, done: bool)
    requires Distinctive(w) && Sorts(w.manager.tools) && Sane(rows) && Provenance(w, d, rows) && i < |rows|
    requires w.RequestLeaves(objs, d, d', rows[i].key, rows[i].payload.request, done)
    ensures Provenance(w, d', rows)
  {
    match rows[i].payload.request {
      case Deploy(file) =>
        AttemptKeepsProvenance(w, d, d', rows, i, w.contents(file), w.manager.Goal(Zip(w.contents(file))));
      case Put(path, file) =>
        if w.manager.PutGoal(d, path, w.contents(file)).Some? { PutGoalSatisfies(w, d, path, file); }
        AttemptKeepsProvenance(w, d, d', rows, i, w.contents(file), w.manager.PutGoal(d, path, w.contents(file)));
      case Rollback(release) =>
        var mid, fetched :| w.RollbackLeaves(objs, d, mid, d', rows[i].key, release, fetched, done);
        SameDiskKeepsProvenance(w, d, mid, rows);
        if fetched.None? {
          SameDiskKeepsProvenance(w, mid, d', rows);
        } else {
          RestoreKeepsProvenance(w, mid, d', rows, i, fetched, done);
        }
      case Restore(name) =>
        var fetched :| w.RestoreLeaves(d, d', rows[i].key, fetched, done) && w.Asked(objs, name, fetched);
        RestoreKeepsProvenance(w, d, d', rows, i, fetched, done);
      case Restart => SameDiskKeepsProvenance(w, d, d', rows);
      case Malformed => SameDiskKeepsProvenance(w, d, d', rows);
    }
  }

  /** A document request that was carried out is deployed, whether it was just built or, in a repeated
      execution, found to be current already. */
  lemma CarriedOutMeansDeployed(w: JobWorker, objs: RemoteState.Objects, d: Disk, d': Disk, rows: seq<Job<Payload>>,
                                i: nat)
    requires Distinctive(w) && Sorts(w.manager.tools) && Sane(rows) && Provenance(w, d, rows)
    requires Sound(w.manager.tools, d)
    requires i < |rows| && IsDocument(rows[i].payload.request)
    requires w.RequestLeaves(objs, d, d', rows[i].key, rows[i].payload.request, true)
    ensures Deployed(w, d', rows[i])
  {
    RequestKeepsProvenance(w, objs, d, d', rows, i, true);
    var u := w.contents(rows[i].payload.request.file);
    var name := w.manager.jobName(rows[i].key, u);
    assert CurrentUsable(ViewOf(w.manager.tools, d'));
    assert d'.current == Some(name) && name in ViewOf(w.manager.tools, d').usable;
    assert name in d'.releases;
    assert OwnRelease(w, d', rows[i], u);
  }

  // ----- the table part of a step --------------------------------------------------------------------

  lemma RowsKeepProvenance(w: JobWorker, d: Disk, rows: seq<Job<Payload>>, rows': seq<Job<Payload>>)
    requires Sorts(w.manager.tools) && Provenance(w, d, rows) && OneRowPerKey(rows') && Extends(rows, rows')
    ensures Provenance(w, d, rows')
  {
  }

  lemma ClosingKeepsSane(rows: seq<Job<Payload>>, id: nat, report: Report, now: int)
    requires Sane(rows) && id < |rows|
    ensures Sane(Closed(rows, id, report, now)) && Extends(rows, Closed(rows, id, report, now))
    ensures Closed(rows, id, report, now)[id].state == Succeeded && rows[id].state != Succeeded ==> report == Success
    ensures forall k :: 0 <= k < |rows| && k != id ==> Closed(rows, id, report, now)[k] == rows[k]
  {
  }

  lemma ClaimKeepsSane(a: seq<Job<Payload>>, b: seq<Job<Payload>>, taken: Option<nat>, now: int)
    requires Sane(a) && Leaves(a, b, Claim(KINDS, LEASE, taken), now)
    ensures Sane(b) && Extends(a, b) && |b| == |a|
    ensures forall k :: 0 <= k < |a| && b[k].state == Succeeded ==> a[k].state == Succeeded
    ensures taken.Some? ==> taken.value < |a| && b[taken.value].state == Running
  {
    StepKeepsSane(a, b, Claim(KINDS, LEASE, taken), now);
  }

  // ----- histories ---------------------------------------------------------------------------------------

  /** What an operation that is called on the manager itself, and not by a job, did to the disk. */
  datatype Change = Deployment(name: string, goal: Option<Files>, done: bool) | Switch | Untouched

  ghost predicate DirectLeaves(tools: Tools, d: Disk, d': Disk, change: Change)
    requires Sorts(tools)
  {
    match change
    case Deployment(name, goal, done) => DeploymentLeaves(tools, d, d', name, goal, done)
    case Switch =>
      && d'.releases == d.releases
      && (d'.current == d.current || (d'.current.Some? && Content(tools, d', d'.current.value).Some?))
    case Untouched => SameDisk(d, d')
  }

  /** The operations of the manager. */
  datatype Operation =
    | DeployOperation(upload: Bytes, op: Option<string>)
    | PutOperation(path: string, upload: Bytes, op: Option<string>)
    | RollbackOperation(release: Option<string>, idempotent: bool)
    | RestoreOperation(release: Option<string>, op: Option<string>)

  /** Every operation, with or without an operation id, complete or not, is one of these changes. */
  method Operate(m: DeploymentManager, x: Operation, stamp: string, now: int) returns (ghost change: Change)
    requires m.Valid() && (x.RollbackOperation? || m.Unused(x.op, stamp))
    modifies m`releases, m`staging, m`current, m`healthy, m.store`objects, m.store`ledger, m.env
    ensures DirectLeaves(m.tools, old(m.State()), m.State(), change)
    ensures change.Deployment? ==> !x.RollbackOperation? && exists u :: change.name == m.NewReleaseName(u, x.op, stamp)
  {
    change := Untouched;
    match x {
      case DeployOperation(upload, op) =>
        var out := m.DeployZip(upload, op, stamp, now, false);
        change := Deployment(m.NewReleaseName(upload, op, stamp), m.Goal(Zip(upload)), out.Done?);
      case PutOperation(path, upload, op) =>
        ghost var source := m.PutSource(m.State(), path, upload);
        var out := m.PutFile(path, upload, op, stamp, now);
        if source.Some? {
          change := Deployment(m.NewReleaseName(upload, op, stamp), m.Goal(source.value), out.Done?);
        }
      case RollbackOperation(release, idempotent) =>
        var out := m.Rollback(release, idempotent);
        change := Switch;
      case RestoreOperation(release, op) =>
        var out, fetched := m.RestoreBackup(release, op, stamp, now);
        if fetched.Some? {
          change := Deployment(m.NewReleaseName(fetched.value, op, stamp), m.Goal(Zip(fetched.value)), out.Done?);
        }
    }
  }

  /** A job being enqueued, a process restart, one turn of the worker's loop, or an operation that no job
      asked for. */
  datatype Move =
    | Direct(change: Change)
    | Enqueued(key: string, kind: string, payload: Payload, most: int, now: int)
    | Restarted
    | Worked(claimed: seq<Job<Payload>>, taken: Option<nat>, verdict: Outcome<()>, report: Report, now: int)

  ghost predicate Moves(w: JobWorker, x: World, y: World, m: Move) {
    Sorts(w.manager.tools) &&
    match m
    case Enqueued(key, kind, payload, most, now) =>
      SameDisk(x.disk, y.disk) && Leaves(x.rows, y.rows, Enqueue(key, kind, payload, most), now)
    case Direct(change) => DirectLeaves(w.manager.tools, x.disk, y.disk, change) && y.rows == x.rows
    case Restarted => SameDisk(x.disk, y.disk) && y.rows == x.rows
    case Worked(claimed, taken, verdict, report, now) => w.Worked(x, y, claimed, taken, verdict, report, now)
  }

  /** Documents turn `succeeded` only when they are deployed. */
  ghost predicate Honest(w: JobWorker, x: World, y: World)
    requires Sorts(w.manager.tools)
  {
    forall i: nat :: TurnedSucceeded(x, y, i) ==> Deployed(w, y.disk, y.rows[i])
  }

  /** Document `i` turned `succeeded` in this step. */
  predicate TurnedSucceeded(x: World, y: World, i: nat) {
    && i < |y.rows| && y.rows[i].state == Succeeded && IsDocument(y.rows[i].payload.request)
    && (i < |x.rows| ==> x.rows[i].state != Succeeded)
  }

  lemma WorkedKeepsInv(w: JobWorker, x: World, y: World, claimed: seq<Job<Payload>>, taken: Option<nat>,
                       verdict: Outcome<()>, report: Report, now: int)
    requires Distinctive(w) && Inv(w, x) && w.Worked(x, y, claimed, taken, verdict, report, now)
    ensures Inv(w, y) && Honest(w, x, y)
  {
    if Leaves(x.rows, claimed, Claim(KINDS, LEASE, taken), now) {
      ClaimKeepsSane(x.rows, claimed, taken, now);
    }
    RowsKeepProvenance(w, x.disk, x.rows, claimed);
    if taken.None? {
      w.SameStaysSound(x.disk, y.disk);
      SameDiskKeepsProvenance(w, x.disk, y.disk, claimed);
    } else {
      JobKeepsInv(w, World(x.disk, x.objects, claimed), y, taken.value, verdict, report, now);
    }
  }

  /** The same for the execution and the report of a claimed job. */
  lemma JobKeepsInv(w: JobWorker, x: World, y: World, id: nat, verdict: Outcome<()>, report: Report, now: int)
    requires Distinctive(w) && Inv(w, x) && id < |x.rows| && x.rows[id].state == Running
    requires w.RequestLeaves(x.objects, x.disk, y.disk, x.rows[id].key, x.rows[id].payload.request, verdict.Done?)
    requires y.rows == Closed(x.rows, id, report, now) && Justifies(verdict, x.rows[id].attempts, report)
    ensures Inv(w, y) && Honest(w, x, y)
  {
    w.StaysSound(x.objects, x.disk, y.disk, x.rows[id].key, x.rows[id].payload.request, verdict.Done?);
    RequestKeepsProvenance(w, x.objects, x.disk, y.disk, x.rows, id, verdict.Done?);
    ClosingKeepsSane(x.rows, id, report, now);
    RowsKeepProvenance(w, y.disk, x.rows, y.rows);
    if report == Success { SuccessIsHonest(w, x, y, id, now); }
  }

  lemma SuccessIsHonest(w: JobWorker, x: World, y: World, id: nat, now: int)
    requires Distinctive(w) && Inv(w, x) && id < |x.rows| && y.rows == Closed(x.rows, id, Success, now)
    requires w.RequestLeaves(x.objects, x.disk, y.disk, x.rows[id].key, x.rows[id].payload.request, true)
    ensures Honest(w, x, y)
  {
    if IsDocument(x.rows[id].payload.request) { CarriedOutMeansDeployed(w, x.objects, x.disk, y.disk, x.rows, id); }
    forall i: nat | TurnedSucceeded(x, y, i) ensures Deployed(w, y.disk, y.rows[i]) {
      assert i == id && SameJob(x.rows[id], y.rows[id]);
    }
  }

  /** An operation that no job asked for does not deploy under the name of a job: without an operation
      id, names are time stamps. */
  ghost predicate Foreign(w: JobWorker, m: Move) {
    m.Direct? && m.change.Deployment? ==> forall k, u :: w.manager.jobName(k, u) != m.change.name
  }

  ghost predicate IsHistory(w: JobWorker, worlds: seq<World>, moves: seq<Move>) {
    && |worlds| == |moves| + 1 && Inv(w, worlds[0])
    && forall n {:trigger moves[n]} :: 0 <= n < |moves| ==>
         Moves(w, worlds[n], worlds[n + 1], moves[n]) && Foreign(w, moves[n])
  }

  lemma InvAlways(w: JobWorker, worlds: seq<World>, moves: seq<Move>, n: nat)
    requires Distinctive(w) && IsHistory(w, worlds, moves) && n <= |moves|
    ensures Inv(w, worlds[n])
  {
    var step := (x, m, y) => Moves(w, x, y, m) && Foreign(w, m);
    var inv := x => Inv(w, x);
    forall x, m, y | inv(x) && step(x, m, y) ensures inv(y) { MoveKeepsInv(w, x, y, m); }
    RunKeeps(step, inv, worlds, moves, n);
  }

  /** In every history, whatever crashed wherever and however often jobs were executed again: at the
      moment a document job turns `succeeded`, `current` is the one release named from its key and
      upload, that release verifies, and it contains what the document asked for. */
  lemma SucceededMeansDeployed(w: JobWorker, worlds: seq<World>, moves: seq<Move>, n: nat, i: nat)
    requires Distinctive(w) && IsHistory(w, worlds, moves) && n < |moves|
    requires i < |worlds[n + 1].rows| && worlds[n + 1].rows[i].state == Succeeded
    requires i < |worlds[n].rows| ==> worlds[n].rows[i].state != Succeeded
    requires IsDocument(worlds[n + 1].rows[i].payload.request)
    ensures Sorts(w.manager.tools) && Deployed(w, worlds[n + 1].disk, worlds[n + 1].rows[i])
    ensures var d, j, m := worlds[n + 1].disk, worlds[n + 1].rows[i], w.manager;
      var upload := w.contents(j.payload.request.file);
      var name := m.jobName(j.key, upload);
      && d.current == Some(name) && name in d.releases
      && var files := FilesOf(d.releases[name].tree);
         && Verifies(m.tools, files, d.releases[name].manifest)
         && (j.payload.request.Deploy? ==> m.Goal(Zip(upload)) == Some(files))
         && (j.payload.request.Put? ==>
               var target := TargetPath(m.unicode, j.payload.request.path);
               target.Some? && (target.value != [".titanbox-release.json"] ==>
                                  target.value in files && files[target.value] == upload))
  {
    InvAlways(w, worlds, moves, n);
    MoveKeepsInv(w, worlds[n], worlds[n + 1], moves[n]);
    assert TurnedSucceeded(worlds[n], worlds[n + 1], i);
    assert MANIFEST == [".titanbox-release.json"];
  }

  /** In every reachable state, whatever jobs and direct operations did and wherever they were cut short,
      `current` is absent or names a complete release whose manifest verifies. */
  lemma CurrentIsAlwaysSound(w: JobWorker, worlds: seq<World>, moves: seq<Move>, n: nat)
    requires Sorts(w.manager.tools) && |worlds| == |moves| + 1 && n <= |moves|
    requires Sound(w.manager.tools, worlds[0].disk)
    requires forall i {:trigger moves[i]} :: 0 <= i < |moves| ==> Moves(w, worlds[i], worlds[i + 1], moves[i])
    ensures Sound(w.manager.tools, worlds[n].disk)
  {
    var step := (x, m, y) => Moves(w, x, y, m);
    var inv := (x: World) => Sound(w.manager.tools, x.disk);
    forall x, m, y | inv(x) && step(x, m, y) ensures inv(y) { MoveKeepsSound(w, x, y, m); }
    RunKeeps(step, inv, worlds, moves, n);
  }

  lemma MoveKeepsSound(w: JobWorker, x: World, y: World, m: Move)
    requires Sorts(w.manager.tools) && Sound(w.manager.tools, x.disk) && Moves(w, x, y, m)
    ensures Sound(w.manager.tools, y.disk)
  {
    match m {
      case Direct(change) => DirectStaysSound(w.manager.tools, x.disk, y.disk, change);
      case Enqueued(_, _, _, _, _) => w.SameStaysSound(x.disk, y.disk);
      case Restarted => w.SameStaysSound(x.disk, y.disk);
      case Worked(claimed, taken, verdict, report, now) =>
        if taken.None? {
          w.SameStaysSound(x.disk, y.disk);
        } else {
          var job := claimed[taken.value];
          w.StaysSound(x.objects, x.disk, y.disk, job.key, job.payload.request, verdict.Done?);
        }
    }
  }

  lemma DirectStaysSound(tools: Tools, d: Disk, d': Disk, change: Change)
    requires Sorts(tools) && Sound(tools, d) && DirectLeaves(tools, d, d', change)
    ensures Sound(tools, d')
  {
    if !change.Deployment? { SameReleases(tools, d, d'); }
  }

  lemma DirectKeepsProvenance(w: JobWorker, d: Disk, d': Disk, rows: seq<Job<Payload>>, change: Change)
    requires Sorts(w.manager.tools) && Provenance(w, d, rows) && Foreign(w, Direct(change))
    requires DirectLeaves(w.manager.tools, d, d', change)
    ensures Provenance(w, d', rows)
  {
    if !change.Deployment? {
      SameDiskKeepsProvenance(w, d, d', rows);
      return;
    }
    var v' := ViewOf(w.manager.tools, d');
    forall k, u | w.manager.jobName(k, u) in d'.releases ensures w.manager.jobName(k, u) in d.releases {
      assert w.manager.jobName(k, u) in v'.names;
    }
    forall i, u |
        0 <= i < |rows| && IsDocument(rows[i].payload.request) && w.manager.jobName(rows[i].key, u) in d'.releases
      ensures OwnRelease(w, d', rows[i], u)
    {
      AttemptKeepsOther(w, d, d', change.name, change.goal, rows[i], u);
    }
  }

  /** However often a document job is executed, it never has a second release. */
  lemma OneReleasePerDocument(w: JobWorker, worlds: seq<World>, moves: seq<Move>, n: nat, i: nat, u: Bytes)
    requires Distinctive(w) && IsHistory(w, worlds, moves) && n <= |moves|
    requires i < |worlds[n].rows| && IsDocument(worlds[n].rows[i].payload.request)
    requires w.manager.jobName(worlds[n].rows[i].key, u) in worlds[n].disk.releases
    ensures u == w.contents(worlds[n].rows[i].payload.request.file)
  {
    InvAlways(w, worlds, moves, n);
    assert OwnRelease(w, worlds[n].disk, worlds[n].rows[i], u);
  }

  lemma MoveKeepsInv(w: JobWorker, x: World, y: World, m: Move)
    requires Distinctive(w) && Inv(w, x) && Moves(w, x, y, m) && Foreign(w, m)
    ensures Inv(w, y) && Honest(w, x, y)
  {
    match m {
      case Direct(change) =>
        DirectStaysSound(w.manager.tools, x.disk, y.disk, change);
        DirectKeepsProvenance(w, x.disk, y.disk, x.rows, change);
      case Enqueued(key, kind, payload, most, now) =>
        StepKeepsSane(x.rows, y.rows, Enqueue(key, kind, payload, most), now);
        w.SameStaysSound(x.disk, y.disk);
        SameDiskKeepsProvenance(w, x.disk, y.disk, x.rows);
        RowsKeepProvenance(w, y.disk, x.rows, y.rows);
        assert forall i :: 0 <= i < |y.rows| && y.rows[i].state == Succeeded ==>
          i < |x.rows| && x.rows[i].state == Succeeded;
      case Restarted =>
        w.SameStaysSound(x.disk, y.disk);
        SameDiskKeepsProvenance(w, x.disk, y.disk, x.rows);
      case Worked(claimed, taken, verdict, report, now) =>
        WorkedKeepsInv(w, x, y, claimed, taken, verdict, report, now);
    }
  }

  // ----- leases ----------------------------------------------------------------------------------------------

  /** Workers of this plugin claim with a lease of 600 seconds, so however many of them there are, two
      starts of a job without a report between them are more than 600 seconds apart. */
  lemma WorkersStartApart(h: History<Payload>, i: nat, j: nat, id: nat)
    requires Possible(h) && Monotone(h.times) && i < j < |h.events|
    requires h.events[i].Claim? && h.events[i].taken == Some(id)
    requires h.events[j].Claim? && h.events[j].taken == Some(id)
    requires forall k :: i < k < j ==> !Reports(h.events[k], id)
    requires forall k :: i < k <= j && h.events[k].Claim? ==> h.events[k].lease == LEASE
    ensures h.times[j] > h.times[i] + 600
  {
    StartsAreALeaseApart(h, i, j, id, LEASE);
  }
}
