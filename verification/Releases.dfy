/** `DeploymentManager` for one project: stage, validate, record, rename, activate, health-check,
    prune; restore on failure; roll back; and resume a repeated operation. */
module Releases {
  import opened Prelude
  import opened Chronology
  import opened Paths
  import opened Archive
  import opened Manifest
  import opened LocalState
  import opened RemoteState
  import opened RemoteLaws
  import opened Storage

  datatype DeployResult = DeployResult(release: string, previous: Option<string>, restarted: bool)

  predicate EndsWith(s: string, t: string) { |t| <= |s| && s[|s| - |t|..] == t }

  /** Names that cloning a release leaves behind. */
  predicate IgnoredName(part: string) {
    part == "__pycache__" || part == ".pytest_cache" || EndsWith(part, ".pyc")
  }

  function Cloned(t: Tree): Tree {
    map p | p in t && (forall part :: part in p ==> !IgnoredName(part)) :: t[p]
  }

  /** Everything is copied but Python's and pytest's caches. */
  lemma CloneKeeps(t: Tree, p: Path)
    ensures p in Cloned(t) <==> p in t && forall part :: part in p ==>
              part != "__pycache__" && part != ".pytest_cache" && !(|part| >= 4 && part[|part| - 4..] == ".pyc")
    ensures p in Cloned(t) ==> Cloned(t)[p] == t[p]
  {
    forall part ensures EndsWith(part, ".pyc") <==> |part| >= 4 && part[|part| - 4..] == ".pyc" { }
  }

  /** The root of a release or one of its directories. */
  predicate IsFolder(t: Tree, p: Path) { p == [] || (p in t && t[p].Dir?) }

  /** Putting one file into a clone: `None` if the target is a directory or below a file. */
  function WithFile(t: Tree, target: Path, content: Bytes): Option<Tree> {
    if IsFolder(t, target) || Blocked(t, Parent(target)) then None
    else Some((t + NewDirs(Parent(target), t.Keys))[target := File(content)])
  }

  /** One file is put; every other one is kept as it is, except Python's and pytest's caches and the
      manifest. */
  ghost predicate OneFilePut(before: Files, after: Files, target: Path, upload: Bytes) {
    && (target != [".titanbox-release.json"] ==> target in after && after[target] == upload)
    && (forall p :: p != target && p != [".titanbox-release.json"] ==> KeptByPut(before, after, p))
  }

  ghost predicate KeptByPut(before: Files, after: Files, p: Path) {
    && (p in after <==> p in before && forall part :: part in p ==>
          part != "__pycache__" && part != ".pytest_cache" && !(|part| >= 4 && part[|part| - 4..] == ".pyc"))
    && (p in after ==> after[p] == before[p])
  }

  /** Where a new release comes from: a ZIP upload, or the current release with one file put into it. */
  datatype Source =
    | Zip(upload: Bytes)
    | Clone(base: Release, target: Path, upload: Bytes)

  /** The promotion fails, the candidate is deleted, and then the process dies. */
  predicate KilledAfterWithdrawal(script: seq<Fate>) {
    FailsNext(script) && Goes(script[1..], 3) && CrashesNext(script[4..])
  }

  class DeploymentManager {
    const project: string
    const limits: Limits
    const keepReleases: int
    const tools: Tools
    const unicode: Unicode
    const unzip: Bytes -> Option<seq<RawMember>>   // reading the ZIP directory
    const parses: (Path, Bytes) -> bool            // the syntax checks by suffix: Python, JSON, TOML
    const pack: Release -> Bytes                   // `_archive_tree`
    const jobName: (string, Bytes) -> string       // `job-<hash of operation id>-<hash of upload>`
    const monitored: bool                          // the runner has an app of this name
    const durabilityRequired: bool
    const steadyDisk: bool                         // hypothesis flag: renames, links and removals do not fail
    const store: DurableReleaseStore
    const env: Environment
    var releases: map<string, Release>
    var staging: map<string, Release>
    var current: Option<string>
    ghost var healthy: Option<string>   // what `current` named when the app was last found stable

    constructor (project: string, limits: Limits, keepReleases: int, tools: Tools, unicode: Unicode,
                 unzip: Bytes -> Option<seq<RawMember>>, parses: (Path, Bytes) -> bool, pack: Release -> Bytes,
                 jobName: (string, Bytes) -> string, monitored: bool, durabilityRequired: bool, steadyDisk: bool,
                 store: DurableReleaseStore, disk: Disk)
      ensures this.project == project && this.limits == limits && this.keepReleases == keepReleases
      ensures this.tools == tools && this.unicode == unicode && this.unzip == unzip
      ensures this.parses == parses && this.pack == pack && this.jobName == jobName
      ensures this.monitored == monitored && this.durabilityRequired == durabilityRequired
      ensures this.steadyDisk == steadyDisk && this.store == store && this.env == store.env
      ensures State() == disk.(staging := map[])
    {
      this.project, this.limits, this.keepReleases := project, limits, keepReleases;
      this.tools, this.unicode, this.unzip := tools, unicode, unzip;
      this.parses, this.pack, this.jobName := parses, pack, jobName;
      this.monitored, this.durabilityRequired, this.steadyDisk := monitored, durabilityRequired, steadyDisk;
      this.store, this.env := store, store.env;
      this.releases, this.current := disk.releases, disk.current;
      this.staging := map[];   // `_cleanup_stale_workdirs`
    }

    function State(): Disk
      reads this
    {
      Disk(releases, staging, current)
    }

    ghost predicate Valid()
      reads this
    {
      Sorts(tools) && store.env == env && 2 <= store.keep <= 500 && Sound(tools, State())
    }

    // ----- single effects ---------------------------------------------------------------------

    /** `shutil.rmtree(releases/name, ignore_errors=True)`. */
    method RemoveRelease(name: string) returns (out: Outcome<()>)
      requires Sorts(tools) && WellKept(tools, State())
      modifies this`releases, env
      ensures !out.Raised?
      ensures releases - {name} == old(releases) - {name} && releases.Keys <= old(releases).Keys
      ensures Preparing(tools, old(State()), State(), name, None)
      ensures name !in old(releases) ==> out.Done? && releases == old(releases)
      ensures name in old(releases) ==>
        var fate := NextFate(old(env.script));
        && (out.Crashed? <==> fate.Crash?)
        && releases == if fate.Crash? || (fate.Fail? && !steadyDisk)
                       then old(releases)[name := Partial(old(releases)[name], fate.kept)]
                       else old(releases) - {name}
      ensures Keeps(old(env.script), env.script) && Faithful(old(env.script), out)
    {
      NothingMoved(tools, old(State()), State(), name, None);
      if name !in releases { return Done(()); }
      var fate := env.Next();
      if fate.Go? || (fate.Fail? && steadyDisk) {
        releases := releases - {name};
        RemovalPrepares(tools, old(State()), State(), name, None);
        return Done(());
      }
      PartialNeverDeceives(tools, releases[name], fate.kept);
      releases := releases[name := Partial(releases[name], fate.kept)];
      RemovalPrepares(tools, old(State()), State(), name, None);
      if fate.Crash? { return Crashed; }
      return Done(());
    }

    method RemoveStaging(name: string) returns (out: Outcome<()>)
      modifies this`staging, env
      ensures !out.Raised?
      ensures name !in old(staging) ==> out.Done? && staging == old(staging)
      ensures name in old(staging) ==>
        var fate := NextFate(old(env.script));
        && (out.Crashed? <==> fate.Crash?)
        && staging == if fate.Crash? || (fate.Fail? && !steadyDisk)
                      then old(staging)[name := Partial(old(staging)[name], fate.kept)]
                      else old(staging) - {name}
      ensures Keeps(old(env.script), env.script) && Faithful(old(env.script), out)
    {
      if name !in staging { return Done(()); }
      var fate := env.Next();
      if fate.Crash? || (fate.Fail? && !steadyDisk) {
        staging := staging[name := Partial(staging[name], fate.kept)];
        if fate.Crash? { return Crashed; }
        return Done(());
      }
      staging := staging - {name};
      return Done(());
    }

    /** Writes the staging directory into a new shape, possibly only in part. */
    method Stage(name: string, draft: Release) returns (out: Outcome<()>)
      modifies this`staging, env
      ensures var fate := NextFate(old(env.script));
        && out == (match fate case Go => Done(()) case Fail(_, _) => Raised(Broken) case Crash(_) => Crashed)
        && staging == old(staging)[name := if fate.Go? then draft else Partial(draft, fate.kept)]
      ensures Keeps(old(env.script), env.script) && Faithful(old(env.script), out)
    {
      var fate := env.Next();
      if !fate.Go? { staging := staging[name := Partial(draft, fate.kept)]; }
      if fate.Crash? { return Crashed; }
      if fate.Fail? { return Raised(Broken); }
      staging := staging[name := draft];
      return Done(());
    }

    /** Not an empty directory. */
    predicate Occupied(rel: Release) { rel.tree != map[] || rel.manifest.Some? }

    /** `os.replace(staging, final)`; a directory that is not empty is not replaced. */
    method MoveToReleases(name: string) returns (out: Outcome<()>)
      requires name in staging
      modifies this`releases, this`staging, env
      ensures releases == old(releases) || releases == old(releases)[name := old(staging)[name]]
      ensures releases - {name} == old(releases) - {name}
      ensures out.Done? ==> releases == old(releases)[name := old(staging)[name]] && staging == old(staging) - {name}
      ensures out.Raised? ==> out.fault == Broken
      ensures CrashesNext(old(env.script)) <==> out.Crashed?
      ensures FailsNext(old(env.script)) ==> out.Raised?
      ensures out.Crashed? || (name in old(releases) && Occupied(old(releases)[name])) ==>
        !out.Done? && releases == old(releases) && staging == old(staging)
      ensures Keeps(old(env.script), env.script)
      ensures name !in old(releases) ==> Faithful(old(env.script), out)
    {
      var fate := env.Next();
      if fate.Crash? { return Crashed; }
      if name in releases && Occupied(releases[name]) { return Raised(Broken); }
      if fate.Go? || fate.applied {
        releases, staging := releases[name := staging[name]], staging - {name};
      }
      if fate.Fail? { return Raised(Broken); }
      return Done(());
    }

    /** One step on the `current` link. */
    method SetCurrent(target: Option<string>) returns (out: Outcome<()>)
      modifies this`current, env
      ensures out.Done? ==> current == target
      ensures current == old(current) || current == target
      ensures out.Crashed? ==> current == old(current)
      ensures CrashesNext(old(env.script)) ==> out.Crashed?
      ensures Goes(old(env.script), 1) ==> out.Done? && env.script == old(env.script)[1..]
      ensures steadyDisk ==> !out.Raised?
      ensures out.Raised? ==> out.fault == Broken
      ensures Keeps(old(env.script), env.script) && Faithful(old(env.script), out)
    {
      var fate := env.Next();
      if fate.Crash? { return Crashed; }
      var failed := fate.Fail? && !steadyDisk;
      if !failed || fate.applied { current := target; }
      if failed { return Raised(Broken); }
      return Done(());
    }

    /** The app, if it is run here at all, was found stable with the current release. */
    ghost predicate Confirmed()
      reads this
    {
      monitored ==> healthy == current
    }

    // ----- activation ---------------------------------------------------------------------------

    /** Verifies the release and then swaps the link to it atomically. */
    method ActivateRelease(name: string) returns (out: Outcome<Option<string>>)
      requires Sorts(tools)
      modifies this`current, env
      ensures out.Done? ==> current == Some(name) && out.value == old(current)
      ensures current == old(current) || (current == Some(name) && Content(tools, State(), name).Some?)
      ensures Content(tools, State(), name).Some? ==> Faithful(old(env.script), out) && (steadyDisk ==> !out.Raised?)
      ensures out.Raised? && steadyDisk ==> current == old(current)
      ensures Undisturbed(old(env.script)) ==> !out.Crashed?
      ensures Content(tools, State(), name).None? ==> out == Raised(Rejected) && current == old(current)
      ensures CrashesNext(old(env.script)) && Content(tools, State(), name).Some? ==>
        out.Crashed? && current == old(current)
      ensures Goes(old(env.script), 2) && Content(tools, State(), name).Some? ==>
        out.Done? && env.script == old(env.script)[2..]
      ensures Keeps(old(env.script), env.script)
    {
      if name !in releases { return Raised(Rejected); }
      var verified := VerifyManifest(tools, FilesOf(releases[name].tree), releases[name].manifest);
      if !verified.Done? { return verified.PropagateFailure(); }
      var previous := current;
      var linked := SetCurrent(current);   // the temporary link; `current` is not touched yet
      if !linked.Done? { return linked.PropagateFailure(); }
      var swapped := SetCurrent(Some(name));
      if !swapped.Done? { return swapped.PropagateFailure(); }
      return Done(previous);
    }

    /** Restarts the app and waits until it is stable.  An app that does not become stable is a
        DeployError; the runner can also break in its own way. */
    method RestartAndVerify() returns (out: Outcome<bool>)
      modifies this`healthy, env
      ensures out.Done? ==> out.value == monitored && (monitored ==> healthy == current)
      ensures !monitored ==> out == Done(false)
      ensures !out.Done? || !monitored ==> healthy == old(healthy)
      ensures out.Raised? ==> out.fault != Tampered
      ensures monitored && FailsNext(old(env.script)) ==>
        out == Raised(if old(env.script)[0].applied then Broken else Rejected)
      ensures out.Crashed? <==> monitored && CrashesNext(old(env.script))
      ensures NextFate(old(env.script)).Go? ==> out.Done?
      ensures monitored && old(env.script) != [] ==> env.script == old(env.script)[1..]
      ensures Keeps(old(env.script), env.script) && Faithful(old(env.script), out)
    {
      if !monitored { return Done(false); }
      var fate := env.Next();
      if fate.Crash? { return Crashed; }
      if fate.Fail? { return Raised(if fate.applied then Broken else Rejected); }
      healthy := current;
      return Done(true);
    }

    /** Returns to the state before activation, including having no release at all. */
    method RestoreAfterFailedActivation(previous: Option<string>) returns (out: Outcome<()>)
      requires Sorts(tools) && (previous.Some? ==> Content(tools, State(), previous.value).Some?)
      modifies this`current, this`healthy, env
      ensures out.Done? ==> current == previous
      ensures current == old(current) || current == previous
      ensures steadyDisk ==> !out.Raised?
      ensures Undisturbed(old(env.script)) && previous.Some? ==> Confirmed()
      ensures previous.Some? && monitored && Goes(old(env.script), 2) ==>
        (out.Crashed? <==> CrashesNext(old(env.script)[2..]))
      ensures CrashesNext(old(env.script)) && (previous.Some? || old(current).Some?) ==>
        out.Crashed? && current == old(current)
      ensures Keeps(old(env.script), env.script) && Faithful(old(env.script), out)
    {
      if previous.Some? {
        var activated := ActivateRelease(previous.value);
        if !activated.Done? { return activated.PropagateFailure(); }
        var restarted := RestartAndVerify();
        if restarted.Crashed? { return Crashed; }
        return Done(());
      }
      if current.Some? { out := SetCurrent(None); } else { out := Done(()); }
    }

    // ----- retention ------------------------------------------------------------------------------

    ghost function MtimeRows(): set<Row>
      reads this`releases
    {
      set n | n in releases :: Row(releases[n].mtime, n)
    }

    /** Release names, most recently modified first. */
    method ReleaseNames() returns (names: seq<string>)
      ensures forall n :: n in names <==> n in releases
      ensures names == Names(Listing(MtimeRows()))
    {
      var rest, rows: seq<Row> := releases.Keys, [];
      while rest != {}
        invariant rest <= releases.Keys
        invariant forall i :: 0 <= i < |rows| ==>
          rows[i].name in releases && rows[i].name !in rest && rows[i].time == releases[rows[i].name].mtime
        invariant forall n :: n in releases && n !in rest ==> exists i :: 0 <= i < |rows| && rows[i].name == n
        invariant forall i, j :: 0 <= i < j < |rows| ==> rows[i].name != rows[j].name
      {
        var n :| n in rest;
        ghost var before := rows;
        rest, rows := rest - {n}, rows + [Row(releases[n].mtime, n)];
        assert rows[|before|].name == n;
        assert forall i :: 0 <= i < |before| ==> rows[i] == before[i];
      }
      var sorted := NewestFirst(rows);
      forall x ensures x in (set r | r in rows) <==> x in MtimeRows() {
        if x in rows { var i :| 0 <= i < |rows| && rows[i] == x; }
        if x in MtimeRows() {
          var i :| 0 <= i < |rows| && rows[i].name == x.name;
          assert rows[i] == x;
        }
      }
      ListingIs(sorted, MtimeRows());
      names := Names(sorted);
      forall n ensures n in names <==> n in releases {
        if n in names {
          var i :| 0 <= i < |sorted| && sorted[i].name == n;
          assert sorted[i] in sorted;
          assert sorted[i] in set r | r in rows;
        }
        if n in releases {
          var i :| 0 <= i < |rows| && rows[i].name == n;
          assert rows[i] in sorted;
          var j :| 0 <= j < |sorted| && sorted[j] == rows[i];
          assert names[j] == n;
        }
      }
    }

    /** How many releases are kept besides the protected ones. */
    function Quota(): (n: nat)
      ensures n >= 2 && n >= keepReleases && (n == 2 || n == keepReleases)
    {
      if keepReleases > 2 then keepReleases else 2
    }

    /** The names among the first `n` that retention removes: not protected, and not among the newest. */
    function Discarded(names: seq<string>, n: nat, protect: set<string>): set<string>
      requires n <= |names|
    {
      set i | Quota() <= i < n && names[i] !in protect :: names[i]
    }

    /** Exactly the protected and the most recently modified releases are left. */
    ghost predicate Retained(before: map<string, Release>, after: map<string, Release>, protect: set<string>) {
      var names := Names(Listing(set n | n in before :: Row(before[n].mtime, n)));
      after == before - Discarded(names, |names|, protect)
    }

    lemma DiscardOneMore(names: seq<string>, i: nat, protect: set<string>, all: map<string, Release>)
      requires i < |names|
      ensures all - Discarded(names, i + 1, protect) ==
              if i >= Quota() && names[i] !in protect then all - Discarded(names, i, protect) - {names[i]}
              else all - Discarded(names, i, protect)
    {
      assert Discarded(names, i + 1, protect) ==
             Discarded(names, i, protect) + if i >= Quota() && names[i] !in protect then {names[i]} else {};
    }

    method PruneReleases(protect: set<string>) returns (out: Outcome<()>)
      requires Sorts(tools) && WellKept(tools, State())
      modifies this`releases, env
      ensures !out.Raised?
      ensures Thinning(tools, old(State()), State(), protect)
      ensures out.Done? && steadyDisk ==> Retained(old(releases), releases, protect)
      ensures Keeps(old(env.script), env.script) && Faithful(old(env.script), out)
    {
      var names := ReleaseNames();
      out := ThinOut(names, protect);
    }

    /** Goes through the names, newest first, and counts the survivors. */
    method ThinOut(names: seq<string>, protect: set<string>) returns (out: Outcome<()>)
      requires Sorts(tools) && WellKept(tools, State())
      modifies this`releases, env
      ensures !out.Raised?
      ensures Thinning(tools, old(State()), State(), protect)
      ensures out.Done? && steadyDisk ==> releases == old(releases) - Discarded(names, |names|, protect)
      ensures Keeps(old(env.script), env.script) && Faithful(old(env.script), out)
    {
      var survivors := 0;
      NothingThinned(tools, State(), protect);
      for i := 0 to |names|
        invariant survivors <= i && (survivors < Quota() ==> survivors == i)
        invariant Thinning(tools, old(State()), State(), protect)
        invariant steadyDisk ==> releases == old(releases) - Discarded(names, i, protect)
        invariant Keeps(old(env.script), env.script)
      {
        DiscardOneMore(names, i, protect, old(releases));
        if names[i] in protect || survivors < Quota() {
          survivors := survivors + 1;
        } else {
          var removed := DiscardRelease(names[i], protect, old(State()));
          if removed.Crashed? { return Crashed; }
        }
      }
      return Done(());
    }

    method DiscardRelease(name: string, protect: set<string>, ghost before: Disk) returns (out: Outcome<()>)
      requires Sorts(tools) && WellKept(tools, State()) && name !in protect && Thinning(tools, before, State(), protect)
      modifies this`releases, env
      ensures !out.Raised?
      ensures Thinning(tools, before, State(), protect)
      ensures out.Done? && steadyDisk ==> releases == old(releases) - {name}
      ensures Keeps(old(env.script), env.script) && Faithful(old(env.script), out)
    {
      out := RemoveRelease(name);
      ThinOneMore(tools, before, old(State()), State(), protect, name);
    }

    // ----- building a release --------------------------------------------------------------------

    /** Fills the staging directory through the given drafts up to the tree to be released. */
    method StageDrafts(name: string, drafts: seq<Release>, full: Tree, now: int) returns (out: Outcome<()>)
      modifies this`staging, env
      ensures out.Done? ==> staging - {name} == old(staging) - {name} && name in staging && staging[name].tree == full
      ensures name in old(staging) || FailsNext(old(env.script)) ==> out == Raised(Broken)
      ensures name !in old(staging) && CrashesNext(old(env.script)) ==> out.Crashed?
      ensures Keeps(old(env.script), env.script)
      ensures name !in old(staging) ==> Faithful(old(env.script), out)
    {
      if name in staging { return Raised(Broken); }
      for i := 0 to |drafts|
        invariant if i == 0 then env.script == old(env.script) else NextFate(old(env.script)).Go?
        invariant staging - {name} == old(staging) - {name}
        invariant Keeps(old(env.script), env.script)
      {
        var drafted := Stage(name, drafts[i]);
        if !drafted.Done? { return drafted.PropagateFailure(); }
      }
      out := Stage(name, Release(full, None, now));
    }

    /** The release that a valid tree becomes. */
    ghost function Built(full: Tree, now: int): Release
      requires Sorts(tools)
    {
      Release(full - {MANIFEST}, Some(ManifestOf(tools, FilesOf(full - {MANIFEST}))), now)
    }

    /** What `_validate_tree` demands of the files of a release, whatever order it meets them in. */
    ghost predicate WellFormed(files: Files) {
      && (files != map[] ==> |files| <= limits.maxFiles && TotalBytes(files) <= limits.maxBytes)
      && forall p :: p in files ==> parses(p, files[p])
    }

    /** The loop of `_validate_tree`: running totals and syntax checks, one file after the other. */
    method CheckFiles(files: Files) returns (ok: bool)
      ensures ok <==> WellFormed(files)
      ensures ok <==> files == map[] || (|files| <= limits.maxFiles && TotalBytes(files) <= limits.maxBytes
                                         && forall p :: p in files ==> parses(p, files[p]))
    {
      var rest, count, bytes := files, 0, 0;
      while rest != map[]
        invariant rest.Keys <= files.Keys && (forall p :: p in rest ==> rest[p] == files[p])
        invariant count + |rest| == |files| && bytes + TotalBytes(rest) == TotalBytes(files)
        invariant count > 0 ==> count <= limits.maxFiles && bytes <= limits.maxBytes
        invariant forall p :: p in files && p !in rest ==> parses(p, files[p])
        decreases |rest|
      {
        var p :| p in rest;
        TotalWithout(rest, p);
        rest, count, bytes := rest - {p}, count + 1, bytes + |files[p]|;
        if count > limits.maxFiles || bytes > limits.maxBytes || !parses(p, files[p]) { return false; }
      }
      return true;
    }

    method CheckTree(full: Tree) returns (ok: bool)
      ensures ok <==> WellFormed(FilesOf(full))
      ensures ok ==> WellFormed(FilesOf(full - {MANIFEST}))
    {
      ok := CheckFiles(FilesOf(full));
      NotMoreWithout(FilesOf(full), MANIFEST);
      assert FilesOf(full) - {MANIFEST} == FilesOf(full - {MANIFEST});
    }

    /** `_validate_tree`: checks the staged tree and writes its manifest.  A file that is named like
        the manifest is replaced by the manifest. */
    method ValidateTree(name: string, full: Tree, now: int) returns (out: Outcome<Release>)
      requires Sorts(tools) && name in staging
      modifies this`staging, env
      ensures out.Done? ==>
        && name in staging && staging[name] == out.value
        && out.value == Built(full, now) && Intact(tools, out.value) && WellFormed(FilesOf(full - {MANIFEST}))
      ensures WellFormed(FilesOf(full)) && !(MANIFEST in full && full[MANIFEST].Dir?) ==> Faithful(old(env.script), out)
      ensures !WellFormed(FilesOf(full)) ==> out == Raised(Rejected)
      ensures WellFormed(FilesOf(full)) && MANIFEST in full && full[MANIFEST].Dir? ==> out == Raised(Broken)
      ensures Keeps(old(env.script), env.script)
    {
      var ok := CheckTree(full);
      if !ok { return Raised(Rejected); }
      if MANIFEST in full && full[MANIFEST].Dir? { return Raised(Broken); }
      var manifest := WriteManifest(tools, FilesOf(full - {MANIFEST}));
      var final := Release(full - {MANIFEST}, Some(manifest), now);
      var staged := Stage(name, final);
      if !staged.Done? { return staged.PropagateFailure(); }
      return Done(final);
    }

    ghost predicate Acceptable(full: Tree) { WellFormed(FilesOf(full)) && !(MANIFEST in full && full[MANIFEST].Dir?) }

    /** Stages a tree and validates it. */
    method StageValidated(name: string, drafts: seq<Release>, full: Tree, now: int) returns (out: Outcome<Release>)
      requires Sorts(tools)
      modifies this`staging, env
      ensures out.Done? ==>
        && name in staging && staging[name] == out.value
        && out.value == Built(full, now) && Intact(tools, out.value) && WellFormed(FilesOf(full - {MANIFEST}))
      ensures name !in old(staging) && Acceptable(full) ==> Faithful(old(env.script), out)
      ensures Keeps(old(env.script), env.script)
    {
      var staged := StageDrafts(name, drafts, full, now);
      if !staged.Done? { return staged.PropagateFailure(); }
      out := ValidateTree(name, full, now);
    }

    /** Stages, validates and renames a release into place. */
    method BuildRelease(name: string, drafts: seq<Release>, full: Tree, now: int) returns (out: Outcome<()>)
      requires Valid() && current != Some(name)
      modifies this`releases, this`staging, env
      ensures Preparing(tools, old(State()), State(), name, Some(FilesOf(full - {MANIFEST})))
      ensures releases - {name} == old(releases) - {name}
      ensures out.Done? ==>
        && name in releases && releases[name] == Built(full, now)
        && Content(tools, State(), name) == Some(FilesOf(full - {MANIFEST})) && WellFormed(FilesOf(full - {MANIFEST}))
      ensures name !in old(releases) && name !in old(staging) && Acceptable(full) ==> Faithful(old(env.script), out)
      ensures Keeps(old(env.script), env.script)
    {
      var final := StageValidated(name, drafts, full, now);
      NothingMoved(tools, old(State()), State(), name, Some(FilesOf(full - {MANIFEST})));
      if !final.Done? { return final.PropagateFailure(); }
      out := MoveToReleases(name);
      MovedInto(tools, old(State()), State(), name, final.value);
    }

    // ----- publishing a release ------------------------------------------------------------------

    /** Uploads the candidate; `true` if it is stored.  A failure is an error only if durability is
        required. */
    method BackupCandidate(name: string) returns (out: Outcome<bool>)
      requires name in releases && store.env == env
      modifies store`objects, store`ledger, env
      ensures !store.enabled ==> out == Done(false) && store.objects == old(store.objects)
      ensures out == Done(true) ==>
        && store.enabled && SafeProject(project) && SafeRelease(name)
        && store.objects == BackedUp(store.scheme, old(store.objects), project, name, Blob(pack(releases[name])))
      ensures out.Raised? ==> durabilityRequired && store.enabled && out.fault == Rejected
      ensures out == Done(false) ==> !(durabilityRequired && store.enabled)
      ensures BackupLeaves(store.scheme, old(store.objects), store.objects, project, name,
                           Blob(pack(releases[name])), store.steadyDeletes)
      ensures store.enabled && (out.Raised? || out == Done(false)) && SafeProject(project) && SafeRelease(name)
              && store.steadyDeletes ==>
        store.objects.Keys !! KeysOf(project, name)
      ensures SafeProject(project) && SafeRelease(name) ==>
        Faithful(old(env.script), out) && (Reliable(old(env.script)) && out.Done? ==> out.value == store.enabled)
      ensures Keeps(old(env.script), env.script)
    {
      if !store.enabled { return Done(false); }
      var backed := store.BackupRelease(project, name, pack(releases[name]));
      match backed {
        case Crashed => return Crashed;
        case Done(_) => return Done(true);
        case Raised(_) =>
          if durabilityRequired { return Raised(Rejected); }
          return Done(false);
      }
    }

    /** Promotes the candidate, or abandons it if that fails (`false`). */
    method PromoteOrAbandon(name: string, now: int) returns (out: Outcome<bool>)
      requires store.env == env && store.keep >= 2 && store.enabled && SafeProject(project) && SafeRelease(name)
      requires Backed(store.scheme, store.objects, project, name)
      modifies store`objects, store`ledger, env
      ensures !out.Raised?
      ensures out == Done(true) ==>
        Retiring(Promotion(store.scheme, old(store.objects), project, name, now, 3), store.objects, project,
                 store.keep, store.steadyDeletes)
      ensures out == Done(false) && store.steadyDeletes ==>
        Withdrawn(store.scheme, old(store.objects), store.objects, project, name, now)
      ensures Coherent(store.scheme, old(store.objects)) && store.steadyDeletes ==>
        && Coherent(store.scheme, store.objects)
        && (Reliable(old(env.script)) && LaterThanAll(old(store.objects), project, now) ==>
              Backed(store.scheme, store.objects, project, name) && NotAfter(store.objects, project, now))
      ensures Reliable(old(env.script)) ==> out != Done(false)
      ensures KilledAfterWithdrawal(old(env.script)) ==>
        && out == Done(false) && store.objects == old(store.objects) - KeysOf(project, name)
        && env.script == old(env.script)[4..]
      ensures Faithful(old(env.script), out) && Keeps(old(env.script), env.script)
    {
      ghost var before := store.objects;
      ghost var tracked := Coherent(store.scheme, before) && store.steadyDeletes;
      var promoted := store.PromoteRelease(project, name, now);
      if tracked { AfterPromotion(store.scheme, store.keep, before, store.objects, project, name, now); }
      if promoted.Crashed? { return Crashed; }
      if promoted.Done? { return Done(true); }
      ghost var middle := store.objects;
      var abandoned := store.AbandonRelease(project, name);
      if tracked { DeletionKeepsCoherent(store.scheme, middle, store.objects); }
      if abandoned.Crashed? { return Crashed; }
      return Done(false);
    }

    /** Promotes the candidate.  If that fails and durability is required, the previous release is
        restored and the operation fails. */
    method CommitCandidate(name: string, previous: Option<string>, now: int) returns (out: Outcome<bool>)
      requires Valid() && current == Some(name) && store.enabled && SafeProject(project) && SafeRelease(name)
      requires previous.Some? ==> Content(tools, State(), previous.value).Some?
      requires Backed(store.scheme, store.objects, project, name)
      modifies this`current, this`healthy, store`objects, store`ledger, env
      ensures current == old(current) || current == previous
      ensures out.Done? ==> current == old(current) && healthy == old(healthy)
      ensures store.steadyDeletes && Marker(project, name) in store.objects ==> healthy == old(healthy)
      ensures out == Done(true) ==>
        Retiring(Promotion(store.scheme, old(store.objects), project, name, now, 3), store.objects, project,
                 store.keep, store.steadyDeletes)
      ensures out == Done(false) ==> !durabilityRequired
      ensures (out == Done(false) || out.Raised?) && store.steadyDeletes ==>
        Withdrawn(store.scheme, old(store.objects), store.objects, project, name, now)
      ensures out.Raised? && steadyDisk ==> out.fault == Rejected
      ensures out.Raised? && steadyDisk ==> current == previous
      ensures Coherent(store.scheme, old(store.objects)) && store.steadyDeletes ==>
        && Coherent(store.scheme, store.objects)
        && (Reliable(old(env.script)) && LaterThanAll(old(store.objects), project, now) ==>
              Backed(store.scheme, store.objects, project, name) && NotAfter(store.objects, project, now))
      ensures Reliable(old(env.script)) ==> current == old(current)
      ensures KilledAfterWithdrawal(old(env.script)) && durabilityRequired ==>
        out.Crashed? && current == Some(name) && store.objects == old(store.objects) - KeysOf(project, name)
      ensures Faithful(old(env.script), out) && Keeps(old(env.script), env.script)
    {
      var committed := PromoteOrAbandon(name, now);
      if !committed.Done? { return committed; }
      if committed.value { return Done(true); }
      if durabilityRequired {
        var restored := RestoreAfterFailedActivation(previous);
        if !restored.Done? { return restored.PropagateFailure(); }
        return Raised(Rejected);
      }
      return Done(false);
    }

    /** Activates the release and checks its health.  `None` means it was unhealthy and the previous
        state was restored. */
    method ActivateAndCheck(name: string) returns (out: Outcome<Option<bool>>)
      requires Valid() && Content(tools, State(), name).Some?
      modifies this`current, this`healthy, env
      ensures current == old(current) || current == Some(name)
      ensures out.Done? && out.value.Some? ==> current == Some(name) && out.value.value == monitored && Confirmed()
      ensures out.Done? && out.value.None? ==> current == old(current)
      ensures steadyDisk ==> !out.Raised?
      ensures Faithful(old(env.script), out) && Keeps(old(env.script), env.script)
      ensures Reliable(old(env.script)) && out.Done? ==> out.value.Some?
    {
      var previous := ActivateRelease(name);
      if !previous.Done? { return previous.PropagateFailure(); }
      var restarted := RestartAndVerify();
      if restarted.Crashed? { return Crashed; }
      if restarted.Done? { return Done(Some(restarted.value)); }
      var restored := RestoreAfterFailedActivation(previous.value);
      if !restored.Done? { return restored.PropagateFailure(); }
      return Done(None);
    }

    /** A marker appears only after the app was found stable with the release. */
    ghost predicate MarkedWhenHealthy(before: Objects, after: Objects, name: string, confirmed: Option<string>) {
      store.steadyDeletes && monitored && Marker(project, name) in after && Marker(project, name) !in before ==>
        confirmed == Some(name)
    }

    /** Everything between backup and retention.  The result says whether the commit is durable. */
    method ActivateAndCommit(name: string, persisted: bool, now: int) returns (out: Outcome<bool>)
      requires Valid() && Content(tools, State(), name).Some?
      requires persisted ==> store.enabled && SafeProject(project) && SafeRelease(name)
                             && Backed(store.scheme, store.objects, project, name)
      modifies this`current, this`healthy, store`objects, store`ledger, env
      ensures current == old(current) || current == Some(name)
      ensures out.Done? ==> current == Some(name) && Confirmed() && (out.value ==> persisted)
                            && (persisted && durabilityRequired ==> out.value)
      ensures out.Raised? && steadyDisk ==> out.fault == Rejected
      ensures out.Raised? && steadyDisk ==> current == old(current)
      ensures !persisted ==> store.objects == old(store.objects)
      ensures MarkedWhenHealthy(old(store.objects), store.objects, name, healthy)
      ensures out == Done(true) ==>
        Retiring(Promotion(store.scheme, old(store.objects), project, name, now, 3), store.objects, project,
                 store.keep, store.steadyDeletes)
      ensures (out == Done(false) || (out.Raised? && steadyDisk)) && persisted && store.steadyDeletes ==>
        Withdrawn(store.scheme, old(store.objects), store.objects, project, name, now)
      ensures Coherent(store.scheme, old(store.objects)) && store.steadyDeletes ==>
        && Coherent(store.scheme, store.objects)
        && (persisted && Reliable(old(env.script)) && LaterThanAll(old(store.objects), project, now) ==>
              Backed(store.scheme, store.objects, project, name) && NotAfter(store.objects, project, now))
      ensures Reliable(old(env.script)) && current != Some(name) ==> store.objects == old(store.objects)
      ensures Faithful(old(env.script), out) && Keeps(old(env.script), env.script)
    {
      var previous := current;
      var checked := ActivateAndCheck(name);
      if !checked.Done? { return checked.PropagateFailure(); }
      if checked.value.None? {
        if persisted {
          ghost var backed := store.objects;
          assert PromotionLeaves(store.scheme, backed, backed, project, name, now);
          var abandoned := store.AbandonRelease(project, name);
          if store.steadyDeletes && Coherent(store.scheme, backed) {
            DeletionKeepsCoherent(store.scheme, backed, store.objects);
          }
          if abandoned.Crashed? { return Crashed; }
        }
        return Raised(Rejected);
      }
      if !persisted { return Done(false); }
      out := CommitCandidate(name, previous, now);
    }

    lemma WithoutCandidate<T>(before: Objects, after: Objects, name: string, rel: Release, now: int, out: Outcome<T>)
      requires BackupLeaves(store.scheme, before, after, project, name, Blob(pack(rel)), store.steadyDeletes)
      requires out.Done? ==> !durabilityRequired || !store.enabled
      requires store.enabled && !out.Crashed? && SafeProject(project) && SafeRelease(name) && store.steadyDeletes ==>
                 after.Keys !! KeysOf(project, name)
      ensures PublishedRemotely(before, after, name, rel, now, out.Done?, out.Raised?)
    {
    }

    lemma WithCandidate(before: Objects, after: Objects, name: string, rel: Release, now: int, out: Outcome<bool>)
      requires out.Done? && !out.value ==> !durabilityRequired
      requires var backed := BackedUp(store.scheme, before, project, name, Blob(pack(rel)));
        && (out.Done? && out.value ==>
              Retiring(Promotion(store.scheme, backed, project, name, now, 3), after, project,
                       store.keep, store.steadyDeletes))
        && (((out.Done? && !out.value) || (out.Raised? && steadyDisk)) && store.steadyDeletes ==>
              Withdrawn(store.scheme, backed, after, project, name, now))
        && (Coherent(store.scheme, backed) && store.steadyDeletes ==> Coherent(store.scheme, after))
      ensures PublishedRemotely(before, after, name, rel, now, out.Done?, out.Raised?)
    {
      var backed := BackedUp(store.scheme, before, project, name, Blob(pack(rel)));
      AfterBackup(store.scheme, before, backed, project, name, Blob(pack(rel)), store.steadyDeletes);
    }

    /** Backup, activation, health check and promotion. */
    method BackupAndCommit(name: string, now: int) returns (out: Outcome<bool>)
      requires Valid() && current != Some(name) && Content(tools, State(), name).Some?
      modifies this`current, this`healthy, store`objects, store`ledger, env
      ensures out.Raised? && steadyDisk ==> out.fault == Rejected
      ensures current == old(current) || current == Some(name)
      ensures out.Done? ==> current == Some(name) && Confirmed()
      ensures out.Raised? && steadyDisk ==> current == old(current)
      ensures !store.enabled ==> store.objects == old(store.objects)
      ensures MarkedWhenHealthy(old(store.objects), store.objects, name, healthy)
      ensures PublishedRemotely(old(store.objects), store.objects, name, old(releases)[name], now,
                                out.Done?, out.Raised?)
      ensures CandidateReady(current, old(store.objects), store.objects, old(env.script), name, now)
      ensures (store.enabled ==> SafeProject(project) && SafeRelease(name)) ==> Faithful(old(env.script), out)
      ensures Keeps(old(env.script), env.script)
    {
      ghost var remote := store.objects;
      ghost var archive := Blob(pack(releases[name]));
      var persisted := BackupCandidate(name);
      AfterBackup(store.scheme, remote, store.objects, project, name, archive, store.steadyDeletes);
      if !persisted.Done? {
        WithoutCandidate(remote, store.objects, name, releases[name], now, persisted);
        return persisted.PropagateFailure();
      }
      out := ActivateAndCommit(name, persisted.value, now);
      if persisted.value {
        WithCandidate(remote, store.objects, name, releases[name], now, out);
      } else {
        WithoutCandidate(remote, store.objects, name, releases[name], now, out);
      }
    }

    /** `_finalize_release`: publishes a release that is in place, with every way back. */
    method FinalizeRelease(name: string, now: int) returns (out: Outcome<DeployResult>)
      requires Valid() && current != Some(name) && Content(tools, State(), name).Some?
      modifies this`releases, this`current, this`healthy, store`objects, store`ledger, env
      ensures out.Raised? && steadyDisk ==> out.fault == Rejected
      ensures current == old(current) || current == Some(name)
      ensures Thinning(tools, old(State()).(current := current), State(),
                       Shielded(name, old(current)))
      ensures out.Done? ==>
        current == Some(name) && Confirmed() && out.value == DeployResult(name, old(current), monitored)
      ensures out.Done? && steadyDisk ==> Retained(old(releases), releases, Shielded(name, old(current)))
      ensures out.Raised? ==> releases == old(releases) && (steadyDisk ==> current == old(current))
      ensures !store.enabled ==> store.objects == old(store.objects)
      ensures MarkedWhenHealthy(old(store.objects), store.objects, name, healthy)
      ensures PublishedRemotely(old(store.objects), store.objects, name, old(releases)[name], now,
                                out.Done?, out.Raised?)
      ensures CandidateReady(current, old(store.objects), store.objects, old(env.script), name, now)
      ensures (store.enabled ==> SafeProject(project) && SafeRelease(name)) ==> Faithful(old(env.script), out)
      ensures Keeps(old(env.script), env.script)
    {
      var previous := current;
      var committed := BackupAndCommit(name, now);
      StillKept(tools, old(State()), State());
      ghost var mid, rel, after := State(), old(releases)[name], store.objects;
      assert mid == old(State()).(current := mid.current) && mid.releases == old(releases);
      StillPublished(old(store.objects), after, name, rel, now, committed);
      out := Conclude(name, previous, committed);
      assert current == mid.current && store.objects == after;
    }

    lemma StillPublished<T>(before: Objects, after: Objects, name: string, rel: Release, now: int,
                            out: Outcome<T>)
      requires PublishedRemotely(before, after, name, rel, now, out.Done?, out.Raised?)
      ensures PublishedRemotely(before, after, name, rel, now, false, false)
    {
    }

    /** The last part, if the release was committed: retention and the result. */
    method Conclude(name: string, previous: Option<string>, committed: Outcome<bool>)
      returns (out: Outcome<DeployResult>)
      requires Sorts(tools) && WellKept(tools, State())
      modifies this`releases, env
      ensures out.Done? ==> committed.Done? && out.value == DeployResult(name, previous, monitored)
      ensures out.Raised? ==> committed == Raised(out.fault) && releases == old(releases)
      ensures !committed.Done? ==> out == committed.PropagateFailure()
      ensures Thinning(tools, old(State()), State(), Shielded(name, previous))
      ensures out.Done? && steadyDisk ==> Retained(old(releases), releases, Shielded(name, previous))
      ensures Keeps(old(env.script), env.script) && (committed.Done? ==> Faithful(old(env.script), out))
    {
      if !committed.Done? {
        NothingThinned(tools, State(), Shielded(name, previous));
        return committed.PropagateFailure();
      }
      var pruned := PruneReleases(Shielded(name, previous));
      if pruned.Crashed? { return Crashed; }
      return Done(DeployResult(name, previous, monitored));
    }

    /** If there is a durable store, it accepts the names and its deletes work. */
    predicate WorkingStore(name: string) {
      store.enabled ==> store.steadyDeletes && SafeProject(project) && SafeRelease(name)
    }

    /** What a publication that ran to its end did to the durable store, provided deletes (and, for
        failures, local renames and links) work and the name had no marker before. */
    ghost predicate PublishedRemotely(before: Objects, after: Objects, name: string, rel: Release, now: int,
                                      done: bool, raised: bool)
    {
      WorkingStore(name) && store.enabled && Marker(project, name) !in before ==>
        && (done ==>
              || Attempted(store.scheme, store.keep, before, after, project, Attempt(name, Blob(pack(rel)), now, true))
              || (!durabilityRequired
                  && Attempted(store.scheme, store.keep, before, after, project,
                               Attempt(name, Blob(pack(rel)), now, false))))
        && (raised && steadyDisk ==>
              Attempted(store.scheme, store.keep, before, after, project, Attempt(name, Blob(pack(rel)), now, false)))
        && (Coherent(store.scheme, before) ==> Coherent(store.scheme, after))
    }

    /** Local and durable state change together: a normal return means that metadata, marker, pointer and
        archive all name the new release; an error means that nothing of it is left and `latest` answers as
        before. */
    lemma AtomicPublication<T>(before: Objects, after: Objects, name: string, rel: Release, now: int, out: Outcome<T>)
      requires store.keep >= 2 && store.enabled && store.steadyDeletes && SafeProject(project) && SafeRelease(name)
      requires Marker(project, name) !in before
      requires Orderly(store.scheme, before, project) && LaterThanAll(before, project, now)
      requires PublishedRemotely(before, after, name, rel, now, out.Done?, out.Raised?)
      ensures out.Done? && durabilityRequired ==>
        && Committed(store.scheme, after, project, name, now)
        && after[RemoteState.Archive(project, name)] == Blob(pack(rel))
        && Answer(store.scheme, after, project) == Some(name)
      ensures out.Raised? && steadyDisk ==>
        && after.Keys !! KeysOf(project, name)
        && Answer(store.scheme, after, project) == Answer(store.scheme, before, project)
        && Orderly(store.scheme, after, project)
    {
      if out.Done? && durabilityRequired {
        AttemptCommits(store.scheme, store.keep, before, after, project, Attempt(name, Blob(pack(rel)), now, true));
        assert RemoteState.Archive(project, name) in after;
      }
      if out.Raised? && steadyDisk {
        var a := Attempt(name, Blob(pack(rel)), now, false);
        FailureLeavesNoTrace(store.scheme, store.keep, before, after, project, a);
        NoTraceKeepsOrder(store.scheme, before, after, project, name);
      }
    }

    /** The candidate is stored if the release is current, and not marked active if it is not. */
    predicate Poised(cur: Option<string>, objs: Objects, name: string) {
      if cur == Some(name) then Backed(store.scheme, objs, project, name) else Marker(project, name) !in objs
    }

    /** When nothing fails, the process can die at any point and still leave a poised release. */
    ghost predicate CandidateReady(cur: Option<string>, before: Objects, after: Objects, script: seq<Fate>,
                                   name: string, now: int)
    {
      WorkingStore(name) && store.enabled && Marker(project, name) !in before
      && Coherent(store.scheme, before) && LaterThanAll(before, project, now) && Reliable(script) ==>
        Poised(cur, after, name) && NotAfter(after, project, now)
    }

    /** The middle of a deployment: build the release and publish it. */
    method Publish(name: string, drafts: seq<Release>, full: Tree, now: int) returns (out: Outcome<DeployResult>)
      requires Valid() && current != Some(name)
      modifies this`releases, this`staging, this`current, this`healthy, store`objects, store`ledger, env
      ensures AttemptLeaves(tools, old(State()), State(), name, Some(FilesOf(full - {MANIFEST})))
      ensures out.Done? ==>
        && current == Some(name) && Confirmed()
        && out.value == DeployResult(name, old(current), monitored) && WellFormed(FilesOf(full - {MANIFEST}))
      ensures out.Raised? ==> releases - {name} == old(releases) - {name} && (steadyDisk ==> current == old(current))
      ensures !store.enabled ==> store.objects == old(store.objects)
      ensures (!out.Done? && store.objects == old(store.objects))
              || PublishedRemotely(old(store.objects), store.objects, name, Built(full, now), now,
                                   out.Done?, out.Raised?)
      ensures CandidateReady(current, old(store.objects), store.objects, old(env.script), name, now)
      ensures name !in old(releases) && name !in old(staging) && Acceptable(full)
              && (store.enabled ==> SafeProject(project) && SafeRelease(name)) ==>
        Faithful(old(env.script), out)
      ensures Keeps(old(env.script), env.script)
    {
      var built := BuildRelease(name, drafts, full, now);
      ghost var ready, goal := State(), Some(FilesOf(full - {MANIFEST}));
      PreparedThenStopped(tools, old(State()), ready, name, goal);
      if !built.Done? { return built.PropagateFailure(); }
      out := FinalizeRelease(name, now);
      PreparedThenSwitched(tools, old(State()), ready, ready.(current := current), State(), name, goal);
    }

    /** The exception handler of a deployment: removes staging and a release that is not current. */
    method CleanUp(name: string) returns (out: Outcome<()>)
      requires Valid()
      modifies this`releases, this`staging, env
      ensures !out.Raised?
      ensures current == Some(name) ==> releases == old(releases)
      ensures current != Some(name) ==> Preparing(tools, old(State()), State(), name, None)
      ensures out.Done? && steadyDisk && current != Some(name) ==>
        releases == old(releases) - {name} && name !in staging
      ensures Keeps(old(env.script), env.script)
    {
      var unstaged := RemoveStaging(name);
      SameReleases(tools, old(State()), State());
      NothingMoved(tools, old(State()), State(), name, None);
      if unstaged.Crashed? { return Crashed; }
      if current == Some(name) { return Done(()); }
      ghost var mid := State();
      out := RemoveRelease(name);
      StagingDoesNotMatter(tools, old(State()), mid, State(), name);
    }

    // ----- repeated operations -----------------------------------------------------------------------

    /** The durable part of a repetition; `true` if the promotion was repeated. */
    method Reconcile(name: string, now: int) returns (out: Outcome<bool>)
      requires store.env == env && store.keep >= 2
      modifies store`objects, store`ledger, env
      ensures out.Raised? || out == Done(false) ==> out.Raised? == (store.enabled && durabilityRequired)
      ensures out.Raised? ==> out.fault == Rejected
      ensures out == Done(true) ==> Repromoted(old(store.objects), store.objects, name, now)
      ensures !Renewable(old(store.objects), name) ==> store.objects == old(store.objects)
      ensures Undisturbed(old(env.script)) ==> !out.Crashed?
      ensures !store.enabled ==> store.objects == old(store.objects)
      ensures ResumeKeepsCandidate(old(store.objects), store.objects, name, now)
      ensures Renewable(old(store.objects), name) && OnlyRetentionFails(old(env.script)) ==>
        && out == Done(true) && env.script == old(env.script)[5..]
        && store.objects == Promotion(store.scheme, old(store.objects), project, name, now, 3)
      ensures ResumeReady(old(store.objects), name) ==> Faithful(old(env.script), out)
      ensures Keeps(old(env.script), env.script)
    {
      if !store.enabled { return Done(false); }
      ghost var before := store.objects;
      var promoted := store.PromoteRelease(project, name, now);
      if Coherent(store.scheme, before) && store.steadyDeletes && SafeProject(project) && SafeRelease(name)
         && Backed(store.scheme, before, project, name)
      {
        AfterPromotion(store.scheme, store.keep, before, store.objects, project, name, now);
      }
      if promoted.Crashed? { return Crashed; }
      if promoted.Raised? && durabilityRequired { return Raised(Rejected); }
      return Done(promoted.Done?);
    }

    /** The store can be asked to promote the release. */
    predicate Renewable(objs: Objects, name: string) {
      store.enabled && SafeProject(project) && SafeRelease(name) && Promotable(store.scheme, objs, project, name)
    }

    /** All three writes of the promotion were made. */
    ghost predicate Repromoted(before: Objects, after: Objects, name: string, now: int) {
      && Renewable(before, name)
      && Retiring(Promotion(store.scheme, before, project, name, now, 3), after, project, store.keep,
                  store.steadyDeletes)
    }

    /** `_resume_idempotent_current`: the release is already current; repeat promotion and health
        check only.  The promotion comes first, and an app that is not healthy any more does not undo
        it. */
    method ResumeCurrent(name: string, now: int) returns (out: Outcome<DeployResult>, ghost promoted: bool)
      requires Valid() && current == Some(name)
      modifies this`healthy, store`objects, store`ledger, env
      ensures out.Done? ==> out.value == DeployResult(name, None, monitored) && Confirmed()
      ensures !store.enabled ==> store.objects == old(store.objects)
      ensures ResumeKeepsCandidate(old(store.objects), store.objects, name, now)
      ensures promoted ==> Repromoted(old(store.objects), store.objects, name, now)
      ensures out.Done? && store.enabled && durabilityRequired ==> promoted
      ensures !Renewable(old(store.objects), name) ==> store.objects == old(store.objects)
      ensures Undisturbed(old(env.script)) ==>
        (out.Done? <==> (store.enabled && durabilityRequired ==> Renewable(old(store.objects), name)))
      ensures out.Raised? && promoted ==> monitored && healthy == old(healthy)
      ensures Renewable(old(store.objects), name) && monitored && OnlyRetentionFails(old(env.script))
              && FailsNext(old(env.script)[5..]) ==>
        && out.Raised? && promoted
        && store.objects == Promotion(store.scheme, old(store.objects), project, name, now, 3)
      ensures ResumeReady(old(store.objects), name) ==> Faithful(old(env.script), out)
      ensures Keeps(old(env.script), env.script)
    {
      promoted := false;
      var verified := VerifyManifest(tools, FilesOf(releases[name].tree), releases[name].manifest);
      if verified.Raised? { return Raised(Rejected), promoted; }
      var reconciled := Reconcile(name, now);
      if !reconciled.Done? { return reconciled.PropagateFailure(), promoted; }
      promoted := reconciled.value;
      var restarted := RestartAndVerify();
      if !restarted.Done? { return restarted.PropagateFailure(), promoted; }
      return Done(DeployResult(name, None, restarted.value)), promoted;
    }

    ghost predicate ResumeKeepsCandidate(before: Objects, after: Objects, name: string, now: int) {
      Coherent(store.scheme, before) && store.steadyDeletes && SafeProject(project) && SafeRelease(name)
      && Backed(store.scheme, before, project, name) ==>
        && Coherent(store.scheme, after)
        && (LaterThanAll(before, project, now) ==>
              Backed(store.scheme, after, project, name) && NotAfter(after, project, now))
    }

    /** What resuming needs from the durable store. */
    ghost predicate ResumeReady(objs: Objects, name: string) {
      store.enabled ==> SafeProject(project) && SafeRelease(name) && Promotable(store.scheme, objs, project, name)
    }

    // ----- deployments ---------------------------------------------------------------------------------

    /** The tree a ZIP upload unpacks to, if it is accepted. */
    ghost function Unzipped(upload: Bytes): Option<Tree> {
      if unzip(upload).Some? && Accepts(limits, ParseAll(unicode, unzip(upload).value))
      then Some(Flatten(TreeOf(Elements(ParseAll(unicode, unzip(upload).value)))))
      else None
    }

    /** The tree that a source would release, if it gets that far. */
    ghost function Planned(source: Source): Option<Tree> {
      match source
      case Zip(upload) => Unzipped(upload)
      case Clone(base, target, upload) => WithFile(Cloned(base.tree), target, upload)
    }

    /** An upload that is no archive, or is refused for anything but a file above another member. */
    ghost predicate Unacceptable(source: Source) {
      && source.Zip?
      && (unzip(source.upload).None?
          || (var ms := ParseAll(unicode, unzip(source.upload).value); !Accepts(limits, ms) && !Clash(Elements(ms))))
    }

    /** The files that `current` has after a successful deployment from a source. */
    ghost function Goal(source: Source): Option<Files> {
      if Planned(source).Some? then Some(FilesOf(Planned(source).value - {MANIFEST})) else None
    }

    /** What a deployment did to the durable store, if it did anything or returned normally. */
    ghost predicate Effect(before: Objects, after: Objects, name: string, source: Source, now: int,
                           done: bool, raised: bool)
      requires Sorts(tools)
    {
      || (!done && after == before)
      || (Planned(source).Some?
          && PublishedRemotely(before, after, name, Built(Planned(source).value, now), now, done, raised))
    }

    ghost predicate Deployable(source: Source, name: string)
      reads this
    {
      && name !in staging && Planned(source).Some? && Acceptable(Planned(source).value)
      && (store.enabled ==> SafeProject(project) && SafeRelease(name))
    }

    /** The guarded part of `deploy_zip` and `put_file`. */
    method BuildAndPublish(name: string, source: Source, now: int) returns (out: Outcome<DeployResult>)
      requires Valid() && current != Some(name)
      modifies this`releases, this`staging, this`current, this`healthy, store`objects, store`ledger, env
      ensures AttemptLeaves(tools, old(State()), State(), name, Goal(source))
      ensures out.Done? ==>
        current == Some(name) && Confirmed() && out.value == DeployResult(name, old(current), monitored)
      ensures out.Done? ==> Goal(source).Some? && WellFormed(Goal(source).value)
      ensures out.Raised? ==> releases - {name} == old(releases) - {name} && (steadyDisk ==> current == old(current))
      ensures !store.enabled ==> store.objects == old(store.objects)
      ensures Effect(old(store.objects), store.objects, name, source, now, out.Done?, out.Raised?)
      ensures CandidateReady(current, old(store.objects), store.objects, old(env.script), name, now)
      ensures name !in old(releases) && old(Deployable(source, name)) ==> Faithful(old(env.script), out)
      ensures Unacceptable(source) ==> out == Raised(Rejected)
      ensures source.Clone? && WithFile(Cloned(source.base.tree), source.target, source.upload).None? ==>
        out == match NextFate(old(env.script))
               case Crash(_) => Crashed
               case Fail(_, _) => Raised(Broken)
               case Go => Raised(if IsFolder(Cloned(source.base.tree), source.target) then Rejected else Broken)
      ensures Keeps(old(env.script), env.script)
    {
      NothingDone(tools, old(State()), State(), name, Goal(source));
      match source {
        case Zip(upload) =>
          var raw := unzip(upload);
          if raw.None? { return Raised(Rejected); }
          var tree := Extract(unicode, limits, raw.value);
          if !tree.Done? { return tree.PropagateFailure(); }
          out := Publish(name, [], tree.value, now);
        case Clone(base, target, upload) =>
          var clone := Cloned(base.tree);
          var full := WithFile(clone, target, upload);
          if full.None? {
            var staged := Stage(name, Release(clone, None, now));
            NothingDone(tools, old(State()), State(), name, Goal(source));
            if !staged.Done? { return staged.PropagateFailure(); }
            return Raised(if IsFolder(clone, target) then Rejected else Broken);
          }
          var drafts := [Release(clone, base.manifest, now), Release(clone, None, now)];
          out := Publish(name, drafts, full.value, now);
      }
    }

    /** Deploys, and cleans up after a failure. */
    method BuildOrCleanUp(name: string, source: Source, now: int) returns (out: Outcome<DeployResult>)
      requires Valid() && current != Some(name)
      modifies this`releases, this`staging, this`current, this`healthy, store`objects, store`ledger, env
      ensures AttemptLeaves(tools, old(State()), State(), name, Goal(source))
      ensures out.Done? ==>
        current == Some(name) && Confirmed() && out.value == DeployResult(name, old(current), monitored)
      ensures out.Done? ==> Goal(source).Some? && WellFormed(Goal(source).value)
      ensures out.Raised? && steadyDisk ==> releases == old(releases) - {name} && current == old(current)
      ensures !store.enabled ==> store.objects == old(store.objects)
      ensures Effect(old(store.objects), store.objects, name, source, now, out.Done?, out.Raised?)
      ensures CandidateReady(current, old(store.objects), store.objects, old(env.script), name, now)
      ensures name !in old(releases) && old(Deployable(source, name)) ==> Faithful(old(env.script), out)
      ensures Unacceptable(source) ==> out.Crashed? || out == Raised(Rejected)
      ensures Keeps(old(env.script), env.script)
    {
      out := BuildAndPublish(name, source, now);
      if !out.Raised? { return; }
      ghost var after := store.objects;
      StillEffect(old(store.objects), after, name, source, now);
      var cleaned := CleanUpAttempt(name, old(State()), Goal(source));
      assert store.objects == after;
      if cleaned.Crashed? { return Crashed; }
    }

    lemma StillEffect(before: Objects, after: Objects, name: string, source: Source, now: int)
      requires Sorts(tools) && Effect(before, after, name, source, now, false, true)
      ensures Effect(before, after, name, source, now, false, false)
    {
    }

    method CleanUpAttempt(name: string, ghost before: Disk, ghost goal: Option<Files>) returns (out: Outcome<()>)
      requires Valid() && before.current != Some(name) && AttemptLeaves(tools, before, State(), name, goal)
      modifies this`releases, this`staging, env
      ensures !out.Raised? && AttemptLeaves(tools, before, State(), name, goal)
      ensures out.Done? && steadyDisk && current != Some(name) ==> releases == old(releases) - {name}
      ensures Keeps(old(env.script), env.script)
    {
      out := CleanUp(name);
      if current != Some(name) {
        AttemptThenRemove(tools, before, old(State()), State(), name, goal);
      } else {
        AttemptIgnoresStaging(tools, before, old(State()), State(), name, goal);
      }
    }

    /** Clears a left-over release of the same name first. */
    method Redeploy(name: string, source: Source, now: int) returns (out: Outcome<DeployResult>)
      requires Valid() && current != Some(name)
      modifies this`releases, this`staging, this`current, this`healthy, store`objects, store`ledger, env
      ensures AttemptLeaves(tools, old(State()), State(), name, Goal(source))
      ensures out.Done? ==>
        current == Some(name) && Confirmed() && out.value == DeployResult(name, old(current), monitored)
      ensures out.Done? ==> Goal(source).Some? && WellFormed(Goal(source).value)
      ensures out.Raised? && steadyDisk ==> releases == old(releases) - {name} && current == old(current)
      ensures !store.enabled ==> store.objects == old(store.objects)
      ensures Effect(old(store.objects), store.objects, name, source, now, out.Done?, out.Raised?)
      ensures CandidateReady(current, old(store.objects), store.objects, old(env.script), name, now)
      ensures old(Deployable(source, name)) ==> Faithful(old(env.script), out)
      ensures Unacceptable(source) ==> out.Crashed? || out == Raised(Rejected)
      ensures Keeps(old(env.script), env.script)
    {
      var removed := RemoveRelease(name);
      ghost var cleared := State();
      RemovalIsPreparing(tools, old(State()), cleared, name, Goal(source));
      PreparedThenStopped(tools, old(State()), cleared, name, Goal(source));
      if removed.Crashed? { return Crashed; }
      out := BuildOrCleanUp(name, source, now);
      PrepareThenAttempt(tools, old(State()), cleared, State(), name, Goal(source));
    }

    /** What the durable store has to look like for an operation to be repeated successfully. */
    ghost predicate Resumable(cur: Option<string>, objs: Objects, name: string) {
      store.enabled ==> Coherent(store.scheme, objs) && Poised(cur, objs, name)
    }

    /** The durable side of executing a deployment, again or for the first time: a crash keeps it
        resumable, and a normal return leaves marker, metadata, pointer and archive in agreement. */
    ghost predicate Replayed(cur: Option<string>, before: Objects, cur': Option<string>, after: Objects,
                             script: seq<Fate>, name: string, now: int, done: bool)
    {
      store.enabled && WorkingStore(name) && Resumable(cur, before, name) && LaterThanAll(before, project, now) ==>
        && (Reliable(script) ==> Resumable(cur', after, name) && NotAfter(after, project, now))
        && (done && durabilityRequired ==> Committed(store.scheme, after, project, name, now))
    }

    lemma PublishedIsReplayed<T>(cur: Option<string>, before: Objects, after: Objects, script: seq<Fate>, name: string,
                                 source: Source, now: int, out: Outcome<T>)
      requires Sorts(tools) && store.keep >= 2 && cur != Some(name)
      requires Effect(before, after, name, source, now, out.Done?, out.Raised?)
      requires CandidateReady(current, before, after, script, name, now)
      ensures Replayed(cur, before, current, after, script, name, now, out.Done?)
    {
      if out.Done? && durabilityRequired && store.enabled && WorkingStore(name) && Resumable(cur, before, name)
         && LaterThanAll(before, project, now)
      {
        var a := Attempt(name, Blob(pack(Built(Planned(source).value, now))), now, true);
        assert Attempted(store.scheme, store.keep, before, after, project, a);
        AttemptCommits(store.scheme, store.keep, before, after, project, a);
      }
    }

    lemma ResumedIsReplayed(before: Objects, after: Objects, script: seq<Fate>, name: string, now: int, done: bool)
      requires store.keep >= 2 && current == Some(name) && ResumeKeepsCandidate(before, after, name, now)
      requires done && store.enabled && durabilityRequired ==> Repromoted(before, after, name, now)
      ensures Replayed(current, before, current, after, script, name, now, done)
    {
      if done && durabilityRequired && store.enabled && WorkingStore(name) && Resumable(current, before, name)
         && LaterThanAll(before, project, now)
      {
        CommitBecomesAnswer(store.scheme, store.keep, before, after, project, name, now);
      }
    }

    /** An execution that fails only if the environment makes it fail. */
    ghost predicate Feasible(source: Source, name: string)
      reads this, store
    {
      && WorkingStore(name) && Resumable(current, store.objects, name)
      && (current == Some(name) || Deployable(source, name))
    }

    /** With a working store, or none, a first deployment needs no more than an archive and a tree within
        the limits. */
    lemma GoodUploadIsFeasible(upload: Bytes, raw: seq<RawMember>, name: string)
      requires unzip(upload) == Some(raw) && Accepts(limits, ParseAll(unicode, raw))
      requires var t := Flatten(TreeOf(Elements(ParseAll(unicode, raw))));
        && |FilesOf(t)| <= limits.maxFiles && TotalBytes(FilesOf(t)) <= limits.maxBytes
        && (forall p :: p in FilesOf(t) ==> parses(p, FilesOf(t)[p]))
        && !([".titanbox-release.json"] in t && t[[".titanbox-release.json"]].Dir?)
      requires current != Some(name) && name !in staging
      requires store.enabled ==>
        && store.steadyDeletes && SafeProject(project) && SafeRelease(name) && Coherent(store.scheme, store.objects)
        && Marker(project, name) !in store.objects
      ensures Feasible(Zip(upload), name)
    {
      var t := Flatten(TreeOf(Elements(ParseAll(unicode, raw))));
      assert MANIFEST == [".titanbox-release.json"];
      assert Planned(Zip(upload)) == Some(t) && WellFormed(FilesOf(t));
    }

    /** What a deployment reports: the release before it, unless it was resumed. */
    function ResultOf(before: Option<string>, name: string): (r: DeployResult)
      ensures r.release == name && r.restarted == monitored && (before == Some(name) ==> r.previous == None)
      ensures before != Some(name) ==> r.previous == before
    {
      DeployResult(name, if before == Some(name) then None else before, monitored)
    }

    /** A release under its deterministic name: resumed if it is already current, else rebuilt. */
    method DeployAs(name: string, source: Source, now: int) returns (out: Outcome<DeployResult>)
      requires Valid()
      modifies this`releases, this`staging, this`current, this`healthy, store`objects, store`ledger, env
      ensures DeploymentLeaves(tools, old(State()), State(), name, Goal(source), out.Done?)
      ensures out.Done? ==> out.value == ResultOf(old(current), name) && Confirmed()
      ensures out.Done? && old(current) != Some(name) ==> Goal(source).Some? && WellFormed(Goal(source).value)
      ensures out.Raised? && steadyDisk ==> Undone(old(State()), State(), name)
      ensures !store.enabled ==> store.objects == old(store.objects)
      ensures old(current) != Some(name) ==>
        Effect(old(store.objects), store.objects, name, source, now, out.Done?, out.Raised?)
      ensures Replayed(old(current), old(store.objects), current, store.objects, old(env.script), name, now, out.Done?)
      ensures old(Feasible(source, name)) ==> Faithful(old(env.script), out)
      ensures old(current) != Some(name) && Unacceptable(source) ==> out.Crashed? || out == Raised(Rejected)
      ensures Keeps(old(env.script), env.script)
    {
      if current == Some(name) {
        ghost var promoted;
        out, promoted := ResumeCurrent(name, now);
        NothingDone(tools, old(State()), State(), name, Goal(source));
        ResumedIsReplayed(old(store.objects), store.objects, old(env.script), name, now, out.Done?);
      } else {
        out := Redeploy(name, source, now);
        PublishedIsReplayed(old(current), old(store.objects), store.objects, old(env.script), name, source, now, out);
      }
    }

    /** What a failed attempt leaves on a disk whose renames and removals work. */
    predicate Undone(d: Disk, d': Disk, name: string) {
      && d'.current == d.current
      && (d'.releases == d.releases || (d.current != Some(name) && d'.releases == d.releases - {name}))
    }

    // ----- the operations of the control plane ---------------------------------------------------------

    /** Upload ceiling; an archive from the durable store may be as large as any release can get. */
    function SizeLimit(trusted: bool): (limit: int)
      ensures !trusted ==> limit == limits.maxUpload
      ensures trusted ==>
        && limit >= limits.maxUpload && limit >= limits.maxBytes + 1024 * limits.maxFiles + 1048576
        && (limit == limits.maxUpload || limit == limits.maxBytes + 1024 * limits.maxFiles + 1048576)
    {
      var internal := limits.maxBytes + limits.maxFiles * 1024 + 1048576;
      if !trusted || internal < limits.maxUpload then limits.maxUpload else internal
    }

    predicate Keyed(op: Option<string>) { op.Some? && op.value != "" }

    function NewReleaseName(upload: Bytes, op: Option<string>, stamp: string): string {
      if Keyed(op) then jobName(op.value, upload) else stamp
    }

    /** A time stamp names a release that does not exist yet. */
    predicate Unused(op: Option<string>, stamp: string)
      reads this
    {
      Keyed(op) || (stamp !in releases && current != Some(stamp))
    }

    method DeployZip(upload: Bytes, op: Option<string>, stamp: string, now: int, trusted: bool)
      returns (out: Outcome<DeployResult>)
      requires Valid() && Unused(op, stamp)
      modifies this`releases, this`staging, this`current, this`healthy, store`objects, store`ledger, env
      ensures |upload| > SizeLimit(trusted) ==>
        out == Raised(Rejected) && State() == old(State()) && store.objects == old(store.objects)
      ensures var name := NewReleaseName(upload, op, stamp);
        && DeploymentLeaves(tools, old(State()), State(), name, Goal(Zip(upload)), out.Done?)
        && (out.Done? ==> out.value == ResultOf(old(current), name) && Confirmed())
        && (out.Done? && old(current) != Some(name) ==> WellFormed(Goal(Zip(upload)).value))
        && (out.Raised? && steadyDisk ==> Undone(old(State()), State(), name))
        && (old(current) != Some(name) ==>
              Effect(old(store.objects), store.objects, name, Zip(upload), now, out.Done?, out.Raised?))
      ensures |upload| <= SizeLimit(trusted) ==>
        var name := NewReleaseName(upload, op, stamp);
        && Replayed(old(current), old(store.objects), current, store.objects, old(env.script), name, now, out.Done?)
        && (old(Feasible(Zip(upload), name)) ==> Faithful(old(env.script), out))
      ensures old(current) != Some(NewReleaseName(upload, op, stamp)) && Unacceptable(Zip(upload)) ==>
        out.Crashed? || out == Raised(Rejected)
      ensures Keeps(old(env.script), env.script)
    {
      var name := NewReleaseName(upload, op, stamp);
      NothingDone(tools, old(State()), State(), name, Goal(Zip(upload)));
      if |upload| > SizeLimit(trusted) { return Raised(Rejected); }
      out := DeployAs(name, Zip(upload), now);
    }

    /** The release that `put_file` would make from the current one. */
    function PutSource(d: Disk, raw: string, upload: Bytes): Option<Source> {
      var target := TargetPath(unicode, raw);
      if target.None? || |upload| > limits.maxUpload || d.current.None? || d.current.value !in d.releases then None
      else Some(Clone(d.releases[d.current.value], target.value, upload))
    }

    /** The files that `put_file` aims at. */
    ghost function PutGoal(d: Disk, raw: string, upload: Bytes): Option<Files> {
      var source := PutSource(d, raw, upload);
      if source.Some? then Goal(source.value) else None
    }

    method PutFile(raw: string, upload: Bytes, op: Option<string>, stamp: string, now: int)
      returns (out: Outcome<DeployResult>)
      requires Valid() && Unused(op, stamp)
      modifies this`releases, this`staging, this`current, this`healthy, store`objects, store`ledger, env
      ensures PutSource(old(State()), raw, upload).None? ==>
        out == Raised(Rejected) && State() == old(State()) && store.objects == old(store.objects)
      ensures var name := NewReleaseName(upload, op, stamp); var source := PutSource(old(State()), raw, upload);
        source.Some? ==>
          && DeploymentLeaves(tools, old(State()), State(), name, Goal(source.value), out.Done?)
          && (out.Done? ==> out.value == ResultOf(old(current), name) && Confirmed())
          && (out.Done? && old(current) != Some(name) ==> WellFormed(Goal(source.value).value))
          && (out.Raised? && steadyDisk ==> Undone(old(State()), State(), name))
          && (old(current) != Some(name) ==>
                Effect(old(store.objects), store.objects, name, source.value, now, out.Done?, out.Raised?))
          && Replayed(old(current), old(store.objects), current, store.objects, old(env.script), name, now, out.Done?)
          && (old(Feasible(source.value, name)) ==> Faithful(old(env.script), out))
      ensures out.Done? && old(current) != Some(NewReleaseName(upload, op, stamp)) ==>
        && old(current).Some? && old(current).value in old(releases) && current.Some? && current.value in releases
        && TargetPath(unicode, raw).Some?
        && OneFilePut(FilesOf(old(releases)[old(current).value].tree), FilesOf(releases[current.value].tree),
                      TargetPath(unicode, raw).value, upload)
      ensures Keeps(old(env.script), env.script)
    {
      ghost var before := State();
      var target := TargetPath(unicode, raw);
      if target.None? { return Raised(Rejected); }
      if |upload| > limits.maxUpload { return Raised(Rejected); }
      if current.None? || current.value !in releases { return Raised(Rejected); }
      var source := Clone(releases[current.value], target.value, upload);
      out := DeployAs(NewReleaseName(upload, op, stamp), source, now);
      if out.Done? && before.current != Some(NewReleaseName(upload, op, stamp)) {
        PutIsOneFile(source.base, target.value, upload, State(), current.value);
      }
    }

    lemma PutIsOneFile(base: Release, target: Path, upload: Bytes, d: Disk, name: string)
      requires Sorts(tools) && Goal(Clone(base, target, upload)).Some?
      requires Content(tools, d, name) == Goal(Clone(base, target, upload))
      ensures name in d.releases && OneFilePut(FilesOf(base.tree), FilesOf(d.releases[name].tree), target, upload)
    {
      PutChangesOneFile(base, target, upload);
      forall p | p != target && p != [".titanbox-release.json"]
        ensures KeptByPut(FilesOf(base.tree), FilesOf(d.releases[name].tree), p)
      {
        PutKeepsOtherFiles(base, target, upload, p);
      }
    }

    /** Puts exactly one file into a copy of the current release: whatever else the copy has, it has
        from there.  A file put under the name of the manifest is lost. */
    lemma PutChangesOneFile(base: Release, target: Path, upload: Bytes)
      requires Goal(Clone(base, target, upload)).Some?
      ensures var goal := Goal(Clone(base, target, upload)).value;
        && goal == FilesOf(Cloned(base.tree))[target := upload] - {MANIFEST}
        && (target in goal && goal[target] == upload <==> target != MANIFEST)
    {
    }

    /** Every other file of the current release is kept, except caches. */
    lemma PutKeepsOtherFiles(base: Release, target: Path, upload: Bytes, p: Path)
      requires Goal(Clone(base, target, upload)).Some? && p != target && p != [".titanbox-release.json"]
      ensures KeptByPut(FilesOf(base.tree), Goal(Clone(base, target, upload)).value, p)
    {
      PutChangesOneFile(base, target, upload);
      CloneKeeps(base.tree, p);
      ClonedFiles(base.tree, p);
    }

    lemma ClonedFiles(t: Tree, p: Path)
      ensures p in FilesOf(Cloned(t)) <==> p in FilesOf(t) && p in Cloned(t)
      ensures p in FilesOf(Cloned(t)) ==> FilesOf(Cloned(t))[p] == FilesOf(t)[p]
    {
    }

    /** It can be put anywhere but on a directory of the copy or below a file of it. */
    lemma PutIsPossible(base: Release, target: Path, upload: Bytes)
      ensures Goal(Clone(base, target, upload)).Some? <==>
        && target != []
        && (target in Cloned(base.tree) ==> base.tree[target].File?)
        && forall k :: 1 <= k < |target| && target[..k] in Cloned(base.tree) ==> base.tree[target[..k]].Dir?
    {
      if target != [] {
        var clone, parent := Cloned(base.tree), target[..|target| - 1];
        forall k | 1 <= k < |target| ensures parent[..k] == target[..k] && target[..k] in Prefixes(parent) { }
      }
    }

    /** A member file of an accepted upload is deployed with its own bytes under the path that its name
        spells, or without the one folder at the top that holds everything.  Two places are lost: below
        `__MACOSX`, and where the manifest goes. */
    lemma MemberIsDeployed(upload: Bytes, m: RawMember, p: Path)
      requires Goal(Zip(upload)).Some? && m in unzip(upload).value && Spells(unicode, m.name, p)
      requires !(|p| > 1 && p[0] == "__MACOSX")
      ensures var t := TreeOf(Elements(ParseAll(unicode, unzip(upload).value)));
              var goal, q := Goal(Zip(upload)).value, Flattened(t, p);
        (q in goal <==> q != [".titanbox-release.json"]) && (q in goal ==> goal[q] == m.content)
    {
      var t := TreeOf(Elements(ParseAll(unicode, unzip(upload).value)));
      MemberIsKept(unicode, limits, unzip(upload).value, m, p);
      assert Planned(Zip(upload)) == Some(Flatten(t));
      FilesBesidesManifest(Flatten(t), Flattened(t, p), m.content);
    }

    lemma FilesBesidesManifest(t: Tree, q: Path, content: Bytes)
      requires q in t && t[q] == File(content)
      ensures var files := FilesOf(t - {MANIFEST});
        (q in files <==> q != MANIFEST) && (q in files ==> files[q] == content)
    {
    }

    // ----- rollback ----------------------------------------------------------------------------------

    /** The default target of a rollback: the most recently modified release that is not current. */
    ghost predicate NewestOther(d: Disk, name: string) {
      && name in d.releases && d.current != Some(name)
      && forall n :: n in d.releases && n != name && d.current != Some(n) ==>
           Newer(Row(d.releases[name].mtime, name), Row(d.releases[n].mtime, n))
    }

    /** The release a rollback goes to, if there is one. */
    ghost predicate RollsTo(d: Disk, release: Option<string>, name: string) {
      if release.Some? then name == release.value && name in d.releases else NewestOther(d, name)
    }

    method RollbackTarget(release: Option<string>) returns (out: Outcome<string>)
      ensures out.Done? ==> current.Some? && RollsTo(State(), release, out.value)
      ensures !out.Crashed? && (out.Raised? ==> out == Raised(Rejected))
      ensures current.Some? && (exists n :: RollsTo(State(), release, n)) ==> out.Done?
    {
      var names := ReleaseNames();
      if names == [] || current.None? { return Raised(Rejected); }
      if release.Some? {
        if release.value !in names { return Raised(Rejected); }
        return Done(release.value);
      }
      for i := 0 to |names|
        invariant forall k :: 0 <= k < i ==> names[k] == current.value
      {
        if names[i] != current.value {
          FirstIsNewest(names, i);
          return Done(names[i]);
        }
      }
      return Raised(Rejected);
    }

    lemma FirstIsNewest(names: seq<string>, i: nat)
      requires names == Names(Listing(MtimeRows())) && i < |names| && current != Some(names[i])
      requires forall k :: 0 <= k < i ==> current == Some(names[k])
      ensures NewestOther(State(), names[i])
    {
      var rows := Listing(MtimeRows());
      assert rows[i] in rows;
      forall n | n in releases && n != names[i] && current != Some(n)
        ensures Newer(Row(releases[names[i]].mtime, names[i]), Row(releases[n].mtime, n))
      {
        assert Row(releases[n].mtime, n) in rows;
        var k :| 0 <= k < |rows| && rows[k] == Row(releases[n].mtime, n);
        assert names[k] == n;
      }
    }

    /** Rolling back or forward to another release.  An unhealthy target is left again. */
    /** The way back after a rollback target failed: the original release, restarted whatever comes of it. */
    method GoBack(previous: string) returns (out: Outcome<bool>)
      requires Sorts(tools) && Content(tools, State(), previous).Some?
      modifies this`current, this`healthy, env
      ensures !out.Done? && (current == old(current) || current == Some(previous))
      ensures out.Raised? && steadyDisk ==> current == Some(previous)
      ensures Reliable(old(env.script)) && out.Raised? ==> out.fault == Rejected
      ensures monitored && Goes(old(env.script), 2) ==>
        if CrashesNext(old(env.script)[2..]) then out.Crashed? else out == Raised(Rejected) && current == Some(previous)
      ensures monitored && Goes(old(env.script), 3) ==> Confirmed()
      ensures Keeps(old(env.script), env.script)
    {
      var back := ActivateRelease(previous);
      if !back.Done? { return back.PropagateFailure(); }
      var restarted := RestartAndVerify();
      if restarted.Crashed? { return Crashed; }
      return Raised(Rejected);
    }

    method SwitchTo(name: string) returns (out: Outcome<bool>)
      requires Valid() && current.Some? && current != Some(name)
      modifies this`current, this`healthy, env
      ensures Valid() && (current == old(current) || (current == Some(name) && Content(tools, State(), name).Some?))
      ensures out.Done? ==> current == Some(name) && out.value == monitored && Confirmed()
      ensures out.Raised? && steadyDisk ==> current == old(current)
      ensures Content(tools, State(), name).Some? ==> Faithful(old(env.script), out)
      ensures Keeps(old(env.script), env.script)
    {
      SameReleases(tools, old(State()), State());
      var previous := current.value;
      var activated := ActivateRelease(name);
      SameReleases(tools, old(State()), State());
      if !activated.Done? { return activated.PropagateFailure(); }
      out := RestartAndVerify();
      if !out.Raised? { return; }
      out := GoBack(previous);
      SameReleases(tools, old(State()), State());
    }

    /** A rollback that has no reason to fail. */
    ghost predicate Possible(release: Option<string>, idempotent: bool)
      reads this
    {
      Sorts(tools) && exists n :: PossibleTo(release, idempotent, n)
    }

    ghost predicate PossibleTo(release: Option<string>, idempotent: bool, name: string)
      requires Sorts(tools)
      reads this
    {
      && current.Some? && RollsTo(State(), release, name) && Content(tools, State(), name).Some?
      && (current == Some(name) ==> idempotent)
    }

    /** The idempotent case of a rollback: the target is current already. */
    method Reconfirm(name: string) returns (out: Outcome<DeployResult>)
      requires Valid() && current == Some(name)
      modifies this`healthy, env
      ensures out.Done? ==> out.value == DeployResult(name, Some(name), monitored) && Confirmed()
      ensures Faithful(old(env.script), out) && Keeps(old(env.script), env.script)
    {
      var verified := VerifyManifest(tools, FilesOf(releases[name].tree), releases[name].manifest);
      if verified.Raised? { return Raised(Rejected); }
      var restarted := RestartAndVerify();
      if !restarted.Done? { return restarted.PropagateFailure(); }
      return Done(DeployResult(name, Some(name), restarted.value));
    }

    method Rollback(release: Option<string>, idempotent: bool) returns (out: Outcome<DeployResult>)
      requires Valid()
      modifies this`current, this`healthy, env
      ensures Valid()
      ensures current == old(current)
              || (current.Some? && RollsTo(old(State()), release, current.value)
                  && Content(tools, State(), current.value).Some?)
      ensures out.Done? ==>
        && old(current).Some? && RollsTo(old(State()), release, out.value.release)
        && current == Some(out.value.release) && out.value.previous == old(current) && Confirmed()
        && (current == old(current) ==> idempotent)
      ensures old(current).None? || (release.Some? && release.value !in old(releases)) ==>
        out == Raised(Rejected) && unchanged(this) && unchanged(env)
      ensures out.Raised? && steadyDisk ==> current == old(current)
      ensures !idempotent && old(current.Some? && RollsTo(State(), release, current.value)) ==>
        out == Raised(Rejected) && current == old(current)
      ensures old(Possible(release, idempotent)) ==> Faithful(old(env.script), out)
      ensures Keeps(old(env.script), env.script)
    {
      var target := RollbackTarget(release);
      TargetIsUnique(State(), release);
      if target.Raised? { return Raised(Rejected); }
      var name := target.value;
      if current == Some(name) {
        if !idempotent { return Raised(Rejected); }
        out := Reconfirm(name);
        return;
      }
      var previous := current;
      var switched := SwitchTo(name);
      if !switched.Done? { return switched.PropagateFailure(); }
      return Done(DeployResult(name, previous, switched.value));
    }

    lemma TargetIsUnique(d: Disk, release: Option<string>)
      ensures forall m, n :: RollsTo(d, release, m) && RollsTo(d, release, n) ==> m == n
    {
      forall m, n | RollsTo(d, release, m) && RollsTo(d, release, n) ensures m == n {
        if m != n && release.None? {
          assert Newer(Row(d.releases[m].mtime, m), Row(d.releases[n].mtime, n));
          assert Newer(Row(d.releases[n].mtime, n), Row(d.releases[m].mtime, m));
          NewerTotal(Row(d.releases[m].mtime, m), Row(d.releases[n].mtime, n));
        }
      }
    }

    // ----- restoring from the durable store -------------------------------------------------------------

    /** The name a restore asks for, or `None` for the newest active release. */
    predicate WantsLatest(release: Option<string>) { release.None? || release.value == "" || release.value == "latest" }

    /** Fetches the bytes to restore.  `Rejected` covers every error: other exceptions are wrapped. */
    method FetchBackup(release: Option<string>) returns (out: Outcome<Bytes>)
      requires store.env == env
      modifies store`objects, env
      ensures out.Raised? ==> out.fault == Rejected
      ensures release.Some? && release.value != "" && release.value != "latest" ==>
        && store.objects == old(store.objects)
        && (out.Done? ==> Restorable(store.objects, release.value, out.value))
        && (store.enabled ==> forall u :: Restorable(store.objects, release.value, u) ==>
              Faithful(old(env.script), out) && (out.Done? ==> out.value == u))
      ensures out.Done? ==> exists r :: Restorable(old(store.objects), r, out.value)
      ensures release in {None, Some(""), Some("latest")} && out.Done?
              && old(store.Answerable(project)) && Reliable(old(env.script)) ==>
        var r := Answer(store.scheme, old(store.objects), project);
        r.Some? && Restorable(old(store.objects), r.value, out.value)
      ensures Keeps(old(env.script), env.script)
    {
      if !store.enabled { return Raised(Rejected); }
      var wanted := if release.Some? then release.value else "";
      if WantsLatest(release) {
        var latest := store.LatestRelease(project);
        if latest.Crashed? { return Crashed; }
        if latest.Raised? || latest.value.None? { return Raised(Rejected); }
        wanted := latest.value.value;
      }
      var archive := store.DownloadArchive(project, wanted);
      if archive.Crashed? { return Crashed; }
      if archive.Raised? || archive.value.Doc? { return Raised(Rejected); }   // a JSON document is not a ZIP file
      assert Restorable(old(store.objects), wanted, archive.value.bytes);
      return Done(archive.value.bytes);
    }

    ghost predicate Restorable(objs: Objects, r: string, upload: Bytes) {
      Durable(store.scheme, objs, project, r) && objs[RemoteState.Archive(project, r)] == Blob(upload)
    }

    /** The archive `u` is stored for the release `r`, and can be deployed as `name`. */
    ghost predicate CanRestore(r: string, u: Bytes, name: string)
      reads this, store
    {
      store.enabled && Restorable(store.objects, r, u) && |u| <= SizeLimit(true) && Feasible(Zip(u), name)
    }

    /** A restore of the release by its name fails only if the environment makes it fail. */
    ghost predicate Retrievable(r: string, op: Option<string>, stamp: string)
      reads this, store
    {
      r != "" && r != "latest" && exists u :: CanRestore(r, u, NewReleaseName(u, op, stamp))
    }

    method RestoreBackup(release: Option<string>, op: Option<string>, stamp: string, now: int)
      returns (out: Outcome<DeployResult>, fetched: Option<Bytes>)
      requires Valid() && Unused(op, stamp)
      modifies this`releases, this`staging, this`current, this`healthy, store`objects, store`ledger, env
      ensures out.Raised? ==> out.fault == Rejected
      ensures fetched.None? ==> !out.Done? && State() == old(State())
      ensures fetched.Some? ==>
        var name := NewReleaseName(fetched.value, op, stamp);
        && DeploymentLeaves(tools, old(State()), State(), name, Goal(Zip(fetched.value)), out.Done?)
        && (out.Raised? && steadyDisk ==> Undone(old(State()), State(), name))
      ensures fetched.Some? && release.Some? && release.value != "" && release.value != "latest" ==>
        old(Restorable(store.objects, release.value, fetched.value))
      ensures release in {None, Some(""), Some("latest")} && fetched.Some?
              && old(store.Answerable(project)) && Reliable(old(env.script)) ==>
        var r := Answer(store.scheme, old(store.objects), project);
        r.Some? && Restorable(old(store.objects), r.value, fetched.value)
      ensures out.Done? ==> Confirmed()
      ensures release.Some? && old(Retrievable(release.value, op, stamp)) ==> Faithful(old(env.script), out)
      ensures Keeps(old(env.script), env.script)
    {
      var bytes := FetchBackup(release);
      if !bytes.Done? { return bytes.PropagateFailure(), None; }
      fetched := Some(bytes.value);
      out := DeployZip(bytes.value, op, stamp, now, true);
      if out.Raised? { out := Raised(Rejected); }
    }

    /** An archive that holds a release manifest at its top is refused, so a release packed by the
        system itself cannot be restored by it. */
    lemma OwnBackupIsRefused(rel: Release, raw: seq<RawMember>, m: RawMember)
      requires unzip(pack(rel)) == Some(raw) && m in raw && Parse(unicode, m).target == Some(MANIFEST)
      ensures Goal(Zip(pack(rel))) == None
    {
    }
  }
}
