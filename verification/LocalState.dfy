/** The release directories of one project on the local disk, and the relations between disk
    states that the deployment manager's operations are proved to respect. */
module LocalState {
  import opened Prelude
  import opened Paths
  import opened Manifest

  /** A release or staging directory: its tree without the manifest, the manifest if there is a
      readable one, and its modification time. */
  datatype Release = Release(tree: Tree, manifest: Option<Manifest>, mtime: int)

  /** `releases/`, the `.staging-*` directories, and the target of the `current` link. */
  datatype Disk = Disk(releases: map<string, Release>, staging: map<string, Release>, current: Option<string>)

  /** What is left of a directory after some of its entries were written or deleted. */
  function Partial(rel: Release, kept: set<Path>): Release {
    Release(map p | p in rel.tree && p in kept :: rel.tree[p],
            if MANIFEST in kept then rel.manifest else None, rel.mtime)
  }

  ghost predicate Intact(tools: Tools, rel: Release)
    requires Sorts(tools)
  {
    Verifies(tools, FilesOf(rel.tree), rel.manifest)
  }

  /** Every file that is there is the one its manifest records. */
  ghost predicate Consistent(tools: Tools, rel: Release) {
    rel.manifest.Some? ==>
      forall p :: p in FilesOf(rel.tree) ==>
        p in rel.manifest.value.files && rel.manifest.value.files[p] == ItemOf(tools, FilesOf(rel.tree)[p])
  }

  lemma IntactIsConsistent(tools: Tools, rel: Release)
    requires Sorts(tools) && Intact(tools, rel)
    ensures Consistent(tools, rel)
  {
  }

  /** Losing files can make a release unusable, but never turns it into a different one. */
  lemma PartialNeverDeceives(tools: Tools, rel: Release, kept: set<Path>)
    requires Sorts(tools) && Consistent(tools, rel)
    ensures Consistent(tools, Partial(rel, kept))
    ensures Intact(tools, Partial(rel, kept)) ==>
      Intact(tools, rel) && FilesOf(Partial(rel, kept).tree) == FilesOf(rel.tree)
  {
    var part := Partial(rel, kept);
    assert forall p :: p in FilesOf(part.tree) ==>
      p in FilesOf(rel.tree) && FilesOf(part.tree)[p] == FilesOf(rel.tree)[p];
    if Intact(tools, part) {
      assert rel.manifest == part.manifest;
      assert forall p :: p in FilesOf(rel.tree) ==> p in part.manifest.value.files;
      assert FilesOf(part.tree) == FilesOf(rel.tree);
    }
  }

  /** The disk as its users see it: which release directories exist, which of them pass verification
      and with what files, and which one is current. */
  datatype View = View(names: set<string>, usable: map<string, Files>, current: Option<string>)

  ghost function ViewOf(tools: Tools, d: Disk): View
    requires Sorts(tools)
  {
    View(d.releases.Keys,
         map n | n in d.releases && Intact(tools, d.releases[n]) :: FilesOf(d.releases[n].tree),
         d.current)
  }

  /** The files of a release that exists and passes verification. */
  ghost function Content(tools: Tools, d: Disk, name: string): Option<Files>
    requires Sorts(tools)
  {
    FilesAt(ViewOf(tools, d), name)
  }

  ghost function FilesAt(v: View, name: string): Option<Files> {
    if name in v.usable then Some(v.usable[name]) else None
  }

  ghost predicate WellKept(tools: Tools, d: Disk) {
    forall n :: n in d.releases ==> Consistent(tools, d.releases[n])
  }

  ghost predicate CurrentUsable(v: View) { v.current.Some? ==> v.current.value in v.usable }

  /** `current` is absent or names an existing, complete release whose manifest verifies. */
  ghost predicate Sound(tools: Tools, d: Disk)
    requires Sorts(tools)
  {
    WellKept(tools, d) && CurrentUsable(ViewOf(tools, d))
  }

  /** `n` holds what it held before, or is no longer a usable release. */
  ghost predicate KeptOrLost(v: View, v': View, n: string) {
    n in v'.usable ==> n in v.usable && v'.usable[n] == v.usable[n]
  }

  /** The two views differ in release `r` at most. */
  ghost predicate OnlyAt(v: View, v': View, r: string) {
    && v'.current == v.current
    && (forall n :: n != r ==> (n in v'.names <==> n in v.names) && (n in v'.usable <==> n in v.usable))
    && (forall n :: n in v.usable && n != r ==> v'.usable[n] == v.usable[n])
  }

  /** Building or removing release `r`: nothing else changes. */
  ghost predicate Builds(v: View, v': View, r: string, goal: Option<Files>) {
    && OnlyAt(v, v', r)
    && (KeptOrLost(v, v', r) || FilesAt(v', r) == goal)
    && (goal.None? ==> r in v'.names ==> r in v.names)
  }

  /** No other release directory changes in any way. */
  ghost predicate Besides(d: Disk, d': Disk, r: string) {
    forall n :: n != r ==>
      (n in d'.releases <==> n in d.releases) && (n in d.releases ==> d'.releases[n] == d.releases[n])
  }

  ghost predicate Preparing(tools: Tools, d: Disk, d': Disk, r: string, goal: Option<Files>)
    requires Sorts(tools)
  {
    WellKept(tools, d') && Besides(d, d', r) && Builds(ViewOf(tools, d), ViewOf(tools, d'), r, goal)
  }

  /** The releases that retention never removes: the new one and the one before it. */
  function Shielded(r: string, previous: Option<string>): set<string> {
    {r} + if previous.Some? then {previous.value} else {}
  }

  /** Removing releases other than those in `protect`. */
  ghost predicate Thins(v: View, v': View, protect: set<string>) {
    && v'.current == v.current && v'.names <= v.names
    && (forall n :: n in protect && n in v.usable ==> n in v'.usable)
    && (forall n :: n in v'.usable ==> n in v.usable && v'.usable[n] == v.usable[n])
  }

  ghost predicate Thinning(tools: Tools, d: Disk, d': Disk, protect: set<string>)
    requires Sorts(tools)
  {
    && (forall n :: n in protect && n in d.releases ==> n in d'.releases && d'.releases[n] == d.releases[n])
    && WellKept(tools, d') && Thins(ViewOf(tools, d), ViewOf(tools, d'), protect)
  }

  /** What one attempt to make `r` the current release, with files `goal`, may leave behind,
      wherever it stopped. */
  ghost predicate Attempts(v: View, v': View, r: string, goal: Option<Files>) {
    && CurrentUsable(v')
    && (forall n :: n in v'.names ==> n in v.names || (n == r && goal.Some?))
    && (v'.current == v.current || v'.current == Some(r))
    && (forall n :: n in v'.usable && n != r ==> n in v.usable && v'.usable[n] == v.usable[n])
    && (KeptOrLost(v, v', r) || FilesAt(v', r) == goal)
    && (v.current.Some? ==> FilesAt(v', v.current.value) == FilesAt(v, v.current.value))
    && (v'.current == Some(r) && v.current != Some(r) ==> FilesAt(v', r) == goal)
  }

  /** The directory of the current release is as it was, unless that release is `r` itself. */
  ghost predicate CurrentKept(d: Disk, d': Disk, r: string) {
    d.current.Some? && d.current.value in d.releases && d.current != Some(r) ==>
      d.current.value in d'.releases && d'.releases[d.current.value] == d.releases[d.current.value]
  }

  ghost predicate AttemptLeaves(tools: Tools, d: Disk, d': Disk, r: string, goal: Option<Files>)
    requires Sorts(tools)
  {
    WellKept(tools, d') && CurrentKept(d, d', r) && Attempts(ViewOf(tools, d), ViewOf(tools, d'), r, goal)
  }

  ghost predicate SameDisk(d: Disk, d': Disk) { d'.releases == d.releases && d'.current == d.current }

  /** One execution of a deployment under a name of its own, complete (`done`) or stopped anywhere:
      nothing is rebuilt once the name is current. */
  ghost predicate DeploymentLeaves(tools: Tools, d: Disk, d': Disk, r: string, goal: Option<Files>, done: bool)
    requires Sorts(tools)
  {
    && AttemptLeaves(tools, d, d', r, goal)
    && (done ==> d'.current == Some(r) && (d.current != Some(r) ==> goal.Some?))
    && (d.current == Some(r) ==> SameDisk(d, d'))
  }

  // ----- from effects to views ----------------------------------------------------------------------

  lemma StagingDoesNotMatter(tools: Tools, d: Disk, mid: Disk, d': Disk, name: string)
    requires Sorts(tools) && SameDisk(d, mid) && Preparing(tools, mid, d', name, None)
    ensures Preparing(tools, d, d', name, None)
  {
  }

  lemma SameReleases(tools: Tools, d: Disk, d': Disk)
    requires Sorts(tools) && d'.releases == d.releases
    ensures ViewOf(tools, d') == ViewOf(tools, d).(current := d'.current)
    ensures WellKept(tools, d) ==> WellKept(tools, d')
  {
  }

  lemma StillKept(tools: Tools, d: Disk, d': Disk)
    requires d'.releases == d.releases && WellKept(tools, d)
    ensures WellKept(tools, d')
  {
  }

  lemma OthersUntouched(tools: Tools, d: Disk, d': Disk, r: string)
    requires Sorts(tools) && d'.releases - {r} == d.releases - {r} && d'.current == d.current
    ensures Besides(d, d', r) && OnlyAt(ViewOf(tools, d), ViewOf(tools, d'), r)
  {
    forall n | n != r
      ensures n in d'.releases <==> n in d.releases
      ensures n in d.releases ==> d'.releases[n] == d.releases[n]
    {
      assert n in d'.releases <==> n in d'.releases - {r};
      assert n in d.releases <==> n in d.releases - {r};
      if n in d.releases {
        assert d'.releases[n] == (d'.releases - {r})[n] == (d.releases - {r})[n] == d.releases[n];
      }
    }
  }

  /** A release directory appearing under its final name, with its manifest, in one step. */
  lemma MovedInto(tools: Tools, d: Disk, d': Disk, r: string, final: Release)
    requires Sorts(tools) && WellKept(tools, d) && Intact(tools, final)
    requires d'.current == d.current && (d'.releases == d.releases || d'.releases == d.releases[r := final])
    ensures Preparing(tools, d, d', r, Some(FilesOf(final.tree)))
    ensures d'.releases == d.releases[r := final] ==> Content(tools, d', r) == Some(FilesOf(final.tree))
  {
    if d'.releases == d.releases {
      NothingMoved(tools, d, d', r, Some(FilesOf(final.tree)));
    }
    if d'.releases == d.releases[r := final] { Replaced(tools, d, d', r, final); }
  }

  lemma Replaced(tools: Tools, d: Disk, d': Disk, r: string, final: Release)
    requires Sorts(tools) && WellKept(tools, d) && Intact(tools, final)
    requires d'.current == d.current && d'.releases == d.releases[r := final]
    ensures Preparing(tools, d, d', r, Some(FilesOf(final.tree)))
    ensures Content(tools, d', r) == Some(FilesOf(final.tree))
  {
    IntactIsConsistent(tools, final);
    assert WellKept(tools, d');
    assert d'.releases - {r} == d.releases - {r};
    OthersUntouched(tools, d, d', r);
    assert Content(tools, d', r) == Some(FilesOf(final.tree));
  }

  lemma NothingThinned(tools: Tools, d: Disk, protect: set<string>)
    requires Sorts(tools) && WellKept(tools, d)
    ensures Thinning(tools, d, d, protect)
  {
  }

  lemma NothingMoved(tools: Tools, d: Disk, d': Disk, r: string, goal: Option<Files>)
    requires Sorts(tools) && WellKept(tools, d) && d'.current == d.current && d'.releases == d.releases
    ensures Preparing(tools, d, d', r, goal)
  {
  }

  /** Deleting a release directory, completely or in part. */
  lemma RemovalPrepares(tools: Tools, d: Disk, d': Disk, r: string, goal: Option<Files>)
    requires Sorts(tools) && WellKept(tools, d') && d'.current == d.current
    requires d'.releases - {r} == d.releases - {r} && d'.releases.Keys <= d.releases.Keys
    requires r in d'.releases && Intact(tools, d'.releases[r]) ==>
               Intact(tools, d.releases[r]) && FilesOf(d'.releases[r].tree) == FilesOf(d.releases[r].tree)
    ensures Preparing(tools, d, d', r, goal)
  {
    OthersUntouched(tools, d, d', r);
  }

  /** Whatever the deployment is going to build, clearing its name first is part of building it. */
  lemma RemovalIsPreparing(tools: Tools, d: Disk, d': Disk, r: string, goal: Option<Files>)
    requires Sorts(tools) && Preparing(tools, d, d', r, None)
    ensures Preparing(tools, d, d', r, goal)
  {
  }

  // ----- how the phases of an attempt combine -----------------------------------------------------------

  lemma BuiltThenStopped(v: View, v': View, r: string, goal: Option<Files>)
    requires CurrentUsable(v) && v.current != Some(r) && Builds(v, v', r, goal)
    ensures Attempts(v, v', r, goal)
  {
  }

  lemma PreparedThenStopped(tools: Tools, d: Disk, d': Disk, r: string, goal: Option<Files>)
    requires Sorts(tools) && Sound(tools, d) && d.current != Some(r) && Preparing(tools, d, d', r, goal)
    ensures AttemptLeaves(tools, d, d', r, goal)
  {
    BuiltThenStopped(ViewOf(tools, d), ViewOf(tools, d'), r, goal);
  }

  ghost predicate Switches(v: View, v': View, r: string) {
    v' == v.(current := v'.current) && (v'.current == v.current || v'.current == Some(r))
  }

  lemma BuiltThenSwitched(v: View, w: View, x: View, v': View, r: string, goal: Option<Files>)
    requires CurrentUsable(v) && v.current != Some(r) && goal.Some?
    requires Builds(v, w, r, goal) && FilesAt(w, r) == goal && Switches(w, x, r)
    requires Thins(x, v', Shielded(r, v.current))
    ensures Attempts(v, v', r, goal)
  {
  }

  /** After preparing `r`, activating it or going back, and thinning out the rest. */
  lemma PreparedThenSwitched(tools: Tools, d: Disk, e: Disk, f: Disk, d': Disk, r: string, goal: Option<Files>)
    requires Sorts(tools) && Sound(tools, d) && d.current != Some(r)
    requires Preparing(tools, d, e, r, goal) && goal.Some? && Content(tools, e, r) == goal
    requires f.releases == e.releases && (f.current == e.current || f.current == Some(r))
    requires Thinning(tools, f, d', Shielded(r, d.current))
    ensures AttemptLeaves(tools, d, d', r, goal)
  {
    SameReleases(tools, e, f);
    BuiltThenSwitched(ViewOf(tools, d), ViewOf(tools, e), ViewOf(tools, f), ViewOf(tools, d'), r, goal);
  }

  lemma ThinOneMore(tools: Tools, a: Disk, b: Disk, c: Disk, protect: set<string>, n: string)
    requires Sorts(tools) && Thinning(tools, a, b, protect) && n !in protect && Preparing(tools, b, c, n, None)
    ensures Thinning(tools, a, c, protect)
  {
  }

  lemma BuiltThenAttempted(v: View, w: View, v': View, r: string, goal: Option<Files>)
    requires CurrentUsable(v) && v.current != Some(r) && Builds(v, w, r, goal) && Attempts(w, v', r, goal)
    ensures Attempts(v, v', r, goal)
  {
  }

  lemma PrepareThenAttempt(tools: Tools, d: Disk, e: Disk, d': Disk, r: string, goal: Option<Files>)
    requires Sorts(tools) && Sound(tools, d) && d.current != Some(r)
    requires Preparing(tools, d, e, r, goal) && AttemptLeaves(tools, e, d', r, goal)
    ensures AttemptLeaves(tools, d, d', r, goal)
  {
    BuiltThenAttempted(ViewOf(tools, d), ViewOf(tools, e), ViewOf(tools, d'), r, goal);
  }

  lemma AttemptedThenRemoved(v: View, w: View, v': View, r: string, goal: Option<Files>)
    requires v.current != Some(r) && w.current != Some(r)
    requires Attempts(v, w, r, goal) && Builds(w, v', r, None)
    ensures Attempts(v, v', r, goal)
  {
  }

  /** Removing the failed release again. */
  lemma AttemptThenRemove(tools: Tools, d: Disk, e: Disk, d': Disk, r: string, goal: Option<Files>)
    requires Sorts(tools) && d.current != Some(r) && e.current != Some(r)
    requires AttemptLeaves(tools, d, e, r, goal) && Preparing(tools, e, d', r, None)
    ensures AttemptLeaves(tools, d, d', r, goal)
  {
    AttemptedThenRemoved(ViewOf(tools, d), ViewOf(tools, e), ViewOf(tools, d'), r, goal);
  }

  lemma NothingDone(tools: Tools, d: Disk, d': Disk, r: string, goal: Option<Files>)
    requires Sorts(tools) && Sound(tools, d) && d'.current == d.current && d'.releases == d.releases
    ensures AttemptLeaves(tools, d, d', r, goal)
  {
    SameReleases(tools, d, d');
    NoChange(ViewOf(tools, d), r, goal);
  }

  lemma NoChange(v: View, r: string, goal: Option<Files>)
    requires CurrentUsable(v)
    ensures Attempts(v, v, r, goal)
  {
  }

  lemma AttemptIgnoresStaging(tools: Tools, d: Disk, e: Disk, d': Disk, r: string, goal: Option<Files>)
    requires Sorts(tools) && AttemptLeaves(tools, d, e, r, goal)
    requires d'.current == e.current && d'.releases == e.releases
    ensures AttemptLeaves(tools, d, d', r, goal)
  {
  }
}
