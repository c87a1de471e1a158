/** What the two-phase protocol of the durable store guarantees over whole runs. */
module RemoteLaws {
  import opened Prelude
  import opened Chronology
  import opened RemoteState

  // ----- everything listed as active can be restored, after every single write or delete ------

  lemma DeletionKeepsCoherent(s: Scheme, before: Objects, after: Objects)
    requires Coherent(s, before) && MarkerFirst(before, after)
    ensures Coherent(s, after)
  {
  }

  lemma BackupKeepsCoherent(s: Scheme, before: Objects, after: Objects, p: string, r: string, archive: Object)
    requires Coherent(s, before) && Marker(p, r) !in before
    requires BackupLeaves(s, before, after, p, r, archive, true)
    ensures Coherent(s, after)
  {
  }

  lemma PromotionKeepsCoherent(s: Scheme, before: Objects, p: string, r: string, now: int, n: nat)
    requires Coherent(s, before) && Backed(s, before, p, r) && SafeProject(p) && SafeRelease(r) && n <= 3
    ensures Coherent(s, Promotion(s, before, p, r, now, n))
    ensures n >= 2 ==> Durable(s, Promotion(s, before, p, r, now, n), p, r)
  {
  }

  /** Every candidate that could be promoted has its archive. */
  ghost predicate Whole(s: Scheme, objs: Objects) {
    forall p, r :: Promotable(s, objs, p, r) ==> Backed(s, objs, p, r)
  }

  /** What every call maintains. */
  ghost predicate WellStocked(s: Scheme, objs: Objects) { Coherent(s, objs) && Whole(s, objs) }

  /** One call on the store, run to its end or cut short anywhere, when deletes do not fail. */
  datatype Call =
    | Backup(project: string, release: string, archive: Object)
    | Promote(project: string, release: string, now: int)
    | Abandon(project: string, release: string)
    | Prune(project: string)
    | Repair(project: string)

  /** A backup reuses neither the name of an active release nor, if it is cut short between its two
      writes, that of a candidate. */
  ghost predicate CallLeaves(s: Scheme, keep: nat, before: Objects, after: Objects, call: Call) {
    match call
    case Backup(p, r, archive) =>
      && Marker(p, r) !in before && BackupLeaves(s, before, after, p, r, archive, true)
      && (Meta(p, r) in before ==> !CutShort(s, before, after, p, r, archive))
    case Promote(p, r, now) =>
      && SafeProject(p) && SafeRelease(r)
      && (|| PromotionLeaves(s, before, after, p, r, now)
          || (Promotable(s, before, p, r) && Retiring(Promotion(s, before, p, r, now, 3), after, p, keep, true)))
    case Abandon(p, r) => Erasing(before, after, p, r, true)
    case Prune(p) => Retiring(before, after, p, keep, true)
    case Repair(p) =>
      forall k :: k != Latest(p) ==> (k in before <==> k in after) && (k in before ==> before[k] == after[k])
  }

  /** The new archive is beside the old metadata. */
  ghost predicate CutShort(s: Scheme, before: Objects, after: Objects, p: string, r: string, archive: Object) {
    && Erasing(WithArchive(before, p, r, archive), after, p, r, true) && Meta(p, r) in after
    && !Erasing(before, after, p, r, true) && !Erasing(BackedUp(s, before, p, r, archive), after, p, r, true)
  }

  /** Any state of the promotion of a complete candidate, up to the end of retention. */
  lemma PromotedKeepsCoherent(s: Scheme, keep: nat, before: Objects, after: Objects, p: string, r: string, now: int)
    requires Coherent(s, before) && Backed(s, before, p, r) && SafeProject(p) && SafeRelease(r)
    requires PromotionLeaves(s, before, after, p, r, now)
             || Retiring(Promotion(s, before, p, r, now, 3), after, p, keep, true)
    ensures Coherent(s, after)
  {
    PromotionKeepsCoherent(s, before, p, r, now, 1);
    PromotionKeepsCoherent(s, before, p, r, now, 2);
    var done := Promotion(s, before, p, r, now, 3);
    PromotionKeepsCoherent(s, before, p, r, now, 3);
    if MarkerFirst(done, after) { DeletionKeepsCoherent(s, done, after); }
  }

  lemma DeletionKeepsWhole(s: Scheme, before: Objects, after: Objects)
    requires Whole(s, before) && Submap(after, before) && ArchiveLast(before, after)
    ensures Whole(s, after)
  {
    forall p, r | Promotable(s, after, p, r) ensures Backed(s, after, p, r) {
      assert Promotable(s, before, p, r);
    }
  }

  lemma BackupKeepsWhole(s: Scheme, before: Objects, after: Objects, p: string, r: string, archive: Object)
    requires Whole(s, before) && BackupLeaves(s, before, after, p, r, archive, true)
    requires Meta(p, r) in before ==> !CutShort(s, before, after, p, r, archive)
    ensures Whole(s, after)
  {
    var backed := BackedUp(s, before, p, r, archive);
    forall p', r' | Promotable(s, backed, p', r') ensures Backed(s, backed, p', r') {
      if (p', r') != (p, r) { assert Promotable(s, before, p', r'); }
    }
    if Erasing(before, after, p, r, true) {
      DeletionKeepsWhole(s, before, after);
    } else if Erasing(backed, after, p, r, true) {
      DeletionKeepsWhole(s, backed, after);
    } else {
      WholeWithoutMeta(s, before, after, p, r, archive);
    }
  }

  lemma WholeWithoutMeta(s: Scheme, before: Objects, after: Objects, p: string, r: string, archive: Object)
    requires Whole(s, before) && Erasing(WithArchive(before, p, r, archive), after, p, r, true) && Meta(p, r) !in after
    ensures Whole(s, after)
  {
    forall p', r' | Promotable(s, after, p', r') ensures Backed(s, after, p', r') {
      assert Promotable(s, before, p', r');
    }
  }

  lemma PromotionKeepsWhole(s: Scheme, before: Objects, p: string, r: string, now: int, n: nat)
    requires Whole(s, before) && Promotable(s, before, p, r) && n <= 3
    ensures Whole(s, Promotion(s, before, p, r, now, n))
  {
    var after := Promotion(s, before, p, r, now, n);
    forall p', r' | Promotable(s, after, p', r') ensures Backed(s, after, p', r') {
      assert Promotable(s, before, p', r');
    }
  }

  lemma CallKeepsWhole(s: Scheme, keep: nat, before: Objects, after: Objects, call: Call)
    requires Whole(s, before) && CallLeaves(s, keep, before, after, call)
    ensures Whole(s, after)
  {
    match call
    case Backup(p, r, archive) => BackupKeepsWhole(s, before, after, p, r, archive);
    case Promote(p, r, now) =>
      if Promotable(s, before, p, r) {
        PromotionKeepsWhole(s, before, p, r, now, 1);
        PromotionKeepsWhole(s, before, p, r, now, 2);
        PromotionKeepsWhole(s, before, p, r, now, 3);
        var done := Promotion(s, before, p, r, now, 3);
        if Retiring(done, after, p, keep, true) { DeletionKeepsWhole(s, done, after); }
      }
    case Abandon(p, r) => DeletionKeepsWhole(s, before, after);
    case Prune(p) => DeletionKeepsWhole(s, before, after);
    case Repair(p) =>
      forall p', r' | Promotable(s, after, p', r') ensures Backed(s, after, p', r') {
        assert Promotable(s, before, p', r');
      }
  }

  lemma CallKeepsWellStocked(s: Scheme, keep: nat, before: Objects, after: Objects, call: Call)
    requires WellStocked(s, before) && CallLeaves(s, keep, before, after, call)
    ensures WellStocked(s, after)
  {
    CallKeepsWhole(s, keep, before, after, call);
    match call
    case Backup(p, r, archive) => BackupKeepsCoherent(s, before, after, p, r, archive);
    case Promote(p, r, now) =>
      if Promotable(s, before, p, r) { PromotedKeepsCoherent(s, keep, before, after, p, r, now); }
    case Abandon(p, r) => DeletionKeepsCoherent(s, before, after);
    case Prune(p) => DeletionKeepsCoherent(s, before, after);
    case Repair(p) =>
      forall p', r' | Marker(p', r') in after ensures Durable(s, after, p', r') {
        assert Durable(s, before, p', r');
      }
  }

  /** Over any run of calls, each complete or cut short, every release with an activation marker
      can be downloaded in every state, and every candidate has its archive. */
  lemma ActiveMeansRestorable(s: Scheme, keep: nat, states: seq<Objects>, calls: seq<Call>, n: nat)
    requires |states| == |calls| + 1 && WellStocked(s, states[0]) && n <= |calls|
    requires forall i {:trigger calls[i]} :: 0 <= i < |calls| ==>
               CallLeaves(s, keep, states[i], states[i + 1], calls[i])
    ensures forall p, r :: Marker(p, r) in states[n] ==> Durable(s, states[n], p, r)
    ensures forall p, r :: Promotable(s, states[n], p, r) ==> Backed(s, states[n], p, r)
  {
    var step := (x, call, y) => CallLeaves(s, keep, x, y, call);
    var inv := x => WellStocked(s, x);
    forall x, call, y | inv(x) && step(x, call, y) ensures inv(y) { CallKeepsWellStocked(s, keep, x, y, call); }
    RunKeeps(step, inv, states, calls, n);
  }

  /** Why a backup must not stop between its writes under the name of a candidate: the store stays whole
      exactly if the new archive is one that the old metadata describes, or there was no candidate. */
  lemma TornBackup(s: Scheme, before: Objects, p: string, r: string, archive: Object)
    requires Whole(s, before)
    ensures Whole(s, WithArchive(before, p, r, archive)) <==>
            (Promotable(s, before, p, r) ==>
               && s.hash(archive) == before[Meta(p, r)].payload.sha256
               && Some(s.size(archive) as int) == before[Meta(p, r)].payload.size)
  {
    var after := WithArchive(before, p, r, archive);
    forall p', r' | Promotable(s, after, p', r') && (p', r') != (p, r) ensures Backed(s, after, p', r') {
      assert Promotable(s, before, p', r');
    }
    assert Promotable(s, after, p, r) == Promotable(s, before, p, r);
  }

  /** Why the name must be fresh: backing up a release that is already active leaves a marker
      beside candidate metadata.  The protocol survives exactly when there is no marker. */
  lemma BackupNeedsFreshName(s: Scheme, before: Objects, p: string, r: string, archive: Object)
    requires Coherent(s, before)
    ensures Coherent(s, BackedUp(s, before, p, r, archive)) <==> Marker(p, r) !in before
  {
  }

  /** Why deletes must not fail: losing part of a release keeps the store restorable exactly when
      the marker is gone or metadata and archive both stayed. */
  lemma LostKeysMatter(s: Scheme, before: Objects, lost: set<Key>, p: string, r: string)
    requires Coherent(s, before) && lost <= KeysOf(p, r)
    ensures Coherent(s, before - lost) <==>
            Marker(p, r) !in before - lost || (Meta(p, r) !in lost && Archive(p, r) !in lost)
  {
  }

  // ----- a failed commit is invisible ----------------------------------------------------------

  lemma SameMarkers(a: Objects, b: Objects, p: string)
    requires forall r :: (Marker(p, r) in a <==> Marker(p, r) in b)
    requires forall r :: Marker(p, r) in a ==> a[Marker(p, r)] == b[Marker(p, r)]
    ensures ActiveRows(a, p) == ActiveRows(b, p)
  {
  }

  /** The two states agree on one key. */
  predicate SameAt(a: Objects, b: Objects, k: Key) { (k in a <==> k in b) && (k in a ==> a[k] == b[k]) }

  /** A promotion stopped at any write and then abandoned. */
  ghost predicate Withdrawn(s: Scheme, before: Objects, after: Objects, p: string, r: string, now: int) {
    exists middle :: PromotionLeaves(s, before, middle, p, r, now) && after == middle - KeysOf(p, r)
  }

  /** The newest active release is never affected by a withdrawn commit.  If the pointer was not
      reached, `latest_release` answers as before; if it was overwritten, it answers as before
      exactly when its answer had been the newest active release. */
  lemma FailedCommitInvisible(s: Scheme, before: Objects, middle: Objects, p: string, r: string, now: int)
    requires Marker(p, r) !in before && PromotionLeaves(s, before, middle, p, r, now)
    ensures var after := middle - KeysOf(p, r);
      && NewestActive(after, p) == NewestActive(before, p)
      && (SameAt(before, middle, Latest(p)) ==> Answer(s, after, p) == Answer(s, before, p))
      && (Promotable(s, before, p, r) && middle == Promotion(s, before, p, r, now, 3) ==>
            (Answer(s, after, p) == Answer(s, before, p) <==> Answer(s, before, p) == NewestActive(before, p)))
  {
    SameMarkers(middle - KeysOf(p, r), before, p);
  }

  /** The release most recently committed by a run of attempts, or what was there before. */
  datatype Attempt = Attempt(release: string, archive: Object, now: int, committed: bool)

  function LastCommitted(attempts: seq<Attempt>, initial: Option<string>): Option<string> {
    if attempts == [] then initial
    else if attempts[|attempts| - 1].committed then Some(attempts[|attempts| - 1].release)
    else LastCommitted(attempts[..|attempts| - 1], initial)
  }

  /** One complete attempt to publish a fresh release: backup, and then either a promotion that
      returned normally or a failure at any point followed by abandonment. */
  ghost predicate Attempted(s: Scheme, keep: nat, before: Objects, after: Objects, p: string, a: Attempt) {
    var backed := BackedUp(s, before, p, a.release, a.archive);
    && SafeProject(p) && SafeRelease(a.release) && Marker(p, a.release) !in before
    && if a.committed then Retiring(Promotion(s, backed, p, a.release, a.now, 3), after, p, keep, true)
       else || Withdrawn(s, backed, after, p, a.release, a.now)
            || (BackupLeaves(s, before, after, p, a.release, a.archive, true) && after.Keys !! KeysOf(p, a.release))
  }

  /** What every complete attempt maintains. */
  ghost predicate Orderly(s: Scheme, objs: Objects, p: string) {
    Coherent(s, objs) && PointerSound(s, objs, p) && PointerCurrent(s, objs, p)
  }

  lemma NewestIs(objs: Objects, p: string, row: Row)
    requires row in ActiveRows(objs, p)
    requires forall x :: x in ActiveRows(objs, p) && x != row ==> Newer(row, x)
    ensures NewestActive(objs, p) == Some(row.name)
  {
    var all := Listing(ActiveRows(objs, p));
    assert row in all;
    if all[0] != row {
      var i :| 0 <= i < |all| && all[i] == row;
      assert all[0] in all;
      NewerTotal(all[0], row);
    }
  }

  /** A committed release becomes the answer, and retention does not take it away again. */
  lemma CommitBecomesAnswer(s: Scheme, keep: nat, before: Objects, after: Objects, p: string, r: string, now: int)
    requires Coherent(s, before) && Backed(s, before, p, r) && SafeProject(p) && SafeRelease(r)
    requires keep >= 1 && LaterThanAll(before, p, now)
    requires Retiring(Promotion(s, before, p, r, now, 3), after, p, keep, true)
    ensures Committed(s, after, p, r, now) && Orderly(s, after, p) && Answer(s, after, p) == Some(r)
    ensures forall row :: row in ActiveRows(after, p) ==> row.time <= now
  {
    var done := Promotion(s, before, p, r, now, 3);
    PromotionKeepsCoherent(s, before, p, r, now, 3);
    DeletionKeepsCoherent(s, done, after);
    var row := Row(now, r);
    RowsAfterPromotion(s, before, p, r, now);
    forall k | k in done && (k.Latest? || k.release == r) ensures k in after {
      if k !in after {
        var t :| Row(t, k.release) in ActiveRows(done, p) && Surplus(ActiveRows(done, p), Row(t, k.release), keep);
        ActiveRow(done, p, Row(t, r));
        assert t == now;
        var newer :| Outranked(ActiveRows(done, p), row, keep, newer);
        assert newer[0] in newer;
        NewerTotal(newer[0], row);
      }
    }
    assert Durable(s, after, p, r) by { assert Marker(p, r) in after; }
    forall x | x in ActiveRows(after, p) ensures x in ActiveRows(done, p) {
      ActiveRow(after, p, x);
      ActiveRow(done, p, x);
    }
    ActiveRow(after, p, row);
    NewestIs(after, p, row);
  }

  lemma RowsAfterPromotion(s: Scheme, before: Objects, p: string, r: string, now: int)
    requires Promotable(s, before, p, r) && SafeRelease(r) && LaterThanAll(before, p, now)
    ensures var rows := ActiveRows(Promotion(s, before, p, r, now, 3), p);
      && Row(now, r) in rows
      && forall x :: x in rows && x != Row(now, r) ==> Newer(Row(now, r), x)
  {
  }

  /** The two states agree except on the keys of `r`, none of which is left afterwards, and on the
      pointer, which may have been turned to `r`. */
  ghost predicate LeavesNoTrace(s: Scheme, before: Objects, after: Objects, p: string, r: string) {
    && Marker(p, r) !in before && after.Keys !! KeysOf(p, r)
    && (forall k :: k !in KeysOf(p, r) && k != Latest(p) ==>
          (k in before <==> k in after) && (k in before ==> before[k] == after[k]))
    && (|| SameAt(before, after, Latest(p))
        || (Latest(p) in after && Genuine(s, after[Latest(p)]) && Identifies(after[Latest(p)].payload, p, r)))
  }

  lemma NoTraceKeepsCoherent(s: Scheme, before: Objects, after: Objects, p: string, r: string)
    requires Coherent(s, before) && LeavesNoTrace(s, before, after, p, r)
    ensures Coherent(s, after)
    ensures forall n :: Marker(p, n) in after <==> Marker(p, n) in before
    ensures forall n :: Marker(p, n) in after ==> after[Marker(p, n)] == before[Marker(p, n)]
  {
  }

  lemma NoTraceKeepsOrder(s: Scheme, before: Objects, after: Objects, p: string, r: string)
    requires Orderly(s, before, p) && SafeRelease(r) && LeavesNoTrace(s, before, after, p, r)
    ensures Orderly(s, after, p) && Answer(s, after, p) == Answer(s, before, p)
    ensures ActiveRows(after, p) == ActiveRows(before, p)
  {
    NoTraceKeepsCoherent(s, before, after, p, r);
    SameMarkers(after, before, p);
    assert Marker(p, r) !in after;
  }

  lemma WithdrawnLeavesNoTrace(s: Scheme, before: Objects, middle: Objects, p: string, a: Attempt)
    requires Marker(p, a.release) !in before
    requires PromotionLeaves(s, BackedUp(s, before, p, a.release, a.archive), middle, p, a.release, a.now)
    ensures LeavesNoTrace(s, before, middle - KeysOf(p, a.release), p, a.release)
  {
  }

  lemma EraseLeavesNoTrace(s: Scheme, before: Objects, middle: Objects, after: Objects, p: string, r: string)
    requires Marker(p, r) !in before && after.Keys !! KeysOf(p, r) && OnlyLoses(middle, after, p, r)
    requires forall k :: k !in KeysOf(p, r) ==>
               (k in before <==> k in middle) && (k in before ==> before[k] == middle[k])
    ensures LeavesNoTrace(s, before, after, p, r)
  {
  }

  lemma FailureLeavesNoTrace(s: Scheme, keep: nat, before: Objects, after: Objects, p: string, a: Attempt)
    requires Attempted(s, keep, before, after, p, a) && !a.committed
    ensures LeavesNoTrace(s, before, after, p, a.release)
  {
    var r := a.release;
    var one, two := WithArchive(before, p, r, a.archive), BackedUp(s, before, p, r, a.archive);
    if Withdrawn(s, two, after, p, r, a.now) {
      var middle :| PromotionLeaves(s, two, middle, p, r, a.now) && after == middle - KeysOf(p, r);
      WithdrawnLeavesNoTrace(s, before, middle, p, a);
    } else if OnlyLoses(before, after, p, r) {
      EraseLeavesNoTrace(s, before, before, after, p, r);
    } else if OnlyLoses(one, after, p, r) {
      EraseLeavesNoTrace(s, before, one, after, p, r);
    } else {
      EraseLeavesNoTrace(s, before, two, after, p, r);
    }
  }

  /** A completed attempt leaves marker, metadata, pointer and archive in agreement on the release. */
  lemma AttemptCommits(s: Scheme, keep: nat, before: Objects, after: Objects, p: string, a: Attempt)
    requires keep >= 1 && Coherent(s, before) && LaterThanAll(before, p, a.now)
    requires Attempted(s, keep, before, after, p, a) && a.committed
    ensures Committed(s, after, p, a.release, a.now) && Answer(s, after, p) == Some(a.release) && Orderly(s, after, p)
    ensures NotAfter(after, p, a.now)
    ensures var marker, metadata := after[Marker(p, a.release)].payload, after[Meta(p, a.release)].payload;
      && after[Latest(p)] == after[Marker(p, a.release)] && after[Archive(p, a.release)] == a.archive
      && marker.release == metadata.release == a.release && marker.sha256 == metadata.sha256 == s.hash(a.archive)
      && marker.activatedAt == metadata.activatedAt == Some(a.now) && metadata.phase == Some(Active)
  {
    var backed := BackedUp(s, before, p, a.release, a.archive);
    SameMarkers(backed, before, p);
    BackupNeedsFreshName(s, before, p, a.release, a.archive);
    CommitBecomesAnswer(s, keep, backed, after, p, a.release, a.now);
  }

  lemma AttemptKeepsOrder(s: Scheme, keep: nat, before: Objects, after: Objects, p: string, a: Attempt)
    requires keep >= 1 && Orderly(s, before, p) && LaterThanAll(before, p, a.now)
    requires Attempted(s, keep, before, after, p, a)
    ensures Orderly(s, after, p)
    ensures Answer(s, after, p) == if a.committed then Some(a.release) else Answer(s, before, p)
    ensures forall row :: row in ActiveRows(after, p) ==> row.time <= a.now
  {
    if a.committed {
      AttemptCommits(s, keep, before, after, p, a);
    } else {
      FailureLeavesNoTrace(s, keep, before, after, p, a);
      NoTraceKeepsOrder(s, before, after, p, a.release);
    }
  }

  /** `latest_release` always answers with the last release whose commit returned normally, however
      many other commits failed at whatever write, provided activation times increase. */
  lemma {:induction false} LatestFollowsCommits(s: Scheme, keep: nat, states: seq<Objects>, attempts: seq<Attempt>,
                                                p: string)
    requires keep >= 1 && |states| == |attempts| + 1 && Orderly(s, states[0], p)
    requires forall i, j :: 0 <= i < j < |attempts| ==> attempts[i].now < attempts[j].now
    requires attempts != [] ==> LaterThanAll(states[0], p, attempts[0].now)
    requires forall i {:trigger attempts[i]} :: 0 <= i < |attempts| ==>
               Attempted(s, keep, states[i], states[i + 1], p, attempts[i])
    ensures Orderly(s, states[|attempts|], p)
    ensures Answer(s, states[|attempts|], p) == LastCommitted(attempts, Answer(s, states[0], p))
    ensures attempts != [] ==>
      forall row :: row in ActiveRows(states[|attempts|], p) ==> row.time <= attempts[|attempts| - 1].now
  {
    if attempts != [] {
      var n := |attempts| - 1;
      LatestFollowsCommits(s, keep, states[..n + 1], attempts[..n], p);
      assert states[..n + 1][n] == states[n];
      AttemptKeepsOrder(s, keep, states[n], states[n + 1], p, attempts[n]);
    }
  }

  /** After a backup under a fresh name: still coherent, same active releases, and the candidate of a
      completed backup is complete. */
  lemma AfterBackup(s: Scheme, before: Objects, after: Objects, p: string, r: string, archive: Object, steady: bool)
    requires BackupLeaves(s, before, after, p, r, archive, steady)
    ensures Marker(p, r) !in before && Coherent(s, before) && steady ==> Coherent(s, after)
    ensures after == BackedUp(s, before, p, r, archive) ==>
      Backed(s, after, p, r) && ActiveRows(after, p) == ActiveRows(before, p)
    ensures Marker(p, r) !in before ==> Marker(p, r) !in after
    ensures forall now :: LaterThanAll(before, p, now) ==> LaterThanAll(after, p, now)
  {
    forall x | x in ActiveRows(after, p) ensures x in ActiveRows(before, p) {
      ActiveRow(after, p, x);
      ActiveRow(before, p, x);
    }
    if Marker(p, r) !in before && Coherent(s, before) && steady {
      BackupKeepsCoherent(s, before, after, p, r, archive);
    }
    if after == BackedUp(s, before, p, r, archive) { SameMarkers(after, before, p); }
  }

  /** A candidate that was backed up stays complete through every state of its promotion. */
  lemma StaysBacked(s: Scheme, keep: nat, before: Objects, after: Objects, p: string, r: string, now: int)
    requires Coherent(s, before) && Backed(s, before, p, r) && SafeProject(p) && SafeRelease(r)
    requires keep >= 1 && LaterThanAll(before, p, now)
    requires PromotionLeaves(s, before, after, p, r, now)
             || Retiring(Promotion(s, before, p, r, now, 3), after, p, keep, true)
    ensures Backed(s, after, p, r) && NotAfter(after, p, now)
  {
    forall x | x in ActiveRows(after, p) && PromotionLeaves(s, before, after, p, r, now) ensures x.time <= now {
      ActiveRow(after, p, x);
      ActiveRow(before, p, x);
    }
    if Retiring(Promotion(s, before, p, r, now, 3), after, p, keep, true) {
      CommitBecomesAnswer(s, keep, before, after, p, r, now);
    }
  }

  /** The same for a promotion, complete or not, of a complete candidate. */
  lemma AfterPromotion(s: Scheme, keep: nat, before: Objects, after: Objects, p: string, r: string, now: int)
    requires Coherent(s, before) && Backed(s, before, p, r) && SafeProject(p) && SafeRelease(r) && keep >= 1
    requires PromotionLeaves(s, before, after, p, r, now)
             || Retiring(Promotion(s, before, p, r, now, 3), after, p, keep, true)
    ensures Coherent(s, after)
    ensures LaterThanAll(before, p, now) ==> Backed(s, after, p, r) && NotAfter(after, p, now)
  {
    PromotedKeepsCoherent(s, keep, before, after, p, r, now);
    if LaterThanAll(before, p, now) { StaysBacked(s, keep, before, after, p, r, now); }
  }

  /** No activation recorded for `p` is later than `now`. */
  ghost predicate NotAfter(objs: Objects, p: string, now: int) {
    forall row :: row in ActiveRows(objs, p) ==> row.time <= now
  }

  // ----- authenticity over histories in which anyone may rewrite the store ---------------------

  ghost predicate WasBacked(s: Scheme, deeds: seq<Deed>, e: Entry) {
    exists i :: 0 <= i < |deeds| && deeds[i].Backing?
                && Entry(deeds[i].project, deeds[i].release, s.hash(deeds[i].archive)) == e
  }

  ghost predicate WasPromoted(deeds: seq<Deed>, e: Entry) {
    exists i :: 0 <= i < |deeds| && deeds[i] == Promoting(e.project, e.release, e.sha256)
  }

  /** The ledger holds nothing that did not happen. */
  lemma {:induction false} LedgerIsHistory(s: Scheme, views: seq<StoreView>, deeds: seq<Deed>)
    requires s.keyed && |views| == |deeds| + 1 && views[0].ledger == Ledger({}, {}, {})
    requires Trustworthy(s, views[0].objects, views[0].ledger)
    requires forall i {:trigger deeds[i]} :: 0 <= i < |deeds| ==> DeedLeaves(s, views[i], views[i + 1], deeds[i])
    ensures var last := views[|deeds|];
      && Trustworthy(s, last.objects, last.ledger)
      && (forall e :: e in last.ledger.archived ==> WasBacked(s, deeds, e))
      && (forall e :: e in last.ledger.committed ==> WasPromoted(deeds, e))
  {
    if deeds != [] {
      var n := |deeds| - 1;
      LedgerIsHistory(s, views[..n + 1], deeds[..n]);
      var before, last := views[..n + 1][n], views[n + 1];
      assert DeedLeaves(s, before, last, deeds[n]);
      forall e | e in last.ledger.archived ensures WasBacked(s, deeds, e) {
        if e in before.ledger.archived {
          var i :| 0 <= i < n && deeds[..n][i].Backing?
                   && Entry(deeds[..n][i].project, deeds[..n][i].release, s.hash(deeds[..n][i].archive)) == e;
          assert deeds[i] == deeds[..n][i];
        }
      }
      forall e | e in last.ledger.committed ensures WasPromoted(deeds, e) {
        if e in before.ledger.committed {
          var i :| 0 <= i < n && deeds[..n][i] == Promoting(e.project, e.release, e.sha256);
          assert deeds[i] == deeds[..n][i];
        }
      }
    }
  }

  /** However the stored objects were rewritten, an archive that passes the checks of
      `download_archive` under a name has a hash that some backup computed for that very name and some
      promotion signed as active for that very name. */
  lemma AuthenticDownload(s: Scheme, views: seq<StoreView>, deeds: seq<Deed>, p: string, r: string)
    requires s.keyed && |views| == |deeds| + 1 && views[0].ledger == Ledger({}, {}, {})
    requires Trustworthy(s, views[0].objects, views[0].ledger)
    requires forall i {:trigger deeds[i]} :: 0 <= i < |deeds| ==> DeedLeaves(s, views[i], views[i + 1], deeds[i])
    requires Durable(s, views[|deeds|].objects, p, r)
    ensures WasBacked(s, deeds, Entry(p, r, s.hash(views[|deeds|].objects[Archive(p, r)])))
    ensures WasPromoted(deeds, Entry(p, r, s.hash(views[|deeds|].objects[Archive(p, r)])))
  {
    LedgerIsHistory(s, views, deeds);
    AuthenticIfDurable(s, views[|deeds|].objects, views[|deeds|].ledger, p, r);
  }
}
