/** `DurableReleaseStore`: two-phase durable release backups over an object store whose puts,
    gets and deletes may fail, be applied and still fail, or be the last thing that happens. */
module Storage {
  import opened Prelude
  import opened Chronology
  import opened RemoteState

  const LIST_CEILING := 2500

  /** How many keys `list_releases(limit)` reads. */
  function ListingBound(limit: int): (keys: nat)
    ensures limit <= 1 ==> keys == 55
    ensures 1 <= limit <= 490 ==> keys == 5 * limit + 50
    ensures limit >= 490 ==> keys == 2500
  {
    var l := Clamp(limit, 1, 500);
    if l * 5 + 50 < LIST_CEILING then l * 5 + 50 else LIST_CEILING
  }

  function Names(rows: seq<Row>): (names: seq<string>)
    ensures |names| == |rows| && forall i :: 0 <= i < |rows| ==> names[i] == rows[i].name
  {
    seq(|rows|, i requires 0 <= i < |rows| => rows[i].name)
  }

  /** Names ending in `.active.json` under the prefix of `p` that pass the name check. */
  function MarkedNames(keys: seq<Key>, p: string): set<string> {
    set k | k in keys && k.Marker? && k.project == p && SafeRelease(k.release) :: k.release
  }

  ghost predicate MarkersValid(s: Scheme, objs: Objects, p: string) {
    forall r :: Marker(p, r) in objs ==> ValidMarker(s, objs, p, r)
  }

  /** The pointer, or the marker it names, is a document that fails the integrity checks. */
  predicate Misleading(s: Scheme, objs: Objects, p: string) {
    && Latest(p) in objs && objs[Latest(p)].Doc?
    && var r := objs[Latest(p)].payload.release;
       || !PointerSound(s, objs, p)
       || (Marker(p, r) in objs && objs[Marker(p, r)].Doc? && !ValidMarker(s, objs, p, r))
  }

  /** The metadata is read and the three writes of a promotion take place; then the listing fails. */
  predicate OnlyRetentionFails(script: seq<Fate>) { Goes(script, 4) && FailsNext(script[4..]) }

  lemma NothingRetired(objs: Objects, project: string, keep: nat, steady: bool)
    ensures Retiring(objs, objs, project, keep, steady)
  {
  }

  lemma EraseOneMore(a: Objects, b: Objects, c: Objects, project: string, rows: seq<Row>, i: nat)
    requires i < |rows| && b == a - KeysOfRows(project, rows[..i]) && c == b - KeysOf(project, rows[i].name)
    ensures c == a - KeysOfRows(project, rows[..i + 1])
  {
    assert rows[..i + 1] == rows[..i] + [rows[i]];
    KeysOfRowsAppend(project, rows[..i], rows[i]);
  }

  class DurableReleaseStore {
    const enabled: bool
    const scheme: Scheme
    const keep: nat
    const steadyDeletes: bool   // hypothesis flag: deletes do not fail (they may still be cut short)
    const env: Environment
    var objects: Objects
    ghost var ledger: Ledger

    constructor (enabled: bool, scheme: Scheme, keepReleases: int, steadyDeletes: bool,
                 env: Environment, objects: Objects, ghost ledger: Ledger)
      ensures this.enabled == enabled && this.scheme == scheme && this.steadyDeletes == steadyDeletes
      ensures this.env == env && this.objects == objects && this.ledger == ledger
      ensures 2 <= keep <= 500 && (2 <= keepReleases <= 500 ==> keep == keepReleases)
    {
      this.enabled, this.scheme, this.steadyDeletes := enabled, scheme, steadyDeletes;
      this.keep := Clamp(keepReleases, 2, 500);
      this.env, this.objects, this.ledger := env, objects, ledger;
    }

    ghost function Snapshot(): StoreView
      reads this
    {
      StoreView(objects, ledger)
    }

    // ----- object store effects -------------------------------------------------------------

    method Put(key: Key, obj: Object) returns (out: Outcome<()>)
      modifies this`objects, env
      ensures out.Done? ==> objects == old(objects)[key := obj]
      ensures out.Crashed? ==> objects == old(objects)
      ensures out.Crashed? <==> CrashesNext(old(env.script))
      ensures out.Raised? ==> out.fault == Broken && (objects == old(objects) || objects == old(objects)[key := obj])
      ensures Goes(old(env.script), 1) ==> out.Done? && env.script == old(env.script)[1..]
      ensures Keeps(old(env.script), env.script) && Faithful(old(env.script), out)
    {
      var fate := env.Next();
      if fate.Crash? { return Crashed; }
      if fate.Go? || fate.applied { objects := objects[key := obj]; }
      if fate.Fail? { return Raised(Broken); }
      return Done(());
    }

    method Get(key: Key) returns (out: Outcome<Object>)
      modifies env
      ensures out.Done? ==> key in objects && out.value == objects[key]
      ensures out.Raised? ==> out.fault == Broken
      ensures Goes(old(env.script), 1) && key in objects ==> out.Done? && env.script == old(env.script)[1..]
      ensures FailsNext(old(env.script)) ==> out.Raised? && env.script == old(env.script)[1..]
      ensures out.Crashed? <==> CrashesNext(old(env.script))
      ensures Keeps(old(env.script), env.script) && (key in objects ==> Faithful(old(env.script), out))
      ensures Undisturbed(old(env.script)) ==> !out.Crashed?
    {
      var fate := env.Next();
      if fate.Crash? { return Crashed; }
      if fate.Fail? || key !in objects { return Raised(Broken); }
      return Done(objects[key]);
    }

    method Delete(key: Key) returns (out: Outcome<()>)
      modifies this`objects, env
      ensures out.Done? ==> objects == old(objects) - {key}
      ensures out.Crashed? ==> objects == old(objects)
      ensures out.Crashed? <==> CrashesNext(old(env.script))
      ensures out.Raised? ==>
        out.fault == Broken && !steadyDeletes && (objects == old(objects) || objects == old(objects) - {key})
      ensures Goes(old(env.script), 1) ==> out.Done? && env.script == old(env.script)[1..]
      ensures Keeps(old(env.script), env.script) && Faithful(old(env.script), out)
    {
      var fate := env.Next();
      if fate.Crash? { return Crashed; }
      var failed := fate.Fail? && !steadyDeletes;
      if !failed || fate.applied { objects := objects - {key}; }
      if failed { return Raised(Broken); }
      return Done(());
    }

    /** The first `limit` keys of a project, in whatever order the store lists them. */
    method ListKeys(project: string, limit: nat) returns (out: Outcome<seq<Key>>)
      modifies env
      ensures out.Done? ==>
        && |out.value| <= limit
        && (forall k :: k in out.value ==> k in ProjectKeys(objects, project))
        && (|ProjectKeys(objects, project)| <= limit ==>
              forall k :: k in ProjectKeys(objects, project) ==> k in out.value)
      ensures out.Raised? ==> out.fault == Broken
      ensures FailsNext(old(env.script)) ==> out.Raised? && env.script == old(env.script)[1..]
      ensures out.Crashed? <==> CrashesNext(old(env.script))
      ensures Keeps(old(env.script), env.script) && Faithful(old(env.script), out)
    {
      var fate := env.Next();
      if fate.Crash? { return Crashed; }
      if fate.Fail? { return Raised(Broken); }
      var rest, keys := ProjectKeys(objects, project), [];
      while rest != {} && |keys| < limit
        invariant rest <= ProjectKeys(objects, project)
        invariant |keys| + |rest| == |ProjectKeys(objects, project)|
        invariant |keys| <= limit
        invariant forall k :: k in keys ==> k in ProjectKeys(objects, project)
        invariant forall k :: k in ProjectKeys(objects, project) ==> k in keys || k in rest
      {
        var k :| k in rest;
        rest, keys := rest - {k}, keys + [k];
      }
      return Done(keys);
    }

    // ----- deletion ---------------------------------------------------------------------------

    /** Deletes marker, metadata and archive in that order; a failed delete is swallowed. */
    method EraseKeys(project: string, release: string) returns (out: Outcome<()>)
      modifies this`objects, env
      ensures !out.Raised?
      ensures Erasing(old(objects), objects, project, release, steadyDeletes)
      ensures out.Done? && steadyDeletes ==> objects == old(objects) - KeysOf(project, release)
      ensures Goes(old(env.script), 3) ==>
        out.Done? && objects == old(objects) - KeysOf(project, release) && env.script == old(env.script)[3..]
      ensures Keeps(old(env.script), env.script) && Faithful(old(env.script), out)
    {
      var suffixes := [Marker(project, release), Meta(project, release), Archive(project, release)];
      var i := 0;
      while i < 3
        invariant 0 <= i <= 3
        invariant OnlyLoses(old(objects), objects, project, release)
        invariant steadyDeletes ==> objects == old(objects) - KeysInOrder(project, release, i)
        invariant Goes(old(env.script), 3) ==>
          objects == old(objects) - KeysInOrder(project, release, i) && env.script == old(env.script)[i..]
        invariant Keeps(old(env.script), env.script)
      {
        var deleted := Delete(suffixes[i]);
        if deleted.Crashed? { return Crashed; }
        i := i + 1;
      }
      return Done(());
    }

    method AbandonRelease(project: string, release: string) returns (out: Outcome<()>)
      modifies this`objects, env
      ensures !out.Raised?
      ensures Erasing(old(objects), objects, project, release, steadyDeletes)
      ensures !enabled ==> objects == old(objects)
      ensures out.Done? && steadyDeletes && enabled && SafeProject(project) && SafeRelease(release) ==>
        objects == old(objects) - KeysOf(project, release)
      ensures enabled && SafeProject(project) && SafeRelease(release) && Goes(old(env.script), 3) ==>
        out.Done? && objects == old(objects) - KeysOf(project, release) && env.script == old(env.script)[3..]
      ensures DeedLeaves(scheme, old(Snapshot()), Snapshot(), Other)
      ensures Keeps(old(env.script), env.script) && Faithful(old(env.script), out)
    {
      if !enabled || !SafeProject(project) || !SafeRelease(release) { return Done(()); }
      out := EraseKeys(project, release);
    }

    // ----- reading ----------------------------------------------------------------------------

    method ActiveMarker(project: string, release: string) returns (out: Outcome<Payload>)
      modifies env
      ensures out.Done? ==> ValidMarker(scheme, objects, project, release)
                            && out.value == objects[Marker(project, release)].payload
      ensures out.Raised? && out.fault == Tampered ==>
                Marker(project, release) in objects && !ValidMarker(scheme, objects, project, release)
      ensures out.Raised? ==> out.fault != Rejected
      ensures out.Raised? && out.fault == Broken && Reliable(old(env.script)) && enabled
              && SafeProject(project) && SafeRelease(release) ==>
        Marker(project, release) in objects ==> objects[Marker(project, release)].Blob?
      ensures enabled && ValidMarker(scheme, objects, project, release) ==> Faithful(old(env.script), out)
      ensures Undisturbed(old(env.script)) ==> !out.Crashed?
      ensures Keeps(old(env.script), env.script)
    {
      if !enabled || !SafeProject(project) || !SafeRelease(release) { return Raised(Broken); }
      var raw := Get(Marker(project, release));
      if raw.Crashed? { return Crashed; }
      if raw.Raised? || raw.value.Blob? { return Raised(Broken); }
      var marker := raw.value.payload;
      if !Identifies(marker, project, release) || !Genuine(scheme, raw.value)
         || !Hex64(marker.sha256) || marker.activatedAt.None?
      {
        return Raised(Tampered);
      }
      return Done(marker);
    }

    /** Rows of the active releases, newest first, at most `limit` of them. */
    method ListRows(project: string, limit: int) returns (out: Outcome<seq<Row>>)
      modifies env
      ensures out.Done? ==>
        && |out.value| <= Clamp(limit, 1, 500)
        && Descending(out.value)
        && forall x :: x in out.value ==> x in ActiveRows(objects, project)
      ensures out.Done? && enabled && SafeProject(project) && Reliable(old(env.script))
              && |ProjectKeys(objects, project)| <= (if limit < 1 then 55 else if limit <= 490 then 5 * limit + 50
                                                     else 2500) ==>
        var all := Listing(ActiveRows(objects, project));
        out.value == if |all| <= Clamp(limit, 1, 500) then all else all[..Clamp(limit, 1, 500)]
      ensures SafeProject(project) && MarkersValid(scheme, objects, project) ==> Faithful(old(env.script), out)
      ensures Undisturbed(old(env.script)) ==> !out.Crashed?
      ensures out.Raised? ==> out.fault != Rejected
      ensures enabled && SafeProject(project) && FailsNext(old(env.script)) ==>
        out.Raised? && env.script == old(env.script)[1..]
      ensures enabled && SafeProject(project) && CrashesNext(old(env.script)) ==> out.Crashed?
      ensures Keeps(old(env.script), env.script)
    {
      if !enabled { return Done([]); }
      if !SafeProject(project) { return Raised(Broken); }
      var keys :- ListKeys(project, ListingBound(limit));
      var rows :- CollectRows(project, MarkedNames(keys, project));
      var sorted := NewestFirst(rows);
      if Reliable(old(env.script)) && |ProjectKeys(objects, project)| <= ListingBound(limit) {
        AllRowsListed(keys, rows, project);
        ListingIs(sorted, ActiveRows(objects, project));
      }
      var top := Clamp(limit, 1, 500);
      forall x | x in sorted ensures x in ActiveRows(objects, project) {
        assert x in set r | r in rows;
      }
      return Done(if |sorted| <= top then sorted else sorted[..top]);
    }

    /** Reads the markers of the named releases, one after the other; a missing one is skipped. */
    method CollectRows(project: string, marked: set<string>) returns (out: Outcome<seq<Row>>)
      requires enabled && SafeProject(project)
      requires forall n :: n in marked ==> Marker(project, n) in objects && SafeRelease(n)
      modifies env
      ensures out.Done? ==>
        && (forall x :: x in out.value ==> x in ActiveRows(objects, project))
        && (forall i, j :: 0 <= i < j < |out.value| ==> out.value[i] != out.value[j])
        && (Reliable(old(env.script)) ==> forall n :: n in marked ==> RowListed(objects, out.value, project, n))
      ensures MarkersValid(scheme, objects, project) ==> Faithful(old(env.script), out)
      ensures Undisturbed(old(env.script)) ==> !out.Crashed?
      ensures out.Raised? ==> out.fault != Rejected
      ensures Keeps(old(env.script), env.script)
    {
      var names, rows: seq<Row> := marked, [];
      while names != {}
        invariant names <= marked
        invariant forall i :: 0 <= i < |rows| ==> rows[i].name !in names && rows[i] in ActiveRows(objects, project)
        invariant forall i, j :: 0 <= i < j < |rows| ==> rows[i] != rows[j]
        invariant Reliable(old(env.script)) ==>
          forall n :: n in marked && n !in names ==> RowListed(objects, rows, project, n)
        invariant Keeps(old(env.script), env.script)
      {
        var name :| name in names;
        names := names - {name};
        var marker := ActiveMarker(project, name);
        match marker {
          case Crashed => return Crashed;
          case Raised(fault) =>
            if fault == Tampered { return Raised(Tampered); }
          case Done(m) =>
            InActiveRows(scheme, objects, project, name);
            rows := rows + [Row(m.activatedAt.value, name)];
        }
      }
      return Done(rows);
    }

    /** The marker of `name` has its row in `rows`, unless it is not a document at all. */
    static ghost predicate RowListed(objs: Objects, rows: seq<Row>, project: string, name: string) {
      && Marker(project, name) in objs
      && var o := objs[Marker(project, name)];
         o.Doc? ==> o.payload.activatedAt.Some? && Row(o.payload.activatedAt.value, name) in rows
    }

    lemma AllRowsListed(keys: seq<Key>, rows: seq<Row>, project: string)
      requires forall k :: k in ProjectKeys(objects, project) ==> k in keys
      requires forall x :: x in rows ==> x in ActiveRows(objects, project)
      requires forall n :: n in MarkedNames(keys, project) ==> RowListed(objects, rows, project, n)
      ensures (set r | r in rows) == ActiveRows(objects, project)
    {
      forall x | x in ActiveRows(objects, project) ensures x in rows {
        var k :| k in objects && k == Marker(project, x.name) && SafeRelease(k.release);
        assert Marker(project, x.name) in ProjectKeys(objects, project);
        assert Marker(project, x.name) in keys;
        assert x.name in MarkedNames(keys, project);
      }
    }

    method ListReleases(project: string, limit: int) returns (out: Outcome<seq<string>>)
      modifies env
      ensures out.Done? && enabled && SafeProject(project) && Reliable(old(env.script))
              && |ProjectKeys(objects, project)| <= (if limit < 1 then 55 else if limit <= 490 then 5 * limit + 50
                                                     else 2500) ==>
        var all := Names(Listing(ActiveRows(objects, project)));
        out.value == if |all| <= Clamp(limit, 1, 500) then all else all[..Clamp(limit, 1, 500)]
      ensures out.Done? ==> forall name :: name in out.value ==> Marker(project, name) in objects
      ensures SafeProject(project) && MarkersValid(scheme, objects, project) ==> Faithful(old(env.script), out)
      ensures out.Raised? ==> out.fault != Rejected
      ensures enabled && SafeProject(project) && FailsNext(old(env.script)) ==> out.Raised?
      ensures Keeps(old(env.script), env.script)
    {
      var rows :- ListRows(project, limit);
      forall name | name in Names(rows) ensures Marker(project, name) in objects {
        var i :| 0 <= i < |rows| && rows[i].name == name;
        assert rows[i] in ActiveRows(objects, project);
      }
      return Done(Names(rows));
    }

    // ----- retention --------------------------------------------------------------------------

    ghost predicate AllSurplus(objs: Objects, project: string, rows: seq<Row>) {
      forall i :: 0 <= i < |rows| ==>
        rows[i] in ActiveRows(objs, project) && Surplus(ActiveRows(objs, project), rows[i], keep)
    }

    /** Erases releases one after the other. */
    method EraseRows(project: string, rows: seq<Row>) returns (out: Outcome<()>)
      requires AllSurplus(objects, project, rows)
      modifies this`objects, env
      ensures !out.Raised?
      ensures Retiring(old(objects), objects, project, keep, steadyDeletes)
      ensures out.Done? && steadyDeletes ==> objects == old(objects) - KeysOfRows(project, rows)
      ensures Keeps(old(env.script), env.script) && Faithful(old(env.script), out)
    {
      ghost var before := objects;
      NothingRetired(objects, project, keep, steadyDeletes);
      assert rows[..0] == [] && rows[..|rows|] == rows;
      for i := 0 to |rows|
        invariant Retiring(before, objects, project, keep, steadyDeletes)
        invariant steadyDeletes ==> objects == before - KeysOfRows(project, rows[..i])
        invariant Keeps(old(env.script), env.script)
      {
        var erased := EraseRow(project, rows, i, before);
        if erased.Crashed? { return Crashed; }
      }
      return Done(());
    }

    method EraseRow(project: string, rows: seq<Row>, i: nat, ghost before: Objects) returns (out: Outcome<()>)
      requires i < |rows| && AllSurplus(before, project, rows)
      requires Retiring(before, objects, project, keep, steadyDeletes)
      requires steadyDeletes ==> objects == before - KeysOfRows(project, rows[..i])
      modifies this`objects, env
      ensures !out.Raised?
      ensures Retiring(before, objects, project, keep, steadyDeletes)
      ensures out.Done? && steadyDeletes ==> objects == before - KeysOfRows(project, rows[..i + 1])
      ensures Keeps(old(env.script), env.script) && Faithful(old(env.script), out)
    {
      out := EraseKeys(project, rows[i].name);
      RetireOneMore(before, old(objects), objects, project, rows[i], keep, steadyDeletes);
      if steadyDeletes && out.Done? { EraseOneMore(before, old(objects), objects, project, rows, i); }
    }

    method Prune(project: string) returns (out: Outcome<()>)
      modifies this`objects, env
      ensures Retiring(old(objects), objects, project, keep, steadyDeletes)
      ensures out.Raised? ==> objects == old(objects)
      ensures !enabled ==> out == Done(()) && objects == old(objects)
      ensures out.Done? && enabled && SafeProject(project) && steadyDeletes && Reliable(old(env.script))
              && |ProjectKeys(old(objects), project)| <= 2500 && keep <= 500
              && |Listing(ActiveRows(old(objects), project))| <= 500 ==>
        var all := Listing(ActiveRows(old(objects), project));
        Listing(ActiveRows(objects, project)) == if |all| <= keep then all else all[..keep]
      ensures SafeProject(project) && MarkersValid(scheme, old(objects), project) ==> Faithful(old(env.script), out)
      ensures Undisturbed(old(env.script)) ==> !out.Crashed?
      ensures enabled && SafeProject(project) && FailsNext(old(env.script)) ==>
        out.Raised? && env.script == old(env.script)[1..]
      ensures enabled && SafeProject(project) && CrashesNext(old(env.script)) ==> out.Crashed?
      ensures DeedLeaves(scheme, old(Snapshot()), Snapshot(), Other)
      ensures Keeps(old(env.script), env.script)
    {
      if !enabled { return Done(()); }
      var rows :- ListRows(project, 500);
      if |rows| <= keep { return Done(()); }
      ghost var active := ActiveRows(objects, project);
      forall i | 0 <= i < |rows[keep..]| ensures rows[keep..][i] in active && Surplus(active, rows[keep..][i], keep) {
        assert Outranked(active, rows[keep + i], keep, rows[..keep]);
      }
      var erased := EraseRows(project, rows[keep..]);
      if erased.Crashed? { return Crashed; }
      if |Listing(active)| > keep { KeptRows(old(objects), project, keep); }
      return Done(());
    }

    // ----- the two phases ---------------------------------------------------------------------

    /** Uploads archive and candidate metadata; on a failed upload everything is deleted again. */
    method BackupRelease(project: string, release: string, archive: Bytes) returns (out: Outcome<Payload>)
      modifies this`objects, this`ledger, env
      ensures out.Done? ==>
        && enabled && SafeProject(project) && SafeRelease(release)
        && objects == BackedUp(scheme, old(objects), project, release, Blob(archive))
        && out.value == CandidateOf(scheme, project, release, Blob(archive))
      ensures out.Raised? ==> out.fault == Broken
      ensures BackupLeaves(scheme, old(objects), objects, project, release, Blob(archive), steadyDeletes)
      ensures !enabled || !SafeProject(project) || !SafeRelease(release) ==>
        out == Raised(Broken) && objects == old(objects)
      ensures out.Raised? && enabled && SafeProject(project) && SafeRelease(release) && steadyDeletes ==>
                objects.Keys !! KeysOf(project, release)
      ensures enabled && SafeProject(project) && SafeRelease(release) ==> Faithful(old(env.script), out)
      ensures Keeps(old(env.script), env.script)
      ensures DeedLeaves(scheme, old(Snapshot()), Snapshot(), Backing(project, release, Blob(archive)))
    {
      if !enabled || !SafeProject(project) || !SafeRelease(release) { return Raised(Broken); }
      var metadata := CandidateOf(scheme, project, release, Blob(archive));
      ledger := Signs(Archives(ledger, EntryOf(metadata)), metadata);
      var put := Put(Archive(project, release), Blob(archive));
      if put.Crashed? { return Crashed; }
      if put.Done? {
        put := Put(Meta(project, release), Signed(scheme, metadata));
        if put.Crashed? { return Crashed; }
      }
      if put.Raised? {
        var abandoned := AbandonRelease(project, release);
        if abandoned.Crashed? { return Crashed; }
        return Raised(Broken);
      }
      return Done(metadata);
    }

    /** The three writes of a promotion, in order. */
    method WriteActivation(project: string, release: string, now: int) returns (out: Outcome<()>)
      requires Promotable(scheme, objects, project, release)
      modifies this`objects, env
      ensures out.Done? ==> objects == Promotion(scheme, old(objects), project, release, now, 3)
      ensures PromotionLeaves(scheme, old(objects), objects, project, release, now)
      ensures out.Raised? ==> out.fault != Rejected
      ensures Goes(old(env.script), 3) ==> out.Done? && env.script == old(env.script)[3..]
      ensures Keeps(old(env.script), env.script) && Faithful(old(env.script), out)
      ensures var q := old(objects)[Meta(project, release)].payload;
              Trustworthy(scheme, old(objects), ledger) && ActiveOf(q, now) in ledger.signed
              && MarkerOf(q, now) in ledger.signed ==>
                Trustworthy(scheme, objects, ledger)
    {
      var metadata := objects[Meta(project, release)].payload;
      var active, marker := ActiveOf(metadata, now), MarkerOf(metadata, now);
      out := Put(Meta(project, release), Signed(scheme, active));
      if !out.Done? { return; }
      assert objects == Promotion(scheme, old(objects), project, release, now, 1);
      out := Put(Marker(project, release), Signed(scheme, marker));
      if !out.Done? { return; }
      assert objects == Promotion(scheme, old(objects), project, release, now, 2);
      out := Put(Latest(project), Signed(scheme, marker));
    }

    /** Commits a candidate: metadata, then marker, then pointer, then best-effort retention. */
    method PromoteRelease(project: string, release: string, now: int) returns (out: Outcome<Payload>)
      modifies this`objects, this`ledger, env
      ensures out.Done? ==>
        && enabled && SafeProject(project) && SafeRelease(release)
        && Promotable(scheme, old(objects), project, release)
        && Retiring(Promotion(scheme, old(objects), project, release, now, 3), objects, project, keep, steadyDeletes)
      ensures out.Raised? ==> PromotionLeaves(scheme, old(objects), objects, project, release, now)
      ensures out.Raised? ==> out.fault != Rejected
      ensures !enabled ==> objects == old(objects)
      ensures out.Crashed? ==>
        || PromotionLeaves(scheme, old(objects), objects, project, release, now)
        || (Promotable(scheme, old(objects), project, release)
            && Retiring(Promotion(scheme, old(objects), project, release, now, 3), objects, project,
                        keep, steadyDeletes))
      ensures enabled && SafeProject(project) && SafeRelease(release)
              && Promotable(scheme, old(objects), project, release) ==>
        Faithful(old(env.script), out)
      ensures Keeps(old(env.script), env.script)
      ensures DeedLeaves(scheme, old(Snapshot()), Snapshot(),
                         Promoting(project, release, HashToSign(old(objects), project, release)))
      ensures !Promotable(scheme, old(objects), project, release) ==> ledger == old(ledger)
      ensures !SafeProject(project) || !SafeRelease(release) ==> objects == old(objects)
      ensures Undisturbed(old(env.script)) ==> !out.Crashed?
      ensures enabled && SafeProject(project) && SafeRelease(release) && FailsNext(old(env.script)) ==>
        out.Raised? && objects == old(objects) && env.script == old(env.script)[1..]
      ensures enabled && SafeProject(project) && SafeRelease(release)
              && Promotable(scheme, old(objects), project, release) && OnlyRetentionFails(old(env.script)) ==>
        && out.Done? && objects == Promotion(scheme, old(objects), project, release, now, 3)
        && env.script == old(env.script)[5..]
      ensures enabled && SafeProject(project) && SafeRelease(release)
              && Promotable(scheme, old(objects), project, release)
              && Goes(old(env.script), 4) && CrashesNext(old(env.script)[4..]) ==>
        out.Crashed?
    {
      if !enabled || !SafeProject(project) || !SafeRelease(release) { return Raised(Broken); }
      var raw := Get(Meta(project, release));
      if raw.Crashed? { return Crashed; }
      if raw.Raised? || raw.value.Blob? { return Raised(Broken); }
      if !Promotable(scheme, objects, project, release) { return Raised(Tampered); }
      var metadata := raw.value.payload;
      ledger := LedgerOfPromotion(ledger, metadata, now);
      if Trustworthy(scheme, old(objects), old(ledger)) {
        PromotionAccounted(scheme, objects, old(ledger), project, release, now);
      }
      var written := WriteActivation(project, release, now);
      if !written.Done? { return written.PropagateFailure(); }
      var pruned := Prune(project);
      if pruned.Crashed? { return Crashed; }
      assert Retiring(Promotion(scheme, old(objects), project, release, now, 3), objects, project, keep, steadyDeletes);
      return Done(ActiveOf(metadata, now));
    }

    // ----- restoring --------------------------------------------------------------------------

    /** The conditions under which the answer of `latest_release` is determined. */
    ghost predicate Answerable(project: string)
      reads this`objects
    {
      && enabled && SafeProject(project) && MarkersValid(scheme, objects, project)
      && PointerSound(scheme, objects, project)
      && |ProjectKeys(objects, project)| <= 55
    }

    /** The release named by the pointer, or `None` if the pointer is missing or dead. */
    method FollowPointer(project: string) returns (out: Outcome<Option<string>>)
      requires enabled && SafeProject(project)
      modifies env
      ensures out.Done? && out.value.Some? ==>
        PointerLive(scheme, objects, project) && out.value.value == objects[Latest(project)].payload.release
      ensures Answerable(project) && Reliable(old(env.script)) ==>
        !out.Raised? && (out.Done? && out.value.None? ==> !PointerLive(scheme, objects, project))
      ensures Misleading(scheme, objects, project) && Reliable(old(env.script)) ==>
        !out.Done? && (SafeRelease(objects[Latest(project)].payload.release) && out.Raised? ==> out.fault == Tampered)
      ensures out.Raised? ==> out.fault != Rejected
      ensures Keeps(old(env.script), env.script)
    {
      var pointer := Get(Latest(project));
      if pointer.Crashed? { return Crashed; }
      if pointer.Raised? || pointer.value.Blob? { return Done(None); }
      var q := pointer.value.payload;
      if q.project != project || !Genuine(scheme, pointer.value) { return Raised(Tampered); }
      if !SafeRelease(q.release) { return Raised(Broken); }
      var marker := ActiveMarker(project, q.release);
      if marker.Crashed? || (marker.Raised? && marker.fault == Tampered) { return marker.PropagateFailure(); }
      if marker.Raised? { return Done(None); }
      if marker.value.sha256 != q.sha256 { return Raised(Tampered); }
      return Done(Some(q.release));
    }

    /** Chooses the newest active release and repairs the pointer, or removes it if there is none. */
    method FallBack(project: string) returns (out: Outcome<Option<string>>)
      requires enabled && SafeProject(project)
      modifies this`objects, env
      ensures forall k :: k != Latest(project) ==>
        (k in objects <==> k in old(objects)) && (k in objects ==> objects[k] == old(objects)[k])
      ensures old(Answerable(project)) && Reliable(old(env.script)) && !PointerLive(scheme, old(objects), project) ==>
        && !out.Raised?
        && (out.Done? ==>
              && out.value == NewestActive(old(objects), project)
              && (out.value.Some? ==>
                    && PointerLive(scheme, objects, project)
                    && Marker(project, out.value.value) in objects
                    && objects[Latest(project)] == objects[Marker(project, out.value.value)]
                    && objects[Latest(project)].payload.release == out.value.value)
              && (out.value.None? ==> Latest(project) !in objects))
      ensures out.Raised? ==> objects == old(objects)
      ensures DeedLeaves(scheme, old(Snapshot()), Snapshot(), Other)
      ensures out.Raised? ==> out.fault != Rejected
      ensures Keeps(old(env.script), env.script)
    {
      var rows :- ListRows(project, 1);
      if rows == [] {
        var deleted := Delete(Latest(project));
        if deleted.Crashed? { return Crashed; }
        return Done(None);
      }
      ActiveRow(objects, project, rows[0]);
      var release := rows[0].name;
      var repaired := RepairPointer(project, release);
      if repaired.Crashed? || (repaired.Raised? && repaired.fault == Tampered) { return repaired.PropagateFailure(); }
      return Done(Some(release));
    }

    /** The release `/restore latest` stands for; repairs a missing or dead pointer on the way. */
    method LatestRelease(project: string) returns (out: Outcome<Option<string>>)
      modifies this`objects, env
      ensures forall k :: k != Latest(project) ==>
        (k in objects <==> k in old(objects)) && (k in objects ==> objects[k] == old(objects)[k])
      ensures old(Answerable(project)) && Reliable(old(env.script)) ==>
        && !out.Raised?
        && (out.Done? ==>
              && out.value == Answer(scheme, old(objects), project) == Answer(scheme, objects, project)
              && (out.value.Some? ==> PointerLive(scheme, objects, project))
              && PointerSound(scheme, objects, project))
      ensures !enabled ==> out == Done(None) && objects == old(objects)
      ensures enabled && !SafeProject(project) ==> out == Raised(Broken) && objects == old(objects)
      ensures enabled && SafeProject(project) && Misleading(scheme, old(objects), project)
              && Reliable(old(env.script)) ==>
        !out.Done? && objects == old(objects)
      ensures DeedLeaves(scheme, old(Snapshot()), Snapshot(), Other)
      ensures out.Raised? ==> out.fault != Rejected
      ensures Keeps(old(env.script), env.script)
    {
      if !enabled { return Done(None); }
      if !SafeProject(project) { return Raised(Broken); }
      var named :- FollowPointer(project);
      if named.Some? { return Done(named); }
      out := FallBack(project);
      SameActiveRows(old(objects), objects, project);
    }

    /** Rewrites the pointer as a copy of the marker of `release`. */
    method RepairPointer(project: string, release: string) returns (out: Outcome<()>)
      modifies this`objects, env
      ensures out.Done? ==>
        && ValidMarker(scheme, old(objects), project, release)
        && objects == old(objects)[Latest(project) := old(objects)[Marker(project, release)]]
      ensures forall k :: k != Latest(project) ==>
        (k in objects <==> k in old(objects)) && (k in objects ==> objects[k] == old(objects)[k])
      ensures enabled && ValidMarker(scheme, old(objects), project, release) ==> Faithful(old(env.script), out)
      ensures out.Raised? && out.fault == Tampered ==> objects == old(objects)
      ensures DeedLeaves(scheme, old(Snapshot()), Snapshot(), Other)
      ensures Keeps(old(env.script), env.script)
    {
      var marker := ActiveMarker(project, release);
      if !marker.Done? { return marker.PropagateFailure(); }
      out := Put(Latest(project), objects[Marker(project, release)]);
    }

    /** Downloads an active release and checks marker, metadata, size and hash against each other. */
    method DownloadArchive(project: string, release: string) returns (out: Outcome<Object>)
      modifies env
      ensures out.Done? ==>
        && Durable(scheme, objects, project, release)
        && out.value == objects[Archive(project, release)]
      ensures enabled && Durable(scheme, objects, project, release) ==> Faithful(old(env.script), out)
      ensures out.Raised? ==> out.fault != Rejected
      ensures Keeps(old(env.script), env.script)
      ensures out.Done? && scheme.keyed && Trustworthy(scheme, objects, ledger) ==>
        var e := Entry(project, release, scheme.hash(out.value));
        e in ledger.archived && e in ledger.committed
    {
      if !enabled || !SafeProject(project) || !SafeRelease(release) { return Raised(Broken); }
      var marker := ActiveMarker(project, release);
      if !marker.Done? { return marker.PropagateFailure(); }
      var raw := Get(Meta(project, release));
      if !raw.Done? { return raw.PropagateFailure(); }
      if raw.value.Blob? { return Raised(Broken); }
      var metadata := raw.value.payload;
      if !Genuine(scheme, raw.value) || !Identifies(metadata, project, release) || metadata.phase != Some(Active)
         || !Hex64(metadata.sha256) || marker.value.sha256 != metadata.sha256
      {
        return Raised(Tampered);
      }
      if metadata.size.None? || metadata.size.value < 0 { return Raised(Tampered); }
      out := Get(Archive(project, release));
      if !out.Done? { return; }
      if scheme.size(out.value) as int != metadata.size.value { return Raised(Tampered); }
      if scheme.hash(out.value) != metadata.sha256 { return Raised(Tampered); }
      if scheme.keyed && Trustworthy(scheme, objects, ledger) {
        AuthenticIfDurable(scheme, objects, ledger, project, release);
      }
    }
  }
}
