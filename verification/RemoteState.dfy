/** The contents of the durable object store, and what it means for a release to be durable.
    JSON documents are modelled by the fields that are ever read; the keyed MAC is ideal: the
    only signature accepted for a payload is the one computed over exactly that payload. */
module RemoteState {
  import opened Prelude
  import opened Chronology

  /** `releases/P/R.zip`, `releases/P/R.json`, `releases/P/R.active.json`, `releases/P/latest.json`. */
  datatype Key =
    | Archive(project: string, release: string)
    | Meta(project: string, release: string)
    | Marker(project: string, release: string)
    | Latest(project: string)

  datatype Phase = Candidate | Active

  datatype Payload = Payload(project: string, release: string, sha256: string,
                             phase: Option<Phase>, size: Option<int>, activatedAt: Option<int>)

  datatype Signature = Unsigned | MacOf(payload: Payload) | Foreign(text: string)

  datatype Object = Blob(bytes: Bytes) | Doc(payload: Payload, signature: Signature)

  type Objects = map<Key, Object>

  predicate HexDigit(c: char) { '0' <= c <= '9' || 'a' <= c <= 'f' }

  predicate Hex64(s: string) { |s| == 64 && forall i :: 0 <= i < 64 ==> HexDigit(s[i]) }

  /** What a hexadecimal SHA-256 looks like. */
  type Digest = s: string | Hex64(s) witness seq(64, _ => '0')

  /** Whether a signing key is configured, and the hash and length of a stored object. */
  datatype Scheme = Scheme(keyed: bool, hash: Object -> Digest, size: Object -> nat)

  predicate NameChar(c: char) {
    'a' <= c <= 'z' || 'A' <= c <= 'Z' || '0' <= c <= '9' || c == '.' || c == '_' || c == '-'
  }

  predicate SafeName(s: string, limit: nat) {
    0 < |s| <= limit && s[0] !in ['.', '_', '-'] && forall i :: 0 <= i < |s| ==> NameChar(s[i])
  }

  predicate SafeProject(s: string) { SafeName(s, 64) }

  predicate SafeRelease(s: string) { SafeName(s, 97) }

  /** The names that are accepted: a letter or digit, then letters, digits, dots, underscores and dashes,
      up to 64 characters for a project and 97 for a release. */
  lemma AcceptedNames(s: string)
    ensures SafeProject(s) <==> SafeRelease(s) && |s| <= 64
    ensures SafeRelease(s) <==>
      && 1 <= |s| <= 97 && s[0] !in ['.', '_', '-']
      && forall i :: 0 <= i < |s| ==>
           'a' <= s[i] <= 'z' || 'A' <= s[i] <= 'Z' || '0' <= s[i] <= '9' || s[i] in ['.', '_', '-']
    ensures SafeRelease(s) ==> '/' !in s && '\\' !in s && '\0' !in s && s != ".."
  {
  }

  /** A hash in hexadecimal: 64 digits and letters from `a` to `f`. */
  lemma AcceptedHashes(s: string)
    ensures Hex64(s) <==> |s| == 64 && forall i :: 0 <= i < |s| ==> '0' <= s[i] <= '9' || 'a' <= s[i] <= 'f'
  {
  }

  predicate Genuine(s: Scheme, o: Object) {
    o.Doc? && (s.keyed ==> o.signature == MacOf(o.payload))
  }

  function Signed(s: Scheme, q: Payload): (o: Object)
    ensures Genuine(s, o) && o.payload == q
  {
    Doc(q, if s.keyed then MacOf(q) else Unsigned)
  }

  predicate Identifies(q: Payload, p: string, r: string) { q.project == p && q.release == r }

  /** The checks `_active_marker` makes on the document under the marker key. */
  predicate ValidMarker(s: Scheme, objs: Objects, p: string, r: string) {
    && SafeProject(p) && SafeRelease(r)
    && Marker(p, r) in objs
    && Genuine(s, objs[Marker(p, r)])
    && var q := objs[Marker(p, r)].payload;
       Identifies(q, p, r) && Hex64(q.sha256) && q.activatedAt.Some?
  }

  /** The checks `promote_release` makes on the metadata document. */
  predicate Promotable(s: Scheme, objs: Objects, p: string, r: string) {
    && Meta(p, r) in objs
    && Genuine(s, objs[Meta(p, r)])
    && Identifies(objs[Meta(p, r)].payload, p, r)
    && Hex64(objs[Meta(p, r)].payload.sha256)
  }

  /** The archive is present and is the one the metadata describes. */
  predicate Backed(s: Scheme, objs: Objects, p: string, r: string) {
    && Promotable(s, objs, p, r)
    && Archive(p, r) in objs
    && s.hash(objs[Archive(p, r)]) == objs[Meta(p, r)].payload.sha256
    && Some(s.size(objs[Archive(p, r)]) as int) == objs[Meta(p, r)].payload.size
  }

  /** Active marker, active metadata and archive all present and agreeing. */
  predicate Durable(s: Scheme, objs: Objects, p: string, r: string) {
    && ValidMarker(s, objs, p, r)
    && Backed(s, objs, p, r)
    && objs[Meta(p, r)].payload.phase == Some(Active)
    && objs[Marker(p, r)].payload.sha256 == objs[Meta(p, r)].payload.sha256
  }

  /** The store never shows a release as active unless it can be restored. */
  ghost predicate Coherent(s: Scheme, objs: Objects) {
    forall p, r :: Marker(p, r) in objs ==> Durable(s, objs, p, r)
  }

  function ProjectKeys(objs: Objects, p: string): set<Key> {
    set k | k in objs && k.project == p
  }

  /** Activation time and name of every release of `p` that has an activation marker. */
  function ActiveRows(objs: Objects, p: string): set<Row> {
    set k | k in objs && k.Marker? && k.project == p && SafeRelease(k.release)
            && objs[k].Doc? && objs[k].payload.activatedAt.Some?
      :: Row(objs[k].payload.activatedAt.value, k.release)
  }

  lemma InActiveRows(s: Scheme, objs: Objects, p: string, r: string)
    requires ValidMarker(s, objs, p, r)
    ensures Row(objs[Marker(p, r)].payload.activatedAt.value, r) in ActiveRows(objs, p)
  {
  }

  // ----- backup ---------------------------------------------------------------------------

  function CandidateOf(s: Scheme, p: string, r: string, archive: Object): Payload {
    Payload(p, r, s.hash(archive), Some(Candidate), Some(s.size(archive)), None)
  }

  function WithArchive(objs: Objects, p: string, r: string, archive: Object): Objects {
    objs[Archive(p, r) := archive]
  }

  function BackedUp(s: Scheme, objs: Objects, p: string, r: string, archive: Object): Objects {
    WithArchive(objs, p, r, archive)[Meta(p, r) := Signed(s, CandidateOf(s, p, r, archive))]
  }

  // ----- promotion ------------------------------------------------------------------------

  function ActiveOf(q: Payload, now: int): Payload { q.(phase := Some(Active), activatedAt := Some(now)) }

  function MarkerOf(q: Payload, now: int): Payload {
    Payload(q.project, q.release, q.sha256, None, None, Some(now))
  }

  /** The store after the first `n` of the three writes of a promotion. */
  function Promotion(s: Scheme, objs: Objects, p: string, r: string, now: int, n: nat): (out: Objects)
    requires Promotable(s, objs, p, r) && n <= 3
  {
    var q := objs[Meta(p, r)].payload;
    var one := objs[Meta(p, r) := Signed(s, ActiveOf(q, now))];
    var two := one[Marker(p, r) := Signed(s, MarkerOf(q, now))];
    if n == 0 then objs
    else if n == 1 then one
    else if n == 2 then two
    else two[Latest(p) := Signed(s, MarkerOf(q, now))]
  }

  /** Marker, metadata and pointer all name `r` as activated at `now`, and the archive matches. */
  ghost predicate Committed(s: Scheme, objs: Objects, p: string, r: string, now: int) {
    && Durable(s, objs, p, r)
    && objs[Marker(p, r)].payload.activatedAt == Some(now)
    && objs[Meta(p, r)].payload.activatedAt == Some(now)
    && Latest(p) in objs && objs[Latest(p)] == objs[Marker(p, r)]
  }

  // ----- deletion -------------------------------------------------------------------------

  predicate Submap(small: Objects, big: Objects) {
    forall k :: k in small ==> k in big && small[k] == big[k]
  }

  /** Nothing of a release disappears while its activation marker remains. */
  ghost predicate MarkerFirst(before: Objects, after: Objects) {
    && Submap(after, before)
    && forall k :: k in before && k !in after ==> !k.Latest? && Marker(k.project, k.release) !in after
  }

  /** An archive disappears after the metadata that describes it. */
  ghost predicate ArchiveLast(before: Objects, after: Objects) {
    forall p, r :: Archive(p, r) in before && Archive(p, r) !in after ==> Meta(p, r) !in after
  }

  /** Whatever is gone went in the order marker, metadata, archive. */
  ghost predicate DeletedInOrder(before: Objects, after: Objects) {
    MarkerFirst(before, after) && ArchiveLast(before, after)
  }

  /** The first `n` keys of a release in the order in which they are deleted. */
  function KeysInOrder(p: string, r: string, n: nat): set<Key> {
    (if n >= 1 then {Marker(p, r)} else {}) + (if n >= 2 then {Meta(p, r)} else {})
    + (if n >= 3 then {Archive(p, r)} else {})
  }

  function KeysOf(p: string, r: string): set<Key> { KeysInOrder(p, r, 3) }

  /** Deletions confined to one release. */
  ghost predicate OnlyLoses(before: Objects, after: Objects, p: string, r: string) {
    Submap(after, before) && forall k :: k in before && k !in KeysOf(p, r) ==> k in after
  }

  /** `row` has at least `keep` rows newer than itself. */
  ghost predicate Surplus(rows: set<Row>, row: Row, keep: nat) {
    exists newer: seq<Row> :: Outranked(rows, row, keep, newer)
  }

  ghost predicate Outranked(rows: set<Row>, row: Row, keep: nat, newer: seq<Row>) {
    |newer| == keep && Descending(newer) && forall x :: x in newer ==> x in rows && Newer(x, row)
  }

  /** Retention: only keys of releases that `keep` newer active releases outrank may go. */
  ghost predicate Retires(before: Objects, after: Objects, p: string, keep: nat) {
    && Submap(after, before)
    && forall k :: k in before && k !in after ==>
         && k.project == p && !k.Latest?
         && exists t ::
              Row(t, k.release) in ActiveRows(before, p) && Surplus(ActiveRows(before, p), Row(t, k.release), keep)
  }

  // ----- the answer of /restore latest ------------------------------------------------------

  predicate PointerLive(s: Scheme, objs: Objects, p: string) {
    Latest(p) in objs && objs[Latest(p)].Doc? && ValidMarker(s, objs, p, objs[Latest(p)].payload.release)
  }

  /** The pointer, if present, passes the integrity checks of `latest_release`. */
  predicate PointerSound(s: Scheme, objs: Objects, p: string) {
    Latest(p) in objs ==>
      && Genuine(s, objs[Latest(p)])
      && objs[Latest(p)].payload.project == p
      && SafeRelease(objs[Latest(p)].payload.release)
      && (PointerLive(s, objs, p) ==>
            objs[Marker(p, objs[Latest(p)].payload.release)].payload.sha256 == objs[Latest(p)].payload.sha256)
  }

  ghost function NewestActive(objs: Objects, p: string): Option<string> {
    var rows := Listing(ActiveRows(objs, p));
    if rows == [] then None else Some(rows[0].name)
  }

  /** The release that `latest_release` is meant to name. */
  ghost function Answer(s: Scheme, objs: Objects, p: string): Option<string> {
    if PointerLive(s, objs, p) then Some(objs[Latest(p)].payload.release) else NewestActive(objs, p)
  }

  /** A live pointer names the newest active release. */
  ghost predicate PointerCurrent(s: Scheme, objs: Objects, p: string) {
    PointerLive(s, objs, p) ==> NewestActive(objs, p) == Some(objs[Latest(p)].payload.release)
  }

  /** `now` is later than every activation recorded for `p`. */
  ghost predicate LaterThanAll(objs: Objects, p: string, now: int) {
    forall row :: row in ActiveRows(objs, p) ==> row.time < now
  }

  // ----- what can be left behind --------------------------------------------------------------

  /** Some keys of one release are gone; if deletes never fail, they went in order. */
  ghost predicate Erasing(before: Objects, after: Objects, p: string, r: string, steady: bool) {
    OnlyLoses(before, after, p, r) && (steady ==> DeletedInOrder(before, after))
  }

  ghost predicate Retiring(before: Objects, after: Objects, p: string, keep: nat, steady: bool) {
    Retires(before, after, p, keep) && (steady ==> DeletedInOrder(before, after))
  }

  /** Any state in which `backup_release` can stop, normally or not. */
  ghost predicate BackupLeaves(s: Scheme, before: Objects, after: Objects, p: string, r: string,
                               archive: Object, steady: bool) {
    || Erasing(before, after, p, r, steady)
    || Erasing(WithArchive(before, p, r, archive), after, p, r, steady)
    || Erasing(BackedUp(s, before, p, r, archive), after, p, r, steady)
  }

  /** Any state in which `promote_release` can stop short of its third write. */
  ghost predicate PromotionLeaves(s: Scheme, before: Objects, after: Objects, p: string, r: string, now: int) {
    after == before
    || (Promotable(s, before, p, r)
        && (after == Promotion(s, before, p, r, now, 1) || after == Promotion(s, before, p, r, now, 2)
            || after == Promotion(s, before, p, r, now, 3)))
  }

  // ----- who signed what ----------------------------------------------------------------------

  datatype Entry = Entry(project: string, release: string, sha256: string)

  /** History of the service: payloads it signed, archives whose hash `backup_release` computed,
      and archives that `promote_release` signed as active. */
  datatype Ledger = Ledger(signed: set<Payload>, archived: set<Entry>, committed: set<Entry>)

  function EntryOf(q: Payload): Entry { Entry(q.project, q.release, q.sha256) }

  /** Every correctly signed document in the store was signed by the service. */
  ghost predicate Unforged(objs: Objects, l: Ledger) {
    forall k :: k in objs && objs[k].Doc? && objs[k].signature == MacOf(objs[k].payload)
      ==> objs[k].payload in l.signed
  }

  /** Every payload the service signed goes back to a backup, and one that carries an activation
      time to a promotion as well. */
  ghost predicate Accounted(l: Ledger) {
    forall q :: q in l.signed ==> EntryOf(q) in l.archived && (q.activatedAt.Some? ==> EntryOf(q) in l.committed)
  }

  ghost predicate Trustworthy(s: Scheme, objs: Objects, l: Ledger) {
    s.keyed ==> Unforged(objs, l) && Accounted(l)
  }

  /** What happened between two observations of the store: a backup or a promotion, complete or
      not; any other call; or the contents being rewritten by someone who does not have the key. */
  datatype Deed =
    | Backing(project: string, release: string, archive: Object)
    | Promoting(project: string, release: string, sha256: string)
    | Other
    | Rewriting

  /** The objects and the history behind them. */
  datatype StoreView = StoreView(objects: Objects, ledger: Ledger)

  ghost predicate DeedLeaves(s: Scheme, before: StoreView, after: StoreView, deed: Deed) {
    && (Trustworthy(s, before.objects, before.ledger) && !deed.Rewriting? ==>
          Trustworthy(s, after.objects, after.ledger))
    && (deed.Rewriting? ==> Unforged(after.objects, after.ledger) && after.ledger.signed == before.ledger.signed)
    && after.ledger.archived <= before.ledger.archived +
         (if deed.Backing? then {Entry(deed.project, deed.release, s.hash(deed.archive))} else {})
    && (forall e :: e in after.ledger.committed && e !in before.ledger.committed ==>
          deed.Promoting? && e == Entry(deed.project, deed.release, deed.sha256))
    && (deed.Rewriting? ==> before.ledger == after.ledger)
  }

  /** The hash that a promotion of `r` would sign. */
  function HashToSign(objs: Objects, p: string, r: string): string {
    if Meta(p, r) in objs && objs[Meta(p, r)].Doc? then objs[Meta(p, r)].payload.sha256 else ""
  }

  // ----- deletions compose --------------------------------------------------------------------

  lemma OrderIsTransitive(a: Objects, b: Objects, c: Objects)
    requires DeletedInOrder(a, b) && DeletedInOrder(b, c)
    ensures DeletedInOrder(a, c)
  {
  }

  lemma RetireOneMore(a: Objects, b: Objects, c: Objects, p: string, row: Row, keep: nat, steady: bool)
    requires Retiring(a, b, p, keep, steady) && Erasing(b, c, p, row.name, steady)
    requires row in ActiveRows(a, p) && Surplus(ActiveRows(a, p), row, keep)
    ensures Retiring(a, c, p, keep, steady)
  {
    if steady { OrderIsTransitive(a, b, c); }
    forall k | k in a && k !in c
      ensures k.project == p && !k.Latest?
      ensures exists t :: Row(t, k.release) in ActiveRows(a, p) && Surplus(ActiveRows(a, p), Row(t, k.release), keep)
    {
      if k in b {
        assert k in KeysOf(p, row.name);
        assert Row(row.time, k.release) == row;
      }
    }
  }

  function KeysOfRows(p: string, rows: seq<Row>): set<Key> {
    set i, k | 0 <= i < |rows| && k in KeysOf(p, rows[i].name) :: k
  }

  lemma KeysOfRowsAppend(p: string, rows: seq<Row>, row: Row)
    ensures KeysOfRows(p, rows + [row]) == KeysOfRows(p, rows) + KeysOf(p, row.name)
  {
    var more := rows + [row];
    forall k | k in KeysOfRows(p, rows) + KeysOf(p, row.name) ensures k in KeysOfRows(p, more) {
      if k in KeysOfRows(p, rows) {
        var i :| 0 <= i < |rows| && k in KeysOf(p, rows[i].name);
        assert more[i] == rows[i];
      } else {
        assert more[|rows|] == row;
      }
    }
  }

  lemma InKeysOfRows(p: string, rows: seq<Row>, k: Key)
    ensures k in KeysOfRows(p, rows) <==> exists row :: row in rows && k in KeysOf(p, row.name)
  {
  }

  lemma ActiveRow(objs: Objects, p: string, x: Row)
    ensures x in ActiveRows(objs, p) <==>
            var k := Marker(p, x.name);
            k in objs && SafeRelease(x.name) && objs[k].Doc? && objs[k].payload.activatedAt == Some(x.time)
  {
  }

  lemma Partition(all: seq<Row>, keep: nat, x: Row)
    requires Descending(all) && keep <= |all|
    ensures x in all <==> x in all[..keep] || x in all[keep..]
    ensures !(x in all[..keep] && x in all[keep..])
  {
    assert all == all[..keep] + all[keep..];
    forall i, j | 0 <= i < keep <= j < |all| ensures all[i] != all[j] {
      NewerTotal(all[i], all[j]);
    }
  }

  /** Deleting everything but the newest `keep` releases leaves exactly those. */
  lemma KeptRows(objs: Objects, p: string, keep: nat)
    requires |Listing(ActiveRows(objs, p))| > keep
    ensures var all := Listing(ActiveRows(objs, p));
            Listing(ActiveRows(objs - KeysOfRows(p, all[keep..]), p)) == all[..keep]
  {
    var all := Listing(ActiveRows(objs, p));
    var after := objs - KeysOfRows(p, all[keep..]);
    forall x ensures x in ActiveRows(after, p) <==> x in all[..keep] {
      KeptRow(objs, p, keep, all, x);
    }
    assert Descending(all[..keep]);
    ListingIs(all[..keep], ActiveRows(after, p));
  }

  lemma KeptRow(objs: Objects, p: string, keep: nat, all: seq<Row>, x: Row)
    requires ListingOf(all, ActiveRows(objs, p)) && keep <= |all|
    ensures x in ActiveRows(objs - KeysOfRows(p, all[keep..]), p) <==> x in all[..keep]
  {
    var k := Marker(p, x.name);
    ActiveRow(objs, p, x);
    ActiveRow(objs - KeysOfRows(p, all[keep..]), p, x);
    Partition(all, keep, x);
    InKeysOfRows(p, all[keep..], k);
    if x in all[keep..] {
      assert k in KeysOf(p, x.name);
    } else if x in all && k in KeysOfRows(p, all[keep..]) {
      var y :| y in all[keep..] && k in KeysOf(p, y.name);
      Partition(all, keep, y);
      ActiveRow(objs, p, y);
    }
  }

  /** Signing the two documents of a promotion of a genuine metadata document. */
  function LedgerOfPromotion(l: Ledger, q: Payload, now: int): Ledger {
    Signs(Signs(Commits(l, EntryOf(q)), ActiveOf(q, now)), MarkerOf(q, now))
  }

  lemma PromotionAccounted(s: Scheme, objs: Objects, l: Ledger, p: string, r: string, now: int)
    requires Trustworthy(s, objs, l) && Promotable(s, objs, p, r)
    ensures Trustworthy(s, objs, LedgerOfPromotion(l, objs[Meta(p, r)].payload, now))
  {
  }

  function Signs(l: Ledger, q: Payload): Ledger { l.(signed := l.signed + {q}) }

  function Archives(l: Ledger, e: Entry): Ledger { l.(archived := l.archived + {e}) }

  function Commits(l: Ledger, e: Entry): Ledger { l.(committed := l.committed + {e}) }

  /** Whatever else was rewritten in the store, a release that passes the checks of a download was
      archived by a backup and signed by a promotion under its own name. */
  lemma AuthenticIfDurable(s: Scheme, objs: Objects, l: Ledger, p: string, r: string)
    requires s.keyed && Trustworthy(s, objs, l) && Durable(s, objs, p, r)
    ensures var e := Entry(p, r, s.hash(objs[Archive(p, r)])); e in l.archived && e in l.committed
  {
  }

  /** Listing depends on the marker documents alone. */
  lemma SameActiveRows(a: Objects, b: Objects, p: string)
    requires forall k :: k != Latest(p) ==> (k in a <==> k in b) && (k in a ==> a[k] == b[k])
    ensures ActiveRows(a, p) == ActiveRows(b, p)
  {
  }
}
