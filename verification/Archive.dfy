/** ZIP extraction: `_safe_extract_zip` and `_flatten_single_root`. */
module Archive {
  import opened Prelude
  import opened Paths

  const CHUNK := 1048576

  /** A member as the ZIP directory lists it. */
  datatype RawMember = RawMember(name: string, link: bool, declared: int, content: Bytes)

  /** A member with its name parsed: `target` is `None` if the name is refused. */
  datatype Member = Member(target: Option<Path>, dir: bool, link: bool, declared: int, content: Bytes)

  datatype Limits = Limits(maxUpload: int, maxFiles: int, maxBytes: int)

  function Parse(u: Unicode, m: RawMember): (r: Member)
    ensures r.target.Some? ==> Clean(r.target.value)
  {
    Member(MemberPath(u, StripSlashes(m.name)), m.name != "" && m.name[|m.name| - 1] == '/',
           m.link, m.declared, m.content)
  }

  function ParseAll(u: Unicode, ms: seq<RawMember>): (out: seq<Member>)
    ensures |out| == |ms| && forall i :: 0 <= i < |ms| ==> out[i] == Parse(u, ms[i])
  {
    seq(|ms|, i requires 0 <= i < |ms| => Parse(u, ms[i]))
  }

  predicate Parsed(ms: seq<Member>) {
    forall m :: m in ms && m.target.Some? ==> Clean(m.target.value)
  }

  predicate Named(m: Member) { m.target.Some? && m.target.value != MANIFEST && !m.link }

  /** What every member has to satisfy on its own. */
  predicate Admissible(m: Member) { Named(m) && m.target.value != [] }

  function Positive(n: int): nat { if n > 0 then n else 0 }

  function TotalDeclared(ms: seq<Member>): nat {
    if ms == [] then 0 else TotalDeclared(ms[..|ms| - 1]) + Positive(ms[|ms| - 1].declared)
  }

  /** Bytes unpacked: directories have none. */
  function Unpacked(m: Member): nat { if m.dir then 0 else |m.content| }

  function TotalUnpacked(ms: seq<Member>): nat {
    if ms == [] then 0 else TotalUnpacked(ms[..|ms| - 1]) + Unpacked(ms[|ms| - 1])
  }

  function Elements(ms: seq<Member>): set<Member> { set m | m in ms }

  function Targets(ms: set<Member>): set<Path> {
    set m | m in ms && m.target.Some? :: m.target.value
  }

  /** A file stands where another member needs a directory. */
  predicate Clash(ms: set<Member>) {
    exists a, b :: a in ms && b in ms && ClashPair(a, b)
  }

  predicate ClashPair(a: Member, b: Member) {
    !a.dir && a.target.Some? && b.target.Some? && Under(a.target.value, b.target.value)
  }

  /** The archives that are accepted, said without reference to the order of the members. */
  ghost predicate Accepts(limits: Limits, ms: seq<Member>) {
    && |ms| <= limits.maxFiles
    && TotalDeclared(ms) <= limits.maxBytes
    && TotalUnpacked(ms) <= limits.maxBytes
    && (forall m :: m in ms ==> Admissible(m) && Unpacked(m) <= Positive(m.declared + 1024))
    && |Targets(Elements(ms))| == |ms|
    && !Clash(Elements(ms))
  }

  predicate Denotes(m: Member, p: Path) { !m.dir && m.target == Some(p) }

  function Places(ms: set<Member>): set<Path> {
    set m, p | m in ms && m.target.Some? && p in Prefixes(m.target.value) :: p
  }

  ghost function NodeAt(ms: set<Member>, p: Path): Node {
    if m :| m in ms && Denotes(m, p) then File(m.content) else Dir
  }

  /** The directory tree a set of members unpacks to. */
  ghost function TreeOf(ms: set<Member>): Tree {
    map p | p in Places(ms) :: NodeAt(ms, p)
  }

  /** No two members of `ms` have the same target. */
  ghost predicate Distinct(ms: set<Member>) {
    forall a, b :: a in ms && b in ms && a.target.Some? && a.target == b.target ==> a == b
  }

  lemma NodeIs(ms: set<Member>, m: Member, p: Path)
    requires Distinct(ms) && m in ms && Denotes(m, p)
    ensures NodeAt(ms, p) == File(m.content)
  {
  }

  // ----- first pass: names ------------------------------------------------------------------------

  ghost predicate NamesAccepted(ms: seq<Member>) {
    (forall m :: m in ms ==> Named(m)) && |Targets(Elements(ms))| == |ms|
  }

  predicate TargetsAre(ms: seq<Member>, paths: seq<Path>) {
    |ms| == |paths| && forall i :: 0 <= i < |ms| ==> ms[i].target == Some(paths[i])
  }

  predicate NoRepeats(paths: seq<Path>) { forall i, j :: 0 <= i < j < |paths| ==> paths[i] != paths[j] }

  function TextsOf(paths: seq<Path>): set<string> { set p | p in paths :: Posix(p) }

  lemma TextSeen(paths: seq<Path>, path: Path)
    requires Clean(path) && forall p :: p in paths ==> Clean(p)
    ensures Posix(path) in TextsOf(paths) <==> path in paths
  {
    forall p | p in paths ensures Posix(p) == Posix(path) <==> p == path {
      SameTextSameTarget(p, path);
    }
  }

  /** Refuses unsafe names, the manifest name, links and paths that repeat after normalization. */
  method CheckMembers(ms: seq<Member>) returns (out: Outcome<seq<Path>>)
    requires Parsed(ms)
    ensures !out.Crashed? && (out.Raised? ==> out.fault == Rejected)
    ensures out.Done? <==> NamesAccepted(ms)
    ensures out.Done? ==> TargetsAre(ms, out.value) && NoRepeats(out.value)
  {
    var paths: seq<Path>, texts: set<string> := [], {};
    for i := 0 to |ms|
      invariant TargetsAre(ms[..i], paths) && NoRepeats(paths)
      invariant |Targets(Elements(ms[..i]))| == i
      invariant forall m :: m in ms[..i] ==> Named(m)
      invariant forall p :: p in paths ==> Clean(p)
      invariant texts == TextsOf(paths)
    {
      assert ms[i] in ms && ms[..i + 1] == ms[..i] + [ms[i]];
      var path := ms[i].target;
      if !Named(ms[i]) { return Raised(Rejected); }
      TextSeen(paths, path.value);
      if Posix(path.value) in texts {
        Repetition(ms, i, paths);
        return Raised(Rejected);
      }
      NewTarget(ms, i, paths);
      texts, paths := texts + {Posix(path.value)}, paths + [path.value];
    }
    assert ms[..|ms|] == ms;
    return Done(paths);
  }

  lemma Repetition(ms: seq<Member>, i: nat, paths: seq<Path>)
    requires i < |ms| && TargetsAre(ms[..i], paths) && ms[i].target.Some? && ms[i].target.value in paths
    ensures |Targets(Elements(ms))| < |ms|
  {
    var k :| 0 <= k < i && paths[k] == ms[i].target.value;
    assert ms[..i][k] == ms[k];
    RepeatedTarget(ms, i);
  }

  lemma TargetsAppend(ms: seq<Member>, i: nat)
    requires i < |ms|
    ensures Targets(Elements(ms[..i + 1])) ==
            Targets(Elements(ms[..i])) + (if ms[i].target.Some? then {ms[i].target.value} else {})
  {
  }

  lemma {:induction false} AtMostOneTargetEach(ms: seq<Member>)
    ensures |Targets(Elements(ms))| <= |ms|
  {
    if ms != [] {
      var n := |ms| - 1;
      AtMostOneTargetEach(ms[..n]);
      TargetsAppend(ms, n);
      assert ms[..n + 1] == ms;
    }
  }

  /** A repeated target can never be made up for by later members. */
  lemma RepeatedTarget(ms: seq<Member>, i: nat)
    requires i < |ms| && ms[i].target.Some?
    requires exists k :: 0 <= k < i && ms[k].target == ms[i].target
    ensures |Targets(Elements(ms))| < |ms|
    decreases |ms|
  {
    var n := |ms| - 1;
    TargetsAppend(ms, n);
    assert ms[..n + 1] == ms;
    if i == n {
      var k :| 0 <= k < i && ms[k].target == ms[i].target;
      assert ms[k] in Elements(ms[..n]) by { assert ms[..n][k] == ms[k]; }
      AtMostOneTargetEach(ms[..n]);
    } else {
      var k :| 0 <= k < i && ms[k].target == ms[i].target;
      assert ms[..n][k] == ms[k] && ms[..n][i] == ms[i];
      RepeatedTarget(ms[..n], i);
    }
  }

  lemma NewTarget(ms: seq<Member>, i: nat, paths: seq<Path>)
    requires i < |ms| && TargetsAre(ms[..i], paths) && ms[i].target.Some? && ms[i].target.value !in paths
    ensures |Targets(Elements(ms[..i + 1]))| == |Targets(Elements(ms[..i]))| + 1
  {
    TargetsAppend(ms, i);
    forall m | m in Elements(ms[..i]) ensures m.target != ms[i].target {
      var k :| 0 <= k < i && ms[..i][k] == m;
      assert paths[k] in paths;
    }
  }

  // ----- second pass: contents --------------------------------------------------------------------

  /** Copies one member chunk by chunk, watching its declared size and the overall limit. */
  method CopyChunks(content: Bytes, declared: int, before: nat, limit: int) returns (out: Outcome<nat>)
    ensures !out.Crashed? && (out.Raised? ==> out.fault == Rejected)
    ensures out.Done? <==> |content| == 0 || (|content| <= declared + 1024 && before + |content| <= limit)
    ensures out.Done? ==> out.value == before + |content|
  {
    var written, total := 0, before;
    while written < |content|
      invariant 0 <= written <= |content| && total == before + written
      invariant written > 0 ==> written <= declared + 1024 && total <= limit
    {
      var chunk := if |content| - written < CHUNK then |content| - written else CHUNK;
      written, total := written + chunk, total + chunk;
      if written > declared + 1024 || total > limit { return Raised(Rejected); }
    }
    return Done(total);
  }

  function NewDirs(p: Path, taken: set<Path>): Tree {
    map q | q in Prefixes(p) && q !in taken :: Dir
  }

  predicate Blocked(tree: Tree, p: Path) { exists q :: q in Prefixes(p) && q in tree && tree[q].File? }

  function Parent(p: Path): Path
    requires p != []
  {
    p[..|p| - 1]
  }

  /** `mkdir(parents=True, exist_ok=True)` and, for a file, opening the target for writing. */
  method Place(tree: Tree, m: Member) returns (out: Outcome<Tree>)
    requires Admissible(m)
    ensures !out.Crashed? && (out.Raised? ==> out.fault == Broken)
    ensures var p := m.target.value;
      if m.dir then
        && (out.Done? <==> !Blocked(tree, p))
        && (out.Done? ==> out.value == tree + NewDirs(p, tree.Keys))
      else
        && (out.Done? <==> !Blocked(tree, Parent(p)) && !(p in tree && tree[p].Dir?))
        && (out.Done? ==> out.value == (tree + NewDirs(Parent(p), tree.Keys))[p := File(m.content)])
  {
    var p := m.target.value;
    var folder := if m.dir then p else Parent(p);
    if Blocked(tree, folder) { return Raised(Broken); }
    var made := tree + NewDirs(folder, tree.Keys);
    if m.dir { return Done(made); }
    assert p !in Prefixes(folder);
    if p in made && made[p].Dir? { return Raised(Broken); }
    return Done(made[p := File(m.content)]);
  }

  lemma PrefixesOfParent(p: Path)
    requires p != []
    ensures Prefixes(p) == Prefixes(Parent(p)) + {p}
  {
    forall q | q in Prefixes(p) ensures q == p || q in Prefixes(Parent(p)) {
      var k :| 1 <= k <= |p| && q == p[..k];
      if k < |p| { assert Parent(p)[..k] == q; }
    }
    forall q | q in Prefixes(Parent(p)) ensures q in Prefixes(p) {
      var k :| 1 <= k < |p| && q == Parent(p)[..k];
      assert p[..k] == q;
    }
    assert p[..|p|] == p;
  }

  lemma UnderIsPrefix(q: Path, p: Path)
    ensures Under(q, p) && q != [] ==> q in Prefixes(p)
    ensures q in Prefixes(p) ==> q == p || Under(q, p)
  {
  }

  predicate NewMember(ms: set<Member>, m: Member) {
    m.target.Some? && m.target.value != [] && m.target.value !in Targets(ms)
  }

  lemma StillDistinct(ms: set<Member>, m: Member)
    requires Distinct(ms) && NewMember(ms, m)
    ensures Distinct(ms + {m})
  {
  }

  lemma GrowTreeByDir(ms: set<Member>, m: Member)
    requires Distinct(ms) && NewMember(ms, m) && m.dir
    ensures TreeOf(ms + {m}) == TreeOf(ms) + NewDirs(m.target.value, TreeOf(ms).Keys)
  {
    StillDistinct(ms, m);
    PlacesGrow(ms, m);
    var want, grown := TreeOf(ms + {m}), TreeOf(ms) + NewDirs(m.target.value, TreeOf(ms).Keys);
    assert want.Keys == grown.Keys;
    forall q | q in want ensures want[q] == grown[q] { OtherNodesStay(ms, m, q); }
  }

  lemma GrowTreeByFile(ms: set<Member>, m: Member)
    requires Distinct(ms) && NewMember(ms, m) && !m.dir
    ensures TreeOf(ms + {m}) ==
            (TreeOf(ms) + NewDirs(Parent(m.target.value), TreeOf(ms).Keys))[m.target.value := File(m.content)]
  {
    var p := m.target.value;
    StillDistinct(ms, m);
    PlacesGrow(ms, m);
    PrefixesOfParent(p);
    var want, grown := TreeOf(ms + {m}), (TreeOf(ms) + NewDirs(Parent(p), TreeOf(ms).Keys))[p := File(m.content)];
    assert want.Keys == grown.Keys;
    forall q | q in want ensures want[q] == grown[q] {
      if q == p { NodeIs(ms + {m}, m, p); } else { OtherNodesStay(ms, m, q); }
    }
  }

  /** Unpacking one more member extends the tree as `Place` does. */
  lemma GrowTree(ms: set<Member>, m: Member)
    requires Distinct(ms) && NewMember(ms, m)
    ensures var p := m.target.value; var tree := TreeOf(ms);
      TreeOf(ms + {m}) == if m.dir then tree + NewDirs(p, tree.Keys)
                          else (tree + NewDirs(Parent(p), tree.Keys))[p := File(m.content)]
    ensures Distinct(ms + {m})
  {
    StillDistinct(ms, m);
    if m.dir { GrowTreeByDir(ms, m); } else { GrowTreeByFile(ms, m); }
  }

  lemma PlacesGrow(ms: set<Member>, m: Member)
    requires m.target.Some?
    ensures Places(ms + {m}) == Places(ms) + Prefixes(m.target.value)
  {
  }

  lemma OtherNodesStay(ms: set<Member>, m: Member, q: Path)
    requires Distinct(ms) && Distinct(ms + {m}) && q != [] && !Denotes(m, q)
    ensures NodeAt(ms + {m}, q) == NodeAt(ms, q)
    ensures q !in Places(ms) ==> NodeAt(ms + {m}, q) == Dir
  {
    var more := ms + {m};
    assert forall a :: a in more && Denotes(a, q) ==> a in ms;
    if a :| a in ms && Denotes(a, q) {
      NodeIs(ms, a, q);
      NodeIs(more, a, q);
      OwnPlace(ms, a);
    }
  }

  lemma OwnPlace(ms: set<Member>, a: Member)
    requires a in ms && a.target.Some? && a.target.value != []
    ensures a.target.value in Places(ms)
  {
    var p := a.target.value;
    assert p == p[..|p|] && p in Prefixes(p);
  }

  /** Placing a member fails exactly when it clashes with one placed before. */
  lemma FailureIsClash(ms: set<Member>, m: Member)
    requires Distinct(ms) && !Clash(ms) && (forall a :: a in ms ==> Admissible(a))
    requires Admissible(m) && m.target.value !in Targets(ms)
    ensures var p := m.target.value; var tree := TreeOf(ms);
      Clash(ms + {m}) <==> if m.dir then Blocked(tree, p)
                           else Blocked(tree, Parent(p)) || (p in tree && tree[p].Dir?)
  {
    var p := m.target.value;
    var tree := TreeOf(ms);
    PrefixesOfParent(p);
    BlockedIffFileAbove(ms, m);
    BuriedIffBelow(ms, m);
    if Clash(ms + {m}) {
      var a, b :| a in ms + {m} && b in ms + {m} && ClashPair(a, b);
      assert a == m || b == m;
    }
    assert p !in tree || tree[p].Dir?;
  }

  lemma BlockedIffFileAbove(ms: set<Member>, m: Member)
    requires Distinct(ms) && (forall a :: a in ms ==> Admissible(a))
    requires Admissible(m) && m.target.value !in Targets(ms)
    ensures Blocked(TreeOf(ms), m.target.value) <==> exists a :: a in ms && ClashPair(a, m)
    ensures Blocked(TreeOf(ms), Parent(m.target.value)) <==> Blocked(TreeOf(ms), m.target.value)
  {
    var p := m.target.value;
    var tree := TreeOf(ms);
    PrefixesOfParent(p);
    if Blocked(tree, p) {
      var q :| q in Prefixes(p) && q in tree && tree[q].File?;
      var a :| a in ms && Denotes(a, q);
      UnderIsPrefix(q, p);
      assert ClashPair(a, m) && q in Prefixes(Parent(p));
    }
    if a :| a in ms && ClashPair(a, m) {
      var q := a.target.value;
      UnderIsPrefix(q, p);
      NodeIs(ms, a, q);
      OwnPlace(ms, a);
    }
  }

  lemma BuriedIffBelow(ms: set<Member>, m: Member)
    requires Distinct(ms) && Admissible(m) && m.target.value !in Targets(ms)
    ensures m.target.value in TreeOf(ms) <==>
            exists b :: b in ms && b.target.Some? && Under(m.target.value, b.target.value)
    ensures m.target.value in TreeOf(ms) ==> TreeOf(ms)[m.target.value] == Dir
  {
    var p := m.target.value;
    if p in TreeOf(ms) {
      var b :| b in ms && b.target.Some? && p in Prefixes(b.target.value);
      UnderIsPrefix(p, b.target.value);
    }
    if b :| b in ms && b.target.Some? && Under(p, b.target.value) {
      UnderIsPrefix(p, b.target.value);
    }
  }

  lemma {:induction false} TotalUnpackedGrows(ms: seq<Member>, i: nat)
    requires i <= |ms|
    ensures TotalUnpacked(ms[..i]) <= TotalUnpacked(ms)
    decreases |ms|
  {
    if i < |ms| {
      TotalUnpackedGrows(ms[..|ms| - 1], i);
      assert ms[..|ms| - 1][..i] == ms[..i];
    } else {
      assert ms[..i] == ms;
    }
  }

  lemma ElementsAppend(ms: seq<Member>, i: nat)
    requires i < |ms|
    ensures Elements(ms[..i + 1]) == Elements(ms[..i]) + {ms[i]} && Elements(ms[..i + 1]) <= Elements(ms)
    ensures TotalUnpacked(ms[..i + 1]) == TotalUnpacked(ms[..i]) + Unpacked(ms[i])
  {
    assert ms[..i + 1] == ms[..i] + [ms[i]];
    assert ms[..i + 1][..i] == ms[..i];
  }

  lemma FreshTarget(ms: seq<Member>, i: nat, paths: seq<Path>)
    requires i < |ms| && TargetsAre(ms, paths) && NoRepeats(paths)
    ensures ms[i].target.Some? && ms[i].target.value !in Targets(Elements(ms[..i]))
  {
  }

  /** The part of acceptance that is decided while unpacking. */
  ghost predicate ContentsAccepted(limits: Limits, ms: seq<Member>) {
    && (forall m :: m in ms ==> Admissible(m) && Unpacked(m) <= Positive(m.declared + 1024))
    && TotalUnpacked(ms) <= limits.maxBytes
    && !Clash(Elements(ms))
  }

  /** Places one member and copies its bytes. */
  method UnpackOne(limits: Limits, m: Member, tree: Tree, total: nat) returns (out: Outcome<(Tree, nat)>)
    requires Named(m) && total <= limits.maxBytes
    ensures !out.Crashed? && (out.Raised? ==> out.fault == Rejected || out.fault == Broken)
    ensures out == Raised(Broken) <==>
      && m.target.value != []
      && (if m.dir then Blocked(tree, m.target.value)
          else Blocked(tree, Parent(m.target.value)) || (m.target.value in tree && tree[m.target.value].Dir?))
    ensures out.Done? <==>
      && Admissible(m) && Unpacked(m) <= Positive(m.declared + 1024) && total + Unpacked(m) <= limits.maxBytes
      && !(if m.dir then Blocked(tree, m.target.value)
           else Blocked(tree, Parent(m.target.value)) || (m.target.value in tree && tree[m.target.value].Dir?))
    ensures out.Done? ==> out.value.1 == total + Unpacked(m)
    ensures out.Done? ==>
      var p := m.target.value;
      out.value.0 == if m.dir then tree + NewDirs(p, tree.Keys)
                     else (tree + NewDirs(Parent(p), tree.Keys))[p := File(m.content)]
  {
    if m.target.value == [] { return Raised(Rejected); }   // resolves to the destination itself
    var placed := Place(tree, m);
    if placed.Raised? { return Raised(placed.fault); }
    if m.dir { return Done((placed.value, total)); }
    var copied := CopyChunks(m.content, m.declared, total, limits.maxBytes);
    if copied.Raised? { return Raised(copied.fault); }
    return Done((placed.value, copied.value));
  }

  lemma AcceptOneMore(limits: Limits, ms: seq<Member>, i: nat)
    requires i < |ms| && ContentsAccepted(limits, ms[..i])
    ensures ContentsAccepted(limits, ms[..i + 1]) <==>
      && Admissible(ms[i]) && Unpacked(ms[i]) <= Positive(ms[i].declared + 1024)
      && TotalUnpacked(ms[..i]) + Unpacked(ms[i]) <= limits.maxBytes
      && !Clash(Elements(ms[..i]) + {ms[i]})
    ensures !ContentsAccepted(limits, ms[..i + 1]) ==> !ContentsAccepted(limits, ms)
  {
    ElementsAppend(ms, i);
    TotalUnpackedGrows(ms, i + 1);
    assert ms[..i + 1] == ms[..i] + [ms[i]];
    assert forall m :: m in ms[..i + 1] ==> m in ms;
    assert ms[i] in ms[..i + 1];
    ClashGrows(Elements(ms[..i + 1]), Elements(ms));
  }

  lemma ClashGrows(some: set<Member>, all: set<Member>)
    requires some <= all
    ensures Clash(some) ==> Clash(all)
  {
  }

  method Unpack(limits: Limits, ms: seq<Member>, paths: seq<Path>) returns (out: Outcome<Tree>)
    requires NamesAccepted(ms) && TargetsAre(ms, paths) && NoRepeats(paths) && limits.maxBytes >= 0
    ensures !out.Crashed?
    ensures out.Raised? ==> out.fault == Rejected || (out.fault == Broken && Clash(Elements(ms)))
    ensures out.Done? <==> ContentsAccepted(limits, ms)
    ensures out.Done? ==> out.value == TreeOf(Elements(ms))
  {
    var tree: Tree, total: nat := map[], 0;
    assert TreeOf(Elements(ms[..0])) == map[];
    for i := 0 to |ms|
      invariant ContentsAccepted(limits, ms[..i]) && Distinct(Elements(ms[..i]))
      invariant tree == TreeOf(Elements(ms[..i])) && total == TotalUnpacked(ms[..i])
    {
      ghost var done := Elements(ms[..i]);
      assert ms[i] in ms;
      ElementsAppend(ms, i);
      FreshTarget(ms, i, paths);
      AcceptOneMore(limits, ms, i);
      var one := UnpackOne(limits, ms[i], tree, total);
      if Admissible(ms[i]) {
        assert forall a :: a in done ==> a in ms[..i];
        FailureIsClash(done, ms[i]);
        GrowTree(done, ms[i]);
      }
      if one.Raised? {
        ClashGrows(done + {ms[i]}, Elements(ms));
        return Raised(one.fault);
      }
      tree, total := one.value.0, one.value.1;
    }
    assert ms[..|ms|] == ms;
    return Done(tree);
  }

  // ----- single-root flattening ---------------------------------------------------------------------

  const MACOSX: Path := ["__MACOSX"]

  function WithoutMacos(t: Tree): Tree {
    if MACOSX in t && t[MACOSX].Dir? then map p | p in t && p != MACOSX && !Under(MACOSX, p) :: t[p] else t
  }

  function Roots(t: Tree): set<Path> { set p | p in t && |p| == 1 }

  /** The only entry of the root, if it is a folder. */
  function SingleRoot(t: Tree): (r: Option<Path>)
    ensures forall root :: r == Some(root) <==> Roots(t) == {root} && t[root].Dir?
  {
    assert forall a, b :: Roots(t) == {a} && Roots(t) == {b} ==> a == b by {
      forall a, b | Roots(t) == {a} && Roots(t) == {b} ensures a == b { assert a in {b}; }
    }
    if root :| root in t && Roots(t) == {root} && t[root].Dir? then Some(root) else None
  }

  function Below(t: Tree, root: Path): Tree {
    assert forall p :: p in t && Under(root, p) ==> root + p[|root|..] == p;
    map q | q in (set p | p in t && Under(root, p) :: p[|root|..]) :: t[root + q]
  }

  /** Drops the `__MACOSX` folder and then, if a single folder is left, makes it the root. */
  function Flatten(t: Tree): Tree {
    var rest := WithoutMacos(t);
    match SingleRoot(rest)
    case None => rest
    case Some(root) => Below(rest, root)
  }

  // ----- the whole extraction -------------------------------------------------------------------------

  method SumDeclared(ms: seq<Member>) returns (declared: nat)
    ensures declared == TotalDeclared(ms)
  {
    declared := 0;
    for i := 0 to |ms|
      invariant declared == TotalDeclared(ms[..i])
    {
      assert ms[..i + 1][..i] == ms[..i];
      declared := declared + Positive(ms[i].declared);
    }
    assert ms[..|ms|] == ms;
  }

  lemma ParsedAll(u: Unicode, raw: seq<RawMember>)
    ensures Parsed(ParseAll(u, raw))
  {
    var ms := ParseAll(u, raw);
    forall m | m in ms && m.target.Some? ensures Clean(m.target.value) {
      var i :| 0 <= i < |ms| && ms[i] == m;
    }
  }

  /** `_safe_extract_zip`: unpacks the archive, or refuses it as a whole. */
  method Extract(u: Unicode, limits: Limits, raw: seq<RawMember>) returns (out: Outcome<Tree>)
    ensures !out.Crashed?
    ensures |raw| > limits.maxFiles ==> out == Raised(Rejected)
    ensures TotalDeclared(ParseAll(u, raw)) > limits.maxBytes ==> out == Raised(Rejected)
    ensures out.Raised? ==> out.fault == Rejected || (out.fault == Broken && Clash(Elements(ParseAll(u, raw))))
    ensures out.Done? <==> Accepts(limits, ParseAll(u, raw))
    ensures out.Done? ==> out.value == Flatten(TreeOf(Elements(ParseAll(u, raw))))
  {
    var ms := ParseAll(u, raw);
    if |ms| > limits.maxFiles { return Raised(Rejected); }
    var declared := SumDeclared(ms);
    if declared > limits.maxBytes { return Raised(Rejected); }
    ParsedAll(u, raw);
    var paths := CheckMembers(ms);
    if paths.Raised? { return Raised(paths.fault); }
    var tree := Unpack(limits, ms, paths.value);
    if tree.Raised? { return Raised(tree.fault); }
    return Done(Flatten(tree.value));
  }

  // ----- from names to places ----------------------------------------------------------------------------

  /** A text that a member name may have, and the path it stands for. */
  ghost predicate Spells(u: Unicode, text: string, p: Path) {
    p != [] && Clean(p) && text == Posix(p) && Printable(u, text) && |text| <= 512 && u.nfc(text) == text
  }

  /** The name of a file is its path; a slash at the end makes it a directory. */
  lemma NamesAreParsed(u: Unicode, m: RawMember, text: string, p: Path)
    requires Spells(u, text, p)
    ensures m.name == text ==> Parse(u, m) == Member(Some(p), false, m.link, m.declared, m.content)
    ensures m.name == text + "/" ==> Parse(u, m) == Member(Some(p), true, m.link, m.declared, m.content)
  {
    PlainMemberPath(u, p);
    JoinEnds(p);
    SlashIsStripped(text);
  }

  lemma SlashIsStripped(text: string)
    requires text != "" && text[|text| - 1] != '/'
    ensures StripSlashes(text) == text && StripSlashes(text + "/") == text
  {
    var longer := text + "/";
    assert longer[..|longer| - 1] == text && longer[|longer| - 1] == '/';
  }

  lemma {:induction false} JoinEnds(p: Path)
    requires p != [] && Clean(p)
    ensures Join(p, '/') != "" && Join(p, '/')[|Join(p, '/')| - 1] != '/'
  {
    if |p| > 1 {
      assert forall part :: part in p[1..] ==> part in p;
      JoinEnds(p[1..]);
    } else {
      assert p[0] in p && p[0][|p[0]| - 1] in p[0];
    }
  }

  /** In an accepted archive a file member is unpacked, with its own bytes, to the whole path that its
      name spells. */
  lemma MemberIsUnpacked(u: Unicode, limits: Limits, raw: seq<RawMember>, m: RawMember, p: Path)
    requires m in raw && Spells(u, m.name, p) && Accepts(limits, ParseAll(u, raw))
    ensures var tree := TreeOf(Elements(ParseAll(u, raw))); p in tree && tree[p] == File(m.content)
  {
    var ms := ParseAll(u, raw);
    ParsedAll(u, raw);
    NamesAreParsed(u, m, m.name, p);
    var i :| 0 <= i < |raw| && raw[i] == m;
    assert ms[i] in ms;
    UnpackedFiles(limits, ms);
  }

  /** Links, and the name of the release manifest, make the whole archive unacceptable. */
  lemma MemberIsRefused(u: Unicode, limits: Limits, raw: seq<RawMember>, m: RawMember)
    requires m in raw
    requires m.link || (m.name == ".titanbox-release.json" && Printable(u, m.name) && u.nfc(m.name) == m.name)
    ensures !Accepts(limits, ParseAll(u, raw))
  {
    var i :| 0 <= i < |raw| && raw[i] == m;
    assert ParseAll(u, raw)[i] in ParseAll(u, raw);
    if !m.link { ManifestIsNamed(u, m, m.name); }
  }

  lemma ManifestIsNamed(u: Unicode, m: RawMember, name: string)
    requires m.name == name == ".titanbox-release.json" && Printable(u, name) && u.nfc(name) == name
    ensures Parse(u, m).target == Some(MANIFEST)
  {
    assert forall i :: 0 <= i < |name| ==> name[i] != '/';
    assert Clean([name]) && Posix([name]) == name;
    NamesAreParsed(u, m, name, [name]);
  }

  // ----- order does not matter --------------------------------------------------------------------------

  lemma {:induction false} TotalsOfRemoval(ms: seq<Member>, i: nat)
    requires i < |ms|
    ensures TotalDeclared(ms) == TotalDeclared(ms[..i] + ms[i + 1..]) + Positive(ms[i].declared)
    ensures TotalUnpacked(ms) == TotalUnpacked(ms[..i] + ms[i + 1..]) + Unpacked(ms[i])
    decreases |ms|
  {
    var n := |ms| - 1;
    var rest := ms[..i] + ms[i + 1..];
    if i == n {
      assert rest == ms[..n];
    } else {
      TotalsOfRemoval(ms[..n], i);
      assert rest[..n - 1] == ms[..n][..i] + ms[..n][i + 1..];
      assert rest[n - 1] == ms[n];
    }
  }

  /** Finds the last element of `a` in `b`; the rests are permutations of each other too. */
  lemma DropLast<T>(a: seq<T>, b: seq<T>) returns (i: nat)
    requires multiset(a) == multiset(b) && a != []
    ensures i < |b| && b[i] == a[|a| - 1]
    ensures multiset(a[..|a| - 1]) == multiset(b[..i] + b[i + 1..])
  {
    var n := |a| - 1;
    assert a[n] in multiset(a);
    assert a[n] in b;
    i :| 0 <= i < |b| && b[i] == a[n];
    assert a == a[..n] + [a[n]];
    assert b == b[..i] + [b[i]] + b[i + 1..];
    assert multiset(a) == multiset(a[..n]) + multiset{a[n]};
    assert multiset(b) == multiset(b[..i] + b[i + 1..]) + multiset{a[n]};
    assert multiset(a[..n]) == multiset(a) - multiset{a[n]};
    assert multiset(b[..i] + b[i + 1..]) == multiset(b) - multiset{a[n]};
  }

  lemma {:induction false} TotalsArePermutable(a: seq<Member>, b: seq<Member>)
    requires multiset(a) == multiset(b)
    ensures TotalDeclared(a) == TotalDeclared(b) && TotalUnpacked(a) == TotalUnpacked(b) && |a| == |b|
    decreases |a|
  {
    assert |multiset(a)| == |a| && |multiset(b)| == |b|;
    if a != [] {
      var n := |a| - 1;
      var i := DropLast(a, b);
      var b' := b[..i] + b[i + 1..];
      TotalsArePermutable(a[..n], b');
      TotalsOfRemoval(b, i);
    }
  }

  function Mapped<A, B>(f: A -> B, ms: seq<A>): seq<B> { seq(|ms|, i requires 0 <= i < |ms| => f(ms[i])) }

  lemma MappedPermutation<A, B>(f: A -> B, a: seq<A>, b: seq<A>)
    requires multiset(a) == multiset(b)
    ensures multiset(Mapped(f, a)) == multiset(Mapped(f, b))
    decreases |a|
  {
    assert |multiset(a)| == |a| && |multiset(b)| == |b|;
    if a != [] {
      var n := |a| - 1;
      var i := DropLast(a, b);
      var b' := b[..i] + b[i + 1..];
      MappedPermutation(f, a[..n], b');
      assert Mapped(f, a) == Mapped(f, a[..n]) + [f(a[n])];
      assert Mapped(f, b) == Mapped(f, b[..i]) + [f(b[i])] + Mapped(f, b[i + 1..]);
      assert Mapped(f, b') == Mapped(f, b[..i]) + Mapped(f, b[i + 1..]);
    }
  }

  /** Two archives with the same members in different orders are both refused, or both accepted
      and unpacked to the same tree. */
  lemma OrderDoesNotMatter(u: Unicode, limits: Limits, a: seq<RawMember>, b: seq<RawMember>)
    requires multiset(a) == multiset(b)
    ensures Accepts(limits, ParseAll(u, a)) <==> Accepts(limits, ParseAll(u, b))
    ensures Flatten(TreeOf(Elements(ParseAll(u, a)))) == Flatten(TreeOf(Elements(ParseAll(u, b))))
  {
    var x, y := ParseAll(u, a), ParseAll(u, b);
    var f := m => Parse(u, m);
    MappedPermutation(f, a, b);
    assert x == Mapped(f, a) && y == Mapped(f, b);
    AcceptancePermutes(limits, x, y);
    AcceptancePermutes(limits, y, x);
  }

  lemma AcceptancePermutes(limits: Limits, x: seq<Member>, y: seq<Member>)
    requires multiset(x) == multiset(y)
    ensures Elements(x) == Elements(y)
    ensures Accepts(limits, x) ==> Accepts(limits, y)
  {
    TotalsArePermutable(x, y);
    forall m ensures m in x <==> m in y {
      assert m in x <==> m in multiset(x);
      assert m in y <==> m in multiset(y);
    }
    assert Elements(x) == Elements(y);
  }

  // ----- what an accepted archive looks like ---------------------------------------------------------------

  /** Every entry of an unpacked archive lies strictly below the destination, every member file is
      there with its own bytes, and nothing else is a file. */
  lemma UnpackedFiles(limits: Limits, ms: seq<Member>)
    requires Parsed(ms) && Accepts(limits, ms)
    ensures var tree := TreeOf(Elements(ms));
      && (forall p :: p in tree ==> p != [] && Clean(p))
      && (forall m :: m in ms && !m.dir ==> m.target.value in tree && tree[m.target.value] == File(m.content))
      && (forall p :: p in tree && tree[p].File? ==> exists m :: m in ms && Denotes(m, p))
  {
    DistinctIfCounted(ms);
    var tree := TreeOf(Elements(ms));
    forall p | p in tree ensures p != [] && Clean(p) {
      var m :| m in Elements(ms) && m.target.Some? && p in Prefixes(m.target.value);
      var k :| 1 <= k <= |m.target.value| && p == m.target.value[..k];
      forall part | part in p ensures part in m.target.value { }
    }
    forall m | m in ms && !m.dir ensures m.target.value in tree && tree[m.target.value] == File(m.content) {
      OwnPlace(Elements(ms), m);
      NodeIs(Elements(ms), m, m.target.value);
    }
  }

  /** As many targets as members means that no two members share one. */
  lemma DistinctIfCounted(ms: seq<Member>)
    requires |Targets(Elements(ms))| == |ms|
    ensures Distinct(Elements(ms))
  {
    forall a, b | a in Elements(ms) && b in Elements(ms) && a.target.Some? && a.target == b.target ensures a == b {
      var i, j :| 0 <= i < |ms| && 0 <= j < |ms| && ms[i] == a && ms[j] == b;
      if i < j { RepeatedTarget(ms, j); }
      if j < i { RepeatedTarget(ms, i); }
    }
  }

  /** An archive that contains a release manifest at its root is refused, whatever else it holds. */
  lemma ManifestIsRefused(limits: Limits, ms: seq<Member>)
    requires exists m :: m in ms && m.target == Some(MANIFEST)
    ensures !Accepts(limits, ms)
  {
  }

  /** Every entry has its parent folders in the tree. */
  ghost predicate Closed(t: Tree) {
    forall p :: p in t ==> p != [] && forall k :: 1 <= k < |p| ==> p[..k] in t && t[p[..k]] == Dir
  }

  lemma UnpackedTreeIsClosed(limits: Limits, ms: seq<Member>)
    requires Parsed(ms) && Accepts(limits, ms)
    ensures Closed(TreeOf(Elements(ms)))
  {
    var all := Elements(ms);
    UnpackedFiles(limits, ms);
    forall p, k | p in Places(all) && 1 <= k < |p| ensures p[..k] in Places(all) && NodeAt(all, p[..k]) == Dir {
      var m :| m in all && m.target.Some? && p in Prefixes(m.target.value);
      var j :| 1 <= j <= |m.target.value| && p == m.target.value[..j];
      assert p[..k] == m.target.value[..k];
      assert p[..k] in Prefixes(m.target.value);
      if a :| a in all && Denotes(a, p[..k]) {
        assert Under(a.target.value, m.target.value);
        assert ClashPair(a, m);
      }
    }
  }

  /** Flattening moves files but never loses, merges or alters one outside `__MACOSX`. */
  lemma FlattenKeepsFiles(t: Tree, p: Path)
    requires Closed(t) && p in t && t[p].File? && !Under(MACOSX, p)
    ensures match SingleRoot(WithoutMacos(t))
      case None => p in Flatten(t) && Flatten(t)[p] == t[p]
      case Some(root) => Under(root, p) && p[|root|..] in Flatten(t) && Flatten(t)[p[|root|..]] == t[p]
  {
    var rest := WithoutMacos(t);
    match SingleRoot(rest)
    case None =>
    case Some(root) =>
      assert |p| == 1 ==> p in Roots(rest);
      if |p| > 1 {
        var top := p[..1];
        assert top in t && t[top] == Dir;
        assert top == MACOSX ==> Under(MACOSX, p);
        assert !Under(MACOSX, top);
        assert top in Roots(rest);
        assert top == root && root + p[1..] == p;
      }
  }

  /** A file that flattening is to keep. */
  ghost predicate Wanted(t: Tree, p: Path) {
    p in t && t[p].File? && !(|p| > 1 && p[0] == "__MACOSX")
  }

  /** Apart from a folder `__MACOSX`, the folder `root` is the only entry at the top. */
  ghost predicate OnlyFolder(t: Tree, root: string) {
    && [root] in t && t[[root]].Dir? && root != "__MACOSX"
    && forall p :: p in t && |p| == 1 && p != [root] ==> p == ["__MACOSX"] && t[p].Dir?
  }

  /** What flattening does to the files: those under `__MACOSX` go, and if a single folder is left at the
      top, its name is cut off all others. */
  lemma FlattenedFiles(t: Tree, q: Path)
    requires Closed(t)
    ensures forall root {:trigger OnlyFolder(t, root)} :: OnlyFolder(t, root) ==>
      && (q in Flatten(t) && Flatten(t)[q].File? <==> Wanted(t, [root] + q))
      && (q in Flatten(t) && Flatten(t)[q].File? ==> Flatten(t)[q] == t[[root] + q])
    ensures (forall root :: !OnlyFolder(t, root)) ==>
      && (q in Flatten(t) && Flatten(t)[q].File? <==> Wanted(t, q))
      && (q in Flatten(t) && Flatten(t)[q].File? ==> Flatten(t)[q] == t[q])
  {
    var rest := WithoutMacos(t);
    RestFiles(t);
    forall root | OnlyFolder(t, root) ensures SingleRoot(rest) == Some([root]) { OnlyFolderIsRoot(t, root); }
    if SingleRoot(rest).Some? {
      var root := SingleRoot(rest).value;
      RootIsOnlyFolder(t, root);
      BelowIs(rest, root, q);
    }
  }

  lemma BelowIs(t: Tree, root: Path, q: Path)
    ensures q in Below(t, root) <==> q != [] && root + q in t
    ensures q in Below(t, root) ==> Below(t, root)[q] == t[root + q]
  {
    if q != [] && root + q in t {
      assert (root + q)[..|root|] == root && (root + q)[|root|..] == q;
      assert Under(root, root + q);
    }
    if q in Below(t, root) {
      var p :| p in t && Under(root, p) && p[|root|..] == q;
      assert root + q == p;
    }
  }

  lemma FolderHolds(t: Tree, root: string, p: Path)
    requires Closed(t) && OnlyFolder(t, root) && Wanted(t, p)
    ensures |p| > 1 && p[0] == root && [root] + p[1..] == p
  {
    if |p| > 1 { assert p[..1] in t && p[..1] == [p[0]]; }
  }

  /** Where flattening puts a file: its path, or without the one folder that holds everything. */
  ghost function Flattened(t: Tree, p: Path): Path {
    if |p| > 1 && OnlyFolder(t, p[0]) then p[1..] else p
  }

  lemma FileIsKept(t: Tree, p: Path)
    requires Closed(t) && Wanted(t, p)
    ensures Flattened(t, p) in Flatten(t) && Flatten(t)[Flattened(t, p)] == t[p]
  {
    if root :| OnlyFolder(t, root) {
      FolderHolds(t, root, p);
      FlattenedFiles(t, p[1..]);
    } else {
      FlattenedFiles(t, p);
    }
  }

  /** A member file of an accepted archive outside `__MACOSX` is kept. */
  lemma MemberIsKept(u: Unicode, limits: Limits, raw: seq<RawMember>, m: RawMember, p: Path)
    requires m in raw && Spells(u, m.name, p) && Accepts(limits, ParseAll(u, raw)) && !(|p| > 1 && p[0] == "__MACOSX")
    ensures var t := TreeOf(Elements(ParseAll(u, raw)));
      Flattened(t, p) in Flatten(t) && Flatten(t)[Flattened(t, p)] == File(m.content)
  {
    var t := TreeOf(Elements(ParseAll(u, raw)));
    ParsedAll(u, raw);
    MemberIsUnpacked(u, limits, raw, m, p);
    UnpackedTreeIsClosed(limits, ParseAll(u, raw));
    FileIsKept(t, p);
  }

  lemma RestFiles(t: Tree)
    requires Closed(t)
    ensures forall p :: Wanted(t, p) <==> p in WithoutMacos(t) && t[p].File?
    ensures forall p :: p in WithoutMacos(t) ==> p in t && WithoutMacos(t)[p] == t[p]
  {
    forall p | p in t && |p| > 1 ensures p[0] == "__MACOSX" <==> Under(MACOSX, p) {
      assert p[..1] == [p[0]];
    }
    forall p | p in t && Under(MACOSX, p) ensures MACOSX in t && t[MACOSX].Dir? { assert p[..1] == MACOSX; }
  }

  lemma OnlyFolderIsRoot(t: Tree, root: string)
    requires Closed(t) && OnlyFolder(t, root)
    ensures SingleRoot(WithoutMacos(t)) == Some([root])
  {
    var rest := WithoutMacos(t);
    assert [root] in rest;
    forall p ensures p in Roots(rest) <==> p == [root] { }
  }

  lemma RootIsOnlyFolder(t: Tree, root: Path)
    requires Closed(t) && SingleRoot(WithoutMacos(t)) == Some(root)
    ensures |root| == 1 && OnlyFolder(t, root[0]) && root == [root[0]]
  {
    var rest := WithoutMacos(t);
    assert Roots(rest) == {root} && root in Roots(rest);
    assert root == [root[0]];
    forall p | p in t && |p| == 1 && p != root ensures p == MACOSX && t[p].Dir? {
      assert p !in Roots(rest);
    }
  }
}
