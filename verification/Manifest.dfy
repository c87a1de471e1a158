/** The release integrity manifest: `_tree_digest`, `_write_manifest` and `_verify_manifest`. */
module Manifest {
  import opened Prelude
  import opened Paths

  /** The file hash, Python's `sorted` on paths and UTF-8 encoding. */
  datatype Tools = Tools(hash: Bytes -> string, sort: set<Path> -> seq<Path>, utf8: string -> Bytes)

  /** `sorted` lists every path once. */
  ghost predicate Sorts(tools: Tools) {
    forall s :: multiset(tools.sort(s)) == multiset(s)
  }

  ghost predicate CollisionFree(tools: Tools) {
    forall a, b :: tools.hash(a) == tools.hash(b) ==> a == b
  }

  datatype Item = Item(size: int, sha256: string)

  datatype Manifest = Manifest(format: int, treeSha256: string, files: map<Path, Item>)

  /** The content of a release directory apart from its manifest. */
  type Files = map<Path, Bytes>

  ghost function TotalBytes(files: Files): (n: nat)
    ensures files == map[] ==> n == 0
    decreases |files|
  {
    if files == map[] then 0 else var p :| p in files; |files[p]| + TotalBytes(files - {p})
  }

  /** The total does not depend on the order of adding up. */
  lemma {:induction false} TotalWithout(files: Files, p: Path)
    requires p in files
    ensures TotalBytes(files) == |files[p]| + TotalBytes(files - {p})
    decreases |files|
  {
    var q :| q in files && TotalBytes(files) == |files[q]| + TotalBytes(files - {q});
    if q != p {
      TotalWithout(files - {q}, p);
      TotalWithout(files - {p}, q);
      assert files - {q} - {p} == files - {p} - {q};
    }
  }

  lemma NotMoreWithout(files: Files, p: Path)
    ensures |files - {p}| <= |files| && TotalBytes(files - {p}) <= TotalBytes(files)
  {
    var rest := files - {p};
    assert rest.Keys == files.Keys - {p};
    if p in files { TotalWithout(files, p); } else { assert rest == files; }
  }

  function FourBytes(n: nat): Bytes {
    [(n / 16777216 % 256) as bv8, (n / 65536 % 256) as bv8, (n / 256 % 256) as bv8, (n % 256) as bv8]
  }

  /** Most significant byte first. */
  lemma FourBytesAre(n: nat) returns (w: nat, x: nat, y: nat, z: nat)
    requires n < 0x1_0000_0000
    ensures w < 256 && x < 256 && y < 256 && z < 256
    ensures FourBytes(n) == [w as bv8, x as bv8, y as bv8, z as bv8]
    ensures n == 0x100_0000 * w + 0x1_0000 * x + 0x100 * y + z
  {
    w, x, y, z := n / 0x100_0000 % 256, n / 0x1_0000 % 256, n / 0x100 % 256, n % 256;
    DigitsAddUp(n);
  }

  lemma DigitsAddUp(n: nat)
    requires n < 0x1_0000_0000
    ensures n == n / 16777216 % 256 * 16777216 + n / 65536 % 256 * 65536 + n / 256 % 256 * 256 + n % 256
  {
    var p, q, r := n / 256, n / 65536, n / 16777216;
    assert q == p / 256 && r == q / 256 && r < 256;
  }

  function Header(tools: Tools, p: Path): Bytes {
    FourBytes(|tools.utf8(Posix(p))|) + tools.utf8(Posix(p))
  }

  /** The bytes hashed for a tree: a length-prefixed path and then, without a length, the contents. */
  function Encoding(tools: Tools, order: seq<Path>, files: Files): Bytes
    requires forall p :: p in order ==> p in files
  {
    if order == [] then []
    else
      var n := |order| - 1;
      assert forall p :: p in order[..n] ==> p in order;
      Encoding(tools, order[..n], files) + Header(tools, order[n]) + files[order[n]]
  }

  /** One more file is fed as the length of its path, the path, and its contents. */
  lemma EncodingOfMore(tools: Tools, order: seq<Path>, p: Path, files: Files)
    requires p in files && forall q :: q in order ==> q in files
    ensures Encoding(tools, [], files) == []
    ensures Encoding(tools, order + [p], files) ==
            Encoding(tools, order, files) + (FourBytes(|tools.utf8(Posix(p))|) + tools.utf8(Posix(p))) + files[p]
  {
    assert (order + [p])[..|order|] == order;
  }

  lemma Ordered(tools: Tools, files: Files)
    requires Sorts(tools)
    ensures forall p :: p in tools.sort(files.Keys) <==> p in files
    ensures |tools.sort(files.Keys)| == |files|
  {
    var order := tools.sort(files.Keys);
    assert forall p :: p in order <==> p in multiset(order);
    assert |multiset(order)| == |order|;
  }

  ghost function TreeSha(tools: Tools, files: Files): string
    requires Sorts(tools)
  {
    Ordered(tools, files);
    tools.hash(Encoding(tools, tools.sort(files.Keys), files))
  }

  method TreeDigest(tools: Tools, files: Files) returns (sha: string)
    requires Sorts(tools)
    ensures sha == TreeSha(tools, files)
  {
    Ordered(tools, files);
    var order, fed: Bytes := tools.sort(files.Keys), [];
    for i := 0 to |order|
      invariant forall p :: p in order[..i] ==> p in files
      invariant fed == Encoding(tools, order[..i], files)
    {
      assert order[..i + 1][..i] == order[..i] && order[i] in order;
      fed := fed + Header(tools, order[i]) + files[order[i]];
    }
    assert order[..|order|] == order;
    return tools.hash(fed);
  }

  function ItemOf(tools: Tools, content: Bytes): Item { Item(|content|, tools.hash(content)) }

  /** What `_write_manifest` records about a tree. */
  ghost function ManifestOf(tools: Tools, files: Files): Manifest
    requires Sorts(tools)
  {
    Manifest(1, TreeSha(tools, files), map p | p in files :: ItemOf(tools, files[p]))
  }

  /** A manifest that is present and readable and agrees with the tree in every respect. */
  ghost predicate Verifies(tools: Tools, files: Files, m: Option<Manifest>)
    requires Sorts(tools)
  {
    && m.Some? && m.value.format == 1
    && m.value.treeSha256 == TreeSha(tools, files)
    && m.value.files.Keys == files.Keys
    && forall p :: p in files ==> m.value.files[p] == ItemOf(tools, files[p])
  }

  method WriteManifest(tools: Tools, files: Files) returns (m: Manifest)
    requires Sorts(tools)
    ensures m == ManifestOf(tools, files)
    ensures Verifies(tools, files, Some(m))
  {
    Ordered(tools, files);
    var order, items := tools.sort(files.Keys), map[];
    for i := 0 to |order|
      invariant items == map p | p in order[..i] :: ItemOf(tools, files[p])
      invariant forall p :: p in order[..i] ==> p in files
    {
      assert order[i] in order && order[..i + 1] == order[..i] + [order[i]];
      items := items[order[i] := ItemOf(tools, files[order[i]])];
    }
    assert order[..|order|] == order;
    var sha := TreeDigest(tools, files);
    return Manifest(1, sha, items);
  }

  method VerifyManifest(tools: Tools, files: Files, m: Option<Manifest>) returns (out: Outcome<string>)
    requires Sorts(tools)
    ensures out.Done? <==> Verifies(tools, files, m)
    ensures !out.Crashed? && (out.Raised? ==> out.fault == Rejected)
    ensures out.Done? ==> out.value == TreeSha(tools, files)
  {
    if m.None? || m.value.format != 1 { return Raised(Rejected); }
    var actual := TreeDigest(tools, files);
    if m.value.treeSha256 != actual { return Raised(Rejected); }
    if files.Keys != m.value.files.Keys { return Raised(Rejected); }
    var rest := files.Keys;
    while rest != {}
      invariant rest <= files.Keys
      invariant forall p :: p in files && p !in rest ==> m.value.files[p] == ItemOf(tools, files[p])
    {
      var p :| p in rest;
      var item := m.value.files[p];
      if item.size != |files[p]| { return Raised(Rejected); }
      if item.sha256 != tools.hash(files[p]) { return Raised(Rejected); }
      rest := rest - {p};
    }
    return Done(actual);
  }

  /** With a collision-free file hash, a manifest accepts the tree it was written for and no other. */
  lemma OnlyTheRecordedTree(tools: Tools, recorded: Files, found: Files)
    requires Sorts(tools) && CollisionFree(tools)
    ensures Verifies(tools, found, Some(ManifestOf(tools, recorded))) <==> found == recorded
  {
    if Verifies(tools, found, Some(ManifestOf(tools, recorded))) { SameRecords(tools, recorded, found); }
  }

  lemma SameRecords(tools: Tools, recorded: Files, found: Files)
    requires CollisionFree(tools) && found.Keys == recorded.Keys
    requires forall p :: p in found ==> ItemOf(tools, recorded[p]) == ItemOf(tools, found[p])
    ensures found == recorded
  {
    forall p | p in found ensures found[p] == recorded[p] {
      assert tools.hash(found[p]) == tools.hash(recorded[p]);
    }
  }

  /** The tree digest alone would not do: any two files can be merged into one with the same digest.
      The file records are what tells the two trees apart. */
  lemma DigestAloneIsAmbiguous(tools: Tools, a: Path, b: Path, ca: Bytes, cb: Bytes)
    requires Sorts(tools) && a != b && tools.sort({a, b}) == [a, b]
    ensures var two: Files := map[a := ca, b := cb];
            var one: Files := map[a := ca + Header(tools, b) + cb];
            && TreeSha(tools, one) == TreeSha(tools, two)
            && !Verifies(tools, one, Some(ManifestOf(tools, two)))
  {
    var two: Files := map[a := ca, b := cb];
    var one: Files := map[a := ca + Header(tools, b) + cb];
    SortedSingle(tools, a);
    assert one.Keys == {a} && two.Keys == {a, b};
    EncodingOfOne(tools, a, one);
    EncodingOfTwo(tools, a, b, two);
    assert b in two && b !in one;
  }

  lemma SortedSingle(tools: Tools, a: Path)
    requires Sorts(tools)
    ensures tools.sort({a}) == [a]
  {
    var single := tools.sort({a});
    assert multiset(single) == multiset({a});
    assert |multiset(single)| == |single| && |multiset({a})| == 1;
    assert single[0] in multiset(single);
  }

  lemma EncodingOfOne(tools: Tools, a: Path, files: Files)
    requires a in files
    ensures Encoding(tools, [a], files) == Header(tools, a) + files[a]
  {
    assert [a][..0] == [];
  }

  lemma EncodingOfTwo(tools: Tools, a: Path, b: Path, files: Files)
    requires a in files && b in files
    ensures Encoding(tools, [a, b], files) == Header(tools, a) + (files[a] + Header(tools, b) + files[b])
  {
    assert [a, b][..1] == [a];
    EncodingOfOne(tools, a, files);
    var head := Header(tools, a);
    assert head + files[a] + Header(tools, b) + files[b] == head + (files[a] + Header(tools, b) + files[b]);
  }
}
