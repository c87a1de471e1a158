/** Relative paths, directory trees, and the check every ZIP member name goes through. */
module Paths {
  import opened Prelude

  type Path = seq<string>

  datatype Node = Dir | File(content: Bytes)

  /** A directory tree: every entry below the root, by its path from the root. */
  type Tree = map<Path, Node>

  const MANIFEST: Path := [".titanbox-release.json"]

  function FilesOf(t: Tree): map<Path, Bytes> {
    map p | p in t && t[p].File? :: t[p].content
  }

  lemma AllFiles(t: Tree, p: Path, content: Bytes)
    ensures p in FilesOf(t) && FilesOf(t)[p] == content <==> p in t && t[p] == File(content)
  {
  }

  /** `p` itself and all its parents below the root. */
  function Prefixes(p: Path): set<Path> {
    set k | 1 <= k <= |p| :: p[..k]
  }

  predicate Under(prefix: Path, p: Path) { |prefix| < |p| && prefix == p[..|prefix|] }

  // ----- text and parts -------------------------------------------------------------------------

  function Split(s: string, sep: char): (parts: seq<string>)
    ensures |parts| >= 1
    ensures forall i :: 0 <= i < |parts| ==> sep !in parts[i]
  {
    if s == "" then [""]
    else
      var rest := Split(s[1..], sep);
      if s[0] == sep then [""] + rest else [[s[0]] + rest[0]] + rest[1..]
  }

  function Join(parts: seq<string>, sep: char): string
    requires parts != []
  {
    if |parts| == 1 then parts[0] else parts[0] + [sep] + Join(parts[1..], sep)
  }

  lemma {:induction false} SplitPart(a: string, rest: string, sep: char)
    requires sep !in a
    ensures Split(a, sep) == [a]
    ensures Split(a + [sep] + rest, sep) == [a] + Split(rest, sep)
  {
    if a == "" {
      assert "" + [sep] + rest == [sep] + rest;
      assert ([sep] + rest)[1..] == rest;
    } else {
      SplitPart(a[1..], rest, sep);
      var whole := a + [sep] + rest;
      assert whole[1..] == a[1..] + [sep] + rest;
      assert whole[0] == a[0] && [a[0]] + a[1..] == a;
    }
  }

  lemma {:induction false} SplitJoin(parts: seq<string>, sep: char)
    requires parts != [] && forall i :: 0 <= i < |parts| ==> sep !in parts[i]
    ensures Split(Join(parts, sep), sep) == parts
  {
    if |parts| == 1 {
      SplitPart(parts[0], "", sep);
    } else {
      SplitJoin(parts[1..], sep);
      SplitPart(parts[0], Join(parts[1..], sep), sep);
    }
  }

  lemma {:induction false} JoinSplit(s: string, sep: char)
    ensures Join(Split(s, sep), sep) == s
  {
    if s != "" {
      var rest := Split(s[1..], sep);
      JoinSplit(s[1..], sep);
      if s[0] == sep {
        assert ([""] + rest)[1..] == rest;
        assert s == [sep] + s[1..];
      } else {
        var first := [s[0]] + rest[0];
        assert Split(s, sep) == [first] + rest[1..];
        if |rest| == 1 {
          assert Split(s, sep) == [first];
        } else {
          assert ([first] + rest[1..])[1..] == rest[1..];
          assert first + [sep] + Join(rest[1..], sep) == [s[0]] + (rest[0] + [sep] + Join(rest[1..], sep));
        }
        assert s == [s[0]] + s[1..];
      }
    }
  }

  lemma {:induction false} JoinConcat(a: seq<string>, b: seq<string>, sep: char)
    requires a != [] && b != []
    ensures Join(a + b, sep) == Join(a, sep) + [sep] + Join(b, sep)
  {
    if |a| == 1 {
      assert (a + b)[1..] == b;
    } else {
      assert (a + b)[1..] == a[1..] + b;
      JoinConcat(a[1..], b, sep);
    }
  }

  /** Empty and `.` segments disappear when a path is parsed. */
  function Significant(parts: seq<string>): (out: seq<string>)
    ensures forall x :: x in out <==> x in parts && x != "" && x != "."
  {
    if parts == [] then []
    else if parts[0] == "" || parts[0] == "." then Significant(parts[1..])
    else [parts[0]] + Significant(parts[1..])
  }

  lemma {:induction false} SignificantConcat(a: seq<string>, b: seq<string>)
    ensures Significant(a + b) == Significant(a) + Significant(b)
  {
    if a == [] {
      assert a + b == b;
    } else {
      assert (a + b)[1..] == a[1..] + b;
      SignificantConcat(a[1..], b);
    }
  }

  lemma SignificantIsIdentity(parts: seq<string>)
    requires "" !in parts && "." !in parts
    ensures Significant(parts) == parts
  {
  }

  function Posix(p: Path): string { if p == [] then "." else Join(p, '/') }

  /** A path that cannot leave the directory it is joined to. */
  predicate Clean(p: Path) {
    forall part :: part in p ==> part != "" && part != "." && part != ".." && '/' !in part
  }

  /** Parsing the text of a clean path gives the path back ... */
  lemma PosixRoundTrip(p: Path)
    requires Clean(p)
    ensures Significant(Split(Posix(p), '/')) == p
  {
    if p == [] {
      SplitPart(".", "", '/');
      assert Split(".", '/') == ["."];
      assert Significant(["."]) == Significant([]);
    } else {
      forall i | 0 <= i < |p| ensures '/' !in p[i] { assert p[i] in p; }
      SplitJoin(p, '/');
      SignificantIsIdentity(p);
    }
  }

  /** ... so comparing texts, as the extractor does, compares targets. */
  lemma SameTextSameTarget(p: Path, q: Path)
    requires Clean(p) && Clean(q)
    ensures Posix(p) == Posix(q) <==> p == q
  {
    PosixRoundTrip(p);
    PosixRoundTrip(q);
  }

  // ----- member names -----------------------------------------------------------------------------

  /** Text tables: NFC normalization, the control and format categories, trimming of white space. */
  datatype Unicode = Unicode(nfc: string -> string, invisible: char -> bool, strip: string -> string)

  function Slashed(s: string): (r: string)
    ensures |r| == |s| && '\\' !in r
    ensures forall i :: 0 <= i < |s| ==> r[i] == if s[i] == '\\' then '/' else s[i]
  {
    if s == "" then "" else [if s[0] == '\\' then '/' else s[0]] + Slashed(s[1..])
  }

  predicate HasDoubleSlash(s: string) { exists i :: 0 <= i < |s| - 1 && s[i] == '/' && s[i + 1] == '/' }

  predicate StartsWith(s: string, t: string) { |t| <= |s| && s[..|t|] == t }

  function StripSlashes(s: string): string {
    if s != "" && s[|s| - 1] == '/' then StripSlashes(s[..|s| - 1]) else s
  }

  /** The path a member name stands for, or `None` if the name is refused. */
  function MemberPath(u: Unicode, name: string): (p: Option<Path>)
    ensures p.Some? ==> Clean(p.value)
  {
    if name == "" || '\0' in name then None
    else if exists c :: c in name && u.invisible(c) then None
    else
      var text := Slashed(u.nfc(name));
      var path := Significant(Split(text, '/'));
      if StartsWith(text, "./") || HasDoubleSlash(text) then None
      else if StartsWith(text, "/") || ".." in path then None
      else if |text| > 512 then None
      else
        assert forall part :: part in path ==> '/' !in part by {
          forall part | part in path ensures '/' !in part {
            var i :| 0 <= i < |Split(text, '/')| && Split(text, '/')[i] == part;
          }
        }
        Some(path)
  }

  /** `validate_relative_path`.  The text `.` passes and denotes the directory itself. */
  function TargetPath(u: Unicode, raw: string): (p: Option<Path>)
    ensures p.Some? ==> Clean(p.value)
  {
    var text := Slashed(u.strip(raw));
    var path := Significant(Split(text, '/'));
    if text == "" || '\0' in text || |text| > 240 then None
    else if exists c :: c in text && u.invisible(c) then None
    else if StartsWith(text, "./") || HasDoubleSlash(text) then None
    else if StartsWith(text, "/") || ".." in path then None
    else
      assert forall part :: part in path ==> '/' !in part by {
        forall part | part in path ensures '/' !in part {
          var i :| 0 <= i < |Split(text, '/')| && Split(text, '/')[i] == part;
        }
      }
      Some(path)
  }

  // ----- which texts are accepted, and as what ------------------------------------------------------

  lemma {:induction false} SlashedIsIdentity(s: string)
    requires '\\' !in s
    ensures Slashed(s) == s
  {
    if s != "" {
      assert s == [s[0]] + s[1..] && s[0] in s;
      SlashedIsIdentity(s[1..]);
    }
  }

  lemma {:induction false} JoinHasNoDoubleSlash(p: Path)
    requires p != [] && Clean(p)
    ensures !HasDoubleSlash(Join(p, '/')) && Join(p, '/') != ""
    ensures Join(p, '/')[0] != '/' && !StartsWith(Join(p, '/'), "./")
  {
    var text := Join(p, '/');
    assert p[0] in p && '/' !in p[0];
    assert forall i :: 0 <= i < |p[0]| ==> p[0][i] in p[0];
    if |p| > 1 {
      var rest := p[1..];
      assert forall part :: part in rest ==> part in p;
      JoinHasNoDoubleSlash(rest);
      var n := |p[0]| + 1;
      assert text[n..] == Join(rest, '/');
      forall i | 0 <= i < |text| - 1 ensures !(text[i] == '/' && text[i + 1] == '/') {
        if i >= n { assert text[i] == Join(rest, '/')[i - n] && text[i + 1] == Join(rest, '/')[i + 1 - n]; }
      }
    }
    assert |p[0]| == 1 ==> p[0] == [text[0]] && text[0] != '.';
    assert |p[0]| > 1 ==> text[1] == p[0][1] != '/';
    assert |text| > 1 ==> text[..2][0] == text[0] && text[..2][1] == text[1];
  }

  /** A text without backslash, NUL or invisible character. */
  ghost predicate Printable(u: Unicode, text: string) {
    forall c :: c in text ==> c != '\\' && c != '\0' && !u.invisible(c)
  }

  /** The normalized text of a clean path is accepted as that path, whole and in order, ... */
  lemma PlainMemberPath(u: Unicode, p: Path)
    requires Clean(p) && Printable(u, Posix(p)) && |Posix(p)| <= 512 && u.nfc(Posix(p)) == Posix(p)
    ensures MemberPath(u, Posix(p)) == Some(p)
  {
    if p != [] { JoinHasNoDoubleSlash(p); }
    SlashedIsIdentity(Posix(p));
    PosixRoundTrip(p);
    assert ".." !in p;
  }

  /** ... up to 240 characters also as the target of a `/put`. */
  lemma PlainTargetPath(u: Unicode, p: Path)
    requires Clean(p) && Printable(u, Posix(p)) && |Posix(p)| <= 240 && u.strip(Posix(p)) == Posix(p)
    ensures TargetPath(u, Posix(p)) == Some(p)
  {
    if p != [] { JoinHasNoDoubleSlash(p); }
    SlashedIsIdentity(Posix(p));
    PosixRoundTrip(p);
    assert ".." !in p;
  }

  /** What makes a text with slashes only unsafe. */
  ghost predicate Unsafe(text: string, most: nat) {
    || |text| > most || ".." in Split(text, '/') || (text != "" && text[0] == '/')
    || (|text| >= 2 && text[0] == '.' && text[1] == '/')
    || exists i :: 0 <= i < |text| - 1 && text[i] == '/' && text[i + 1] == '/'
  }

  /** A member name is refused exactly if it is empty, has a NUL or an invisible character, or is unsafe
      after normalization, in which a backslash counts as a slash. */
  lemma RefusedMemberPath(u: Unicode, name: string)
    ensures MemberPath(u, name).None? <==>
            name == "" || '\0' in name || (exists c :: c in name && u.invisible(c)) || Unsafe(Slashed(u.nfc(name)), 512)
    ensures MemberPath(u, name).Some? ==> MemberPath(u, name).value == Significant(Split(Slashed(u.nfc(name)), '/'))
  {
  }

  /** The same for the target of a `/put`, after trimming. */
  lemma RefusedTargetPath(u: Unicode, raw: string)
    ensures var text := Slashed(u.strip(raw));
      && (TargetPath(u, raw).None? <==>
            text == "" || '\0' in text || (exists c :: c in text && u.invisible(c)) || Unsafe(text, 240))
      && (TargetPath(u, raw).Some? ==> TargetPath(u, raw).value == Significant(Split(text, '/')))
  {
  }
}
