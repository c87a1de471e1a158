/** The order in which releases are listed: newest first, ties broken by name, as produced by
    `sort(key=(time, name), reverse=True)`. */
module Chronology {

  datatype Row = Row(time: int, name: string)

  predicate LexLess(a: string, b: string) {
    |b| > 0 && (|a| == 0 || a[0] < b[0] || (a[0] == b[0] && LexLess(a[1..], b[1..])))
  }

  lemma LexTransitive(a: string, b: string, c: string)
    requires LexLess(a, b) && LexLess(b, c)
    ensures LexLess(a, c)
  {
  }

  lemma LexTotal(a: string, b: string)
    ensures a == b || LexLess(a, b) || LexLess(b, a)
    ensures !(LexLess(a, b) && LexLess(b, a)) && !LexLess(a, a)
  {
  }

  /** At the first difference the smaller character decides; without one, the shorter string is first. */
  lemma {:induction false} LexIsFirstDifference(a: string, b: string)
    ensures LexLess(a, b) <==> exists k: nat :: DiffersAt(a, b, k) && k < |b| && (k == |a| || a[k] < b[k])
  {
    if LexLess(a, b) {
      if a == [] || a[0] != b[0] {
        assert DiffersAt(a, b, 0);
      } else {
        LexIsFirstDifference(a[1..], b[1..]);
        var k: nat :| DiffersAt(a[1..], b[1..], k) && k < |b[1..]| && (k == |a[1..]| || a[1..][k] < b[1..][k]);
        assert forall i :: 0 <= i < k + 1 ==> a[i] == if i == 0 then b[0] else b[1..][i - 1];
        assert DiffersAt(a, b, k + 1);
      }
    }
    if k: nat :| DiffersAt(a, b, k) && k < |b| && (k == |a| || a[k] < b[k]) {
      if k > 0 {
        LexIsFirstDifference(a[1..], b[1..]);
        assert DiffersAt(a[1..], b[1..], k - 1);
      }
    }
  }

  /** The strings agree on their first `k` characters, and at most one of them ends there. */
  ghost predicate DiffersAt(a: string, b: string, k: nat) {
    k <= |a| && k <= |b| && (forall i :: 0 <= i < k ==> a[i] == b[i])
  }

  predicate Newer(a: Row, b: Row) {
    a.time > b.time || (a.time == b.time && LexLess(b.name, a.name))
  }

  lemma NewerTransitive(a: Row, b: Row, c: Row)
    requires Newer(a, b) && Newer(b, c)
    ensures Newer(a, c)
  {
    if a.time == b.time == c.time { LexTransitive(c.name, b.name, a.name); }
  }

  lemma NewerTotal(a: Row, b: Row)
    ensures a == b || Newer(a, b) || Newer(b, a)
    ensures !(Newer(a, b) && Newer(b, a)) && !Newer(a, a)
  {
    LexTotal(a.name, b.name);
    LexTotal(a.name, a.name);
  }

  ghost predicate Descending(rows: seq<Row>) {
    forall i, j :: 0 <= i < j < |rows| ==> Newer(rows[i], rows[j])
  }

  /** The listing of a set of rows: every row once, each newer than all that follow it. */
  ghost predicate ListingOf(rows: seq<Row>, s: set<Row>) {
    Descending(rows) && forall r :: r in rows <==> r in s
  }

  lemma HasMember(rows: seq<Row>)
    requires rows != []
    ensures exists r :: r in rows
  {
    assert rows[0] in rows;
  }

  lemma ListingUnique(a: seq<Row>, b: seq<Row>, s: set<Row>)
    requires ListingOf(a, s) && ListingOf(b, s)
    ensures a == b
  {
    if s == {} {
      if a != [] { HasMember(a); }
      if b != [] { HasMember(b); }
    } else {
      var r :| r in s;
      assert r in a && r in b;
      NewerTotal(a[0], b[0]);
      assert a[0] in b && b[0] in a;
      var t := s - {a[0]};
      forall r ensures r in a[1..] <==> r in t {
        NewerTotal(r, r);
        assert r in a <==> r == a[0] || r in a[1..];
      }
      forall r ensures r in b[1..] <==> r in t {
        NewerTotal(r, r);
        assert r in b <==> r == b[0] || r in b[1..];
      }
      ListingUnique(a[1..], b[1..], t);
      assert a == [a[0]] + a[1..] && b == [b[0]] + b[1..];
    }
  }

  /** Inserts one row into a listing. */
  method Insert(rows: seq<Row>, row: Row) returns (out: seq<Row>)
    requires Descending(rows) && row !in rows
    ensures Descending(out) && |out| == |rows| + 1
    ensures forall r :: r in out <==> r == row || r in rows
  {
    var i := 0;
    while i < |rows| && Before(rows[i], row)
      invariant 0 <= i <= |rows|
      invariant forall k :: 0 <= k < i ==> Newer(rows[k], row)
    {
      i := i + 1;
    }
    out := rows[..i] + [row] + rows[i..];
    assert rows == rows[..i] + rows[i..];
    forall k | i <= k < |rows| ensures Newer(row, rows[k]) {
      NewerTotal(row, rows[i]);
      if k > i { NewerTransitive(row, rows[i], rows[k]); }
    }
  }

  predicate Before(a: Row, b: Row) { Newer(a, b) }

  /** Sorts rows with distinct names newest first. */
  method NewestFirst(rows: seq<Row>) returns (out: seq<Row>)
    requires forall i, j :: 0 <= i < j < |rows| ==> rows[i] != rows[j]
    ensures ListingOf(out, set r | r in rows) && |out| == |rows|
  {
    out := [];
    for n := 0 to |rows|
      invariant Descending(out) && |out| == n
      invariant forall r :: r in out <==> r in rows[..n]
    {
      assert rows[..n+1] == rows[..n] + [rows[n]];
      out := Insert(out, rows[n]);
    }
    assert rows[..|rows|] == rows;
  }

  lemma NewestExists(s: set<Row>) returns (row: Row)
    requires s != {}
    ensures row in s && forall r :: r in s && r != row ==> Newer(row, r)
  {
    row :| row in s;
    var rest := s - {row};
    assert forall r :: r in s && r != row ==> r in rest;
    if rest != {} {
      var best := NewestExists(rest);
      NewerTotal(row, best);
      if Newer(best, row) {
        row := best;
      } else {
        forall r | r in s && r != row ensures Newer(row, r) {
          if r != best { NewerTransitive(row, best, r); }
        }
      }
    }
  }

  lemma ListingExists(s: set<Row>) returns (rows: seq<Row>)
    ensures ListingOf(rows, s)
  {
    if s == {} {
      rows := [];
    } else {
      var row := NewestExists(s);
      var rest := ListingExists(s - {row});
      rows := [row] + rest;
    }
  }

  /** The one listing of a set of rows. */
  ghost function Listing(s: set<Row>): (rows: seq<Row>)
    ensures ListingOf(rows, s)
  {
    assert exists rows :: ListingOf(rows, s) by { var rows := ListingExists(s); }
    var rows :| ListingOf(rows, s);
    rows
  }

  lemma ListingIs(rows: seq<Row>, s: set<Row>)
    requires ListingOf(rows, s)
    ensures rows == Listing(s)
  {
    ListingUnique(rows, Listing(s), s);
  }
}
