/** A spreadsheet as a header of column names over rows of optional readings,
    with the two table operations the dashboard uses: selecting columns by
    name and dropping rows that have a missing reading. */
module Frames {
  import opened Wrappers

  /** One cell: a number, or `None` where the sheet has no value. */
  type Reading = Option<real>

  type Row = seq<Reading>

  datatype Frame = Frame(header: seq<string>, rows: seq<Row>)

  /** Every row has one cell per column name. */
  predicate WellFormed(f: Frame) {
    forall i :: 0 <= i < |f.rows| ==> |f.rows[i]| == |f.header|
  }

  /** Position of the first occurrence of `name`. */
  function IndexOf(names: seq<string>, name: string): (k: nat)
    requires name in names
    ensures k < |names| && names[k] == name
    ensures forall j :: 0 <= j < k ==> names[j] != name
  {
    if names[0] == name then 0 else 1 + IndexOf(names[1..], name)
  }

  /** The cells of the column called `name`, top to bottom. */
  function Column(f: Frame, name: string): seq<Reading>
    requires WellFormed(f) && name in f.header
  {
    seq(|f.rows|, i requires 0 <= i < |f.rows| => f.rows[i][IndexOf(f.header, name)])
  }

  /** `a` can be obtained from `b` by deleting elements. */
  predicate Subsequence<T(==)>(a: seq<T>, b: seq<T>)
    decreases |b|
  {
    if a == [] then true
    else if b == [] then false
    else if a[0] == b[0] then Subsequence(a[1..], b[1..])
    else Subsequence(a, b[1..])
  }

  /** The requested names that the header lacks, in request order. */
  function Missing(names: seq<string>, header: seq<string>): (m: seq<string>)
    ensures |m| <= |names|
    ensures forall x :: x in m <==> x in names && x !in header
    ensures Subsequence(m, names)
  {
    if names == [] then []
    else
      var rest := Missing(names[1..], header);
      if names[0] in header then
        // no listed name is in the header, so the skipped head cannot match
        assert rest != [] ==> rest[0] != names[0];
        rest
      else
        assert ([names[0]] + rest)[1..] == rest;
        [names[0]] + rest
  }

  /** Selecting the columns `names`, in that order; fails with the list of
      absent names when any requested column is not in the header. */
  function Project(f: Frame, names: seq<string>): (r: Result<Frame, seq<string>>)
    requires WellFormed(f)
    ensures r.Failure? <==> exists n :: n in names && n !in f.header
    ensures r.Failure? ==> r.error != [] && forall x :: x in r.error <==> x in names && x !in f.header
    ensures r.Success? ==>
      && WellFormed(r.value)
      && r.value.header == names
      && |r.value.rows| == |f.rows|
      && forall n :: n in names ==> Column(r.value, n) == Column(f, n)
  {
    var missing := Missing(names, f.header);
    if missing != [] then
      assert missing[0] in missing;
      Failure(missing)
    else
      var g := Frame(names, seq(|f.rows|, i requires 0 <= i < |f.rows| =>
        seq(|names|, j requires 0 <= j < |names| => f.rows[i][IndexOf(f.header, names[j])])));
      assert forall n :: n in names ==> Column(g, n) == Column(f, n) by {
        forall n | n in names
          ensures Column(g, n) == Column(f, n)
        {
          var k := IndexOf(names, n);
          assert forall i :: 0 <= i < |f.rows| ==> Column(g, n)[i] == g.rows[i][k] == Column(f, n)[i];
        }
      }
      Success(g)
  }

  /** A row with a reading in every cell. */
  predicate Complete(row: Row) {
    forall k :: 0 <= k < |row| ==> row[k].Some?
  }

  /** The rows with no missing reading. */
  function DropMissing(rows: seq<Row>): (r: seq<Row>)
    ensures |r| <= |rows|
    ensures forall i :: 0 <= i < |r| ==> Complete(r[i])
    ensures forall row :: row in r <==> row in rows && Complete(row)
  {
    if rows == [] then []
    else (if Complete(rows[0]) then [rows[0]] else []) + DropMissing(rows[1..])
  }

  /** Dropping rows from two consecutive blocks is dropping from each. */
  lemma {:induction false} DropMissingAppend(a: seq<Row>, b: seq<Row>)
    ensures DropMissing(a + b) == DropMissing(a) + DropMissing(b)
  {
    if a == [] {
      assert a + b == b;
    } else {
      assert (a + b)[1..] == a[1..] + b;
      DropMissingAppend(a[1..], b);
    }
  }

  /** The kept rows appear in the original order. */
  lemma {:induction false} DropMissingSubsequence(rows: seq<Row>)
    ensures Subsequence(DropMissing(rows), rows)
  {
    if rows != [] {
      DropMissingSubsequence(rows[1..]);
      var rest := DropMissing(rows[1..]);
      if Complete(rows[0]) {
        assert DropMissing(rows) == [rows[0]] + rest;
      } else {
        assert DropMissing(rows) == rest;
        if rest != [] {
          // every kept row is complete, so the dropped head cannot match it
          assert rest[0] != rows[0];
        }
      }
    }
  }

  /** Each complete row is kept as many times as it occurs; each incomplete
      row is dropped entirely. */
  lemma {:induction false} DropMissingCount(rows: seq<Row>, x: Row)
    ensures multiset(DropMissing(rows))[x] == if Complete(x) then multiset(rows)[x] else 0
  {
    if rows != [] {
      DropMissingCount(rows[1..], x);
      assert rows == [rows[0]] + rows[1..];
    }
  }

  /** A table with no missing reading is left unchanged. */
  lemma {:induction false} DropMissingKeepsComplete(rows: seq<Row>)
    requires forall i :: 0 <= i < |rows| ==> Complete(rows[i])
    ensures DropMissing(rows) == rows
  {
    if rows != [] {
      DropMissingKeepsComplete(rows[1..]);
    }
  }

  /** Dropping missing rows twice is dropping them once. */
  lemma DropMissingIdempotent(rows: seq<Row>)
    ensures DropMissing(DropMissing(rows)) == DropMissing(rows)
  {
    DropMissingKeepsComplete(DropMissing(rows));
  }
}
