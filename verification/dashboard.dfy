/** The dashboard's data pipeline: select the required columns, classify
    every cell of the classifiable ones, and keep the complete rows for the
    correlation step. */
module Dashboard {
  import opened Wrappers
  import opened Thresholds
  import opened Classifier
  import opened Frames

  /** The sensor column used only as the correlation reference. */
  const Proxy: string := "PT08.S1(CO)"

  /** The columns the dashboard needs, in the order it lists them. */
  const Required: seq<string> := [
    "CO(GT)", "NMHC(GT)", "C6H6(GT)", "PT08.S2(NMHC)", "NOx(GT)",
    "PT08.S3(NOx)", "NO2(GT)", "PT08.S4(NO2)", "PT08.S5(O3)", "T", "RH", "AH",
    Proxy
  ]

  /** Every required column except the last, which is never classified. */
  const Classified: seq<string> := Required[..|Required| - 1]

  /** Thirteen required names, the proxy last and not among the classified
      ones, and the classified names are exactly the keys of the threshold
      table. */
  lemma ColumnLists()
    ensures |Required| == 13 && |Classified| == 12
    ensures Required == Classified + [Proxy]
    ensures Proxy !in Classified
    ensures forall c :: c in Classified ==> c in Table
    ensures forall p :: p in Table ==> p in Classified
  {
    var names := ["CO(GT)", "NMHC(GT)", "C6H6(GT)", "PT08.S2(NMHC)", "NOx(GT)",
      "PT08.S3(NOx)", "NO2(GT)", "PT08.S4(NO2)", "PT08.S5(O3)", "T", "RH", "AH"];
    assert Classified == names;
    assert Table.Keys == {"CO(GT)", "NMHC(GT)", "C6H6(GT)", "PT08.S2(NMHC)", "NOx(GT)",
      "PT08.S3(NOx)", "NO2(GT)", "PT08.S4(NO2)", "PT08.S5(O3)", "T", "RH", "AH"};
  }

  /** A table of labels built column by column. */
  datatype StatusFrame = StatusFrame(header: seq<string>, columns: seq<seq<Label>>)

  /** Classifies one column cell by cell under the pollutant key `key`. */
  function ClassifyColumn(cells: seq<Reading>, key: string): (r: seq<Label>)
    ensures |r| == |cells|
    ensures forall i :: 0 <= i < |r| ==> r[i] == AirQualityStatus(cells[i], key)
  {
    if cells == [] then []
    else [AirQualityStatus(cells[0], key)] + ClassifyColumn(cells[1..], key)
  }

  /** Under a known key a cell is never Unknown, and is No Data exactly
      where the reading is missing. */
  lemma ClassifyColumnKnown(cells: seq<Reading>, key: string)
    requires key in Table
    ensures forall i :: 0 <= i < |cells| ==>
      ClassifyColumn(cells, key)[i] != Unknown &&
      (ClassifyColumn(cells, key)[i] == NoData <==> cells[i].None?)
  {
  }

  /** The label table: one column per classified name, in order, each as
      long as the data and holding the classification of each of its cells
      under that column's name. */
  method BuildStatus(df: Frame) returns (s: StatusFrame)
    requires WellFormed(df)
    requires forall c :: c in Classified ==> c in df.header
    ensures s.header == Classified
    ensures |s.columns| == |Classified|
    ensures forall j :: 0 <= j < |s.columns| ==> |s.columns[j]| == |df.rows|
    ensures forall j, i :: 0 <= j < |s.columns| && 0 <= i < |s.columns[j]| ==>
      s.columns[j][i] == AirQualityStatus(Column(df, Classified[j])[i], Classified[j])
    ensures forall j, i :: 0 <= j < |s.columns| && 0 <= i < |s.columns[j]| ==>
      s.columns[j][i] != Unknown
  {
    ColumnLists();
    var header: seq<string> := [];
    var columns: seq<seq<Label>> := [];
    var k := 0;
    while k < |Classified|
      invariant 0 <= k <= |Classified|
      invariant header == Classified[..k]
      invariant |columns| == k
      invariant forall j :: 0 <= j < k ==> |columns[j]| == |df.rows|
      invariant forall j, i :: 0 <= j < k && 0 <= i < |columns[j]| ==>
        columns[j][i] == AirQualityStatus(Column(df, Classified[j])[i], Classified[j])
    {
      var col := Classified[k];
      header := header + [col];
      columns := columns + [ClassifyColumn(Column(df, col), col)];
      k := k + 1;
    }
    s := StatusFrame(header, columns);
  }

  /** What the dashboard derives from one uploaded sheet. */
  datatype Report = Report(data: Frame, status: StatusFrame, complete: seq<Row>)

  /** The whole pipeline: fails, naming the absent columns, when a required
      column is missing; otherwise yields the projected data, its label
      table and the rows kept for correlation. */
  method Analyse(raw: Frame) returns (r: Result<Report, seq<string>>)
    requires WellFormed(raw)
    ensures r.Failure? <==> exists c :: c in Required && c !in raw.header
    ensures r.Failure? ==> forall x :: x in r.error <==> x in Required && x !in raw.header
    ensures r.Success? ==>
      && r.value.data.header == Required
      && WellFormed(r.value.data)
      && |r.value.data.rows| == |raw.rows|
      && forall c :: c in Required ==> Column(r.value.data, c) == Column(raw, c)
    ensures r.Success? ==>
      && r.value.status.header == Classified
      && |r.value.status.columns| == |Classified|
      && (forall j :: 0 <= j < |Classified| ==> |r.value.status.columns[j]| == |raw.rows|)
      && forall j, i :: 0 <= j < |Classified| && 0 <= i < |raw.rows| ==>
        r.value.status.columns[j][i] == AirQualityStatus(Column(raw, Classified[j])[i], Classified[j])
    ensures r.Success? ==> r.value.complete == DropMissing(r.value.data.rows)
    ensures r.Success? ==>
      && (forall row :: row in r.value.complete <==> row in r.value.data.rows && Complete(row))
      && (forall x :: multiset(r.value.complete)[x] ==
            if Complete(x) then multiset(r.value.data.rows)[x] else 0)
      && Subsequence(r.value.complete, r.value.data.rows)
  {
    var projected := Project(raw, Required);
    match projected
    case Failure(missing) =>
      r := Failure(missing);
    case Success(df) =>
      ColumnLists();
      var status := BuildStatus(df);
      assert forall j :: 0 <= j < |Classified| ==> Classified[j] in Required;
      var complete := DropMissing(df.rows);
      DropMissingSubsequence(df.rows);
      forall x: Row
        ensures multiset(complete)[x] == if Complete(x) then multiset(df.rows)[x] else 0
      {
        DropMissingCount(df.rows, x);
      }
      r := Success(Report(df, status, complete));
  }
}
