/** What `displayChart` computes from the rows before it touches the chart:
    the selected company's rows, their dates and their coerced turnovers. */
module SeriesProjection {
  import opened Sequences
  import opened Rows

  /** `rows.filter((row) => row.index_name === name)`: the rows are visited left
      to right and every match is pushed onto the result. */
  function Select(rows: seq<Row>, name: string): (r: seq<Row>)
    ensures |r| <= |rows|
    ensures forall k :: 0 <= k < |r| ==> r[k].indexName == name
    decreases |rows|
  {
    if |rows| == 0 then []
    else
      var init, last := Select(rows[..|rows| - 1], name), rows[|rows| - 1];
      if last.indexName == name then init + [last] else init
  }

  /** The positions in `rows` of the rows whose `index_name` is `name`, ascending. */
  ghost function MatchPositions(rows: seq<Row>, name: string): (ps: seq<int>)
    ensures forall k :: 0 <= k < |ps| ==> 0 <= ps[k] < |rows|
    decreases |rows|
  {
    if |rows| == 0 then []
    else
      var n := |rows| - 1;
      var init := MatchPositions(rows[..n], name);
      if rows[n].indexName == name then init + [n] else init
  }

  /** `MatchPositions` lists the matching positions in ascending order, and a
      position is listed exactly when its row has the selected name. */
  lemma {:induction false} MatchPositionsCharacterized(rows: seq<Row>, name: string)
    ensures StrictlyIncreasing(MatchPositions(rows, name))
    ensures forall j :: 0 <= j < |rows| ==> (j in MatchPositions(rows, name) <==> rows[j].indexName == name)
    decreases |rows|
  {
    if |rows| > 0 {
      var n := |rows| - 1;
      MatchPositionsCharacterized(rows[..n], name);
      MatchPositionsSnoc(rows, name);
      forall j | 0 <= j < n
        ensures rows[..n][j] == rows[j]
      {
      }
    }
  }

  /** The filter is stable and complete: its k-th row is the row at the k-th
      matching position, and there are exactly as many rows as matches. */
  lemma {:induction false} SelectIsMatchingSubsequence(rows: seq<Row>, name: string)
    ensures |Select(rows, name)| == |MatchPositions(rows, name)|
    ensures forall k :: 0 <= k < |Select(rows, name)| ==>
              Select(rows, name)[k] == rows[MatchPositions(rows, name)[k]]
    decreases |rows|
  {
    if |rows| > 0 {
      var n := |rows| - 1;
      SelectIsMatchingSubsequence(rows[..n], name);
      SelectSnoc(rows, name);
      MatchPositionsSnoc(rows, name);
      var ps := MatchPositions(rows[..n], name);
      assert forall k :: 0 <= k < |ps| ==> ps[k] < n;
      ExtendCorrespondence(rows, Select(rows[..n], name), ps, rows[n].indexName == name);
    }
  }

  /** Appending the last row (when it matches) to both the filtered rows and
      the positions keeps them in correspondence. */
  lemma ExtendCorrespondence(rows: seq<Row>, r: seq<Row>, ps: seq<int>, matched: bool)
    requires |rows| > 0 && |r| == |ps|
    requires forall k :: 0 <= k < |ps| ==> 0 <= ps[k] < |rows| - 1 && r[k] == rows[..|rows| - 1][ps[k]]
    ensures var n := |rows| - 1;
            var r', ps' := r + (if matched then [rows[n]] else []), ps + (if matched then [n] else []);
            |r'| == |ps'| && forall k :: 0 <= k < |r'| ==> r'[k] == rows[ps'[k]]
  {
  }

  lemma SelectSnoc(rows: seq<Row>, name: string)
    requires |rows| > 0
    ensures var n := |rows| - 1;
            Select(rows, name)
              == Select(rows[..n], name) + (if rows[n].indexName == name then [rows[n]] else [])
  {
  }

  lemma MatchPositionsSnoc(rows: seq<Row>, name: string)
    requires |rows| > 0
    ensures var n := |rows| - 1;
            MatchPositions(rows, name)
              == MatchPositions(rows[..n], name) + (if rows[n].indexName == name then [n] else [])
  {
  }

  /** Filtering a concatenation filters each part: a stand-alone property of
      the stable filter, not used by the other proofs. */
  lemma {:induction false} SelectAppend(a: seq<Row>, b: seq<Row>, name: string)
    ensures Select(a + b, name) == Select(a, name) + Select(b, name)
    decreases |b|
  {
    if |b| == 0 {
      assert a + b == a;
    } else {
      var n := |b| - 1;
      assert (a + b)[..|a + b| - 1] == a + b[..n];
      SelectAppend(a, b[..n], name);
    }
  }

  /** The two parallel sequences handed to the chart. */
  datatype Series<V> = Series(labels: seq<string>, data: seq<V>)

  /** `filteredRows.map((row) => row.index_date)` */
  function Labels(filtered: seq<Row>): seq<string> {
    seq(|filtered|, i requires 0 <= i < |filtered| => filtered[i].indexDate)
  }

  /** `filteredRows.map((row) => parse(row.turnover_rs_cr))`, the coercion
      being supplied by the caller. */
  function TurnoverData<V>(filtered: seq<Row>, parse: string -> V): seq<V> {
    seq(|filtered|, i requires 0 <= i < |filtered| => parse(filtered[i].turnover))
  }

  /** The labels and data `displayChart` derives for `name`. */
  function Project<V>(rows: seq<Row>, name: string, parse: string -> V): Series<V> {
    var filtered := Select(rows, name);
    Series(Labels(filtered), TurnoverData(filtered, parse))
  }

  /** Labels and data are aligned with the matching rows: one entry per match,
      the k-th of each taken from the k-th matching row, nothing dropped. */
  lemma {:induction false} ProjectAligned<V>(rows: seq<Row>, name: string, parse: string -> V)
    ensures var s, ps := Project(rows, name, parse), MatchPositions(rows, name);
            && |s.labels| == |ps|
            && |s.data| == |ps|
            && forall k :: 0 <= k < |ps| ==>
                 s.labels[k] == rows[ps[k]].indexDate && s.data[k] == parse(rows[ps[k]].turnover)
  {
    SelectIsMatchingSubsequence(rows, name);
  }

  /** The guard `turnoverData.length === 0` holds exactly when no row has the
      selected name. */
  lemma ProjectEmptyIffNoMatch<V>(rows: seq<Row>, name: string, parse: string -> V)
    ensures |Project(rows, name, parse).data| == 0 <==>
            forall i :: 0 <= i < |rows| ==> rows[i].indexName != name
  {
    ProjectAligned(rows, name, parse);
    MatchPositionsCharacterized(rows, name);
    var ps := MatchPositions(rows, name);
    HeadIsMember(ps);
  }
}
