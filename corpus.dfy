/** `Generate_dataframe_for_CamScale_analysis` after the PDF files have
    been turned into text: every report's records are collected in file
    order, the table is sorted by datetime, and each row is tied to its
    calibration. */
module Corpus {
  import opened Errors
  import opened Order
  import opened Fields
  import opened Report
  import opened Calibration

  /** What the parser makes of each report, in order. */
  function Parsed(reports: seq<seq<string>>): (ps: seq<Result<seq<Record>>>)
    ensures |ps| == |reports|
    ensures forall k :: 0 <= k < |reports| ==> ps[k] == ParseReport(reports[k])
  {
    seq(|reports|, k requires 0 <= k < |reports| => ParseReport(reports[k]))
  }

  /** The records of the parsed reports, one report after another; the
      first report that failed ends the whole call with its exception. */
  function Concat(ps: seq<Result<seq<Record>>>): (r: Result<seq<Record>>)
    ensures r.Ok? <==> forall k :: 0 <= k < |ps| ==> ps[k].Ok?
    ensures r.Err? ==> exists k :: 0 <= k < |ps| && ps[k] == Err(r.error) && forall j :: 0 <= j < k ==> ps[j].Ok?
    decreases |ps|
  {
    if ps == [] then Ok([])
    else
      var init := ps[..|ps| - 1];
      assert forall k :: 0 <= k < |init| ==> init[k] == ps[k];
      var front :- Concat(init);
      var last :- ps[|ps| - 1];
      Ok(front + last)
  }

  /** Once collected, every record of every report is in the table. */
  lemma {:induction false} ConcatMembers(ps: seq<Result<seq<Record>>>)
    ensures Concat(ps).Ok? ==> forall k, i :: 0 <= k < |ps| && 0 <= i < |ps[k].value| ==> ps[k].value[i] in Concat(ps).value
    decreases |ps|
  {
    if ps != [] {
      var init := ps[..|ps| - 1];
      ConcatMembers(init);
      assert forall k :: 0 <= k < |init| ==> init[k] == ps[k];
    }
  }

  /** How many records the first `n` parsed reports hold; a failed report
      holds none. */
  function RowsBefore(ps: seq<Result<seq<Record>>>, n: nat): nat
    requires n <= |ps|
  {
    if n == 0 then 0
    else RowsBefore(ps, n - 1) + (if ps[n - 1].Ok? then |ps[n - 1].value| else 0)
  }

  lemma {:induction false} RowsBeforePrefix(ps: seq<Result<seq<Record>>>, m: nat, n: nat)
    requires n <= m <= |ps|
    ensures RowsBefore(ps[..m], n) == RowsBefore(ps, n)
    decreases n
  {
    if n > 0 {
      RowsBeforePrefix(ps, m, n - 1);
      assert ps[..m][n - 1] == ps[n - 1];
    }
  }

  /** The `i`-th record of report `k` sits at row `RowsBefore(ps, k) + i`
      of `t`. */
  predicate PlacedAt(ps: seq<Result<seq<Record>>>, t: seq<Record>, k: nat, i: nat)
    requires k < |ps| && ps[k].Ok? && i < |ps[k].value|
  {
    RowsBefore(ps, k) + i < |t| && t[RowsBefore(ps, k) + i] == ps[k].value[i]
  }

  /** `t` holds the records of every successful report in `ps` in order,
      one report after another. */
  predicate Placed(ps: seq<Result<seq<Record>>>, t: seq<Record>) {
    forall k: nat, i: nat :: k < |ps| && ps[k].Ok? && i < |ps[k].value| ==> PlacedAt(ps, t, k, i)
  }

  /** Once collected, the table holds each report's records exactly once,
      in order: it is as long as all the reports together, and every
      record sits where `Placed` says. */
  lemma {:induction false} ConcatLayout(ps: seq<Result<seq<Record>>>)
    ensures Concat(ps).Ok? ==> |Concat(ps).value| == RowsBefore(ps, |ps|)
    ensures Concat(ps).Ok? ==> Placed(ps, Concat(ps).value)
    decreases |ps|
  {
    if ps != [] && Concat(ps).Ok? {
      var n := |ps| - 1;
      var init := ps[..n];
      assert forall k :: 0 <= k < n ==> init[k] == ps[k];
      ConcatLayout(init);
      RowsBeforePrefix(ps, n, n);
      var front, last := Concat(init).value, ps[n].value;
      var t := front + last;
      assert Concat(ps).value == t;
      forall k: nat, i: nat | k < |ps| && ps[k].Ok? && i < |ps[k].value|
        ensures PlacedAt(ps, t, k, i)
      {
        if k < n {
          RowsBeforePrefix(ps, n, k);
          RowsBeforeGrows(ps, k + 1, n);
          assert init[k] == ps[k] && PlacedAt(init, front, k, i);
        }
      }
    }
  }

  lemma {:induction false} RowsBeforeGrows(ps: seq<Result<seq<Record>>>, m: nat, n: nat)
    requires m <= n <= |ps|
    ensures RowsBefore(ps, m) <= RowsBefore(ps, n)
    decreases n
  {
    if m < n {
      RowsBeforeGrows(ps, m, n - 1);
    }
  }

  /** Once collected, the pre-calibration rows are paired when those of
      every report are. */
  lemma {:induction false} ConcatPaired(ps: seq<Result<seq<Record>>>)
    requires forall k :: 0 <= k < |ps| && ps[k].Ok? ==> PreRowsPaired(ps[k].value)
    ensures Concat(ps).Ok? ==> PreRowsPaired(Concat(ps).value)
    decreases |ps|
  {
    if ps != [] && Concat(ps).Ok? {
      var init := ps[..|ps| - 1];
      ConcatPaired(init);
      PreRowsPairedAppend(Concat(init).value, ps[|ps| - 1].value);
    }
  }

  /** Every collected record comes from one of the reports. */
  lemma {:induction false} ConcatFrom(ps: seq<Result<seq<Record>>>)
    requires Concat(ps).Ok?
    ensures forall rec :: rec in Concat(ps).value ==>
      exists k :: 0 <= k < |ps| && ps[k].Ok? && rec in ps[k].value
    decreases |ps|
  {
    if ps != [] {
      var init := ps[..|ps| - 1];
      ConcatFrom(init);
      assert forall k :: 0 <= k < |init| ==> init[k] == ps[k];
    }
  }

  /** A report yields at most two records, so the table has at most twice
      as many rows as there are reports. */
  lemma {:induction false} ConcatSize(ps: seq<Result<seq<Record>>>)
    requires forall k :: 0 <= k < |ps| && ps[k].Ok? ==> |ps[k].value| <= 2
    ensures Concat(ps).Ok? ==> |Concat(ps).value| <= 2 * |ps|
    decreases |ps|
  {
    if ps != [] {
      ConcatSize(ps[..|ps| - 1]);
    }
  }

  /** Once a prefix of the parsed reports has failed, all of them fail with
      the same exception. */
  lemma {:induction false} ConcatStops(ps: seq<Result<seq<Record>>>, k: nat)
    requires k <= |ps| && Concat(ps[..k]).Err?
    ensures Concat(ps) == Concat(ps[..k])
    decreases |ps|
  {
    if k < |ps| {
      var init := ps[..|ps| - 1];
      assert init[..k] == ps[..k];
      ConcatStops(init, k);
    } else {
      assert ps[..k] == ps;
    }
  }

  /** Collecting one more parsed report. */
  lemma ConcatSnoc(ps: seq<Result<seq<Record>>>, k: nat)
    requires k < |ps| && Concat(ps[..k]).Ok?
    ensures ps[k].Err? ==> Concat(ps[..k + 1]) == Err(ps[k].error)
    ensures ps[k].Ok? ==> Concat(ps[..k + 1]) == Ok(Concat(ps[..k]).value + ps[k].value)
  {
    assert ps[..k + 1][..k] == ps[..k];
  }

  /** A calibration report's pre-calibration record shares its datetime
      with the post-calibration record that follows it; a verification
      record is not a pre-calibration one. So the records of a report are
      paired. */
  lemma ReportPaired(pages: seq<string>)
    ensures ParseReport(pages).Ok? ==> PreRowsPaired(ParseReport(pages).value)
  {
    if |pages| > 0 {
      var lines := Lines(pages[0]);
      var f := ReportFields(lines);
      ParseReportByFields(pages);
      if f.Ok? {
        var m := f.value;
        if m["verification"] == Bool(true) && m["calibration"] == Bool(false) {
          if VerificationRecords(m, lines).Ok? {
            VerificationPaired(m, Tokens(lines[17])[1..], VerificationRecords(m, lines).value);
          }
        } else if m["calibration"] == Bool(true) && m["verification"] == Bool(false) {
          if CalibrationRecords(m, lines).Ok? {
            CalibrationPaired(m, Tokens(lines[17])[1..], Tokens(lines[18])[1..], CalibrationRecords(m, lines).value);
          }
        }
      }
    }
  }

  lemma VerificationPaired(m: Record, vals: seq<string>, rs: seq<Record>)
    requires "datetime" in m && m["datetime"].Str? && |vals| == 6
    requires rs == [m + Deviations(vals, "Verification")]
    ensures PreRowsPaired(rs)
  {
    MergedDeviations(m, vals, "Verification");
    assert !IsPreCalibration(rs[0]) by {
      assert "Verification"[0] != "PreCalibration"[0];
    }
  }

  lemma CalibrationPaired(m: Record, pre: seq<string>, post: seq<string>, rs: seq<Record>)
    requires "datetime" in m && m["datetime"].Str? && |pre| == 6 && |post| == 6
    requires rs == [m + Deviations(pre, "PreCalibration"), m + Deviations(post, "PostCalibration")]
    ensures PreRowsPaired(rs)
  {
    MergedDeviations(m, pre, "PreCalibration");
    MergedDeviations(m, post, "PostCalibration");
    PreIsNotPost(rs[0]);
    assert !IsPreCalibration(rs[1]) by {
      assert "PostCalibration"[1] != "PreCalibration"[1];
    }
    assert CalTimes(rs) == [DateOf(rs[1])] by {
      assert rs[1..] == [rs[1]] && rs[1..][1..] == [];
    }
  }

  /** The records the reports give, as `myList` holds them after the loop. */
  function Collected(reports: seq<seq<string>>): Result<seq<Record>> {
    Concat(Parsed(reports))
  }

  /** Every collected record is well formed: it carries the datetime of
      its report and a measure type. */
  lemma CollectedWellFormed(reports: seq<seq<string>>)
    ensures Collected(reports).Ok? ==> AllWellFormed(Collected(reports).value)
    ensures Collected(reports).Ok? ==> |Collected(reports).value| <= 2 * |reports|
  {
    var ps := Parsed(reports);
    forall k | 0 <= k < |ps| && ps[k].Ok?
      ensures |ps[k].value| <= 2 && forall i :: 0 <= i < |ps[k].value| ==> WellFormed(ps[k].value[i])
    {
      ParseReportWellFormed(reports[k]);
    }
    ConcatSize(ps);
    if Concat(ps).Ok? {
      ConcatFrom(ps);
      var rows := Concat(ps).value;
      forall i | 0 <= i < |rows| ensures WellFormed(rows[i]) {
        assert rows[i] in rows;
      }
    }
  }

  /** The collected records have their pre-calibration rows paired. */
  lemma CollectedPaired(reports: seq<seq<string>>)
    ensures Collected(reports).Ok? ==> PreRowsPaired(Collected(reports).value)
  {
    var ps := Parsed(reports);
    forall k | 0 <= k < |ps| && ps[k].Ok? ensures PreRowsPaired(ps[k].value) {
      ReportPaired(reports[k]);
    }
    ConcatPaired(ps);
  }

  /** In the collected table, in any order and so once sorted by datetime,
      a pre-calibration row is attributed to the latest calibration
      strictly before it (or the lower bound when there is none), not to
      the calibration of its own report, which is dated at the same time. */
  lemma PreCalibrationRowsGoToPrevious(reports: seq<seq<string>>, t: seq<Record>, q: nat)
    requires Collected(reports).Ok? && multiset(t) == multiset(Collected(reports).value)
    requires q < |t| && IsPreCalibration(t[q])
    ensures GoesToPrevious(t, q)
  {
    CollectedPaired(reports);
    PreRowsPairedPermutation(Collected(reports).value, t);
    PreCalibrationIsLatestBefore(t, q);
  }

  /** The loop of `Generate_dataframe_for_CamScale_analysis` that extends
      a list with each report's records. */
  method CollectRecords(reports: seq<seq<string>>) returns (res: Result<seq<Record>>)
    ensures res == Collected(reports)
  {
    ghost var ps := Parsed(reports);
    var rows: seq<Record> := [];
    var k := 0;
    while k < |reports|
      invariant 0 <= k <= |reports|
      invariant Concat(ps[..k]) == Ok(rows)
    {
      var m := ParseReport(reports[k]);
      assert m == ps[k];
      ConcatSnoc(ps, k);
      if m.Err? {
        ConcatStops(ps, k + 1);
        return Err(m.error);
      }
      rows := rows + m.value;
      k := k + 1;
    }
    assert ps[..k] == ps;
    return Ok(rows);
  }

  /** `df.sort_values(by='datetime')`: the rows in ascending datetime
      order, a permutation of the collected rows. */
  function SortedTable(rows: seq<Record>): (t: seq<Record>)
    requires AllWellFormed(rows)
    ensures AllWellFormed(t)
    ensures SortedBy(t, DateOf) && multiset(t) == multiset(rows)
  {
    var t := SortBy(rows, DateOf);
    forall i | 0 <= i < |t| ensures WellFormed(t[i]) {
      assert t[i] in multiset(rows);
    }
    t
  }

  /** The table has a post-calibration row exactly when some collected
      row is one. */
  lemma PostRowsKept(rows: seq<Record>, t: seq<Record>)
    requires multiset(t) == multiset(rows)
    ensures CalTimes(t) == [] <==> forall i :: 0 <= i < |rows| ==> !IsPostCalibration(rows[i])
  {
    CalTimesMembers(t);
    if CalTimes(t) != [] {
      var c := CalTimes(t)[0];
      assert c in CalTimes(t);
      var j :| 0 <= j < |t| && IsPostCalibration(t[j]) && DateOf(t[j]) == c;
      assert t[j] in multiset(rows);
    }
    forall i | 0 <= i < |rows| && IsPostCalibration(rows[i]) ensures CalTimes(t) != [] {
      assert rows[i] in multiset(t);
      var j :| 0 <= j < |t| && t[j] == rows[i];
      assert DateOf(t[j]) in CalTimes(t);
    }
  }

  /** `Generate_dataframe_for_CamScale_analysis` on the page texts of the
      reports, in the order the files were found. A report that fails to
      parse ends the call with its exception; when there are no records at
      all the sort finds no `datetime` column; when no record is a
      post-calibration the attribution's assertion fails. Otherwise every
      collected row appears once, sorted by datetime, with its attribution
      under `currentCalDateTime`. */
  method GenerateDataframe(reports: seq<seq<string>>) returns (res: Result<seq<Record>>)
    ensures var c := Collected(reports);
      && (c.Err? ==> res == Err(c.error))
      && (c.Ok? && c.value == [] ==> res == Err(KeyError))
      && (c.Ok? && c.value != [] ==>
            && (res.Err? <==> forall i :: 0 <= i < |c.value| ==> !IsPostCalibration(c.value[i]))
            && (res.Err? ==> res.error == AssertionError))
    ensures res.Ok? ==> var c := Collected(reports);
      && c.Ok? && AllWellFormed(c.value)
      && var t := SortedTable(c.value);
      && |res.value| == |t|
      && (forall q :: 0 <= q < |t| ==> res.value[q] == t[q][CURRENT_CAL := Str(Attributed(t, q))])
    ensures res.Ok? ==> SortedBy(res.value, DateOf)
  {
    CollectedWellFormed(reports);
    var rows :- CollectRecords(reports);
    if |rows| == 0 {
      return Err(KeyError);
    }
    var t := SortedTable(rows);
    PostRowsKept(rows, t);
    res := ProcessCalibrationIntervals(t);
    if res.Ok? {
      AttributionKeepsOrder(t, res.value);
    }
  }

  /** The rows of the finished table are in ascending datetime order: the
      attribution column leaves every datetime as it was. */
  lemma AttributionKeepsOrder(t: seq<Record>, out: seq<Record>)
    requires |out| == |t| && SortedBy(t, DateOf)
    requires forall q :: 0 <= q < |t| ==> out[q] == t[q][CURRENT_CAL := Str(Attributed(t, q))]
    ensures SortedBy(out, DateOf)
    ensures forall q :: 0 <= q < |t| ==> out[q].Keys == t[q].Keys + {CURRENT_CAL}
  {
    assert CURRENT_CAL != "datetime" by {
      assert CURRENT_CAL[0] != "datetime"[0];
    }
    forall q | 0 <= q < |t| ensures DateOf(out[q]) == DateOf(t[q]) {
    }
  }
}
