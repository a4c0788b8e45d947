/** `process_calibration_intervals`: each row of the scraped table is tied
    to the calibration it was measured under. The post-calibration rows
    give the calibration times; a row dated strictly after one calibration
    and no later than the next is attributed to the earlier of the two, a
    post-calibration row to itself, and a row before the first calibration
    to a fixed lower bound. */
module Calibration {
  import opened Errors
  import opened Order
  import opened Fields
  import opened Report

  /** The two sentinels the sorted calibration times are framed with. */
  const LOWER_BOUND := "1900-01-01 00:00:00"
  const UPPER_BOUND := "3000-12-31 23:59:59"

  /** The column the attribution is written to. */
  const CURRENT_CAL := "currentCalDateTime"

  predicate IsPostCalibration(rec: Record) {
    MEASURE_TYPE in rec && rec[MEASURE_TYPE] == Str("PostCalibration")
  }

  predicate IsPreCalibration(rec: Record) {
    MEASURE_TYPE in rec && rec[MEASURE_TYPE] == Str("PreCalibration")
  }

  /** The row's datetime text. Every row the parser builds carries one
      (`WellFormed`); the empty string only stands in for a missing one. */
  function DateOf(rec: Record): string {
    if "datetime" in rec && rec["datetime"].Str? then rec["datetime"].s else ""
  }

  predicate AllWellFormed(table: seq<Record>) {
    forall i :: 0 <= i < |table| ==> WellFormed(table[i])
  }

  /** `df[df.MeasureType == 'PostCalibration'].datetime.to_list()`: the
      datetimes of the post-calibration rows, in table order. */
  function CalTimes(table: seq<Record>): (cs: seq<string>)
    ensures |cs| <= |table|
  {
    if table == [] then []
    else
      var rest := CalTimes(table[1..]);
      if IsPostCalibration(table[0]) then [DateOf(table[0])] + rest else rest
  }

  /** The calibration times are the datetimes of the post-calibration rows. */
  lemma {:induction false} CalTimesMembers(table: seq<Record>)
    ensures forall c :: c in CalTimes(table) <==>
      exists i :: 0 <= i < |table| && IsPostCalibration(table[i]) && DateOf(table[i]) == c
  {
    if table != [] {
      CalTimesMembers(table[1..]);
      assert forall i :: 1 <= i < |table| ==> table[1..][i - 1] == table[i];
    }
  }

  /** The calibration times framed by the sentinels. */
  function Framed(cs: seq<string>): (b: seq<string>)
    ensures |b| == |cs| + 2 && b[0] == LOWER_BOUND && b[|b| - 1] == UPPER_BOUND
    ensures forall j :: 0 <= j < |cs| ==> b[j + 1] == cs[j]
  {
    [LOWER_BOUND] + cs + [UPPER_BOUND]
  }

  /** The boundary list the sweep runs over: the sorted calibration times
      between the two sentinels. */
  function Boundaries(table: seq<Record>): (b: seq<string>)
    ensures |b| == |CalTimes(table)| + 2 && b[0] == LOWER_BOUND && b[|b| - 1] == UPPER_BOUND
    ensures Sorted(b[1..|b| - 1]) && multiset(b[1..|b| - 1]) == multiset(CalTimes(table))
  {
    var s := SortStrings(CalTimes(table));
    var b := Framed(s);
    assert |s| == |multiset(s)| == |CalTimes(table)|;
    assert b[1..|b| - 1] == s;
    b
  }

  // ---------------------------------------------------------------------
  // The first sweep

  /** The attribution of a row dated `d` once the sweep has visited the
      intervals `(b[i], b[i + 1]]` for `i` from 1 to `n`: the start of the
      last interval that holds `d`, or `b[0]` when none does. */
  function Swept(b: seq<string>, d: string, n: nat): (r: string)
    requires n + 1 < |b|
    ensures r == b[0] || exists i :: 1 <= i <= n && r == b[i]
    decreases n
  {
    if n == 0 then b[0]
    else if Less(b[n], d) && LessEq(d, b[n + 1]) then b[n]
    else Swept(b, d, n - 1)
  }

  /** How many of the sorted times `cs` lie strictly before `d`: the
      length of the prefix of `cs` below `d`. */
  function CountBefore(cs: seq<string>, d: string): (m: nat)
    ensures m <= |cs|
    ensures forall j :: 0 <= j < m ==> Less(cs[j], d)
    ensures m < |cs| ==> !Less(cs[m], d)
  {
    if cs == [] || !Less(cs[0], d) then 0 else 1 + CountBefore(cs[1..], d)
  }

  /** In sorted times, nothing from the first time not below `d` on is
      below `d`. */
  lemma NoneBeforeAfterCount(cs: seq<string>, d: string, j: nat)
    requires Sorted(cs) && CountBefore(cs, d) <= j < |cs|
    ensures !Less(cs[j], d)
  {
    var m := CountBefore(cs, d);
    NotLess(cs[m], d);
    if Less(cs[j], d) {
      LessEqTransitive(d, cs[m], cs[j]);
      LessAsymmetric(cs[j], d);
    }
  }

  /** The attribution the sweep should give after `n` intervals of the
      framed sorted times `cs`, with `m` the number of times before `d`:
      the time just before `d` once its interval has been visited, the
      lower bound otherwise. The last interval ends at the upper bound, so
      a row later than the upper bound falls in no interval after the last
      time. */
  function Previous(cs: seq<string>, d: string, n: nat): string {
    var m := CountBefore(cs, d);
    if 1 <= m <= n && (m < |cs| || LessEq(d, UPPER_BOUND)) then cs[m - 1] else LOWER_BOUND
  }

  /** One step of the sweep: interval `n` either holds `d` or passes it on
      to the intervals before it. */
  lemma SweptStep(b: seq<string>, d: string, n: nat)
    requires 0 < n && n + 1 < |b|
    ensures Less(b[n], d) && LessEq(d, b[n + 1]) ==> Swept(b, d, n) == b[n]
    ensures !(Less(b[n], d) && LessEq(d, b[n + 1])) ==> Swept(b, d, n) == Swept(b, d, n - 1)
  {
  }

  /** The sweep over the framed sorted times gives the time just before
      the row's datetime. */
  lemma {:induction false} SweptIsPrevious(cs: seq<string>, d: string, n: nat)
    requires Sorted(cs) && n <= |cs|
    ensures Swept(Framed(cs), d, n) == Previous(cs, d, n)
    decreases n
  {
    var b, m := Framed(cs), CountBefore(cs, d);
    if n > 0 {
      SweptIsPrevious(cs, d, n - 1);
      SweptStep(b, d, n);
      assert b[n] == cs[n - 1];
      if n < m {
        // The interval ends at a time before d.
        assert b[n + 1] == cs[n];
        LessAsymmetric(cs[n], d);
        assert Previous(cs, d, n) == Previous(cs, d, n - 1);
      } else if n > m {
        // The interval starts at a time not before d.
        NoneBeforeAfterCount(cs, d, n - 1);
        assert Previous(cs, d, n) == Previous(cs, d, n - 1);
      } else if m < |cs| {
        // The interval ends at the first time not before d.
        assert b[n + 1] == cs[m];
        NotLess(cs[m], d);
        assert Previous(cs, d, n) == cs[m - 1];
      } else {
        // The last interval ends at the upper bound.
        assert b[n + 1] == UPPER_BOUND;
        assert Previous(cs, d, n - 1) == LOWER_BOUND;
      }
    }
  }

  // ---------------------------------------------------------------------
  // The attribution

  /** The calibration a row ends up attributed to: a post-calibration row
      to its own datetime, any other row to what the sweep gives it. */
  function Attributed(table: seq<Record>, q: nat): (a: string)
    requires q < |table|
    ensures IsPostCalibration(table[q]) ==> a == DateOf(table[q])
    ensures !IsPostCalibration(table[q]) ==> var b := Boundaries(table); a in b[..|b| - 1]
  {
    if IsPostCalibration(table[q]) then DateOf(table[q])
    else
      var b := Boundaries(table);
      var a := Swept(b, DateOf(table[q]), |b| - 2);
      assert forall i :: 0 <= i < |b| - 1 ==> b[..|b| - 1][i] == b[i];
      a
  }

  /** The sweep gives a row the lower bound or a boundary strictly before
      the row's datetime. */
  lemma {:induction false} SweptBefore(b: seq<string>, d: string, n: nat)
    requires n + 1 < |b|
    ensures var r := Swept(b, d, n); r == b[0] || Less(r, d)
    decreases n
  {
    if n > 0 && !(Less(b[n], d) && LessEq(d, b[n + 1])) {
      SweptBefore(b, d, n - 1);
    }
  }

  /** The full sweep over framed times gives the lower bound or one of the
      times strictly before the datetime. */
  lemma FramedSweptBefore(s: seq<string>, d: string)
    ensures var a := Swept(Framed(s), d, |s|); a == LOWER_BOUND || (a in s && Less(a, d))
  {
    var b := Framed(s);
    SweptBefore(b, d, |s|);
    var a := Swept(b, d, |s|);
    if a != LOWER_BOUND {
      var i :| 1 <= i <= |s| && a == b[i];
      assert a == s[i - 1];
    }
  }

  /** A post-calibration row is attributed to its own datetime; any other
      row to the lower bound or to a calibration time strictly before its
      datetime. So no row is attributed to a time after its own datetime
      once its datetime is not before the lower bound, and the elapsed
      time since the attributed calibration is never negative. */
  lemma AttributedNotAfter(table: seq<Record>, q: nat)
    requires q < |table|
    ensures var a, d := Attributed(table, q), DateOf(table[q]);
      && (IsPostCalibration(table[q]) ==> a == d)
      && (!IsPostCalibration(table[q]) ==> a == LOWER_BOUND || (a in CalTimes(table) && Less(a, d)))
      && (LessEq(LOWER_BOUND, d) ==> LessEq(a, d))
  {
    if !IsPostCalibration(table[q]) {
      var cs := CalTimes(table);
      var s := SortStrings(cs);
      assert Attributed(table, q) == Swept(Framed(s), DateOf(table[q]), |s|);
      FramedSweptBefore(s, DateOf(table[q]));
      SameElements(cs, s);
    }
  }

  /** Over sorted times `s`, and for a datetime `d` no later than the upper
      bound or among the times, the full sweep gives the latest time
      strictly before `d`, or the lower bound when no time precedes `d`. */
  lemma PreviousIsLatestBefore(s: seq<string>, d: string)
    requires Sorted(s)
    requires LessEq(d, UPPER_BOUND) || d in s
    ensures var a := Previous(s, d, |s|);
      || (a == LOWER_BOUND && forall c :: c in s ==> !Less(c, d))
      || (a in s && Less(a, d) && forall c :: c in s && Less(c, d) ==> LessEq(c, a))
  {
    var m := CountBefore(s, d);
    if d in s {
      var k :| 0 <= k < |s| && s[k] == d;
      LessIrreflexive(d);
      assert m < |s|;
    }
    if m == 0 || (m == |s| && !LessEq(d, UPPER_BOUND)) {
      assert Previous(s, d, |s|) == LOWER_BOUND;
      forall c | c in s ensures !Less(c, d) {
        var j :| 0 <= j < |s| && s[j] == c;
        NoneBeforeAfterCount(s, d, j);
      }
    } else {
      var a := s[m - 1];
      assert Previous(s, d, |s|) == a;
      forall c | c in s && Less(c, d) ensures LessEq(c, a) {
        var j :| 0 <= j < |s| && s[j] == c;
        if j >= m {
          NoneBeforeAfterCount(s, d, j);
        }
      }
    }
  }

  /** A row that is not a post-calibration, dated no later than the upper
      bound or at a calibration time, is attributed to the latest
      calibration strictly before it, or to the lower bound when no
      calibration precedes it. The pre-calibration row of a calibration
      report shares the datetime of its post-calibration row, so it is
      attributed to the calibration before, never to its own. */
  lemma AttributedIsLatestBefore(table: seq<Record>, q: nat)
    requires q < |table| && !IsPostCalibration(table[q])
    requires LessEq(DateOf(table[q]), UPPER_BOUND) || DateOf(table[q]) in CalTimes(table)
    ensures var a, d, cs := Attributed(table, q), DateOf(table[q]), CalTimes(table);
      || (a == LOWER_BOUND && forall c :: c in cs ==> !Less(c, d))
      || (a in cs && Less(a, d) && forall c :: c in cs && Less(c, d) ==> LessEq(c, a))
  {
    var d, cs := DateOf(table[q]), CalTimes(table);
    var s := SortStrings(cs);
    SameElements(cs, s);
    SweptIsPrevious(s, d, |s|);
    assert Attributed(table, q) == Previous(s, d, |s|);
    PreviousIsLatestBefore(s, d);
  }

  /** Every pre-calibration row of the table is dated at one of its
      calibration times: its calibration report's post-calibration row is
      in the table too. */
  predicate PreRowsPaired(table: seq<Record>) {
    forall i :: 0 <= i < |table| && IsPreCalibration(table[i]) ==> DateOf(table[i]) in CalTimes(table)
  }

  lemma PreIsNotPost(rec: Record)
    requires IsPreCalibration(rec)
    ensures !IsPostCalibration(rec)
  {
    assert "PreCalibration"[1] != "PostCalibration"[1];
  }

  /** Row `q` is dated at a calibration time and is attributed to the
      latest calibration strictly before it, or to the lower bound when no
      calibration precedes it; so not to the calibration at its own time,
      unless that is the lower bound itself. */
  predicate GoesToPrevious(table: seq<Record>, q: nat)
    requires q < |table|
  {
    var a, d, cs := Attributed(table, q), DateOf(table[q]), CalTimes(table);
    && d in cs
    && (|| (a == LOWER_BOUND && forall c :: c in cs ==> !Less(c, d))
        || (a in cs && Less(a, d) && forall c :: c in cs && Less(c, d) ==> LessEq(c, a)))
    && (a != d || d == LOWER_BOUND)
  }

  /** In a table whose pre-calibration rows are paired, a pre-calibration
      row is attributed to the latest calibration strictly before it, or
      to the lower bound when none precedes it; so never to the
      calibration it was measured before, unless it is dated at the lower
      bound itself. */
  lemma PreCalibrationIsLatestBefore(table: seq<Record>, q: nat)
    requires PreRowsPaired(table) && q < |table| && IsPreCalibration(table[q])
    ensures GoesToPrevious(table, q)
  {
    PreIsNotPost(table[q]);
    AttributedIsLatestBefore(table, q);
    LessIrreflexive(DateOf(table[q]));
  }

  /** Joining two tables keeps their pre-calibration rows paired. */
  lemma PreRowsPairedAppend(t1: seq<Record>, t2: seq<Record>)
    requires PreRowsPaired(t1) && PreRowsPaired(t2)
    ensures PreRowsPaired(t1 + t2)
  {
    var t := t1 + t2;
    CalTimesAppend(t1, t2);
    forall i | 0 <= i < |t| && IsPreCalibration(t[i]) ensures DateOf(t[i]) in CalTimes(t) {
      if i < |t1| {
        assert t[i] == t1[i];
      } else {
        assert t[i] == t2[i - |t1|];
      }
    }
  }

  /** Reordering a table keeps its pre-calibration rows paired. */
  lemma PreRowsPairedPermutation(t1: seq<Record>, t2: seq<Record>)
    requires multiset(t1) == multiset(t2) && PreRowsPaired(t1)
    ensures PreRowsPaired(t2)
  {
    CalTimesPermutation(t1, t2);
    forall i | 0 <= i < |t2| && IsPreCalibration(t2[i]) ensures DateOf(t2[i]) in CalTimes(t2) {
      assert t2[i] in multiset(t1);
      var j :| 0 <= j < |t1| && t1[j] == t2[i];
      assert DateOf(t2[i]) in multiset(CalTimes(t1));
    }
  }

  /** A sequence and its permutation hold the same elements. */
  lemma SameElements(a: seq<string>, b: seq<string>)
    requires multiset(a) == multiset(b)
    ensures forall c :: c in a <==> c in b
  {
    forall c ensures c in a <==> c in b {
      assert c in a <==> c in multiset(a);
      assert c in b <==> c in multiset(b);
    }
  }

  // ---------------------------------------------------------------------
  // Independence from the order of the rows

  lemma {:induction false} CalTimesAppend(t1: seq<Record>, t2: seq<Record>)
    ensures CalTimes(t1 + t2) == CalTimes(t1) + CalTimes(t2)
    decreases |t1|
  {
    if t1 == [] {
      assert t1 + t2 == t2;
    } else {
      assert (t1 + t2)[1..] == t1[1..] + t2;
      CalTimesAppend(t1[1..], t2);
    }
  }

  /** A sequence is its part before `j`, its element at `j` and its part
      after `j`; dropping that element drops one occurrence of it. */
  lemma Split3<T>(t: seq<T>, j: nat)
    requires j < |t|
    ensures t == t[..j] + ([t[j]] + t[j + 1..])
    ensures multiset(t[..j] + t[j + 1..]) == multiset(t) - multiset{t[j]}
  {
    assert t == t[..j] + ([t[j]] + t[j + 1..]);
  }

  /** Taking row `j` out of a table takes its calibration time, if any,
      out of the calibration times. */
  lemma CalTimesRemove(t: seq<Record>, j: nat)
    requires j < |t|
    ensures multiset(CalTimes(t)) == multiset(CalTimes([t[j]])) + multiset(CalTimes(t[..j] + t[j + 1..]))
  {
    var front, back := t[..j], t[j + 1..];
    Split3(t, j);
    CalTimesAppend(front, back);
    CalTimesAppend([t[j]], back);
    CalTimesAppend(front, [t[j]] + back);
  }

  /** Reordering the rows reorders the calibration times and no more. */
  lemma {:induction false} CalTimesPermutation(t1: seq<Record>, t2: seq<Record>)
    requires multiset(t1) == multiset(t2)
    ensures multiset(CalTimes(t1)) == multiset(CalTimes(t2))
    decreases |t1|
  {
    if t1 == [] {
      assert |t2| == |multiset(t2)| == 0;
    } else {
      var x := t1[0];
      assert x in multiset(t2);
      var j :| 0 <= j < |t2| && t2[j] == x;
      Split3(t2, j);
      Split3(t1, 0);
      CalTimesRemove(t2, j);
      CalTimesRemove(t1, 0);
      assert t1[..0] + t1[1..] == t1[1..];
      CalTimesPermutation(t1[1..], t2[..j] + t2[j + 1..]);
    }
  }

  /** The attribution of a row does not depend on where the other rows
      stand: in any reordering of the table, the same row gets the same
      calibration. The table sort need not be stable for the result to be
      determined. */
  lemma AttributionOrderFree(t1: seq<Record>, t2: seq<Record>, q1: nat, q2: nat)
    requires multiset(t1) == multiset(t2)
    requires q1 < |t1| && q2 < |t2| && t1[q1] == t2[q2]
    ensures Attributed(t1, q1) == Attributed(t2, q2)
  {
    CalTimesPermutation(t1, t2);
    SortedUnique(SortStrings(CalTimes(t1)), SortStrings(CalTimes(t2)));
  }

  // ---------------------------------------------------------------------
  // The second sweep

  /** After the second sweep has visited the boundaries `seen`: a
      post-calibration row whose first attribution `first` is among them
      has been reset to its own datetime `d`; every other row keeps
      `first`. */
  function Anchored(post: bool, first: string, d: string, seen: seq<string>): (r: string)
    ensures !post ==> r == first
    ensures r == first || r == d
  {
    if post && first in seen then d else first
  }

  /** One boundary more: resetting a post-calibration row whose current
      attribution is that boundary keeps the second sweep's description. */
  lemma AnchoredStep(post: bool, first: string, d: string, seen: seq<string>, b: string)
    ensures var cur := Anchored(post, first, d, seen);
      Anchored(post, first, d, seen + [b]) == if post && cur == b then d else cur
  {
    assert first in seen + [b] <==> first in seen || first == b;
  }

  /** The first sweep of `process_calibration_intervals` over the column
      `cur`, which starts at the lower bound: for each interval
      `(bounds[i], bounds[i + 1]]` from the first to the last, the rows
      whose datetime falls in it take `bounds[i]`. The script skips the
      assignment when no row matches, which changes nothing. */
  method SweepIntervals(cur: array<string>, dates: seq<string>, bounds: seq<string>)
    requires |dates| == cur.Length && |bounds| >= 2
    requires forall p :: 0 <= p < cur.Length ==> cur[p] == bounds[0]
    modifies cur
    ensures forall p :: 0 <= p < cur.Length ==> cur[p] == Swept(bounds, dates[p], |bounds| - 2)
  {
    var n := cur.Length;
    var i := 1;
    while i < |bounds| - 1
      invariant 1 <= i <= |bounds| - 1
      invariant forall p :: 0 <= p < n ==> cur[p] == Swept(bounds, dates[p], i - 1)
    {
      var start, end := bounds[i], bounds[i + 1];
      var p := 0;
      while p < n
        invariant 0 <= p <= n
        invariant forall r :: 0 <= r < p ==> cur[r] == Swept(bounds, dates[r], i)
        invariant forall r :: p <= r < n ==> cur[r] == Swept(bounds, dates[r], i - 1)
      {
        if Less(start, dates[p]) && LessEq(dates[p], end) {
          cur[p] := start;
        }
        p := p + 1;
      }
      i := i + 1;
    }
  }

  /** The second sweep: for each boundary in turn, the post-calibration
      rows whose attribution is that boundary take their own datetime. */
  method AnchorCalibrations(cur: array<string>, posts: seq<bool>, dates: seq<string>, bounds: seq<string>)
    requires |posts| == |dates| == cur.Length
    modifies cur
    ensures forall p :: 0 <= p < cur.Length ==> cur[p] == Anchored(posts[p], old(cur[p]), dates[p], bounds)
  {
    ghost var first := cur[..];
    var n := cur.Length;
    var j := 0;
    ghost var seen: seq<string> := [];
    while j < |bounds|
      invariant 0 <= j <= |bounds| && seen == bounds[..j]
      invariant forall p :: 0 <= p < n ==> cur[p] == Anchored(posts[p], first[p], dates[p], seen)
    {
      var b := bounds[j];
      ghost var next := seen + [b];
      var p := 0;
      while p < n
        invariant 0 <= p <= n
        invariant forall r :: 0 <= r < p ==> cur[r] == Anchored(posts[r], first[r], dates[r], next)
        invariant forall r :: p <= r < n ==> cur[r] == Anchored(posts[r], first[r], dates[r], seen)
      {
        AnchoredStep(posts[p], first[p], dates[p], seen, b);
        if posts[p] && cur[p] == b {
          cur[p] := dates[p];
        }
        p := p + 1;
      }
      assert bounds[..j + 1] == next;
      seen := next;
      j := j + 1;
    }
    assert bounds[..|bounds|] == bounds;
  }

  /** `process_calibration_intervals` on a table whose rows all carry a
      textual datetime: the sorted post-calibration times framed by the
      sentinels are swept twice over a column of attributions, and the
      result is the table with every row's attribution under
      `currentCalDateTime`. A table without a post-calibration row fails
      the assertion `no calibration events found!`. */
  method ProcessCalibrationIntervals(table: seq<Record>) returns (res: Result<seq<Record>>)
    requires AllWellFormed(table)
    ensures res.Err? <==> CalTimes(table) == []
    ensures res.Err? ==> res.error == AssertionError
    ensures res.Ok? ==>
      && |res.value| == |table|
      && forall q :: 0 <= q < |table| ==> res.value[q] == table[q][CURRENT_CAL := Str(Attributed(table, q))]
  {
    var calList := SortStrings(CalTimes(table));
    if |calList| == 0 {
      return Err(AssertionError);
    }
    var bounds := [LOWER_BOUND] + calList + [UPPER_BOUND];
    assert bounds == Boundaries(table);
    var n := |table|;
    var dates := seq(n, q requires 0 <= q < n => DateOf(table[q]));
    var posts := seq(n, q requires 0 <= q < n => IsPostCalibration(table[q]));
    var cur := new string[n](_ => LOWER_BOUND);
    SweepIntervals(cur, dates, bounds);
    ghost var first := cur[..];
    AnchorCalibrations(cur, posts, dates, bounds);
    forall q | 0 <= q < n ensures cur[q] == Attributed(table, q) {
      if posts[q] {
        assert first[q] in bounds;
      }
    }
    res := Ok(seq(n, q requires 0 <= q < n reads cur => table[q][CURRENT_CAL := Str(cur[q])]));
  }
}
