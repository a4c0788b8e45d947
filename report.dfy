/** `parse_PVT_report` and the two helpers it merges: the first page of a
    report is split into lines, fixed lines are read by the field
    extractors, and the merged fields become one record (a verification
    report), two records (a calibration report, before and after), or
    none (any other title). */
module Report {
  import opened Errors
  import opened Text
  import opened Fields

  const NEWLINE := "\r\n"

  /** The fields every report contributes before its deviation lines. */
  const HEADER_KEYS: set<string> := {"verification", "calibration", "User", "Room", "SerialNumber", "datetime"}
  const ID_KEYS: set<string> := {"Channel", "CamScaleSN",
    "DummySN", "DummyDriveCycles", "DummyWheelCycles", "DummyCableCycles",
    "SourceSN", "SourceDriveCycles", "SourceWheelCycles", "SourceCableCycles"}
  const DEVIATION_FIELDS: set<string> := {DUMMY_90, DUMMY_120, DUMMY_150, SOURCE_90, SOURCE_120, SOURCE_150, MEASURE_TYPE}
  /** The fields shared by every record of one report. */
  const SHARED_KEYS: set<string> := HEADER_KEYS + ID_KEYS + {"ConsoleVersion"}

  /** `page.strip().split("\r\n")`: the lines of a page. There is always
      at least one, none holds a line break, and re-joining them gives the
      stripped page back. */
  function Lines(page: string): (lines: seq<string>)
    ensures |lines| >= 1
    ensures forall i :: 0 <= i < |lines| ==> !Contains(lines[i], NEWLINE)
    ensures Join(NEWLINE, lines) == Strip(page)
  {
    SplitOn(Strip(page), NEWLINE)
  }

  /** `lines[i]` for a non-negative index: `IndexError` past the end. */
  function At(lines: seq<string>, i: nat): (r: Result<string>)
    ensures r.Ok? <==> i < |lines|
    ensures r.Ok? ==> r.value == lines[i]
    ensures r.Err? ==> r.error == IndexError
  {
    if i < |lines| then Ok(lines[i]) else Err(IndexError)
  }

  /** `parse_header_PVT`: the title flags of line 0 merged with the user,
      room, serial and datetime of line 1. */
  function ParseHeader(lines: seq<string>): (r: Result<Record>)
    ensures r.Ok? <==> |lines| >= 2 && UserRoomDatetime(lines[1]).Ok?
    ensures r.Err? ==> r.error == IndexError
    ensures r.Ok? ==> r.value.Keys == HEADER_KEYS
    ensures r.Ok? ==> r.value == ReportKind(lines[0]) + UserRoomDatetime(lines[1]).value
    ensures r.Ok? ==>
      && r.value["verification"] == Bool(Strip(lines[0]) == VERIFICATION_TITLE)
      && r.value["calibration"] == Bool(Strip(lines[0]) == CALIBRATION_TITLE)
      && r.value["datetime"] == UserRoomDatetime(lines[1]).value["datetime"]
      && r.value["datetime"].Str?
  {
    var title :- At(lines, 0);
    var kind := ReportKind(title);
    var second :- At(lines, 1);
    var who :- UserRoomDatetime(second);
    var q := SplitOn(Strip(second), "/");
    HeaderFieldsKeys(Strip(q[0]), Strip(q[1]), Strip(q[2]), Strip(q[3]));
    HeaderMerge(kind, who);
    Ok(kind + who)
  }

  lemma HeaderMerge(kind: Record, who: Record)
    requires kind.Keys == {"verification", "calibration"}
    requires who.Keys == {"User", "Room", "SerialNumber", "datetime"}
    ensures (kind + who).Keys == HEADER_KEYS
    ensures (kind + who)["verification"] == kind["verification"]
    ensures (kind + who)["calibration"] == kind["calibration"]
    ensures (kind + who)["datetime"] == who["datetime"]
  {
  }

  /** `parse_user_SN_cycles`: channel (line 5), CamScale serial (line 6),
      dummy cable (line 11) and source cable (line 12), read in that order;
      the first failure is the result. */
  function ParseUserSnCycles(lines: seq<string>): (r: Result<Record>)
    ensures r.Ok? <==>
      && |lines| >= 13
      && ParseChannel(lines[5]).Ok? && ParseCamScaleSN(lines[6]).Ok?
      && ParseCableLine(lines[11], "Dummy").Ok? && ParseCableLine(lines[12], "Source").Ok?
    ensures r.Ok? ==>
      r.value == ParseChannel(lines[5]).value + ParseCamScaleSN(lines[6]).value
        + ParseCableLine(lines[11], "Dummy").value + ParseCableLine(lines[12], "Source").value
  {
    var l5 :- At(lines, 5);
    var channel :- ParseChannel(l5);
    var l6 :- At(lines, 6);
    var camScale :- ParseCamScaleSN(l6);
    var l11 :- At(lines, 11);
    var dummy :- ParseCableLine(l11, "Dummy");
    var l12 :- At(lines, 12);
    var source :- ParseCableLine(l12, "Source");
    Ok(channel + camScale + dummy + source)
  }

  /** The identity record has exactly the ten identity fields. */
  lemma ParseUserSnCyclesKeys(lines: seq<string>)
    requires ParseUserSnCycles(lines).Ok?
    ensures ParseUserSnCycles(lines).value.Keys == ID_KEYS
  {
    ChannelKeys(lines[5]);
    CamScaleKeys(lines[6]);
    CableLineKeys(lines[11], "Dummy");
    CableLineKeys(lines[12], "Source");
    CableNames();
    IdsMerge(ParseChannel(lines[5]).value, ParseCamScaleSN(lines[6]).value,
      ParseCableLine(lines[11], "Dummy").value, ParseCableLine(lines[12], "Source").value);
  }

  lemma ChannelKeys(line: string)
    requires ParseChannel(line).Ok?
    ensures ParseChannel(line).value.Keys == {"Channel"}
  {
  }

  lemma CamScaleKeys(line: string)
    requires ParseCamScaleSN(line).Ok?
    ensures ParseCamScaleSN(line).value.Keys == {"CamScaleSN"}
  {
  }

  lemma CableLineKeys(line: string, subject: string)
    requires ParseCableLine(line, subject).Ok?
    ensures ParseCableLine(line, subject).value.Keys ==
      {subject + "SN", subject + "DriveCycles", subject + "WheelCycles", subject + "CableCycles"}
  {
  }

  /** The field names of the two cable lines, written out. */
  lemma CableNames()
    ensures "Dummy" + "SN" == "DummySN" && "Dummy" + "DriveCycles" == "DummyDriveCycles"
    ensures "Dummy" + "WheelCycles" == "DummyWheelCycles" && "Dummy" + "CableCycles" == "DummyCableCycles"
    ensures "Source" + "SN" == "SourceSN" && "Source" + "DriveCycles" == "SourceDriveCycles"
    ensures "Source" + "WheelCycles" == "SourceWheelCycles" && "Source" + "CableCycles" == "SourceCableCycles"
  {
  }

  lemma IdsMerge(channel: Record, camScale: Record, dummy: Record, source: Record)
    requires channel.Keys == {"Channel"} && camScale.Keys == {"CamScaleSN"}
    requires dummy.Keys == {"DummySN", "DummyDriveCycles", "DummyWheelCycles", "DummyCableCycles"}
    requires source.Keys == {"SourceSN", "SourceDriveCycles", "SourceWheelCycles", "SourceCableCycles"}
    ensures (channel + camScale + dummy + source).Keys == ID_KEYS
  {
  }

  /** The fields shared by every record of one report: header, ids and
      console version (`parse_ConsoleVersion` on the line two from the end),
      merged in that order. The title flags and the datetime are those of
      the header. */
  function ReportFields(lines: seq<string>): (r: Result<Record>)
    ensures r.Ok? <==> ParseHeader(lines).Ok? && ParseUserSnCycles(lines).Ok? && ParseConsoleVersion(lines).Ok?
    ensures r.Ok? ==> r.value == ParseHeader(lines).value + ParseUserSnCycles(lines).value + ParseConsoleVersion(lines).value
    ensures r.Ok? ==>
      && "verification" in r.value && "calibration" in r.value && "datetime" in r.value
      && r.value["verification"] == Bool(Strip(lines[0]) == VERIFICATION_TITLE)
      && r.value["calibration"] == Bool(Strip(lines[0]) == CALIBRATION_TITLE)
      && r.value["datetime"] == UserRoomDatetime(lines[1]).value["datetime"]
      && r.value["datetime"].Str?
  {
    var header :- ParseHeader(lines);
    var ids :- ParseUserSnCycles(lines);
    ParseUserSnCyclesKeys(lines);
    var console :- ParseConsoleVersion(lines);
    HeaderNotAnId();
    MergeKeeps("verification", header, ids, console);
    MergeKeeps("calibration", header, ids, console);
    MergeKeeps("datetime", header, ids, console);
    var q := SplitOn(Strip(lines[1]), "/");
    assert header["datetime"] == Str(Strip(q[3]));
    Ok(header + ids + console)
  }

  /** The shared fields are the header fields, the ten identity fields and
      the console version. */
  lemma ReportFieldsKeys(lines: seq<string>)
    requires ReportFields(lines).Ok?
    ensures ReportFields(lines).value.Keys == SHARED_KEYS
  {
    var header, ids, console := ParseHeader(lines).value, ParseUserSnCycles(lines).value, ParseConsoleVersion(lines).value;
    ParseUserSnCyclesKeys(lines);
    ConsoleVersionKeys(lines);
    SharedMerge(header, ids, console, ReportFields(lines).value);
  }

  lemma ConsoleVersionKeys(lines: seq<string>)
    requires ParseConsoleVersion(lines).Ok?
    ensures ParseConsoleVersion(lines).value.Keys == {"ConsoleVersion"}
  {
  }

  lemma SharedMerge(header: Record, ids: Record, console: Record, fields: Record)
    requires header.Keys == HEADER_KEYS && ids.Keys == ID_KEYS && console.Keys == {"ConsoleVersion"}
    requires fields == header + ids + console
    ensures fields.Keys == SHARED_KEYS
  {
    MergedKeys3(header, ids, console, HEADER_KEYS, ID_KEYS, {"ConsoleVersion"});
  }

  lemma MergedKeys3(a: Record, b: Record, c: Record, ka: set<string>, kb: set<string>, kc: set<string>)
    requires a.Keys == ka && b.Keys == kb && c.Keys == kc
    ensures (a + b + c).Keys == ka + kb + kc
  {
  }

  /** The record has exactly the columns of the table: the shared fields
      and the seven deviation fields. */
  predicate HasColumns(rec: Record) {
    rec.Keys == SHARED_KEYS + DEVIATION_FIELDS
  }

  /** Shared fields merged with deviations have every column. */
  lemma RecordColumns(m: Record, d: Record, rec: Record)
    requires m.Keys == SHARED_KEYS && d.Keys == DEVIATION_FIELDS && rec == m + d
    ensures HasColumns(rec)
  {
  }

  lemma HeaderNotAnId()
    ensures "verification" !in ID_KEYS && "calibration" !in ID_KEYS && "datetime" !in ID_KEYS
    ensures "verification" != "ConsoleVersion" && "calibration" != "ConsoleVersion" && "datetime" != "ConsoleVersion"
  {
    assert "datetime"[0] != "SourceSN"[0];
  }

  /** A field of the first of three merged records that the other two do
      not have keeps its value. */
  lemma MergeKeeps(key: string, a: Record, b: Record, c: Record)
    requires key in a && key !in b && key !in c
    ensures (a + b + c)[key] == a[key]
  {
  }

  // ---------------------------------------------------------------------
  // parse_PVT_report

  /** `parse_PVT_report`: the records of one report, from its first page.
      A verification title yields the shared fields merged with the
      measured deviations of line 17; a calibration title yields the shared
      fields merged with the pre-calibration deviations of line 17, and
      that record again merged with the post-calibration deviations of line
      18; any other title yields no record. The first failing read is the
      result. */
  function ParseReport(pages: seq<string>): (r: Result<seq<Record>>)
    ensures |pages| == 0 ==> r == Err(IndexError)
    ensures r.Ok? ==> |r.value| <= 2
  {
    if |pages| == 0 then Err(IndexError)
    else
      var lines := Lines(pages[0]);
      var m :- ReportFields(lines);
      KindRecords(m, lines)
  }

  /** The records of a report whose shared fields are `m`, by the title
      flags in `m`. */
  function KindRecords(m: Record, lines: seq<string>): (r: Result<seq<Record>>)
    requires "verification" in m && "calibration" in m
    ensures m["verification"] == Bool(true) && m["calibration"] == Bool(false) ==> r == VerificationRecords(m, lines)
    ensures m["calibration"] == Bool(true) && m["verification"] == Bool(false) ==> r == CalibrationRecords(m, lines)
    ensures m["verification"] == Bool(false) && m["calibration"] == Bool(false) ==> r == Ok([])
    ensures r.Ok? ==> |r.value| <= 2
  {
    if m["verification"] == Bool(true) && m["calibration"] == Bool(false) then
      VerificationRecords(m, lines)
    else if m["calibration"] == Bool(true) && m["verification"] == Bool(false) then
      CalibrationRecords(m, lines)
    else Ok([])
  }

  /** The verification branch of `parse_PVT_report`: the shared fields `m`
      merged with the measured deviations of line 17. */
  function VerificationRecords(m: Record, lines: seq<string>): (r: Result<seq<Record>>)
    ensures r.Ok? <==> |lines| > 17 && ParseMeasured(lines[17]).Ok?
    ensures r.Ok? ==> r.value == [m + Deviations(Tokens(lines[17])[1..], "Verification")]
  {
    var l17 :- At(lines, 17);
    var measured :- ParseMeasured(l17);
    Ok([m + measured])
  }

  /** The calibration branch of `parse_PVT_report`: the shared fields `m`
      merged with the pre-calibration deviations of line 17, then that
      record merged with the post-calibration deviations of line 18. The
      second merge replaces every deviation field, so the second record is
      the shared fields with the readings of line 18 alone. */
  function CalibrationRecords(m: Record, lines: seq<string>): (r: Result<seq<Record>>)
    ensures r.Ok? <==>
      && |lines| > 18
      && ParseCalibrationDeviation(lines[17], "Pre-Calibration", "PreCalibration").Ok?
      && ParseCalibrationDeviation(lines[18], "Post-Calibration", "PostCalibration").Ok?
    ensures r.Ok? ==>
      && |lines| > 18 && |Tokens(lines[17])| == 7 && |Tokens(lines[18])| == 7
      && r.value == [
        m + Deviations(Tokens(lines[17])[1..], "PreCalibration"),
        m + Deviations(Tokens(lines[18])[1..], "PostCalibration")]
  {
    var l17 :- At(lines, 17);
    var pre :- ParseCalibrationDeviation(l17, "Pre-Calibration", "PreCalibration");
    var l18 :- At(lines, 18);
    var post :- ParseCalibrationDeviation(l18, "Post-Calibration", "PostCalibration");
    DeviationsKeys(Tokens(l17)[1..], "PreCalibration");
    DeviationsKeys(Tokens(l18)[1..], "PostCalibration");
    MergeOverwrites(m, pre, post);
    Ok([m + pre, m + pre + post])
  }

  /** The title line of a report, stripped. */
  function Title(pages: seq<string>): string
    requires |pages| > 0
  {
    Strip(Lines(pages[0])[0])
  }

  /** A verification report yields exactly one record: the shared fields
      and the six readings of line 17, typed `Verification`. It fails
      exactly when the shared fields or line 17 do. */
  lemma ParseReportVerification(pages: seq<string>)
    requires |pages| > 0 && Title(pages) == VERIFICATION_TITLE
    ensures var lines := Lines(pages[0]);
      ParseReport(pages).Ok? <==> ReportFields(lines).Ok? && |lines| > 17 && ParseMeasured(lines[17]).Ok?
    ensures var lines := Lines(pages[0]);
      ParseReport(pages).Ok? ==>
        ParseReport(pages).value == [ReportFields(lines).value + Deviations(Tokens(lines[17])[1..], "Verification")]
  {
    VerificationIsNotCalibration();
    var lines := Lines(pages[0]);
    var f := ReportFields(lines);
    if f.Ok? {
      assert f.value["verification"] == Bool(true) && f.value["calibration"] == Bool(false);
      assert ParseReport(pages) == KindRecords(f.value, lines);
    } else {
      assert ParseReport(pages).Err?;
    }
  }

  /** A calibration report is read exactly when the shared fields and
      both deviation lines, 17 and 18, are. */
  lemma CalibrationReportReads(pages: seq<string>)
    requires |pages| > 0 && Title(pages) == CALIBRATION_TITLE
    ensures var lines := Lines(pages[0]);
      ParseReport(pages).Ok? <==>
        && ReportFields(lines).Ok? && |lines| > 18
        && ParseCalibrationDeviation(lines[17], "Pre-Calibration", "PreCalibration").Ok?
        && ParseCalibrationDeviation(lines[18], "Post-Calibration", "PostCalibration").Ok?
  {
    ParseReportCalibration(pages);
  }

  /** A calibration report yields the two records of the calibration
      branch, once its shared fields are read: pre-calibration first, then
      post-calibration, both holding the same shared fields. */
  lemma ParseReportCalibration(pages: seq<string>)
    requires |pages| > 0 && Title(pages) == CALIBRATION_TITLE
    ensures var f := ReportFields(Lines(pages[0]));
      ParseReport(pages) == if f.Ok? then CalibrationRecords(f.value, Lines(pages[0])) else Err(f.error)
  {
    var f := ReportFields(Lines(pages[0]));
    ParseReportByFields(pages);
    if f.Ok? {
      assert f.value["verification"] == Bool(false) && f.value["calibration"] == Bool(true) by {
        VerificationIsNotCalibration();
      }
    }
  }

  /** A report's records are read from its shared fields, once those are. */
  lemma ParseReportByFields(pages: seq<string>)
    requires |pages| > 0
    ensures var f := ReportFields(Lines(pages[0]));
      ParseReport(pages) == if f.Ok? then KindRecords(f.value, Lines(pages[0])) else Err(f.error)
  {
  }

  /** A report with any other title yields no record, once the shared
      fields are read. */
  lemma ParseReportOther(pages: seq<string>)
    requires |pages| > 0 && Title(pages) != VERIFICATION_TITLE && Title(pages) != CALIBRATION_TITLE
    ensures ParseReport(pages).Ok? <==> ReportFields(Lines(pages[0])).Ok?
    ensures ParseReport(pages).Ok? ==> ParseReport(pages).value == []
  {
    var lines := Lines(pages[0]);
    var f := ReportFields(lines);
    if f.Ok? {
      var t := Strip(lines[0]);
      assert t == Title(pages);
      assert (t == VERIFICATION_TITLE) == false;
      assert f.value["verification"] == Bool(false);
      assert f.value["calibration"] == Bool(false);
      assert ParseReport(pages) == KindRecords(f.value, lines);
    } else {
      assert ParseReport(pages).Err?;
    }
  }

  lemma VerificationIsNotCalibration()
    ensures VERIFICATION_TITLE != CALIBRATION_TITLE
  {
    assert VERIFICATION_TITLE[18] != CALIBRATION_TITLE[18];
  }

  /** Merging in `b` after `a` undoes `a` when `b` has all of its fields. */
  lemma MergeOverwrites(m: Record, a: Record, b: Record)
    requires a.Keys == b.Keys
    ensures m + a + b == m + b
  {
  }

  lemma DeviationsKeys(vals: seq<string>, measureType: string)
    requires |vals| == 6
    ensures Deviations(vals, measureType).Keys == DEVIATION_FIELDS
  {
  }

  // ---------------------------------------------------------------------
  // What the rest of the scraper relies on

  /** A record with a textual `datetime` and a textual `MeasureType`. */
  predicate WellFormed(rec: Record) {
    && "datetime" in rec && rec["datetime"].Str?
    && MEASURE_TYPE in rec && rec[MEASURE_TYPE].Str?
  }

  /** Every record of a report is well formed: its `datetime` is the one
      of the report's header line, and its `MeasureType` is one of
      `Verification`, `PreCalibration` and `PostCalibration`. */
  lemma ParseReportWellFormed(pages: seq<string>)
    requires |pages| > 0
    ensures var f, r := ReportFields(Lines(pages[0])), ParseReport(pages);
      r.Ok? ==> f.Ok? && AllDatedAndTyped(r.value, f.value["datetime"])
  {
    var lines := Lines(pages[0]);
    var f := ReportFields(lines);
    ParseReportByFields(pages);
    if f.Ok? {
      var m := f.value;
      if m["verification"] == Bool(true) && m["calibration"] == Bool(false) {
        VerificationRecordsDated(m, lines);
      } else if m["calibration"] == Bool(true) && m["verification"] == Bool(false) {
        CalibrationRecordsDated(m, lines);
      }
    }
  }

  /** Every record of a report has the same columns: the shared fields
      and the seven deviation fields. So no column of the table is ever
      missing from a row. */
  lemma ParseReportColumns(pages: seq<string>)
    ensures var r := ParseReport(pages);
      r.Ok? ==> forall i :: 0 <= i < |r.value| ==> HasColumns(r.value[i])
  {
    if |pages| > 0 {
      var lines := Lines(pages[0]);
      var f := ReportFields(lines);
      ParseReportByFields(pages);
      if f.Ok? {
        var m := f.value;
        ReportFieldsKeys(lines);
        if m["verification"] == Bool(true) && m["calibration"] == Bool(false) {
          VerificationColumns(m, lines);
        } else if m["calibration"] == Bool(true) && m["verification"] == Bool(false) {
          CalibrationColumns(m, lines);
        }
      }
    }
  }

  lemma VerificationColumns(m: Record, lines: seq<string>)
    requires m.Keys == SHARED_KEYS
    ensures var r := VerificationRecords(m, lines);
      r.Ok? ==> forall i :: 0 <= i < |r.value| ==> HasColumns(r.value[i])
  {
    if VerificationRecords(m, lines).Ok? {
      var rs := VerificationRecords(m, lines).value;
      var vals := Tokens(lines[17])[1..];
      DeviationsKeys(vals, "Verification");
      RecordColumns(m, Deviations(vals, "Verification"), rs[0]);
    }
  }

  lemma CalibrationColumns(m: Record, lines: seq<string>)
    requires m.Keys == SHARED_KEYS
    ensures var r := CalibrationRecords(m, lines);
      r.Ok? ==> forall i :: 0 <= i < |r.value| ==> HasColumns(r.value[i])
  {
    if CalibrationRecords(m, lines).Ok? {
      var pre, post := Tokens(lines[17])[1..], Tokens(lines[18])[1..];
      CalibrationPairColumns(m, pre, post, CalibrationRecords(m, lines).value);
    }
  }

  lemma CalibrationPairColumns(m: Record, pre: seq<string>, post: seq<string>, rs: seq<Record>)
    requires m.Keys == SHARED_KEYS && |pre| == 6 && |post| == 6
    requires rs == [m + Deviations(pre, "PreCalibration"), m + Deviations(post, "PostCalibration")]
    ensures forall i :: 0 <= i < |rs| ==> HasColumns(rs[i])
  {
    DeviationsKeys(pre, "PreCalibration");
    DeviationsKeys(post, "PostCalibration");
    RecordColumns(m, Deviations(pre, "PreCalibration"), rs[0]);
    RecordColumns(m, Deviations(post, "PostCalibration"), rs[1]);
  }

  /** The verification record is dated like the shared fields. */
  lemma VerificationRecordsDated(m: Record, lines: seq<string>)
    requires "datetime" in m && m["datetime"].Str?
    ensures var r := VerificationRecords(m, lines);
      r.Ok? ==> AllDatedAndTyped(r.value, m["datetime"])
  {
    if VerificationRecords(m, lines).Ok? {
      var vals := Tokens(lines[17])[1..];
      MergedDeviations(m, vals, "Verification");
      OneDatedAndTyped(m + Deviations(vals, "Verification"), m["datetime"]);
    }
  }

  /** Both calibration records are dated like the shared fields. */
  lemma CalibrationRecordsDated(m: Record, lines: seq<string>)
    requires "datetime" in m && m["datetime"].Str?
    ensures var r := CalibrationRecords(m, lines);
      r.Ok? ==> AllDatedAndTyped(r.value, m["datetime"])
  {
    if CalibrationRecords(m, lines).Ok? {
      var pre, post := Tokens(lines[17])[1..], Tokens(lines[18])[1..];
      MergedDeviations(m, pre, "PreCalibration");
      MergedDeviations(m, post, "PostCalibration");
      TwoDatedAndTyped(m + Deviations(pre, "PreCalibration"), m + Deviations(post, "PostCalibration"), m["datetime"]);
    }
  }

  /** Every record of `rs` is well formed, dated `datetime`, and of one of
      the three measure types. */
  predicate AllDatedAndTyped(rs: seq<Record>, datetime: Value) {
    forall i :: 0 <= i < |rs| ==>
      && WellFormed(rs[i])
      && rs[i]["datetime"] == datetime
      && rs[i][MEASURE_TYPE] in {Str("Verification"), Str("PreCalibration"), Str("PostCalibration")}
  }

  lemma OneDatedAndTyped(a: Record, datetime: Value)
    requires WellFormed(a) && a["datetime"] == datetime && a[MEASURE_TYPE] == Str("Verification")
    ensures AllDatedAndTyped([a], datetime)
  {
  }

  lemma TwoDatedAndTyped(a: Record, b: Record, datetime: Value)
    requires WellFormed(a) && a["datetime"] == datetime && a[MEASURE_TYPE] == Str("PreCalibration")
    requires WellFormed(b) && b["datetime"] == datetime && b[MEASURE_TYPE] == Str("PostCalibration")
    ensures AllDatedAndTyped([a, b], datetime)
  {
  }

  /** Merging deviations into shared fields keeps the datetime and sets
      the measure type. */
  lemma MergedDeviations(m: Record, vals: seq<string>, measureType: string)
    requires "datetime" in m && m["datetime"].Str? && |vals| == 6
    ensures var rec := m + Deviations(vals, measureType);
      WellFormed(rec) && rec["datetime"] == m["datetime"] && rec[MEASURE_TYPE] == Str(measureType)
  {
    DatetimeNotADeviation();
    DeviationsKeys(vals, measureType);
  }

  lemma DatetimeNotADeviation()
    ensures "datetime" !in DEVIATION_FIELDS
  {
  }
}
