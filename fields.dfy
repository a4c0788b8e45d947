/** The field extractors of the report scraper: each reads one line of a
    report (or, for the console version, the line two from the end) and
    returns a small map of named fields, or the exception the Python code
    raises on that line. */
module Fields {
  import opened Errors
  import opened Text
  import Numerals

  /** A cell of a record. `Num` is a deviation reading, kept as the token
      that `float()` accepted. */
  datatype Value = Bool(b: bool) | Str(s: string) | Int(i: int) | Num(token: string)

  /** One row of the scraped table: field name to value, as a Python dict. */
  type Record = map<string, Value>

  const VERIFICATION_TITLE := "BRAVOS : Position Verification Report"
  const CALIBRATION_TITLE := "BRAVOS : Position Calibration Report"

  const DUMMY_90 := "DummyDeviationAt90cm_cm"
  const DUMMY_120 := "DummyDeviationAt120cm_cm"
  const DUMMY_150 := "DummyDeviationAt150cm_cm"
  const SOURCE_90 := "SourceDeviationAt90cm_cm"
  const SOURCE_120 := "SourceDeviationAt120cm_cm"
  const SOURCE_150 := "SourceDeviationAt150cm_cm"
  const MEASURE_TYPE := "MeasureType"

  /** The six deviation fields, in the order their readings appear on a line. */
  const DEVIATION_KEYS: seq<string> := [DUMMY_90, DUMMY_120, DUMMY_150, SOURCE_90, SOURCE_120, SOURCE_150]

  /** `s.strip().split()`: the whitespace tokens of a line. */
  function Tokens(s: string): (q: seq<string>)
    ensures AllWords(q)
  {
    SplitWs(Strip(s))
  }

  /** The tokens of a line are its maximal non-whitespace runs: the line
      is those tokens with whitespace gaps around them, non-empty between
      two tokens, whatever whitespace the line starts or ends with. */
  lemma TokensLayout(s: string)
    ensures LaidOut(s, Tokens(s), LineGaps(s))
  {
    StripSplitLayout(s);
  }

  /** Stripping a token of `split()` leaves it unchanged, so the
      extractors below read the tokens as they are wherever the Python code
      calls `.strip()` on one. */
  lemma WordUnstripped(w: string)
    requires IsWord(w)
    ensures Strip(w) == w
  {
  }

  /** The record that a deviation line with readings `vals` yields. */
  function Deviations(vals: seq<string>, measureType: string): Record
    requires |vals| == 6
  {
    map[DUMMY_90 := Num(vals[0]), DUMMY_120 := Num(vals[1]), DUMMY_150 := Num(vals[2]),
        SOURCE_90 := Num(vals[3]), SOURCE_120 := Num(vals[4]), SOURCE_150 := Num(vals[5]),
        MEASURE_TYPE := Str(measureType)]
  }

  /** Overwriting the `MeasureType` of a deviation record relabels it. */
  lemma DeviationsRelabelled(vals: seq<string>, measureType: string)
    requires |vals| == 6
    ensures Deviations(vals, "Verification")[MEASURE_TYPE := Str(measureType)] == Deviations(vals, measureType)
  {
  }

  /** The record a cable line of `subject` yields, from its serial number
      and its drive, wheel and cable cycle counts, all kept as text. */
  function CableFields(subject: string, vals: seq<string>): Record
    requires |vals| == 4
  {
    map[subject + "SN" := Str(vals[0]), subject + "DriveCycles" := Str(vals[1]),
        subject + "WheelCycles" := Str(vals[2]), subject + "CableCycles" := Str(vals[3])]
  }

  /** The record the "user / room / serial / datetime" line yields. */
  function HeaderFields(user: string, room: string, serial: string, datetime: string): Record {
    map["User" := Str(user), "Room" := Str(room), "SerialNumber" := Str(serial), "datetime" := Str(datetime)]
  }

  lemma HeaderFieldsKeys(user: string, room: string, serial: string, datetime: string)
    ensures HeaderFields(user, room, serial, datetime).Keys == {"User", "Room", "SerialNumber", "datetime"}
  {
  }

  // ---------------------------------------------------------------------
  // Title line

  /** `verification_or_calibration`: which of the two report titles the
      stripped line is. At most one flag is set; an unknown title sets
      neither. */
  function ReportKind(line: string): (m: Record)
    ensures m.Keys == {"verification", "calibration"}
    ensures m["verification"] == Bool(Strip(line) == VERIFICATION_TITLE)
    ensures m["calibration"] == Bool(Strip(line) == CALIBRATION_TITLE)
    ensures !(m["verification"].b && m["calibration"].b)
  {
    assert VERIFICATION_TITLE[18] != CALIBRATION_TITLE[18];
    var verification := Strip(line) == VERIFICATION_TITLE;
    var calibration := Strip(line) == CALIBRATION_TITLE;
    map["verification" := Bool(verification), "calibration" := Bool(calibration)]
  }

  // ---------------------------------------------------------------------
  // "User / Room / Serial / datetime" line

  /** `user_room_datetime`: the first four `/`-separated parts of the
      stripped line, each stripped; `IndexError` when there are fewer than
      four parts. Further parts are ignored. */
  function UserRoomDatetime(line: string): (r: Result<Record>)
    ensures var q := SplitOn(Strip(line), "/");
      && (r.Ok? <==> |q| >= 4)
      && (r.Err? ==> r.error == IndexError)
      && (r.Ok? ==> r.value == HeaderFields(Strip(q[0]), Strip(q[1]), Strip(q[2]), Strip(q[3])))
  {
    var q := SplitOn(Strip(line), "/");
    if |q| < 4 then Err(IndexError)
    else
      Ok(HeaderFields(Strip(q[0]), Strip(q[1]), Strip(q[2]), Strip(q[3])))
  }

  /** A header line whose first field does not start, and whose last field
      does not end, with whitespace is left alone by `strip()`. */
  lemma HeaderLineUnpadded(user: string, room: string, serial: string, datetime: string)
    requires user != [] ==> !IsSpace(user[0])
    requires datetime != [] ==> !IsSpace(datetime[|datetime| - 1])
    ensures Strip(Join("/", [user, room, serial, datetime])) == Join("/", [user, room, serial, datetime])
  {
    var parts := [user, room, serial, datetime];
    assert parts[|parts| - 1] == datetime;
    JoinEnds("/", parts);
  }

  /** A header line built from four `/`-free fields reads back as those
      fields, stripped; whitespace around any of them, the outer two
      included, is stripped away. */
  lemma UserRoomDatetimeOfFields(user: string, room: string, serial: string, datetime: string)
    requires '/' !in user && '/' !in room && '/' !in serial && '/' !in datetime
    ensures UserRoomDatetime(Join("/", [user, room, serial, datetime])) ==
      Ok(HeaderFields(Strip(user), Strip(room), Strip(serial), Strip(datetime)))
  {
    var u, d := TrimStart(user), TrimEnd(datetime);
    SlashFreeTrimmed(user, datetime);
    HeaderLineStripped(user, room, serial, datetime);
    HeaderReadsBack(Join("/", [user, room, serial, datetime]), u, room, serial, d);
    StripTrimmedStart(user);
    StripTrimmedEnd(datetime);
  }

  /** A line that strips to four `/`-free fields joined by `/` reads back
      as those fields, stripped. */
  lemma HeaderReadsBack(line: string, user: string, room: string, serial: string, datetime: string)
    requires '/' !in user && '/' !in room && '/' !in serial && '/' !in datetime
    requires Strip(line) == Join("/", [user, room, serial, datetime])
    ensures UserRoomDatetime(line) == Ok(HeaderFields(Strip(user), Strip(room), Strip(serial), Strip(datetime)))
  {
    var parts := [user, room, serial, datetime];
    assert forall i :: 0 <= i < |parts| ==> '/' !in parts[i];
    SplitJoinOneChar(parts, '/');
  }

  /** `strip()` of a header line only trims the front of the first field
      and the back of the last one. */
  lemma HeaderLineStripped(user: string, room: string, serial: string, datetime: string)
    ensures Strip(Join("/", [user, room, serial, datetime])) ==
      Join("/", [TrimStart(user), room, serial, TrimEnd(datetime)])
  {
    JoinFour(user, room, serial, datetime);
    JoinFour(TrimStart(user), room, serial, TrimEnd(datetime));
    StripPadded(user, "/" + room + "/" + serial + "/", datetime);
  }

  /** Trimming keeps a field free of `/`. */
  lemma SlashFreeTrimmed(user: string, datetime: string)
    requires '/' !in user && '/' !in datetime
    ensures '/' !in TrimStart(user) && '/' !in TrimEnd(datetime)
  {
    var u, d := TrimStart(user), TrimEnd(datetime);
    forall k | 0 <= k < |u| ensures u[k] != '/' {
      assert u[k] == user[|user| - |u| + k];
    }
    forall k | 0 <= k < |d| ensures d[k] != '/' {
      assert d[k] == datetime[k];
    }
  }

  /** `"/".join` of four fields written out. */
  lemma JoinFour(a: string, b: string, c: string, e: string)
    ensures Join("/", [a, b, c, e]) == a + ("/" + b + "/" + c + "/") + e
  {
    assert [a, b, c, e] == [a] + [b, c, e];
    assert [b, c, e] == [b] + [c, e];
    assert [c, e] == [c] + [e];
    JoinCons("/", a, [b, c, e]);
    JoinCons("/", b, [c, e]);
    JoinCons("/", c, [e]);
  }

  // ---------------------------------------------------------------------
  // Channel and CamScale lines

  /** `parse_channel_number`: the last token as an integer, provided the
      token before it is `Channel`. */
  function ParseChannel(line: string): (r: Result<Record>)
    ensures var q := Tokens(line);
      && (r.Ok? <==> |q| >= 2 && Numerals.IsIntText(q[|q| - 1]) && q[|q| - 2] == "Channel")
      && (r.Ok? ==> r.value == map["Channel" := Int(Numerals.ParseInt(q[|q| - 1]).value)])
      && (r.Err? ==> (r.error == IndexError <==> |q| == 0 || (|q| == 1 && Numerals.IsIntText(q[0]))))
      && (r.Err? ==> (r.error == ValueError <==> |q| > 0 && !Numerals.IsIntText(q[|q| - 1])))
      && (r.Err? ==> (r.error == AssertionError <==> |q| >= 2 && Numerals.IsIntText(q[|q| - 1]) && q[|q| - 2] != "Channel"))
  {
    var q := Tokens(line);
    if |q| == 0 then Err(IndexError)
    else
      var n :- Numerals.ParseInt(q[|q| - 1]);
      if |q| < 2 then Err(IndexError)
      else if q[|q| - 2] != "Channel" then Err(AssertionError)
      else Ok(map["Channel" := Int(n)])
  }

  /** A line that ends in `Channel <n>` reads back as channel `n`. */
  lemma ParseChannelOf(prefix: seq<string>, n: int)
    requires AllWords(prefix)
    ensures ParseChannel(Join(" ", prefix + ["Channel", Numerals.DecimalText(n)]))
      == Ok(map["Channel" := Int(n)])
  {
    var text := Numerals.DecimalText(n);
    DecimalTextIsWord(n);
    var ws := prefix + ["Channel", text];
    assert IsWord("Channel");
    assert AllWords(ws);
    var j := Join(" ", ws);
    JoinWordsUnpadded(ws);
    assert Strip(j) == j;
    SplitJoinWords(ws);
    assert Tokens(j) == ws;
    Numerals.ParseIntDecimal(n);
    assert ws[|ws| - 1] == text && ws[|ws| - 2] == "Channel";
  }

  lemma DecimalTextIsWord(n: int)
    ensures IsWord(Numerals.DecimalText(n))
  {
    var m: nat := if n < 0 then -n else n;
    Numerals.NatTextDigits(m);
    var t := Numerals.NatText(m);
    assert forall k :: 0 <= k < |t| ==> Numerals.IsDigit(t[k]);
  }

  /** `parse_camscaleSN`: the last token, provided the two before it are
      `CamScale SN`. */
  function ParseCamScaleSN(line: string): (r: Result<Record>)
    ensures var q := Tokens(line);
      && (r.Ok? <==> |q| >= 3 && q[|q| - 3] == "CamScale" && q[|q| - 2] == "SN")
      && (r.Ok? ==> r.value == map["CamScaleSN" := Str(q[|q| - 1])])
      && (r.Err? ==> (r.error == IndexError <==> |q| <= 1 || (|q| == 2 && q[0] == "SN")))
      && (r.Err? ==> r.error == IndexError || r.error == AssertionError)
  {
    var q := Tokens(line);
    if |q| == 0 then Err(IndexError)
    else
      var sn := q[|q| - 1];
      if |q| < 2 then Err(IndexError)
      else if q[|q| - 2] != "SN" then Err(AssertionError)
      else if |q| < 3 then Err(IndexError)
      else if q[|q| - 3] != "CamScale" then Err(AssertionError)
      else Ok(map["CamScaleSN" := Str(sn)])
  }

  // ---------------------------------------------------------------------
  // Cable lines

  /** `parse_dummyCableLine` (subject `Dummy`) and `parse_sourceCableLine`
      (subject `Source`): a line of exactly six tokens `<subject> Cable sn
      drive wheel cable` yields the last four tokens, unchanged, under the
      subject's four field names. */
  function ParseCableLine(line: string, subject: string): (r: Result<Record>)
    ensures var q := Tokens(line);
      && (r.Ok? <==> |q| == 6 && q[0] == subject && q[1] == "Cable")
      && (r.Ok? ==> r.value == CableFields(subject, q[2..]))
      && (r.Err? ==> (r.error == IndexError <==> |q| == 0 || (|q| == 1 && q[0] == subject)))
      && (r.Err? ==> r.error == IndexError || r.error == AssertionError)
  {
    var q := Tokens(line);
    if |q| == 0 then Err(IndexError)
    else if q[0] != subject then Err(AssertionError)
    else if |q| < 2 then Err(IndexError)
    else if q[1] != "Cable" then Err(AssertionError)
    else if |q| != 6 then Err(AssertionError)
    else
      assert [q[2], q[3], q[4], q[5]] == q[2..];
      Ok(CableFields(subject, [q[2], q[3], q[4], q[5]]))
  }

  // ---------------------------------------------------------------------
  // Deviation lines

  /** `parse_measuredDeviationFromTargetPositions`: a line of exactly seven
      tokens `Measured d90 d120 d150 s90 s120 s150` yields the six readings
      under the Dummy then Source deviation fields, with `MeasureType`
      `Verification`; a reading `float()` rejects is a `ValueError`. */
  function ParseMeasured(line: string): (r: Result<Record>)
    ensures var q := Tokens(line);
      && (r.Ok? <==> |q| == 7 && q[0] == "Measured" && forall i :: 1 <= i < 7 ==> Numerals.IsFloatText(q[i]))
      && (r.Ok? ==> r.value == Deviations(q[1..], "Verification"))
      && (r.Err? ==> (r.error == IndexError <==> |q| == 0))
      && (r.Err? ==> (r.error == AssertionError <==> |q| > 0 && (q[0] != "Measured" || |q| != 7)))
      && (r.Err? ==> (r.error == ValueError <==> |q| == 7 && q[0] == "Measured"))
  {
    var q := Tokens(line);
    if |q| == 0 then Err(IndexError)
    else if q[0] != "Measured" then Err(AssertionError)
    else if |q| != 7 then Err(AssertionError)
    else
      var vals :- ParseReadings(q, 1);
      Ok(Deviations(vals, "Verification"))
  }

  /** `float(t.strip())` for each token from index `k` on, left to right;
      the first token `float()` rejects stops the parse with a `ValueError`. */
  function ParseReadings(ts: seq<string>, k: nat): (r: Result<seq<string>>)
    requires AllWords(ts) && k <= |ts|
    ensures r.Ok? <==> forall i :: k <= i < |ts| ==> Numerals.IsFloatText(ts[i])
    ensures r.Ok? ==> r.value == ts[k..]
    ensures r.Err? ==> r.error == ValueError
    decreases |ts| - k
  {
    if k == |ts| then Ok([])
    else
      var v :- Numerals.ParseFloat(ts[k]);
      var rest :- ParseReadings(ts, k + 1);
      assert ts[k..] == [v] + ts[k + 1..];
      Ok([v] + rest)
  }

  /** `parse_PreCalibrationDeviationFromTargetPositions` (leading
      `Pre-Calibration`, type `PreCalibration`) and
      `parse_PostCalibrationDeviationFromTargetPositions` (leading
      `Post-Calibration`, type `PostCalibration`): after checking the leading
      and the token count, the readings are re-joined behind `Measured`,
      parsed as a measured line, and `MeasureType` is overwritten. The
      result is the measured parse of the same readings with the other
      `MeasureType`. */
  function ParseCalibrationDeviation(line: string, leading: string, measureType: string): (r: Result<Record>)
    ensures var q := Tokens(line);
      && (r.Ok? <==> |q| == 7 && q[0] == leading && forall i :: 1 <= i < 7 ==> Numerals.IsFloatText(q[i]))
      && (r.Ok? ==> r.value == Deviations(q[1..], measureType))
      && (r.Err? ==> (r.error == IndexError <==> |q| == 0))
      && (r.Err? ==> (r.error == AssertionError <==> |q| > 0 && (q[0] != leading || |q| != 7)))
      && (r.Err? ==> (r.error == ValueError <==> |q| == 7 && q[0] == leading))
  {
    var q := Tokens(line);
    if |q| == 0 then Err(IndexError)
    else if q[0] != leading then Err(AssertionError)
    else if |q| != 7 then Err(AssertionError)
    else
      var rebuilt := "Measured " + Join(" ", q[1..]);
      RelabelledTokens(q[1..]);
      var p := Tokens(rebuilt);
      assert p[1..] == q[1..] && |p| == 7;
      assert forall i :: 1 <= i < 7 ==> p[i] == q[i] by {
        forall i | 1 <= i < 7 ensures p[i] == q[i] {
          assert p[1..][i - 1] == q[1..][i - 1];
        }
      }
      DeviationsRelabelled(q[1..], measureType);
      var m :- ParseMeasured(rebuilt);
      Ok(m[MEASURE_TYPE := Str(measureType)])
  }

  /** Re-joining readings behind `Measured` gives back the same readings. */
  lemma RelabelledTokens(vals: seq<string>)
    requires AllWords(vals) && |vals| > 0
    ensures Tokens("Measured " + Join(" ", vals)) == ["Measured"] + vals
  {
    var ws := ["Measured"] + vals;
    JoinCons(" ", "Measured", vals);
    assert "Measured" + " " == "Measured ";
    var j := Join(" ", ws);
    assert j == "Measured " + Join(" ", vals);
    MeasuredIsWord();
    assert AllWords(ws);
    JoinWordsUnpadded(ws);
    assert Strip(j) == j;
    SplitJoinWords(ws);
  }

  lemma MeasuredIsWord()
    ensures IsWord("Measured")
  {
  }

  /** `c` is `m` with `MeasureType` set to `t`: same keys, same values
      everywhere else. */
  predicate SameButType(m: Record, c: Record, t: string) {
    && m.Keys == c.Keys && MEASURE_TYPE in c && c[MEASURE_TYPE] == Str(t)
    && forall k :: k in m && k in c && k != MEASURE_TYPE ==> m[k] == c[k]
  }

  lemma RelabelAgrees(m: Record, t: string)
    requires MEASURE_TYPE in m
    ensures SameButType(m, m[MEASURE_TYPE := Str(t)], t)
  {
  }

  /** Two deviation lines with the same readings, one labelled `Measured`
      and one `Pre-Calibration` or `Post-Calibration`, succeed together. */
  lemma CalibrationMatchesMeasured(measured: string, calibration: string, leading: string, measureType: string)
    requires |Tokens(measured)| > 0 && Tokens(measured)[0] == "Measured"
    requires |Tokens(calibration)| > 0 && Tokens(calibration)[0] == leading
    requires Tokens(measured)[1..] == Tokens(calibration)[1..]
    ensures ParseMeasured(measured).Ok? <==> ParseCalibrationDeviation(calibration, leading, measureType).Ok?
  {
    var qm, qc := Tokens(measured), Tokens(calibration);
    assert |qm| == |qc|;
    forall i | 1 <= i < |qm| ensures qm[i] == qc[i] {
      assert qm[1..][i - 1] == qc[1..][i - 1];
    }
  }

  /** When both succeed, they agree on every field but `MeasureType`. */
  lemma CalibrationAgreesWithMeasured(measured: string, calibration: string, leading: string, measureType: string)
    requires ParseMeasured(measured).Ok? && ParseCalibrationDeviation(calibration, leading, measureType).Ok?
    requires Tokens(measured)[1..] == Tokens(calibration)[1..]
    ensures SameButType(ParseMeasured(measured).value, ParseCalibrationDeviation(calibration, leading, measureType).value, measureType)
  {
    var m := ParseMeasured(measured).value;
    DeviationsRelabelled(Tokens(measured)[1..], measureType);
    RelabelAgrees(m, measureType);
  }

  // ---------------------------------------------------------------------
  // Console version line

  /** `parse_ConsoleVersion`: the line two from the end must be exactly
      `Console Version a b`; the version is `a b`. */
  function ParseConsoleVersion(lines: seq<string>): (r: Result<Record>)
    ensures var q := if |lines| >= 2 then Tokens(lines[|lines| - 2]) else [];
      && (r.Ok? <==> |lines| >= 2 && |q| == 4 && q[0] == "Console" && q[1] == "Version")
      && (r.Ok? ==> r.value == map["ConsoleVersion" := Str(q[2] + " " + q[3])])
      && (r.Err? ==> (r.error == IndexError <==> |lines| < 2 || |q| == 0 || (|q| == 1 && q[0] == "Console")))
      && (r.Err? ==> r.error == IndexError || r.error == AssertionError)
  {
    if |lines| < 2 then Err(IndexError)
    else
      var q := Tokens(lines[|lines| - 2]);
      if |q| == 0 then Err(IndexError)
      else if q[0] != "Console" then Err(AssertionError)
      else if |q| < 2 then Err(IndexError)
      else if q[1] != "Version" then Err(AssertionError)
      else if |q| != 4 then Err(AssertionError)
      else
        assert q[2..] == [q[2]] + [q[3]];
        JoinCons(" ", q[2], [q[3]]);
        Ok(map["ConsoleVersion" := Str(Join(" ", q[2..]))])
  }
}
