/** `ced/extract_struct.py`: reads the medication list and the dated lab tables out of
    one free-text record and maps both to staging rows. A section is the text between
    the first start marker and the first end marker after it, as the lazy `DOTALL`
    searches `MEDICATIONS(.*?)INTERVENTION & RESULTS` and `Results(.*?)Medical Imaging`
    find it. */
module CedExtractStruct {
  import opened Wrappers
  import opened Text
  import opened Seqs

  // ---------------------------------------------------------------------------
  // The section searches

  predicate At(s: string, pat: string, i: int) {
    0 <= i <= |s| - |pat| && s[i..i + |pat|] == pat
  }

  /** The first occurrence of `pat` at or after `from`. */
  function Find(s: string, pat: string, from: nat): (r: Option<nat>)
    ensures r.Some? ==> from <= r.value && At(s, pat, r.value)
    ensures r.Some? ==> forall j :: from <= j < r.value ==> !At(s, pat, j)
    ensures r.None? ==> forall j :: from <= j ==> !At(s, pat, j)
    decreases |s| - from
  {
    if from + |pat| > |s| then None
    else if s[from..from + |pat|] == pat then Some(from)
    else Find(s, pat, from + 1)
  }

  /** The group of `open(.*?)close` with `DOTALL`: `None` when nothing matches. */
  function Between(s: string, open: string, close: string): Option<string> {
    match Find(s, open, 0)
    case None => None
    case Some(i) =>
      match Find(s, close, i + |open|)
      case None => None
      case Some(j) => Some(s[i + |open|..j])
  }

  /** A match of `open(.*?)close` starting at `i` whose group ends at `j`. */
  predicate MatchAt(s: string, open: string, close: string, i: int, j: int) {
    At(s, open, i) && i + |open| <= j && At(s, close, j)
  }

  /** The search finds the leftmost start and, from there, the shortest group; it
      fails exactly when no start is followed by an end. */
  lemma BetweenLeftmostShortest(s: string, open: string, close: string)
    ensures Between(s, open, close).Some? ==> exists i, j ::
      (MatchAt(s, open, close, i, j)
      && Between(s, open, close).value == s[i + |open|..j]
      && (forall i' :: 0 <= i' < i ==> !At(s, open, i'))
      && (forall j' :: i + |open| <= j' < j ==> !At(s, close, j')))
    ensures Between(s, open, close).None? ==> forall i, j :: !MatchAt(s, open, close, i, j)
  {
    var fi := Find(s, open, 0);
    if fi.Some? {
      var i := fi.value;
      var fj := Find(s, close, i + |open|);
      if fj.Some? {
        assert MatchAt(s, open, close, i, fj.value);
      } else {
        forall i', j' ensures !MatchAt(s, open, close, i', j') {
          if At(s, open, i') && i' + |open| <= j' {
            assert i <= i';
          }
        }
      }
    }
  }

  /** `group(1).strip().split('\n')`, or no lines when the search fails. */
  function SectionLines(s: string, open: string, close: string): seq<string> {
    match Between(s, open, close)
    case None => []
    case Some(g) => Split(StripWs(g), '\n')
  }

  // ---------------------------------------------------------------------------
  // `extract_medications`

  datatype Medication = Medication(drugName: string, dosage: string)

  /** The medication on one line: with a `(` and a `)`, the text before the first
      `)` plus `)` and the text up to the second `)`, both stripped. */
  function MedicationOf(line: string): Option<Medication> {
    if '(' in line && ')' in line then
      var parts := Split(line, ')');
      Some(Medication(StripWs(parts[0]) + ")", StripWs(parts[1])))
    else None
  }

  /** What a line yields, in terms of the positions of its first two `)`. */
  lemma MedicationOfShape(line: string)
    ensures MedicationOf(line).Some? <==> '(' in line && ')' in line
    ensures MedicationOf(line).Some? ==>
      var k := IndexOf(line, ')');
      var rest := line[k + 1..];
      MedicationOf(line).value.drugName == StripWs(line[..k]) + ")" &&
      MedicationOf(line).value.dosage == StripWs(if ')' in rest then rest[..IndexOf(rest, ')')] else rest)
  {
    if '(' in line && ')' in line {
      var k := IndexOf(line, ')');
      SplitHead(line[k + 1..], ')');
    }
  }

  /** At most one medication per line, each one coming from some line, in line order. */
  lemma MedicationsInLines(lines: seq<string>, m: Medication)
    ensures |FilterMap(lines, MedicationOf)| <= |lines|
    ensures m in FilterMap(lines, MedicationOf) <==> exists i :: 0 <= i < |lines| && MedicationOf(lines[i]) == Some(m)
  {
    FilterMapMembers(lines, MedicationOf, m);
  }

  function Medications(content: string): seq<Medication> {
    FilterMap(SectionLines(content, "MEDICATIONS", "INTERVENTION & RESULTS"), MedicationOf)
  }

  /** No medication section, or an empty one, gives no medications. */
  lemma NoMedicationSection(content: string)
    requires Between(content, "MEDICATIONS", "INTERVENTION & RESULTS").None? ||
      StripWs(Between(content, "MEDICATIONS", "INTERVENTION & RESULTS").value) == []
    ensures Medications(content) == []
  {
    var lines := SectionLines(content, "MEDICATIONS", "INTERVENTION & RESULTS");
    if lines != [] {
      assert lines == [""];
      assert FilterMap(lines, MedicationOf) == FilterMap([], MedicationOf) + [];
    }
  }

  /** The `for line in med_lines` loop. */
  method MedicationsOfLines(medLines: seq<string>) returns (medications: seq<Medication>)
    ensures medications == FilterMap(medLines, MedicationOf)
  {
    medications := [];
    for i := 0 to |medLines|
      invariant medications == FilterMap(medLines[..i], MedicationOf)
    {
      assert medLines[..i + 1][..i] == medLines[..i];
      var line := medLines[i];
      if '(' in line && ')' in line {
        var parts := Split(line, ')');
        var name := StripWs(parts[0]) + ")";
        var dosage := StripWs(parts[1]);
        medications := medications + [Medication(name, dosage)];
      }
    }
    assert medLines[..|medLines|] == medLines;
  }

  /** `extract_medications`. */
  method ExtractMedications(content: string) returns (medications: seq<Medication>)
    ensures medications == Medications(content)
  {
    medications := [];
    var section := Between(content, "MEDICATIONS", "INTERVENTION & RESULTS");
    if section.Some? {
      var medLines := Split(StripWs(section.value), '\n');
      medications := MedicationsOfLines(medLines);
    }
  }

  // ---------------------------------------------------------------------------
  // Dates as `datetime.strptime(s, '%d/%m/%Y')` reads them

  datatype Date = Date(year: int, month: int, day: int)

  function Digit(c: char): int { c as int - '0' as int }

  /** The two-character forms of `strptime`'s day pattern `3[01]|[12]\d|0[1-9]| [1-9]`. */
  function DayField(a: char, b: char): (r: Option<int>)
    ensures r.Some? ==> 1 <= r.value <= 31
  {
    if a == '3' && (b == '0' || b == '1') then Some(30 + Digit(b))
    else if (a == '1' || a == '2') && IsDigit(b) then Some(10 * Digit(a) + Digit(b))
    else if (a == '0' || a == ' ') && '1' <= b <= '9' then Some(Digit(b))
    else None
  }

  /** The two-character forms of the month pattern `1[0-2]|0[1-9]`. */
  function MonthField(a: char, b: char): (r: Option<int>)
    ensures r.Some? ==> 1 <= r.value <= 12
  {
    if a == '1' && '0' <= b <= '2' then Some(10 + Digit(b))
    else if a == '0' && '1' <= b <= '9' then Some(Digit(b))
    else None
  }

  predicate Leap(y: int) { y % 4 == 0 && (y % 100 != 0 || y % 400 == 0) }

  function DaysInMonth(m: int, y: int): int
    requires 1 <= m <= 12
  {
    if m == 2 then (if Leap(y) then 29 else 28)
    else if m == 4 || m == 6 || m == 9 || m == 11 then 30
    else 31
  }

  /** A date `datetime.date` accepts with a four-digit year. */
  predicate ValidDate(d: Date) {
    1 <= d.year <= 9999 && 1 <= d.month <= 12 && 1 <= d.day <= DaysInMonth(d.month, d.year)
  }

  /** The header test `len(p) == 10 and p[2] == p[5] == '/'`. */
  predicate DateShaped(p: string) { |p| == 10 && p[2] == '/' && p[5] == '/' }

  /** `strptime(p, '%d/%m/%Y').date()` on a date-shaped field. */
  function ParseDate(p: string): (r: Result<Date>)
    requires DateShaped(p)
    ensures r.Ok? ==> ValidDate(r.value)
    ensures r.Ok? ==> DayField(p[0], p[1]) == Some(r.value.day) && MonthField(p[3], p[4]) == Some(r.value.month)
  {
    var day, month := DayField(p[0], p[1]), MonthField(p[3], p[4]);
    if day.None? || month.None? || !(IsDigit(p[6]) && IsDigit(p[7]) && IsDigit(p[8]) && IsDigit(p[9])) then
      Err("ValueError")
    else
      var year := 1000 * Digit(p[6]) + 100 * Digit(p[7]) + 10 * Digit(p[8]) + Digit(p[9]);
      if year < 1 || day.value > DaysInMonth(month.value, year) then Err("ValueError")
      else Ok(Date(year, month.value, day.value))
  }

  function Pad2(n: int): string
    requires 0 <= n < 100
  {
    [DigitChar(n / 10), DigitChar(n % 10)]
  }

  /** `d.strftime('%d/%m/%Y')`. */
  function FormatDate(d: Date): (r: string)
    requires ValidDate(d)
    ensures DateShaped(r)
  {
    Pad2(d.day) + "/" + Pad2(d.month) + "/" + Pad2(d.year / 100) + Pad2(d.year % 100)
  }

  /** A two-digit field reads back as its number. */
  lemma Pad2Reads(n: int)
    requires 0 <= n < 100
    ensures IsDigit(Pad2(n)[0]) && IsDigit(Pad2(n)[1])
    ensures Digit(Pad2(n)[0]) == n / 10 && Digit(Pad2(n)[1]) == n % 10
    ensures 10 * Digit(Pad2(n)[0]) + Digit(Pad2(n)[1]) == n
  {
  }

  /** The day and month fields of a valid date read back through the patterns. */
  lemma DayMonthRead(d: Date)
    requires ValidDate(d)
    ensures DayField(Pad2(d.day)[0], Pad2(d.day)[1]) == Some(d.day)
    ensures MonthField(Pad2(d.month)[0], Pad2(d.month)[1]) == Some(d.month)
  {
    Pad2Reads(d.day);
    Pad2Reads(d.month);
  }

  /** The four year digits read back as the year. */
  lemma YearRead(y: int)
    requires 1 <= y <= 9999
    ensures 1000 * Digit(Pad2(y / 100)[0]) + 100 * Digit(Pad2(y / 100)[1])
      + 10 * Digit(Pad2(y % 100)[0]) + Digit(Pad2(y % 100)[1]) == y
  {
    Pad2Reads(y / 100);
    Pad2Reads(y % 100);
    assert 1000 * Digit(Pad2(y / 100)[0]) + 100 * Digit(Pad2(y / 100)[1]) == 100 * (y / 100);
  }

  /** Every valid date written as `dd/mm/yyyy` reads back as itself. */
  lemma ParseFormatDate(d: Date)
    requires ValidDate(d)
    ensures ParseDate(FormatDate(d)) == Ok(d)
  {
    var p := FormatDate(d);
    var dd, mm, hi, lo := Pad2(d.day), Pad2(d.month), Pad2(d.year / 100), Pad2(d.year % 100);
    assert p == dd + "/" + mm + "/" + hi + lo;
    assert p[0] == dd[0] && p[1] == dd[1] && p[3] == mm[0] && p[4] == mm[1];
    assert p[6] == hi[0] && p[7] == hi[1] && p[8] == lo[0] && p[9] == lo[1];
    DayMonthRead(d);
    YearRead(d.year);
    Pad2Reads(d.year / 100);
    Pad2Reads(d.year % 100);
  }

  /** The day pattern's ` [1-9]` form: a space-padded day is a date too. */
  lemma SpacePaddedDay()
    ensures ParseDate(" 5/03/2020") == Ok(Date(2020, 3, 5))
  {
    assert DayField(' ', '5') == Some(5);
    assert MonthField('0', '3') == Some(3);
  }

  /** A shape-correct header that names no calendar day raises. */
  lemma NoThirtiethOfFebruary()
    ensures ParseDate("30/02/2020").Err?
  {
    assert DayField('3', '0') == Some(30);
  }

  // ---------------------------------------------------------------------------
  // `extract_lab_results`

  datatype LabResult = LabResult(date: Option<Date>, test: string, value: string, unit: string)

  /** What the loop makes of one line: nothing (no `|`, or fewer than three fields),
      a date header (with the outcome of `strptime`), or a record's stripped fields. */
  datatype LineKind = Other | DateHeader(date: Result<Date>) | Row(test: string, value: string, unit: string)

  function Classify(line: string): LineKind {
    if '|' in line then
      var parts := Split(line, '|');
      if |parts| >= 3 then
        if DateShaped(parts[0]) then DateHeader(ParseDate(parts[0]))
        else Row(StripWs(parts[0]), StripWs(parts[1]), StripWs(parts[2]))
      else Other
    else Other
  }

  /** The loop looks at a line exactly when it holds at least two `|`. */
  lemma ConsideredCount(line: string)
    ensures Classify(line) != Other <==> Count(line, '|') >= 2
  {
    SplitCount(line, '|');
  }

  /** A considered line is a header exactly when its unstripped first field is
      ten characters with `/` at positions 2 and 5. */
  lemma HeaderShape(line: string)
    requires Count(line, '|') >= 2
    ensures Classify(line).DateHeader? <==> DateShaped(Split(line, '|')[0])
    ensures Classify(line).DateHeader? ==> Classify(line).date == ParseDate(Split(line, '|')[0])
  {
    ConsideredCount(line);
  }

  function Kinds(lines: seq<string>): (ks: seq<LineKind>)
    ensures |ks| == |lines| && forall i :: 0 <= i < |lines| ==> ks[i] == Classify(lines[i])
  {
    seq(|lines|, i requires 0 <= i < |lines| => Classify(lines[i]))
  }

  predicate GoodHeader(k: LineKind) { k.DateHeader? && k.date.Ok? }

  predicate BadHeader(k: LineKind) { k.DateHeader? && k.date.Err? }

  /** `current_date` after these lines: the date of the last header, `None` before any. */
  function CurrentDate(ks: seq<LineKind>): Option<Date> {
    if ks == [] then None
    else if GoodHeader(ks[|ks| - 1]) then Some(ks[|ks| - 1].date.value)
    else CurrentDate(ks[..|ks| - 1])
  }

  /** The current date is the date of the latest good header, and `None` when there is
      none. */
  lemma {:induction false} CurrentDateLatest(ks: seq<LineKind>)
    ensures CurrentDate(ks).Some? ==> exists i :: (0 <= i < |ks| &&
      ks[i] == DateHeader(Ok(CurrentDate(ks).value)) && forall k :: i < k < |ks| ==> !GoodHeader(ks[k]))
    ensures CurrentDate(ks).None? ==> forall k :: 0 <= k < |ks| ==> !GoodHeader(ks[k])
  {
    if ks != [] {
      var init := ks[..|ks| - 1];
      CurrentDateLatest(init);
      if GoodHeader(ks[|ks| - 1]) {
        assert ks[|ks| - 1] == DateHeader(Ok(CurrentDate(ks).value));
      } else if CurrentDate(init).Some? {
        var i :| 0 <= i < |init| && init[i] == DateHeader(Ok(CurrentDate(init).value)) &&
          forall k :: i < k < |init| ==> !GoodHeader(init[k]);
        assert ks[i] == init[i];
        forall k | i < k < |ks|
          ensures !GoodHeader(ks[k])
        {
          if k < |init| {
            assert ks[k] == init[k];
          }
        }
      } else {
        forall k | 0 <= k < |ks|
          ensures !GoodHeader(ks[k])
        {
          if k < |init| {
            assert ks[k] == init[k];
          }
        }
      }
    }
  }

  /** The records, each dated with the current date at its line. */
  function Records(ks: seq<LineKind>): seq<LabResult> {
    if ks == [] then []
    else
      var init, last := ks[..|ks| - 1], ks[|ks| - 1];
      Records(init) + (if last.Row? then [LabResult(CurrentDate(init), last.test, last.value, last.unit)] else [])
  }

  /** One record per record line, and a record line's record carries its fields and
      the date of the latest good header above it. */
  lemma {:induction false} RecordsLines(ks: seq<LineKind>, r: LabResult)
    ensures |Records(ks)| <= |ks|
    ensures r in Records(ks) <==> exists i :: (0 <= i < |ks| && ks[i] == Row(r.test, r.value, r.unit) &&
      r.date == CurrentDate(ks[..i]))
  {
    if ks != [] {
      var init := ks[..|ks| - 1];
      RecordsLines(init, r);
      if r in Records(init) {
        var i :| 0 <= i < |init| && init[i] == Row(r.test, r.value, r.unit) && r.date == CurrentDate(init[..i]);
        assert ks[i] == init[i] && ks[..i] == init[..i];
      }
      if exists i :: 0 <= i < |ks| && ks[i] == Row(r.test, r.value, r.unit) && r.date == CurrentDate(ks[..i]) {
        var i :| 0 <= i < |ks| && ks[i] == Row(r.test, r.value, r.unit) && r.date == CurrentDate(ks[..i]);
        if i < |init| {
          assert ks[i] == init[i] && ks[..i] == init[..i];
        } else {
          assert ks[..i] == init;
        }
      }
    }
  }

  /** `strptime` raising on a bad header ends the whole call. */
  function LabResultsIn(ks: seq<LineKind>): (r: Result<seq<LabResult>>)
    ensures r.Err? <==> exists i :: 0 <= i < |ks| && BadHeader(ks[i])
  {
    if exists i :: 0 <= i < |ks| && BadHeader(ks[i]) then Err("ValueError") else Ok(Records(ks))
  }

  function LabResults(content: string): Result<seq<LabResult>> {
    LabResultsIn(Kinds(SectionLines(content, "Results", "Medical Imaging")))
  }

  lemma HeaderStep(ks: seq<LineKind>, i: nat, d: Date)
    requires i < |ks| && ks[i] == DateHeader(Ok(d))
    ensures CurrentDate(ks[..i + 1]) == Some(d) && Records(ks[..i + 1]) == Records(ks[..i])
  {
    assert ks[..i + 1][..i] == ks[..i];
  }

  lemma RowStep(ks: seq<LineKind>, i: nat)
    requires i < |ks| && ks[i].Row?
    ensures CurrentDate(ks[..i + 1]) == CurrentDate(ks[..i])
    ensures Records(ks[..i + 1]) == Records(ks[..i]) + [LabResult(CurrentDate(ks[..i]), ks[i].test, ks[i].value, ks[i].unit)]
  {
    assert ks[..i + 1][..i] == ks[..i];
  }

  lemma OtherStep(ks: seq<LineKind>, i: nat)
    requires i < |ks| && ks[i] == Other
    ensures CurrentDate(ks[..i + 1]) == CurrentDate(ks[..i]) && Records(ks[..i + 1]) == Records(ks[..i])
  {
    assert ks[..i + 1][..i] == ks[..i];
  }

  /** The tests the loop makes on one line: a `|`, at least three fields, and the
      shape of the first field. */
  method ClassifyLine(line: string) returns (k: LineKind)
    ensures k == Classify(line)
  {
    k := Other;
    if '|' in line {
      var parts := Split(line, '|');
      if |parts| >= 3 {
        if |parts[0]| == 10 && parts[0][2] == '/' && parts[0][5] == '/' {
          k := DateHeader(ParseDate(parts[0]));
        } else {
          k := Row(StripWs(parts[0]), StripWs(parts[1]), StripWs(parts[2]));
        }
      }
    }
  }

  /** The `for line in result_lines` loop, carrying `current_date` across lines. */
  method LabResultsOfLines(resultLines: seq<string>) returns (r: Result<seq<LabResult>>)
    ensures r == LabResultsIn(Kinds(resultLines))
  {
    ghost var ks := Kinds(resultLines);
    var labResults: seq<LabResult> := [];
    var currentDate: Option<Date> := None;
    for i := 0 to |resultLines|
      invariant currentDate == CurrentDate(ks[..i])
      invariant labResults == Records(ks[..i])
      invariant forall k :: 0 <= k < i ==> !BadHeader(ks[k])
    {
      var kind := ClassifyLine(resultLines[i]);
      assert ks[i] == kind;
      match kind
      case DateHeader(date) =>
        if date.Err? {
          return Err(date.msg);
        }
        HeaderStep(ks, i, date.value);
        currentDate := Some(date.value);
      case Row(test, value, unit) =>
        RowStep(ks, i);
        labResults := labResults + [LabResult(currentDate, test, value, unit)];
      case Other =>
        OtherStep(ks, i);
    }
    assert ks[..|resultLines|] == ks;
    return Ok(labResults);
  }

  /** `extract_lab_results`. */
  method ExtractLabResults(content: string) returns (r: Result<seq<LabResult>>)
    ensures r == LabResults(content)
  {
    var section := Between(content, "Results", "Medical Imaging");
    if section.Some? {
      var resultLines := Split(StripWs(section.value), '\n');
      r := LabResultsOfLines(resultLines);
    } else {
      r := Ok([]);
    }
  }

  // ---------------------------------------------------------------------------
  // `create_dataframes`

  /** A staging row; the date is `None` for lab rows before any header. */
  datatype StageRow = StageRow(
    subjectId: int, hadmId: int, timestamp: Option<Date>, eventType: string, entity: string, value: string)

  function MedicationRow(m: Medication, today: Date): StageRow {
    StageRow(1, 1, Some(today), "RealTime", "Drug", m.drugName + " " + m.dosage)
  }

  function LabRow(l: LabResult): StageRow {
    StageRow(1, 1, l.date, "RealTime", l.test, l.value + " " + l.unit)
  }

  /** `create_dataframes` as written: a frame built from an empty list has no
      `drug_name` (or `test`) column, so reading it raises `KeyError`. `today` is
      `datetime.now().date()`. */
  function CreateDataframesAsWritten(meds: seq<Medication>, labs: seq<LabResult>, today: Date)
    : (r: Result<(seq<StageRow>, seq<StageRow>)>)
    ensures r.Err? <==> meds == [] || labs == []
  {
    if meds == [] || labs == [] then Err("KeyError") else Ok(CreateDataframes(meds, labs, today))
  }

  /** A record with no medications raises before any frame is returned. */
  lemma NoMedicationsRaises(labs: seq<LabResult>, today: Date)
    ensures CreateDataframesAsWritten([], labs, today) == Err("KeyError")
  {
  }

  /** `create_dataframes` with empty lists giving empty frames: one drug row per
      medication with the value `name dosage`, one lab row per result with the test
      as entity and the value `value unit`; all with subject and admission 1. */
  function CreateDataframes(meds: seq<Medication>, labs: seq<LabResult>, today: Date)
    : (r: (seq<StageRow>, seq<StageRow>))
    ensures |r.0| == |meds| && |r.1| == |labs|
    ensures forall i :: 0 <= i < |meds| ==>
      r.0[i].entity == "Drug" && r.0[i].timestamp == Some(today) && r.0[i].value == meds[i].drugName + " " + meds[i].dosage
    ensures forall i :: 0 <= i < |labs| ==>
      r.1[i].entity == labs[i].test && r.1[i].timestamp == labs[i].date && r.1[i].value == labs[i].value + " " + labs[i].unit
    ensures forall row :: row in r.0 + r.1 ==> row.subjectId == 1 && row.hadmId == 1 && row.eventType == "RealTime"
  {
    (seq(|meds|, i requires 0 <= i < |meds| => MedicationRow(meds[i], today)),
     seq(|labs|, i requires 0 <= i < |labs| => LabRow(labs[i])))
  }

  /** Wherever the code as written returns, it returns the corrected frames. */
  lemma CreateDataframesAgrees(meds: seq<Medication>, labs: seq<LabResult>, today: Date)
    ensures CreateDataframesAsWritten(meds, labs, today).Ok? ==>
      CreateDataframesAsWritten(meds, labs, today).value == CreateDataframes(meds, labs, today)
  {
  }

  /** `main` as written, without the file I/O: the lab extraction's error, the
      `KeyError` of `create_dataframes` on an empty list, or the medication rows
      followed by the lab rows. */
  function EhrTableAsWritten(content: string, today: Date): (r: Result<seq<StageRow>>)
    ensures r.Err? <==>
      LabResults(content).Err? || Medications(content) == [] || LabResults(content).value == []
    ensures r.Ok? ==> |r.value| == |Medications(content)| + |LabResults(content).value|
  {
    var labs := LabResults(content);
    if labs.Err? then Err(labs.msg)
    else
      var frames := CreateDataframesAsWritten(Medications(content), labs.value, today);
      if frames.Err? then Err(frames.msg) else Ok(frames.value.0 + frames.value.1)
  }

  /** `main` on the corrected `create_dataframes`: medication rows, then lab rows. */
  function EhrTable(content: string, today: Date): (r: Result<seq<StageRow>>)
    ensures r.Err? <==> LabResults(content).Err?
    ensures r.Ok? ==> |r.value| == |Medications(content)| + |LabResults(content).value|
  {
    var labs := LabResults(content);
    if labs.Err? then Err(labs.msg)
    else
      var frames := CreateDataframes(Medications(content), labs.value, today);
      Ok(frames.0 + frames.1)
  }

  /** Wherever `main` as written produces a table, the corrected `main` produces
      the same table. */
  lemma EhrTableAgrees(content: string, today: Date)
    ensures EhrTableAsWritten(content, today).Ok? ==> EhrTable(content, today) == EhrTableAsWritten(content, today)
  {
  }
}
