/** `uttree_v2/1_data_preprocessing.py`: patient selection by note count,
    prescriptions expanded to one quadruple per day, lab events mapped to
    quadruples, and the combined, filtered structured data. Dates are day numbers;
    `None` is a missing date. */
module DataPreprocessing {
  import opened Wrappers
  import opened Seqs
  import opened Sorting
  import opened Quadruples

  // ---------------------------------------------------------------------------
  // `load_and_filter_patients`

  /** The subjects with at least `minNotes` note rows, ascending as the `groupby`
      index lists them. `notes` is the `SUBJECT_ID` column of the note rows. */
  function QualifiedPatients(notes: seq<int>, minNotes: int): seq<int> {
    Filter(SortedDistinct(notes), s => Occurrences(notes, s) >= minNotes)
  }

  /** A subject qualifies exactly when it has at least `minNotes` notes; each is
      listed once, in ascending order. */
  lemma QualifiedPatientsProps(notes: seq<int>, minNotes: int, s: int)
    ensures s in QualifiedPatients(notes, minNotes) <==> s in notes && Occurrences(notes, s) >= minNotes
    ensures StrictlyIncreasing(QualifiedPatients(notes, minNotes))
  {
    var p := (x: int) => Occurrences(notes, x) >= minNotes;
    var d := SortedDistinct(notes);
    SortedDistinctProps(notes);
    FilterMembers(d, p);
    if s in notes {
      var i :| 0 <= i < |notes| && notes[i] == s;
    }
    FilterIncreasing(d, p);
  }

  lemma {:induction false} FilterIncreasing(s: seq<int>, p: int -> bool)
    requires StrictlyIncreasing(s)
    ensures StrictlyIncreasing(Filter(s, p))
  {
    if s != [] {
      var init, last := s[..|s| - 1], s[|s| - 1];
      FilterIncreasing(init, p);
      FilterMembers(init, p);
      var f := Filter(init, p);
      forall i | 0 <= i < |f|
        ensures f[i] < last
      {
        var m :| 0 <= m < |init| && init[m] == f[i];
        assert s[m] == f[i];
      }
    }
  }

  /** `if sample_size and sample_size < len(qualified)`: 0 and `None` both mean no
      sampling. */
  predicate Samples(sampleSize: Option<int>, qualified: nat) {
    sampleSize.Some? && sampleSize.value != 0 && sampleSize.value < qualified
  }

  /** `load_and_filter_patients`; `choose` stands for `np.random.choice`. */
  function LoadAndFilterPatients(notes: seq<int>, minNotes: int, sampleSize: Option<int>,
                                 choose: (seq<int>, int) -> seq<int>): (r: seq<int>)
    ensures !Samples(sampleSize, |QualifiedPatients(notes, minNotes)|) ==> r == QualifiedPatients(notes, minNotes)
  {
    var qualified := QualifiedPatients(notes, minNotes);
    if Samples(sampleSize, |qualified|) then choose(qualified, sampleSize.value) else qualified
  }

  // ---------------------------------------------------------------------------
  // `process_prescriptions`

  datatype Prescription = Prescription(
    subjectId: int, hadmId: int, startDate: Option<int>, endDate: Option<int>, drug: string)

  /** The daily records of one prescription: one per day from start to end,
      inclusive; none when a date is missing (`date_range` raises and the row is
      skipped) or the end comes first. */
  function DailyRecords(p: Prescription): (r: seq<Quadruple>)
    ensures p.startDate.Some? && p.endDate.Some? && p.startDate.value <= p.endDate.value ==>
      |r| == p.endDate.value - p.startDate.value + 1
    ensures p.startDate.None? || p.endDate.None? || p.endDate.value < p.startDate.value ==> r == []
    ensures forall k :: 0 <= k < |r| ==>
      r[k] == Quadruple(p.subjectId, p.hadmId, p.startDate.value + k, "RealTime", "MainDrug", p.drug)
  {
    if p.startDate.None? || p.endDate.None? || p.endDate.value < p.startDate.value then []
    else
      var start := p.startDate.value;
      seq(p.endDate.value - start + 1, k requires 0 <= k <= p.endDate.value - start =>
        Quadruple(p.subjectId, p.hadmId, start + k, "RealTime", "MainDrug", p.drug))
  }

  /** The days covered are exactly the days from start to end, each once, in order. */
  lemma DailyRecordsDays(p: Prescription, day: int)
    requires p.startDate.Some? && p.endDate.Some?
    ensures (exists k :: 0 <= k < |DailyRecords(p)| && DailyRecords(p)[k].timestamp == day)
      <==> p.startDate.value <= day <= p.endDate.value
    ensures forall i, j :: 0 <= i < j < |DailyRecords(p)| ==> DailyRecords(p)[i].timestamp < DailyRecords(p)[j].timestamp
  {
    var r := DailyRecords(p);
    if p.startDate.value <= day <= p.endDate.value {
      var k := day - p.startDate.value;
      assert r[k].timestamp == day;
    }
  }

  predicate Selected(selected: set<int>, p: Prescription) { p.subjectId in selected }

  /** The records of the selected patients' prescriptions, row after row. */
  function DrugQuadruples(rows: seq<Prescription>, selected: set<int>): seq<Quadruple> {
    if rows == [] then []
    else
      var last := rows[|rows| - 1];
      DrugQuadruples(rows[..|rows| - 1], selected) + (if Selected(selected, last) then DailyRecords(last) else [])
  }

  /** A skipped row does not stop the rows after it: the output is the rows'
      records in row order. */
  lemma {:induction false} DrugQuadruplesConcat(a: seq<Prescription>, b: seq<Prescription>, selected: set<int>)
    ensures DrugQuadruples(a + b, selected) == DrugQuadruples(a, selected) + DrugQuadruples(b, selected)
    decreases |b|
  {
    if b == [] {
      assert a + b == a;
    } else {
      var init, last := b[..|b| - 1], b[|b| - 1];
      var x := if Selected(selected, last) then DailyRecords(last) else [];
      assert (a + b)[..|a + b| - 1] == a + init && (a + b)[|a + b| - 1] == last;
      assert DrugQuadruples(a + b, selected) == DrugQuadruples(a + init, selected) + x;
      assert DrugQuadruples(b, selected) == DrugQuadruples(init, selected) + x;
      DrugQuadruplesConcat(a, init, selected);
      ConcatAssoc(DrugQuadruples(a, selected), DrugQuadruples(init, selected), x);
    }
  }

  /** Every record is a `MainDrug` of a selected patient. */
  lemma {:induction false} DrugQuadruplesSelected(rows: seq<Prescription>, selected: set<int>)
    ensures forall q :: q in DrugQuadruples(rows, selected) ==>
      q.subjectId in selected && q.event == "MainDrug" && q.eventType == "RealTime"
  {
    if rows != [] {
      DrugQuadruplesSelected(rows[..|rows| - 1], selected);
    }
  }

  /** `process_prescriptions`: the nested row and day loops. */
  method ProcessPrescriptions(rows: seq<Prescription>, selected: set<int>) returns (quads: seq<Quadruple>)
    ensures quads == DrugQuadruples(rows, selected)
  {
    quads := [];
    var i := 0;
    while i < |rows|
      invariant 0 <= i <= |rows|
      invariant quads == DrugQuadruples(rows[..i], selected)
    {
      assert rows[..i + 1][..i] == rows[..i];
      var row := rows[i];
      if row.subjectId in selected && row.startDate.Some? && row.endDate.Some? {
        var day := row.startDate.value;
        ghost var before := quads;
        ghost var all := DailyRecords(row);
        while day <= row.endDate.value
          invariant row.startDate.value <= day <= row.endDate.value + 1 || (day == row.startDate.value && row.endDate.value < day)
          invariant quads == before + all[..day - row.startDate.value]
        {
          assert all[..day - row.startDate.value + 1] == all[..day - row.startDate.value] + [all[day - row.startDate.value]];
          quads := quads + [Quadruple(row.subjectId, row.hadmId, day, "RealTime", "MainDrug", row.drug)];
          day := day + 1;
        }
        assert all[..day - row.startDate.value] == all;
      }
      i := i + 1;
    }
    assert rows[..i] == rows;
  }

  // ---------------------------------------------------------------------------
  // `process_lab_events`

  /** A `LABEVENTS` row; missing values are `None`. */
  datatype LabEvent = LabEvent(subjectId: int, hadmId: Option<int>, itemId: int, chartTime: Option<int>, flag: Option<string>)

  /** `fillna("normal")` after the left merge with `D_LABITEMS`. */
  function LabLabel(items: map<int, string>, itemId: int): string {
    if itemId in items then items[itemId] else "normal"
  }

  function LabFlag(e: LabEvent): string { if e.flag.Some? then e.flag.value else "normal" }

  function LabHadm(e: LabEvent): int { if e.hadmId.Some? then e.hadmId.value else -1 }

  /** The quadruple of one lab row; a missing chart time is also filled with
      `"normal"`, which `pd.to_datetime` rejects. */
  function LabQuadruple(e: LabEvent, items: map<int, string>): (r: Result<Quadruple>)
    ensures r.Ok? <==> e.chartTime.Some?
    ensures r.Ok? ==> (r.value.subjectId == e.subjectId && r.value.timestamp == e.chartTime.value
      && r.value.eventType == "RealTime" && r.value.event == LabLabel(items, e.itemId)
      && r.value.value == LabFlag(e)
      && (e.hadmId.None? ==> r.value.hadmId == -1)
      && (e.hadmId.Some? ==> r.value.hadmId == e.hadmId.value))
  {
    if e.chartTime.None? then Err("ValueError")
    else Ok(Quadruple(e.subjectId, LabHadm(e), e.chartTime.value, "RealTime", LabLabel(items, e.itemId), LabFlag(e)))
  }

  /** The row mask `lab_events_df['SUBJECT_ID'].isin(selected_patients)`. */
  function SelectedLab(selected: set<int>): LabEvent -> bool {
    (e: LabEvent) => e.subjectId in selected
  }

  /** The lab quadruples of the selected patients, row after row; the first row that
      cannot be converted aborts the whole call. */
  function LabQuadruples(events: seq<LabEvent>, items: map<int, string>, selected: set<int>): (r: Result<seq<Quadruple>>)
    ensures r.Ok? ==> |r.value| == |Filter(events, SelectedLab(selected))|
    ensures r.Err? ==> r.msg == "ValueError"
  {
    if events == [] then Ok([])
    else
      var last := events[|events| - 1];
      var before := LabQuadruples(events[..|events| - 1], items, selected);
      if before.Err? then before
      else if last.subjectId !in selected then before
      else
        var q := LabQuadruple(last, items);
        if q.Err? then Err(q.msg) else Ok(before.value + [q.value])
  }

  /** The conversion fails exactly when a selected row has no chart time. */
  lemma {:induction false} LabQuadruplesErr(events: seq<LabEvent>, items: map<int, string>, selected: set<int>)
    ensures LabQuadruples(events, items, selected).Err? <==>
      exists i :: 0 <= i < |events| && events[i].subjectId in selected && events[i].chartTime.None?
  {
    if events != [] {
      var init := events[..|events| - 1];
      LabQuadruplesErr(init, items, selected);
      if exists i :: 0 <= i < |init| && init[i].subjectId in selected && init[i].chartTime.None? {
        var i :| 0 <= i < |init| && init[i].subjectId in selected && init[i].chartTime.None?;
        assert events[i] == init[i];
      }
      if exists i :: 0 <= i < |events| && events[i].subjectId in selected && events[i].chartTime.None? {
        var i :| 0 <= i < |events| && events[i].subjectId in selected && events[i].chartTime.None?;
        if i < |init| {
          assert init[i] == events[i];
        }
      }
    }
  }

  /** A successful conversion holds, in order, the quadruple of each selected row. */
  lemma {:induction false} LabQuadruplesContents(events: seq<LabEvent>, items: map<int, string>, selected: set<int>)
    ensures var r := LabQuadruples(events, items, selected);
      r.Ok? ==> forall k :: 0 <= k < |r.value| ==>
        LabQuadruple(Filter(events, SelectedLab(selected))[k], items) == Ok(r.value[k])
  {
    if events != [] {
      var init, last := events[..|events| - 1], events[|events| - 1];
      var r := LabQuadruples(events, items, selected);
      var before := LabQuadruples(init, items, selected);
      LabQuadruplesContents(init, items, selected);
      var f := Filter(init, SelectedLab(selected));
      assert Filter(events, SelectedLab(selected)) == f + (if SelectedLab(selected)(last) then [last] else []);
      if r.Ok? && last.subjectId in selected {
        assert r.value == before.value + [LabQuadruple(last, items).value];
        forall k | 0 <= k < |r.value|
          ensures LabQuadruple(Filter(events, SelectedLab(selected))[k], items) == Ok(r.value[k])
        {
          if k < |before.value| {
            assert Filter(events, SelectedLab(selected))[k] == f[k];
          }
        }
      }
    }
  }

  /** `process_lab_events`: one quadruple per selected row. */
  method ProcessLabEvents(events: seq<LabEvent>, items: map<int, string>, selected: set<int>)
    returns (r: Result<seq<Quadruple>>)
    ensures r == LabQuadruples(events, items, selected)
  {
    var quads: seq<Quadruple> := [];
    var i := 0;
    while i < |events|
      invariant 0 <= i <= |events|
      invariant LabQuadruples(events[..i], items, selected) == Ok(quads)
    {
      assert events[..i + 1][..i] == events[..i];
      var e := events[i];
      if e.subjectId in selected {
        if e.chartTime.None? {
          LabQuadruplesErrPrefix(events, items, selected, i + 1);
          assert events[..i + 1][i] == e;
          return Err("ValueError");
        }
        var hadmId := if e.hadmId.None? then -1 else e.hadmId.value;
        var itemLabel := if e.itemId in items then items[e.itemId] else "normal";
        var flag := if e.flag.None? then "normal" else e.flag.value;
        quads := quads + [Quadruple(e.subjectId, hadmId, e.chartTime.value, "RealTime", itemLabel, flag)];
      }
      i := i + 1;
    }
    assert events[..i] == events;
    return Ok(quads);
  }

  /** A failure in a prefix is a failure of the whole call. */
  lemma {:induction false} LabQuadruplesErrPrefix(events: seq<LabEvent>, items: map<int, string>, selected: set<int>, n: nat)
    requires n <= |events| && LabQuadruples(events[..n], items, selected).Err?
    ensures LabQuadruples(events, items, selected).Err?
    decreases |events| - n
  {
    if n < |events| {
      assert events[..n + 1][..n] == events[..n];
      LabQuadruplesErrPrefix(events, items, selected, n + 1);
    } else {
      assert events[..n] == events;
    }
  }

  // ---------------------------------------------------------------------------
  // `combine_structured_data`

  function BySubjectHadmTime(q: Quadruple): Key { (q.subjectId, q.hadmId, q.timestamp) }

  /** A drug, or a lab value flagged abnormal. */
  predicate Relevant(q: Quadruple) { q.event == "MainDrug" || q.value == "abnormal" }

  /** `combine_structured_data`: concatenate, sort, keep the relevant rows. Two
      empty inputs concatenate to a frame without columns, whose `sort_values`
      raises `KeyError`. */
  function CombineStructuredData(drugs: seq<Quadruple>, labs: seq<Quadruple>): (r: Result<seq<Quadruple>>)
    ensures r.Err? ==> r.msg == "KeyError"
  {
    if drugs == [] && labs == [] then Err("KeyError")
    else Ok(Filter(SortBy(drugs + labs, BySubjectHadmTime), Relevant))
  }

  /** The call fails exactly on two empty inputs. Otherwise the output is sorted by
      (subject, admission, day), holds exactly the relevant rows of its inputs, each
      as often as the inputs do, and is no longer than they are. */
  lemma CombineStructuredDataProps(drugs: seq<Quadruple>, labs: seq<Quadruple>, q: Quadruple)
    ensures CombineStructuredData(drugs, labs).Err? <==> drugs == [] && labs == []
    ensures CombineStructuredData(drugs, labs).Ok? ==>
      var r := CombineStructuredData(drugs, labs).value;
      SortedBy(r, BySubjectHadmTime) &&
      (q in r <==> (q in drugs || q in labs) && Relevant(q)) &&
      multiset(r) == multiset(Filter(drugs + labs, Relevant)) &&
      |r| <= |drugs| + |labs|
  {
    if drugs != [] || labs != [] {
      var sorted := SortBy(drugs + labs, BySubjectHadmTime);
      var r := Filter(sorted, Relevant);
      assert CombineStructuredData(drugs, labs).value == r;
      SortBySorted(drugs + labs, BySubjectHadmTime);
      FilterSorted(sorted, BySubjectHadmTime, Relevant);
      FilterMembers(sorted, Relevant);
      FilterPermutation(sorted, drugs + labs, Relevant);
      assert q in sorted <==> q in multiset(sorted);
      assert q in drugs + labs <==> q in multiset(drugs + labs);
      if q in sorted && Relevant(q) {
        var i :| 0 <= i < |sorted| && sorted[i] == q;
      }
    }
  }

  /** Every drug row survives the filter. */
  lemma DrugsKept(drugs: seq<Quadruple>, labs: seq<Quadruple>, q: Quadruple)
    requires q in drugs && q.event == "MainDrug"
    ensures CombineStructuredData(drugs, labs).Ok? && q in CombineStructuredData(drugs, labs).value
  {
    CombineStructuredDataProps(drugs, labs, q);
  }
}
