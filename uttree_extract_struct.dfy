/** `uttree/extract_struct.py`: the first-generation structured staging. Each
    prescription becomes one `Drug` record per day, each lab row one record whose
    event is the lab item's label and whose value is its flag, and the merged table
    lists the lab rows before the drug rows. Dates are day numbers. */
module UttreeExtractStruct {
  import opened Wrappers
  import opened Quadruples
  import opened Seqs
  import opened DataPreprocessing

  // ---------------------------------------------------------------------------
  // `create_drug_stage_df`

  /** The records of one prescription: one per day from start to end, inclusive,
      with entity `Drug`; none when a date is missing (the row raises and is
      skipped) or the end comes first. */
  function DrugDays(p: Prescription): (r: seq<Quadruple>)
    ensures p.startDate.Some? && p.endDate.Some? && p.startDate.value <= p.endDate.value ==>
      |r| == p.endDate.value - p.startDate.value + 1
    ensures p.startDate.None? || p.endDate.None? || p.endDate.value < p.startDate.value ==> r == []
  {
    if p.startDate.None? || p.endDate.None? || p.endDate.value < p.startDate.value then []
    else
      var start := p.startDate.value;
      seq(p.endDate.value - start + 1, k requires 0 <= k <= p.endDate.value - start =>
        Quadruple(p.subjectId, p.hadmId, start + k, "RealTime", "Drug", p.drug))
  }

  /** The same days as `process_prescriptions` of `uttree_v2`, with entity `Drug`
      in place of `MainDrug`. */
  lemma DrugDaysLikeDaily(p: Prescription)
    ensures |DrugDays(p)| == |DailyRecords(p)|
    ensures forall k :: 0 <= k < |DrugDays(p)| ==> DrugDays(p)[k] == DailyRecords(p)[k].(event := "Drug")
  {
  }

  /** The drug stage table: every prescription's days, row after row. */
  function DrugStage(rows: seq<Prescription>): seq<Quadruple> {
    if rows == [] then [] else DrugStage(rows[..|rows| - 1]) + DrugDays(rows[|rows| - 1])
  }

  /** `q` is the `Drug` record of row `i` for a day between its start and end. */
  predicate DayOfRow(rows: seq<Prescription>, i: int, q: Quadruple) {
    0 <= i < |rows| && rows[i].startDate.Some? && rows[i].endDate.Some?
    && rows[i].startDate.value <= q.timestamp <= rows[i].endDate.value
    && q == Quadruple(rows[i].subjectId, rows[i].hadmId, q.timestamp, "RealTime", "Drug", rows[i].drug)
  }

  /** A record is in the drug stage exactly when it is the `Drug` record of some
      row for a day between that row's start and end dates. */
  lemma {:induction false} DrugStageMembers(rows: seq<Prescription>, q: Quadruple)
    ensures q in DrugStage(rows) <==> exists i :: DayOfRow(rows, i, q)
  {
    if rows != [] {
      var init, last := rows[..|rows| - 1], rows[|rows| - 1];
      DrugStageMembers(init, q);
      if q in DrugDays(last) {
        var k :| 0 <= k < |DrugDays(last)| && DrugDays(last)[k] == q;
        assert DayOfRow(rows, |rows| - 1, q);
      }
      if q in DrugStage(init) {
        var i :| DayOfRow(init, i, q);
        assert init[i] == rows[i];
        assert DayOfRow(rows, i, q);
      }
      if exists i :: DayOfRow(rows, i, q) {
        var i :| DayOfRow(rows, i, q);
        if i < |init| {
          assert init[i] == rows[i];
          assert DayOfRow(init, i, q);
        } else {
          assert DrugDays(last)[q.timestamp - last.startDate.value] == q;
        }
      }
    }
  }

  /** `create_drug_stage_df`: the row loop around the inclusive `date_range` loop. */
  method CreateDrugStageDf(rows: seq<Prescription>) returns (stage: seq<Quadruple>)
    ensures stage == DrugStage(rows)
  {
    stage := [];
    var i := 0;
    while i < |rows|
      invariant 0 <= i <= |rows|
      invariant stage == DrugStage(rows[..i])
    {
      assert rows[..i + 1][..i] == rows[..i];
      var row := rows[i];
      if row.startDate.Some? && row.endDate.Some? {
        var day := row.startDate.value;
        ghost var before := stage;
        ghost var all := DrugDays(row);
        while day <= row.endDate.value
          invariant row.startDate.value <= day <= row.endDate.value + 1 || (day == row.startDate.value && row.endDate.value < day)
          invariant stage == before + all[..day - row.startDate.value]
        {
          assert all[..day - row.startDate.value + 1] == all[..day - row.startDate.value] + [all[day - row.startDate.value]];
          stage := stage + [Quadruple(row.subjectId, row.hadmId, day, "RealTime", "Drug", row.drug)];
          day := day + 1;
        }
        assert all[..day - row.startDate.value] == all;
      }
      i := i + 1;
    }
    assert rows[..i] == rows;
  }

  // ---------------------------------------------------------------------------
  // `load_and_preprocess_lab_data` and `create_lab_stage_df`

  /** `create_lab_stage_df` after the fill rules: one record per lab row, with a
      missing admission as -1 and a missing label or flag as `"normal"`. A missing
      chart time was filled with `"normal"` too, and `pd.to_datetime` then rejects
      the whole column. */
  function LabStage(events: seq<LabEvent>, items: map<int, string>): (r: Result<seq<Quadruple>>)
    ensures r.Err? <==> exists i :: 0 <= i < |events| && events[i].chartTime.None?
    ensures r.Ok? ==> |r.value| == |events|
    ensures r.Ok? ==> forall i :: 0 <= i < |events| ==> LabQuadruple(events[i], items) == Ok(r.value[i])
  {
    if exists i :: 0 <= i < |events| && events[i].chartTime.None? then Err("ValueError")
    else Ok(seq(|events|, i requires 0 <= i < |events| => LabQuadruple(events[i], items).value))
  }

  function Subjects(events: seq<LabEvent>): set<int> {
    set e | e in events :: e.subjectId
  }

  /** The lab stage of a table one row longer. */
  lemma LabStageSnoc(events: seq<LabEvent>, items: map<int, string>)
    requires events != []
    ensures var init, last := events[..|events| - 1], events[|events| - 1];
      LabStage(events, items) ==
        if LabStage(init, items).Err? || last.chartTime.None? then Err("ValueError")
        else Ok(LabStage(init, items).value + [LabQuadruple(last, items).value])
  {
    var init, last := events[..|events| - 1], events[|events| - 1];
    if exists i :: 0 <= i < |init| && init[i].chartTime.None? {
      var i :| 0 <= i < |init| && init[i].chartTime.None?;
      assert events[i] == init[i];
    } else if last.chartTime.Some? {
      assert forall i :: 0 <= i < |init| ==> events[i] == init[i];
      assert LabStage(events, items).value == LabStage(init, items).value + [LabQuadruple(last, items).value];
    }
  }

  /** The lab stage is `process_lab_events` of `uttree_v2` with every subject
      selected. */
  lemma {:induction false} LabStageAgrees(events: seq<LabEvent>, items: map<int, string>, selected: set<int>)
    requires Subjects(events) <= selected
    ensures LabStage(events, items) == LabQuadruples(events, items, selected)
  {
    if events != [] {
      var init, last := events[..|events| - 1], events[|events| - 1];
      assert Subjects(init) <= selected by {
        forall e | e in init ensures e.subjectId in selected {
          var i :| 0 <= i < |init| && init[i] == e;
          assert events[i] == e;
        }
      }
      LabStageAgrees(init, items, selected);
      assert last.subjectId in selected by {
        assert last in events;
      }
      LabStageSnoc(events, items);
    }
  }

  // ---------------------------------------------------------------------------
  // `main`

  /** `pd.concat([stage_df_lab, stage_df_drug])`: the lab rows, then the drug rows. */
  function MergedStage(events: seq<LabEvent>, items: map<int, string>, rows: seq<Prescription>): (r: Result<seq<Quadruple>>)
    ensures r.Err? <==> LabStage(events, items).Err?
    ensures r.Ok? ==> |r.value| == |events| + |DrugStage(rows)|
    ensures r.Ok? ==> forall i :: 0 <= i < |events| ==> LabQuadruple(events[i], items) == Ok(r.value[i])
    ensures r.Ok? ==> r.value[|events|..] == DrugStage(rows)
  {
    var labs := LabStage(events, items);
    if labs.Err? then Err(labs.msg) else Ok(labs.value + DrugStage(rows))
  }
}
