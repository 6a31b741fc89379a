/** `uttree/1_my_struct.py`: the script form of the structured staging. It builds
    the drug stage once with `create_drug_stage_df` (inclusive `date_range`, the
    same function as `UttreeExtractStruct.CreateDrugStageDf`), then
    again with a `timedelta` loop whose table replaces the first, stages the lab rows
    and concatenates lab rows before drug rows. Dates are day numbers. */
module MyStruct {
  import opened Wrappers
  import opened Quadruples
  import opened DataPreprocessing
  import opened UttreeExtractStruct

  /** The module-level loop: `delta = edate - sdate` and one record for each
      `i in range(delta.days + 1)`, which is no record when the end comes first.
      It yields the same table as the `date_range` version. */
  method TimedeltaDrugStage(rows: seq<Prescription>) returns (stage: seq<Quadruple>)
    ensures stage == DrugStage(rows)
  {
    stage := [];
    var c := 0;
    while c < |rows|
      invariant 0 <= c <= |rows|
      invariant stage == DrugStage(rows[..c])
    {
      assert rows[..c + 1][..c] == rows[..c];
      var row := rows[c];
      if row.startDate.Some? && row.endDate.Some? {
        var sdate, edate := row.startDate.value, row.endDate.value;
        var delta := edate - sdate;
        ghost var before := stage;
        ghost var all := DrugDays(row);
        var i := 0;
        while i < delta + 1
          invariant 0 <= i && (delta + 1 <= 0 ==> i == 0) && (delta + 1 > 0 ==> i <= delta + 1)
          invariant stage == before + all[..i]
        {
          assert all[..i + 1] == all[..i] + [all[i]];
          var day := sdate + i;
          stage := stage + [Quadruple(row.subjectId, row.hadmId, day, "RealTime", "Drug", row.drug)];
          i := i + 1;
        }
        assert all[..i] == all;
      }
      c := c + 1;
    }
    assert rows[..c] == rows;
  }

  /** The whole script: the first drug table is built and then replaced by the
      `timedelta` one; the lab stage aborts the script on an unparsable chart time;
      the merged table lists lab rows before drug rows. */
  method RunStructStaging(rows: seq<Prescription>, events: seq<LabEvent>, items: map<int, string>)
    returns (result: Result<seq<Quadruple>>)
    ensures result == MergedStage(events, items, rows)
    ensures result.Ok? ==> result.value[|events|..] == DrugStage(rows)
  {
    var stageDfDrug := UttreeExtractStruct.CreateDrugStageDf(rows);
    stageDfDrug := TimedeltaDrugStage(rows);
    var stageDfLab := LabStage(events, items);
    if stageDfLab.Err? {
      return Err(stageDfLab.msg);
    }
    result := Ok(stageDfLab.value + stageDfDrug);
  }
}
