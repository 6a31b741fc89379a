/** The quadruple side of `uttree_v2/2_nlp_processing.py`: disease concepts become
    temporal quadruples with date-rank windows, and each admission's structured and
    unstructured quadruples are merged. */
module NlpQuadruples {
  import opened Wrappers
  import opened Seqs
  import opened Sorting
  import opened Quadruples
  import opened NlpProcessing

  function HadmOf(c: Concept): int { c.hadmId }

  function ByDate(c: Concept): Key { (c.chartDate, 0, 0) }

  /** The `hadm_id` column. */
  function ConceptHadms(concepts: seq<Concept>): (r: seq<int>)
    ensures |r| == |concepts| && forall i :: 0 <= i < |r| ==> r[i] == concepts[i].hadmId
  {
    seq(|concepts|, i requires 0 <= i < |concepts| => concepts[i].hadmId)
  }

  /** The `chart_date` column. */
  function ChartDates(g: seq<Concept>): (r: seq<int>)
    ensures |r| == |g| && forall i :: 0 <= i < |r| ==> r[i] == g[i].chartDate
  {
    seq(|g|, i requires 0 <= i < |g| => g[i].chartDate)
  }

  /** One admission's concepts, sorted by chart date. */
  function SortedGroup(concepts: seq<Concept>, h: int): seq<Concept> {
    SortBy(Group(concepts, HadmOf, h), ByDate)
  }

  function TemporalType(sectionCategory: string): string {
    if sectionCategory == "past_medical_history" then "Retro" else "NewFinding"
  }

  function QuadOf(c: Concept, h: int, window: nat): Windowed {
    Windowed(Quadruple(c.subjectId, h, c.chartDate, TemporalType(c.sectionCategory),
                       "DiseaseDisorderMention", c.canonicalName), window)
  }

  /** The quadruples of one sorted group: each concept's window is the rank of its
      date in the group's `unique()` dates. */
  function GroupQuads(g: seq<Concept>, h: int): (r: seq<Windowed>)
    ensures |r| == |g|
  {
    var dates := Dedup(ChartDates(g));
    DedupMembers(ChartDates(g));
    seq(|g|, i requires 0 <= i < |g| => QuadOf(g[i], h, Rank(dates, g[i].chartDate)))
  }

  /** The quadruples of the admissions `hs`, admission after admission. */
  function QuadsFor(concepts: seq<Concept>, hs: seq<int>): seq<Windowed> {
    if hs == [] then []
    else QuadsFor(concepts, hs[..|hs| - 1]) + GroupQuads(SortedGroup(concepts, hs[|hs| - 1]), hs[|hs| - 1])
  }

  /** `generate_unstructured_quadruples`: `groupby` visits the admissions in ascending
      order. No concepts make a frame without a `hadm_id` column, whose `groupby`
      raises `KeyError`. */
  function UnstructuredQuads(concepts: seq<Concept>): (r: Result<seq<Windowed>>)
    ensures r.Err? ==> r.msg == "KeyError"
  {
    if concepts == [] then Err("KeyError")
    else Ok(QuadsFor(concepts, SortedDistinct(ConceptHadms(concepts))))
  }

  lemma {:induction false} QuadsForSize(concepts: seq<Concept>, hs: seq<int>)
    ensures |QuadsFor(concepts, hs)| == GroupSizes(concepts, HadmOf, hs)
  {
    if hs != [] {
      QuadsForSize(concepts, hs[..|hs| - 1]);
    }
  }

  /** The call fails exactly when there are no concepts; otherwise there is exactly
      one quadruple per concept row: negated concepts are not dropped. */
  lemma OneQuadruplePerConcept(concepts: seq<Concept>)
    ensures UnstructuredQuads(concepts).Err? <==> concepts == []
    ensures UnstructuredQuads(concepts).Ok? ==> |UnstructuredQuads(concepts).value| == |concepts|
  {
    var hs := SortedDistinct(ConceptHadms(concepts));
    SortedDistinctProps(ConceptHadms(concepts));
    StrictlyIncreasingDistinct(hs);
    forall i | 0 <= i < |concepts|
      ensures HadmOf(concepts[i]) in hs
    {
      assert ConceptHadms(concepts)[i] == HadmOf(concepts[i]);
    }
    GroupsPartition(concepts, HadmOf, hs);
    QuadsForSize(concepts, hs);
  }

  /** A group sorted by date lists its `unique()` dates in ascending order. */
  lemma SortedDatesIncreasing(g: seq<Concept>)
    requires SortedBy(g, ByDate)
    ensures StrictlyIncreasing(Dedup(ChartDates(g)))
  {
    var ds := ChartDates(g);
    forall i, j | 0 <= i < j < |ds|
      ensures ds[i] <= ds[j]
    {
      assert !Less(ByDate(g[j]), ByDate(g[i]));
    }
    DedupNonDecreasing(ds);
  }

  /** The fields of every quadruple of one admission: its row, the admission id, the
      concept's date and name, `Retro` exactly for past medical history, and a window
      between 1 and the number of distinct dates. */
  lemma GroupQuadsFields(g: seq<Concept>, h: int, i: nat)
    requires i < |g|
    ensures var q := GroupQuads(g, h)[i];
      q.quad.hadmId == h && q.quad.subjectId == g[i].subjectId
      && q.quad.timestamp == g[i].chartDate && q.quad.value == g[i].canonicalName
      && q.quad.event == "DiseaseDisorderMention"
      && (q.quad.eventType == "Retro" <==> g[i].sectionCategory == "past_medical_history")
      && (q.quad.eventType != "Retro" ==> q.quad.eventType == "NewFinding")
      && 1 <= q.timeWindow <= |Dedup(ChartDates(g))|
  {
  }

  /** Windows follow dates within an admission: an earlier date gets a smaller
      window and equal dates share one. */
  lemma GroupQuadsWindowOrder(g: seq<Concept>, h: int, i: nat, j: nat)
    requires SortedBy(g, ByDate) && i < |g| && j < |g|
    ensures var r := GroupQuads(g, h);
      (g[i].chartDate < g[j].chartDate <==> r[i].timeWindow < r[j].timeWindow)
      && (g[i].chartDate == g[j].chartDate <==> r[i].timeWindow == r[j].timeWindow)
  {
    var dates := Dedup(ChartDates(g));
    DedupMembers(ChartDates(g));
    SortedDatesIncreasing(g);
    assert ChartDates(g)[i] == g[i].chartDate && ChartDates(g)[j] == g[j].chartDate;
    RankOrder(dates, g[i].chartDate, g[j].chartDate);
  }

  /** The windows are dense: every number from 1 to the count of distinct dates is
      the window of some quadruple. */
  lemma GroupQuadsWindowsDense(g: seq<Concept>, h: int, k: nat)
    requires SortedBy(g, ByDate) && 1 <= k <= |Dedup(ChartDates(g))|
    ensures exists i :: 0 <= i < |g| && GroupQuads(g, h)[i].timeWindow == k
  {
    var dates := Dedup(ChartDates(g));
    DedupMembers(ChartDates(g));
    SortedDatesIncreasing(g);
    RankDense(dates, k);
    var i :| 0 <= i < |g| && ChartDates(g)[i] == dates[k - 1];
    assert GroupQuads(g, h)[i].timeWindow == Rank(dates, g[i].chartDate);
  }

  /** The group behind each admission's quadruples is that admission's concepts,
      sorted by date. */
  lemma SortedGroupProps(concepts: seq<Concept>, h: int)
    ensures var g := SortedGroup(concepts, h);
      SortedBy(g, ByDate) && multiset(g) == multiset(Group(concepts, HadmOf, h))
      && forall i :: 0 <= i < |g| ==> g[i].hadmId == h
  {
    var g := SortedGroup(concepts, h);
    SortBySorted(Group(concepts, HadmOf, h), ByDate);
    GroupMembers(concepts, HadmOf, h);
    forall i | 0 <= i < |g|
      ensures g[i].hadmId == h
    {
      assert g[i] in multiset(Group(concepts, HadmOf, h)) by {
        assert g[i] in multiset(g);
      }
    }
  }

  /** The rows of one group, as the inner `iterrows` loop appends them. */
  method GroupQuadruples(group: seq<Concept>, h: int) returns (rows: seq<Windowed>)
    ensures rows == GroupQuads(group, h)
  {
    var dates := Dedup(ChartDates(group));
    DedupMembers(ChartDates(group));
    ghost var all := GroupQuads(group, h);
    rows := [];
    var j := 0;
    while j < |group|
      invariant 0 <= j <= |group|
      invariant rows == all[..j]
    {
      var row := group[j];
      assert ChartDates(group)[j] == row.chartDate;
      var window := Rank(dates, row.chartDate);
      var quad := RowQuadruple(row, h, window);
      assert quad == all[j];
      PrefixStep(all, j);
      rows := rows + [quad];
      j := j + 1;
    }
  }

  /** The body of the `iterrows` loop: the temporal type from the section, then the
      row of the frame. */
  method RowQuadruple(row: Concept, h: int, window: nat) returns (q: Windowed)
    ensures q == QuadOf(row, h, window)
    ensures q.quad.eventType == "Retro" <==> row.sectionCategory == "past_medical_history"
  {
    var temporalType;
    if row.sectionCategory == "past_medical_history" {
      temporalType := "Retro";
    } else {
      temporalType := "NewFinding";
    }
    q := Windowed(Quadruple(row.subjectId, h, row.chartDate, temporalType,
                            "DiseaseDisorderMention", row.canonicalName), window);
  }

  /** `generate_unstructured_quadruples`. */
  method GenerateUnstructuredQuadruples(concepts: seq<Concept>) returns (r: Result<seq<Windowed>>)
    ensures r == UnstructuredQuads(concepts)
  {
    if |concepts| == 0 {
      return Err("KeyError");
    }
    var hadms := SortedDistinct(ConceptHadms(concepts));
    var quads := [];
    var i := 0;
    while i < |hadms|
      invariant 0 <= i <= |hadms|
      invariant quads == QuadsFor(concepts, hadms[..i])
    {
      var h := hadms[i];
      var group := SortBy(Group(concepts, HadmOf, h), ByDate);
      var rows := GroupQuadruples(group, h);
      QuadsForStep(concepts, hadms, i);
      quads := quads + rows;
      i := i + 1;
    }
    assert hadms[..i] == hadms;
    return Ok(quads);
  }

  lemma QuadsForStep(concepts: seq<Concept>, hs: seq<int>, i: nat)
    requires i < |hs|
    ensures QuadsFor(concepts, hs[..i + 1])
      == QuadsFor(concepts, hs[..i]) + GroupQuads(SortedGroup(concepts, hs[i]), hs[i])
  {
    assert hs[..i + 1][..i] == hs[..i];
  }

  // ---------------------------------------------------------------------------
  // `integrate_structured_unstructured`

  function QuadHadm(q: Quadruple): int { q.hadmId }

  function WindowedHadm(w: Windowed): int { w.quad.hadmId }

  /** The frame a combined row comes from. The two differ in the type of their
      `timestamp`: a structured row holds a `datetime.date`, a note row its
      CHARTDATE string. */
  datatype Origin = Structured | Note

  /** A combined row together with its origin. */
  datatype OriginRow = OriginRow(row: Windowed, origin: Origin)

  function RowOf(r: OriginRow): Windowed { r.row }

  function OriginRank(o: Origin): int { if o.Structured? then 0 else 1 }

  /** Sort key of the combined frame. `sort_values(['time_window', 'timestamp'])` on a
      `timestamp` column holding both dates and strings orders every non-string before
      every string, so within a window the structured rows come first, and each kind
      is ordered by its own timestamps. */
  function ByWindowOrigin(r: OriginRow): Key {
    (r.row.timeWindow, OriginRank(r.origin), r.row.quad.timestamp)
  }

  /** The rows of one frame, each marked with the frame's origin. */
  function WithOrigin(rows: seq<Windowed>, o: Origin): (r: seq<OriginRow>)
    ensures |r| == |rows| && forall i :: 0 <= i < |r| ==> r[i] == OriginRow(rows[i], o)
  {
    seq(|rows|, i requires 0 <= i < |rows| => OriginRow(rows[i], o))
  }

  /** A marked row carries the frame's origin and one of its rows. */
  lemma WithOriginMember(rows: seq<Windowed>, o: Origin, r: OriginRow)
    requires r in WithOrigin(rows, o)
    ensures r.origin == o && r.row in rows
  {
    var m :| 0 <= m < |rows| && WithOrigin(rows, o)[m] == r;
  }

  /** Dropping the marks recovers the rows. */
  lemma WithOriginRows(rows: seq<Windowed>, o: Origin)
    ensures Column(WithOrigin(rows, o), RowOf) == rows
  {
  }

  /** The `timestamp` column. */
  function Timestamps(rows: seq<Quadruple>): (r: seq<int>)
    ensures |r| == |rows| && forall i :: 0 <= i < |r| ==> r[i] == rows[i].timestamp
  {
    seq(|rows|, i requires 0 <= i < |rows| => rows[i].timestamp)
  }

  /** Structured rows numbered by the rank of their timestamp among the subset's
      sorted distinct timestamps. */
  function StructWindows(rows: seq<Quadruple>): (r: seq<Windowed>)
    ensures |r| == |rows|
  {
    var dates := SortedDistinct(Timestamps(rows));
    SortedDistinctProps(Timestamps(rows));
    seq(|rows|, i requires 0 <= i < |rows| => Windowed(rows[i], Rank(dates, rows[i].timestamp)))
  }

  /** Structured windows are dense ranks: each row keeps its quadruple, and windows
      follow timestamps, equal ones sharing a window. */
  lemma StructWindowsOrder(rows: seq<Quadruple>, i: nat, j: nat)
    requires i < |rows| && j < |rows|
    ensures var r := StructWindows(rows);
      r[i].quad == rows[i] && 1 <= r[i].timeWindow <= |SortedDistinct(Timestamps(rows))|
      && (rows[i].timestamp < rows[j].timestamp <==> r[i].timeWindow < r[j].timeWindow)
      && (rows[i].timestamp == rows[j].timestamp <==> r[i].timeWindow == r[j].timeWindow)
  {
    var dates := SortedDistinct(Timestamps(rows));
    SortedDistinctProps(Timestamps(rows));
    assert Timestamps(rows)[i] == rows[i].timestamp && Timestamps(rows)[j] == rows[j].timestamp;
    RankOrder(dates, rows[i].timestamp, rows[j].timestamp);
  }

  /** The admissions with a structured or an unstructured row. */
  function AllHadms(structured: seq<Quadruple>, unstructured: seq<Windowed>): set<int> {
    (set i | 0 <= i < |structured| :: structured[i].hadmId)
      + (set i | 0 <= i < |unstructured| :: unstructured[i].quad.hadmId)
  }

  /** The concatenated subsets of one admission, structured rows first. */
  function Concatenated(structured: seq<Quadruple>, unstructured: seq<Windowed>, h: int): seq<OriginRow> {
    WithOrigin(StructWindows(Group(structured, QuadHadm, h)), Structured)
      + WithOrigin(Group(unstructured, WindowedHadm, h), Note)
  }

  /** The integrated frame of one admission, each row with its origin. */
  function CombinedRows(structured: seq<Quadruple>, unstructured: seq<Windowed>, h: int): seq<OriginRow> {
    SortBy(Concatenated(structured, unstructured, h), ByWindowOrigin)
  }

  /** The integrated frame of one admission. */
  function Combined(structured: seq<Quadruple>, unstructured: seq<Windowed>, h: int): seq<Windowed> {
    Column(CombinedRows(structured, unstructured, h), RowOf)
  }

  /** Each integrated frame holds every row of both subsets, and no other. Its windows
      never decrease; within a window every structured row precedes every note row,
      and the rows of one kind are in timestamp order. */
  lemma CombinedContents(structured: seq<Quadruple>, unstructured: seq<Windowed>, h: int)
    ensures var c := Combined(structured, unstructured, h);
      var s := Group(structured, QuadHadm, h);
      var u := Group(unstructured, WindowedHadm, h);
      multiset(c) == multiset(StructWindows(s)) + multiset(u)
      && |c| == |s| + |u|
    ensures var p := CombinedRows(structured, unstructured, h);
      var s := Group(structured, QuadHadm, h);
      var u := Group(unstructured, WindowedHadm, h);
      multiset(p) == multiset(WithOrigin(StructWindows(s), Structured)) + multiset(WithOrigin(u, Note))
      && (forall i, j :: 0 <= i < j < |p| ==> p[i].row.timeWindow <= p[j].row.timeWindow)
      && (forall i, j :: 0 <= i < j < |p| && p[i].row.timeWindow == p[j].row.timeWindow ==>
            !(p[i].origin == Note && p[j].origin == Structured))
      && (forall i, j :: 0 <= i < j < |p| && p[i].row.timeWindow == p[j].row.timeWindow && p[i].origin == p[j].origin ==>
            p[i].row.quad.timestamp <= p[j].row.quad.timestamp)
  {
    var s := Group(structured, QuadHadm, h);
    var u := Group(unstructured, WindowedHadm, h);
    var both := Concatenated(structured, unstructured, h);
    var p := CombinedRows(structured, unstructured, h);
    SortBySorted(both, ByWindowOrigin);
    ColumnPermutation(p, both, RowOf);
    ColumnConcat(WithOrigin(StructWindows(s), Structured), WithOrigin(u, Note), RowOf);
    WithOriginRows(StructWindows(s), Structured);
    WithOriginRows(u, Note);
    forall i, j | 0 <= i < j < |p| && p[i].row.timeWindow == p[j].row.timeWindow
      ensures !(p[i].origin == Note && p[j].origin == Structured)
    {
      assert !Less(ByWindowOrigin(p[j]), ByWindowOrigin(p[i]));
    }
  }

  /** A row marked structured comes from the structured subset, one marked as a note
      from the unstructured subset. */
  lemma CombinedOrigins(structured: seq<Quadruple>, unstructured: seq<Windowed>, h: int, k: nat)
    requires k < |CombinedRows(structured, unstructured, h)|
    ensures var p := CombinedRows(structured, unstructured, h);
      (p[k].origin == Structured ==> p[k].row in StructWindows(Group(structured, QuadHadm, h)))
      && (p[k].origin == Note ==> p[k].row in Group(unstructured, WindowedHadm, h))
  {
    var sw := StructWindows(Group(structured, QuadHadm, h));
    var u := Group(unstructured, WindowedHadm, h);
    var a, b := WithOrigin(sw, Structured), WithOrigin(u, Note);
    var p := CombinedRows(structured, unstructured, h);
    assert multiset(p) == multiset(a + b);
    assert p[k] in multiset(a + b) by {
      assert p[k] in multiset(p);
    }
    if p[k] in a {
      WithOriginMember(sw, Structured, p[k]);
    } else {
      WithOriginMember(u, Note, p[k]);
    }
  }

  /** A lone structured row falls in window 1. */
  lemma StructWindowsSingle(q: Quadruple)
    ensures StructWindows([q]) == [Windowed(q, 1)]
  {
    assert Timestamps([q]) == [q.timestamp];
    assert [q.timestamp][..0] == [];
    assert SortedDistinct([q.timestamp]) == [q.timestamp];
  }

  /** A lab of day 5 and a note of day 3, both in window 1 of admission 7: the lab
      row comes first although its day is later. */
  lemma StructuredBeforeEarlierNote()
    ensures var lab := Quadruple(1, 7, 5, "RealTime", "Glucose", "abnormal");
      var note := Quadruple(1, 7, 3, "NewFinding", "DiseaseDisorderMention", "pneumonia");
      Combined([lab], [Windowed(note, 1)], 7) == [Windowed(lab, 1), Windowed(note, 1)]
  {
    var lab := Quadruple(1, 7, 5, "RealTime", "Glucose", "abnormal");
    var note := Quadruple(1, 7, 3, "NewFinding", "DiseaseDisorderMention", "pneumonia");
    GroupSingle(lab, QuadHadm, 7);
    GroupSingle(Windowed(note, 1), WindowedHadm, 7);
    StructWindowsSingle(lab);
    var both := [OriginRow(Windowed(lab, 1), Structured), OriginRow(Windowed(note, 1), Note)];
    assert Concatenated([lab], [Windowed(note, 1)], 7) == both;
    SortByPair(both[0], both[1], ByWindowOrigin);
  }

  /** Every row of a structured subset keeps its admission. */
  lemma StructWindowsHadm(structured: seq<Quadruple>, h: int, m: nat)
    requires m < |Group(structured, QuadHadm, h)|
    ensures StructWindows(Group(structured, QuadHadm, h))[m].quad.hadmId == h
  {
    var s := Group(structured, QuadHadm, h);
    GroupMembers(structured, QuadHadm, h);
    StructWindowsOrder(s, m, m);
  }

  /** Every row of a subset of the concatenated frames keeps its admission. */
  lemma BothHadm(structured: seq<Quadruple>, unstructured: seq<Windowed>, h: int, m: nat)
    requires m < |StructWindows(Group(structured, QuadHadm, h)) + Group(unstructured, WindowedHadm, h)|
    ensures (StructWindows(Group(structured, QuadHadm, h)) + Group(unstructured, WindowedHadm, h))[m].quad.hadmId == h
  {
    var sw := StructWindows(Group(structured, QuadHadm, h));
    var u := Group(unstructured, WindowedHadm, h);
    if m < |sw| {
      StructWindowsHadm(structured, h, m);
    } else {
      GroupMembers(unstructured, WindowedHadm, h);
      assert (sw + u)[m] == u[m - |sw|];
    }
  }

  /** Every row of an integrated frame belongs to its admission. */
  lemma CombinedHadm(structured: seq<Quadruple>, unstructured: seq<Windowed>, h: int, k: nat)
    requires k < |Combined(structured, unstructured, h)|
    ensures Combined(structured, unstructured, h)[k].quad.hadmId == h
  {
    var s := Group(structured, QuadHadm, h);
    var u := Group(unstructured, WindowedHadm, h);
    var sw := StructWindows(s);
    var both := sw + u;
    var c := Combined(structured, unstructured, h);
    CombinedContents(structured, unstructured, h);
    assert c[k] in multiset(both) by {
      assert c[k] in multiset(c);
    }
    var m :| 0 <= m < |both| && both[m] == c[k];
    BothHadm(structured, unstructured, h, m);
  }

  /** An admission of either column has a row in one of the two subsets. */
  lemma HadmHasRows(structured: seq<Quadruple>, unstructured: seq<Windowed>, h: int)
    requires h in AllHadms(structured, unstructured)
    ensures |Group(structured, QuadHadm, h)| > 0 || |Group(unstructured, WindowedHadm, h)| > 0
  {
    GroupMembers(structured, QuadHadm, h);
    GroupMembers(unstructured, WindowedHadm, h);
    if h in (set i | 0 <= i < |structured| :: structured[i].hadmId) {
      var i :| 0 <= i < |structured| && structured[i].hadmId == h;
      assert QuadHadm(structured[i]) == h;
    } else {
      var i :| 0 <= i < |unstructured| && unstructured[i].quad.hadmId == h;
      assert WindowedHadm(unstructured[i]) == h;
    }
  }

  /** `integrate_structured_unstructured`: one sorted frame per admission of either
      input. The structured input carries no `time_window` column. */
  method IntegrateStructuredUnstructured(structured: seq<Quadruple>, unstructured: seq<Windowed>)
    returns (integrated: map<int, seq<Windowed>>)
    ensures integrated.Keys == AllHadms(structured, unstructured)
    ensures forall h :: h in integrated ==> integrated[h] == Combined(structured, unstructured, h)
  {
    var allHadms := AllHadms(structured, unstructured);
    var remaining := allHadms;
    integrated := map[];
    while remaining != {}
      invariant remaining <= allHadms
      invariant integrated.Keys == allHadms - remaining
      invariant forall h :: h in integrated ==> integrated[h] == Combined(structured, unstructured, h)
      decreases remaining
    {
      var h :| h in remaining;
      HadmHasRows(structured, unstructured, h);
      var structSubset := Group(structured, QuadHadm, h);
      var unstructSubset := Group(unstructured, WindowedHadm, h);
      var structWindowed: seq<Windowed> := [];
      if |structSubset| > 0 {
        structWindowed := StructWindows(structSubset);
      }
      var combined: seq<OriginRow>;
      if |structSubset| > 0 && |unstructSubset| > 0 {
        combined := WithOrigin(structWindowed, Structured) + WithOrigin(unstructSubset, Note);
      } else if |structSubset| > 0 {
        combined := WithOrigin(structWindowed, Structured);
        assert combined == Concatenated(structured, unstructured, h);
      } else if |unstructSubset| > 0 {
        combined := WithOrigin(unstructSubset, Note);
        assert combined == Concatenated(structured, unstructured, h);
      } else {
        // the `continue` branch: every admission id comes from one of the subsets
        assert false;
      }
      var sorted := SortBy(combined, ByWindowOrigin);
      integrated := integrated[h := Column(sorted, RowOf)];
      remaining := remaining - {h};
    }
  }
}
