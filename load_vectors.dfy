/** `vgsimi/load_vectors_lab_presc.py`: the selection of the admissions to load
    and of their related rows, the per-admission vector lookup, and the node ids
    of the loaded events. The rows stand for the CSV tables; each loader returns
    the transactions it issues, in order, and its row counter. */
module LoadVectors {
  import opened Wrappers
  import opened Text
  import opened Seqs

  // ---------------------------------------------------------------------------
  // Rows

  datatype Patient = Patient(subjectId: int)
  datatype Admission = Admission(hadmId: int, subjectId: int)
  /** A lab event; `flag` is `None` where the CSV cell is empty. */
  datatype LabEvent = LabEvent(rowId: int, hadmId: int, flag: Option<string>)
  datatype Prescription = Prescription(rowId: int, hadmId: int)
  datatype Note = Note(rowId: int, hadmId: int, text: string)

  /** One row of `embedded_vectors.csv`: its admission id and the values of the
      other columns, in column order. */
  datatype VectorRow = VectorRow(admissionId: int, values: seq<real>)

  /** The vector table: the names of the columns other than `admission_id`, and
      the rows. */
  datatype VectorTable = VectorTable(columns: seq<string>, rows: seq<VectorRow>)

  // ---------------------------------------------------------------------------
  // `filter_data_for_admissions`

  /** The lab flags that count as abnormal, after lower-casing. */
  const AbnormalFlags: set<string> := {"abnormal", "abn", "abormal", "ab", "abn."}

  /** A lab row is loaded when it belongs to a selected admission and carries an
      abnormal flag. */
  predicate LabKept(l: LabEvent, selected: seq<int>) {
    l.hadmId in selected && l.flag.Some? && Lower(l.flag.value) in AbnormalFlags
  }

  /** A note is loaded when it belongs to a selected admission and has more than
      50 whitespace-separated words. */
  predicate NoteKept(n: Note, selected: seq<int>) {
    n.hadmId in selected && |Words(n.text)| > 50
  }

  function AdmissionIds(rows: seq<VectorRow>): (ids: seq<int>)
    ensures |ids| == |rows| && forall i :: 0 <= i < |rows| ==> ids[i] == rows[i].admissionId
  {
    seq(|rows|, i requires 0 <= i < |rows| => rows[i].admissionId)
  }

  function AdmissionSubject(a: Admission): int { a.subjectId }

  /** The six tables `filter_data_for_admissions` returns. */
  datatype Filtered = Filtered(
    patients: seq<Patient>, admissions: seq<Admission>, labs: seq<LabEvent>,
    prescriptions: seq<Prescription>, vectors: seq<VectorRow>, notes: seq<Note>)

  /** `filter_data_for_admissions`, given the rows `vectors_df.sample` drew. Each
      table keeps its own row order. */
  function FilterDataForAdmissions(
    admissions: seq<Admission>, patients: seq<Patient>, labs: seq<LabEvent>,
    prescriptions: seq<Prescription>, sampled: seq<VectorRow>, notes: seq<Note>): Filtered
  {
    var selected := AdmissionIds(sampled);
    var sampledAdmissions := Filter(admissions, (a: Admission) => a.hadmId in selected);
    var subjects := Column(sampledAdmissions, AdmissionSubject);
    Filtered(
      Filter(patients, (p: Patient) => p.subjectId in subjects),
      sampledAdmissions,
      Filter(labs, (l: LabEvent) => LabKept(l, selected)),
      Filter(prescriptions, (p: Prescription) => p.hadmId in selected),
      sampled,
      Filter(notes, (n: Note) => NoteKept(n, selected)))
  }

  /** `Filter` keeps a row exactly when it satisfies the predicate. */
  lemma FilterExactly<T>(s: seq<T>, p: T -> bool)
    ensures forall x :: x in Filter(s, p) <==> x in s && p(x)
  {
    FilterMembers(s, p);
    forall x | x in Filter(s, p) ensures x in s && p(x) {
      var i :| 0 <= i < |Filter(s, p)| && Filter(s, p)[i] == x;
    }
  }

  /** Every table keeps exactly the rows of the sampled admissions (labs only with
      an abnormal flag, notes only with more than 50 words), and a patient is kept
      exactly when one of the kept admissions is theirs. */
  lemma FilteredRows(
    admissions: seq<Admission>, patients: seq<Patient>, labs: seq<LabEvent>,
    prescriptions: seq<Prescription>, sampled: seq<VectorRow>, notes: seq<Note>)
    ensures var f := FilterDataForAdmissions(admissions, patients, labs, prescriptions, sampled, notes);
      var selected := AdmissionIds(sampled);
      (forall a :: a in f.admissions <==> a in admissions && a.hadmId in selected) &&
      (forall p :: p in f.patients <==> (
        p in patients && exists a :: a in f.admissions && a.subjectId == p.subjectId)) &&
      (forall l :: l in f.labs <==> l in labs && LabKept(l, selected)) &&
      (forall p :: p in f.prescriptions <==> p in prescriptions && p.hadmId in selected) &&
      (forall n :: n in f.notes <==> n in notes && NoteKept(n, selected)) &&
      f.vectors == sampled
  {
    var selected := AdmissionIds(sampled);
    var sampledAdmissions := Filter(admissions, (a: Admission) => a.hadmId in selected);
    var subjects := Column(sampledAdmissions, AdmissionSubject);
    FilterExactly(admissions, (a: Admission) => a.hadmId in selected);
    FilterExactly(patients, (p: Patient) => p.subjectId in subjects);
    FilterExactly(labs, (l: LabEvent) => LabKept(l, selected));
    FilterExactly(prescriptions, (p: Prescription) => p.hadmId in selected);
    FilterExactly(notes, (n: Note) => NoteKept(n, selected));
    forall p: Patient ensures p.subjectId in subjects <==>
      exists a :: a in sampledAdmissions && a.subjectId == p.subjectId
    {
      if p.subjectId in subjects {
        var i :| 0 <= i < |subjects| && subjects[i] == p.subjectId;
        assert sampledAdmissions[i] in sampledAdmissions;
      }
      if exists a :: a in sampledAdmissions && a.subjectId == p.subjectId {
        var a :| a in sampledAdmissions && a.subjectId == p.subjectId;
        var i :| 0 <= i < |sampledAdmissions| && sampledAdmissions[i] == a;
        assert subjects[i] == p.subjectId;
      }
    }
  }

  /** The flag test ignores case, needs the exact spelling otherwise, and drops a
      row without a flag. */
  lemma AbnormalFlagCases(rowId: int, hadmId: int, selected: seq<int>)
    requires hadmId in selected
    ensures LabKept(LabEvent(rowId, hadmId, Some("ABNORMAL")), selected)
    ensures LabKept(LabEvent(rowId, hadmId, Some("Abn.")), selected)
    ensures !LabKept(LabEvent(rowId, hadmId, Some("delta")), selected)
    ensures !LabKept(LabEvent(rowId, hadmId, Some("abnormally")), selected)
    ensures !LabKept(LabEvent(rowId, hadmId, None), selected)
  {
    assert Lower("ABNORMAL") == "abnormal";
    assert Lower("Abn.") == "abn.";
    assert Lower("delta") == "delta";
    assert |Lower("abnormally")| == 10;
  }

  // ---------------------------------------------------------------------------
  // `load_admissions`

  /** The values of the columns whose name starts with `f`, in column order. */
  function FValues(columns: seq<string>, values: seq<real>): (v: seq<real>)
    ensures |v| <= |values|
    decreases |columns|
  {
    if columns == [] || values == [] then []
    else (if StartsWith(columns[0], "f") then [values[0]] else []) + FValues(columns[1..], values[1..])
  }

  /** The first row of `rows` for admission `id`, if any. */
  function FirstRow(rows: seq<VectorRow>, id: int): (m: Option<VectorRow>)
    ensures m.None? <==> forall j :: 0 <= j < |rows| ==> rows[j].admissionId != id
    ensures forall j :: (0 <= j < |rows| && rows[j].admissionId == id &&
      (forall i :: 0 <= i < j ==> rows[i].admissionId != id)) ==> m == Some(rows[j])
  {
    if rows == [] then None
    else if rows[0].admissionId == id then Some(rows[0])
    else
      assert forall j :: 1 <= j < |rows| ==> rows[j] == rows[1..][j - 1];
      FirstRow(rows[1..], id)
  }

  /** The vector stored on an admission: the `f` columns of the first vector row
      for it, or the empty list when there is none. */
  function AdmissionVector(table: VectorTable, hadmId: int): seq<real> {
    match FirstRow(table.rows, hadmId)
    case None => []
    case Some(row) => FValues(table.columns, row.values)
  }

  /** When every column is a feature column, the whole row is the vector. */
  lemma {:induction false} AllFeatureColumns(columns: seq<string>, values: seq<real>)
    requires |columns| == |values|
    requires forall k :: 0 <= k < |columns| ==> StartsWith(columns[k], "f")
    ensures FValues(columns, values) == values
    decreases |columns|
  {
    if columns != [] {
      AllFeatureColumns(columns[1..], values[1..]);
    }
  }

  /** Columns not starting with `f` contribute nothing. */
  lemma {:induction false} NoFeatureColumns(columns: seq<string>, values: seq<real>)
    requires forall k :: 0 <= k < |columns| ==> !StartsWith(columns[k], "f")
    ensures FValues(columns, values) == []
    decreases |columns|
  {
    if columns != [] && values != [] {
      NoFeatureColumns(columns[1..], values[1..]);
    }
  }

  function AdmissionWrites(admissions: seq<Admission>, table: VectorTable): (w: seq<(Admission, seq<real>)>)
    ensures |w| == |admissions|
    ensures forall i :: 0 <= i < |admissions| ==> w[i] == (admissions[i], AdmissionVector(table, admissions[i].hadmId))
  {
    if admissions == [] then []
    else
      var last := admissions[|admissions| - 1];
      AdmissionWrites(admissions[..|admissions| - 1], table) + [(last, AdmissionVector(table, last.hadmId))]
  }

  /** `load_admissions`: one write per admission row, in order, with its vector. */
  method LoadAdmissions(admissions: seq<Admission>, table: VectorTable)
    returns (writes: seq<(Admission, seq<real>)>)
    ensures writes == AdmissionWrites(admissions, table)
  {
    writes := [];
    for i := 0 to |admissions|
      invariant writes == AdmissionWrites(admissions[..i], table)
    {
      assert admissions[..i + 1][..i] == admissions[..i];
      var vector: seq<real> := [];
      var j := 0;
      while j < |table.rows| && table.rows[j].admissionId != admissions[i].hadmId
        invariant 0 <= j <= |table.rows|
        invariant forall k :: 0 <= k < j ==> table.rows[k].admissionId != admissions[i].hadmId
      {
        j := j + 1;
      }
      if j < |table.rows| {
        vector := FValues(table.columns, table.rows[j].values);
      }
      writes := writes + [(admissions[i], vector)];
    }
    assert admissions[..|admissions|] == admissions;
  }

  /** An admission whose id the vector table lacks is written with an empty
      vector; otherwise with the first matching row's feature values. */
  lemma VectorLookup(table: VectorTable, hadmId: int, j: nat)
    ensures (forall k :: 0 <= k < |table.rows| ==> table.rows[k].admissionId != hadmId) ==>
      AdmissionVector(table, hadmId) == []
    ensures (j < |table.rows| && table.rows[j].admissionId == hadmId &&
      (forall k :: 0 <= k < j ==> table.rows[k].admissionId != hadmId)) ==>
      AdmissionVector(table, hadmId) == FValues(table.columns, table.rows[j].values)
  {
  }

  // ---------------------------------------------------------------------------
  // `load_lab_events`, `load_prescriptions`, `load_note_events`

  /** The node id written on an event: its kind's prefix and its `row_id`. */
  function NodeId(prefix: string, rowId: int): (id: string)
    ensures StartsWith(id, prefix) && id[|prefix|..] == IntToString(rowId)
  {
    prefix + IntToString(rowId)
  }

  /** One `execute_write` of an event: the node id and the admission it hangs
      from. */
  datatype EventWrite = EventWrite(id: string, hadmId: int)

  /** The `row_id` and `hadm_id` of each event row, in order. */
  type EventKey = (int, int)

  function EventWrites(prefix: string, keys: seq<EventKey>): (w: seq<EventWrite>)
    ensures |w| == |keys|
    ensures forall i :: 0 <= i < |keys| ==> w[i] == EventWrite(NodeId(prefix, keys[i].0), keys[i].1)
  {
    if keys == [] then []
    else
      var last := keys[|keys| - 1];
      EventWrites(prefix, keys[..|keys| - 1]) + [EventWrite(NodeId(prefix, last.0), last.1)]
  }

  /** The loop the three event loaders share: one write per row and the row count. */
  method LoadEvents(prefix: string, keys: seq<EventKey>) returns (writes: seq<EventWrite>, cnt: nat)
    ensures writes == EventWrites(prefix, keys) && cnt == |keys|
  {
    writes, cnt := [], 0;
    for i := 0 to |keys|
      invariant writes == EventWrites(prefix, keys[..i]) && cnt == i
    {
      assert keys[..i + 1][..i] == keys[..i];
      writes := writes + [EventWrite(NodeId(prefix, keys[i].0), keys[i].1)];
      cnt := cnt + 1;
    }
    assert keys[..|keys|] == keys;
  }

  /** The row id and admission id a node is created from. */
  function LabKey(l: LabEvent): EventKey { (l.rowId, l.hadmId) }

  function PrescriptionKey(p: Prescription): EventKey { (p.rowId, p.hadmId) }

  function NoteKey(n: Note): EventKey { (n.rowId, n.hadmId) }

  /** `load_lab_events`. */
  method LoadLabEvents(labs: seq<LabEvent>) returns (writes: seq<EventWrite>, cnt: nat)
    ensures writes == EventWrites("LAB_", Column(labs, LabKey)) && cnt == |labs|
  {
    writes, cnt := LoadEvents("LAB_", Column(labs, LabKey));
  }

  /** `load_prescriptions`. */
  method LoadPrescriptions(rows: seq<Prescription>) returns (writes: seq<EventWrite>, cnt: nat)
    ensures writes == EventWrites("PRESCRIPTION_", Column(rows, PrescriptionKey)) && cnt == |rows|
  {
    writes, cnt := LoadEvents("PRESCRIPTION_", Column(rows, PrescriptionKey));
  }

  /** `load_note_events` as written: `_create_note_event` is defined inside the
      body of `_create_prescription`, so the class has no such attribute and the
      first note raises before anything is written. */
  function LoadNoteEventsAsWritten(notes: seq<Note>): (r: Result<seq<EventWrite>>)
    ensures r.Ok? <==> notes == []
    ensures r.Ok? ==> r.value == []
  {
    if notes == [] then Ok([])
    else Err("AttributeError: 'Neo4jLoader' object has no attribute '_create_note_event'")
  }

  /** Any note at all makes the loader fail, so no note node is ever created. */
  lemma NotesNeverLoaded(notes: seq<Note>)
    requires notes != []
    ensures LoadNoteEventsAsWritten(notes).Err?
    ensures forall w :: LoadNoteEventsAsWritten(notes) != Ok(w)
  {
  }

  /** `load_note_events` with `_create_note_event` at class level, as it is
      evidently meant: one `NOTE_` write per note. */
  method LoadNoteEvents(notes: seq<Note>) returns (writes: seq<EventWrite>, cnt: nat)
    ensures writes == EventWrites("NOTE_", Column(notes, NoteKey)) && cnt == |notes|
  {
    writes, cnt := LoadEvents("NOTE_", Column(notes, NoteKey));
  }

  /** Node ids name their row: two writes share an id only for the same kind and
      the same `row_id`, so lab, prescription and note ids never clash. */
  lemma NodeIdsDistinct(p: string, q: string, a: int, b: int)
    requires p in {"LAB_", "PRESCRIPTION_", "NOTE_"} && q in {"LAB_", "PRESCRIPTION_", "NOTE_"}
    ensures NodeId(p, a) == NodeId(q, b) <==> p == q && a == b
  {
    if NodeId(p, a) == NodeId(q, b) {
      assert NodeId(p, a)[0] == p[0] && NodeId(q, b)[0] == q[0];
      assert p == q;
      assert IntToString(a) == NodeId(p, a)[|p|..];
      IntToStringInjective(a, b);
    }
  }

  /** With distinct row ids, every event loader writes distinct node ids. */
  lemma {:induction false} EventIdsDistinct(prefix: string, keys: seq<EventKey>)
    requires forall i, j :: 0 <= i < j < |keys| ==> keys[i].0 != keys[j].0
    ensures forall i, j :: 0 <= i < j < |keys| ==>
      EventWrites(prefix, keys)[i].id != EventWrites(prefix, keys)[j].id
  {
    var w := EventWrites(prefix, keys);
    forall i, j | 0 <= i < j < |keys| ensures w[i].id != w[j].id {
      IntToStringInjective(keys[i].0, keys[j].0);
      assert IntToString(keys[i].0) == w[i].id[|prefix|..];
      assert IntToString(keys[j].0) == w[j].id[|prefix|..];
    }
  }
}
