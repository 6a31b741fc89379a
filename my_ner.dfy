/** `uttree/2_my_ner.py`: a script that cuts every note into sections (one row per
    section, the body cleaned), fills missing admission ids, and then sorts every
    recognised entity into the linked concepts or the exceptions. */
module MyNer {
  import opened Wrappers
  import opened Seqs
  import opened NlpOutputs
  import CedExtractUnstruct

  /** The note category every row is given, whatever the note's own. */
  const Category := "Discharge summary"

  datatype NoteRow = NoteRow(hadmId: Option<int>, subjectId: int, chartDate: int, text: string)

  /** A row of `df_main` before `fillna(-1)`. */
  datatype SectionRow = SectionRow(
    hadmId: Option<int>, subjectId: int, chartDate: int, category: string,
    body: string, sectionCategory: string)

  function RowAt(note: NoteRow, doc: Sectioned, j: nat): SectionRow
    requires j < |doc.spans| && j < |doc.categories|
  {
    SectionRow(note.hadmId, note.subjectId, note.chartDate, Category,
               CedExtractUnstruct.Preprocess(doc.spans[j]), doc.categories[j])
  }

  /** The rows of the first `n` sections. */
  function RowsUpTo(note: NoteRow, doc: Sectioned, n: nat): (r: seq<SectionRow>)
    requires n <= |doc.spans| && n <= |doc.categories|
    ensures |r| == n && forall j :: 0 <= j < n ==> r[j] == RowAt(note, doc, j)
  {
    seq(n, j requires 0 <= j < n => RowAt(note, doc, j))
  }

  lemma RowsUpToStep(note: NoteRow, doc: Sectioned, n: nat)
    requires n < |doc.spans| && n < |doc.categories|
    ensures RowsUpTo(note, doc, n + 1) == RowsUpTo(note, doc, n) + [RowAt(note, doc, n)]
  {
    var longer, shorter := RowsUpTo(note, doc, n + 1), RowsUpTo(note, doc, n);
    assert longer[..n] == shorter;
    assert longer == longer[..n] + [longer[n]];
  }

  /** The rows of one note: one per section. The script indexes the span and the
      category lists by section number, so a category list shorter than the span
      list ends it with an `IndexError`. */
  function NoteRows(note: NoteRow, doc: Sectioned): (r: Result<seq<SectionRow>>)
    ensures r.Ok? <==> |doc.categories| >= |doc.spans|
    ensures r.Ok? ==> (|r.value| == |doc.spans| &&
      forall j :: 0 <= j < |doc.spans| ==> r.value[j] == RowAt(note, doc, j))
  {
    if |doc.categories| < |doc.spans| then Err("IndexError")
    else Ok(RowsUpTo(note, doc, |doc.spans|))
  }

  /** The inner loop over `range(len(doc._.sections))`. */
  method SectionNote(note: NoteRow, doc: Sectioned) returns (r: Result<seq<SectionRow>>)
    ensures r == NoteRows(note, doc)
  {
    var rows: seq<SectionRow> := [];
    var j := 0;
    while j < |doc.spans|
      invariant 0 <= j <= |doc.spans| && j <= |doc.categories|
      invariant rows == RowsUpTo(note, doc, j)
    {
      if j >= |doc.categories| {
        return Err("IndexError");
      }
      var body := CedExtractUnstruct.Preprocess(doc.spans[j]);
      RowsUpToStep(note, doc, j);
      rows := rows + [SectionRow(note.hadmId, note.subjectId, note.chartDate, Category,
                                 body, doc.categories[j])];
      j := j + 1;
    }
    r := Ok(rows);
  }

  /** All notes' rows, note after note, or the first note's error. */
  function AllRows(notes: seq<NoteRow>, nlp: Sectionizer): Result<seq<SectionRow>>
  {
    if notes == [] then Ok([])
    else
      var last := notes[|notes| - 1];
      match AllRows(notes[..|notes| - 1], nlp)
      case Err(m) => Err(m)
      case Ok(before) =>
        match NoteRows(last, nlp(last.text))
        case Err(m) => Err(m)
        case Ok(rows) => Ok(before + rows)
  }

  /** The script's `df_main`: with no notes the loop never binds it, and
      `df_main.tail()` raises `NameError`. */
  function SectionedNotes(notes: seq<NoteRow>, nlp: Sectionizer): (r: Result<seq<SectionRow>>)
    ensures notes == [] ==> r == Err("NameError")
  {
    if notes == [] then Err("NameError") else AllRows(notes, nlp)
  }

  /** The rows of all notes exist exactly when every note is sectioned without
      error. */
  lemma {:induction false} AllRowsOk(notes: seq<NoteRow>, nlp: Sectionizer)
    ensures AllRows(notes, nlp).Ok? <==>
      forall i :: 0 <= i < |notes| ==> NoteRows(notes[i], nlp(notes[i].text)).Ok?
  {
    if notes != [] {
      var init := notes[..|notes| - 1];
      AllRowsOk(init, nlp);
      assert forall i :: 0 <= i < |init| ==> init[i] == notes[i];
    }
  }

  /** The outer loop: `df_main` grows by each note's rows. */
  method SectionNotes(notes: seq<NoteRow>, nlp: Sectionizer) returns (r: Result<seq<SectionRow>>)
    ensures r == SectionedNotes(notes, nlp)
  {
    if |notes| == 0 {
      return Err("NameError");
    }
    var all: seq<SectionRow> := [];
    var i := 0;
    while i < |notes|
      invariant 0 <= i <= |notes|
      invariant AllRows(notes[..i], nlp) == Ok(all)
    {
      assert notes[..i + 1][..i] == notes[..i];
      var rows := SectionNote(notes[i], nlp(notes[i].text));
      if rows.Err? {
        AllRowsErr(notes, i + 1, nlp);
        return rows;
      }
      all := all + rows.value;
      i := i + 1;
    }
    assert notes[..i] == notes;
    r := Ok(all);
  }

  /** Once a note fails, so does every longer prefix of the notes. */
  lemma {:induction false} AllRowsErr(notes: seq<NoteRow>, n: nat, nlp: Sectionizer)
    requires 0 < n <= |notes| && AllRows(notes[..n], nlp).Err?
    ensures AllRows(notes, nlp) == AllRows(notes[..n], nlp)
    decreases |notes| - n
  {
    if n < |notes| {
      assert notes[..n + 1][..n] == notes[..n];
      AllRowsErr(notes, n + 1, nlp);
    } else {
      assert notes[..n] == notes;
    }
  }

  /** A row after `fillna(-1)`. */
  datatype Row = Row(
    hadmId: int, subjectId: int, chartDate: int, category: string,
    body: string, sectionCategory: string)

  function FillHadm(r: SectionRow): (f: Row)
    ensures f.hadmId == (if r.hadmId.Some? then r.hadmId.value else -1)
    ensures f.subjectId == r.subjectId && f.chartDate == r.chartDate && f.body == r.body
  {
    Row(match r.hadmId case Some(h) => h case None => -1,
        r.subjectId, r.chartDate, r.category, r.body, r.sectionCategory)
  }

  datatype CuiRow = CuiRow(
    hadmId: int, subjectId: int, chartDate: int, categoryInner: string,
    negex: bool, entityText: string, firstCui: string, canonicalName: string, entityLabel: string)

  datatype ExceptionRow = ExceptionRow(
    hadmId: int, subjectId: int, chartDate: int, categoryInner: string, entityText: string)

  /** The linked concepts and the exceptions found in the rows, row after row. */
  function Partition(rows: seq<Row>, ner: Recognizer, canon: CanonicalNames): (seq<CuiRow>, seq<ExceptionRow>)
  {
    if rows == [] then ([], [])
    else
      var (cuis, exceptions) := Partition(rows[..|rows| - 1], ner, canon);
      var (more, other) := RowPartition(rows[|rows| - 1], ner(rows[|rows| - 1].body), canon);
      (cuis + more, exceptions + other)
  }

  function RowPartition(row: Row, ents: seq<Entity>, canon: CanonicalNames): (seq<CuiRow>, seq<ExceptionRow>)
  {
    if ents == [] then ([], [])
    else
      var (cuis, exceptions) := RowPartition(row, ents[..|ents| - 1], canon);
      var e := ents[|ents| - 1];
      if HasCandidates(e) then
        (cuis + [CuiRow(row.hadmId, row.subjectId, row.chartDate, row.sectionCategory, e.negex,
                        e.text, e.kbEnts[0], canon(e.kbEnts[0]), e.entityLabel)], exceptions)
      else (cuis, exceptions + [ExceptionRow(row.hadmId, row.subjectId, row.chartDate, row.sectionCategory, e.text)])
  }

  /** Each entity of a row lands in exactly one of the two lists: the linked ones,
      read from their first candidate, in the first; the others in the second. */
  lemma {:induction false} RowPartitionSplits(row: Row, ents: seq<Entity>, canon: CanonicalNames)
    ensures var (cuis, exceptions) := RowPartition(row, ents, canon);
      |cuis| == |Filter(ents, HasCandidates)| &&
      |exceptions| == |Filter(ents, e => !HasCandidates(e))| &&
      |cuis| + |exceptions| == |ents| &&
      (forall k :: 0 <= k < |cuis| ==>
         HasCandidates(Filter(ents, HasCandidates)[k]) && cuis[k].firstCui == Filter(ents, HasCandidates)[k].kbEnts[0]) &&
      (forall k :: 0 <= k < |exceptions| ==> exceptions[k].entityText == Filter(ents, e => !HasCandidates(e))[k].text)
  {
    if ents != [] {
      var init := ents[..|ents| - 1];
      RowPartitionSplits(row, init, canon);
      FilterMembers(ents, HasCandidates);
    }
  }

  /** The loop over one row's entities. */
  method PartitionRow(row: Row, ents: seq<Entity>, canon: CanonicalNames)
    returns (cuis: seq<CuiRow>, exceptions: seq<ExceptionRow>)
    ensures (cuis, exceptions) == RowPartition(row, ents, canon)
  {
    cuis, exceptions := [], [];
    var k := 0;
    while k < |ents|
      invariant 0 <= k <= |ents|
      invariant (cuis, exceptions) == RowPartition(row, ents[..k], canon)
    {
      assert ents[..k + 1][..k] == ents[..k];
      var e := ents[k];
      if |e.kbEnts| > 0 {
        cuis := cuis + [CuiRow(row.hadmId, row.subjectId, row.chartDate, row.sectionCategory, e.negex,
                               e.text, e.kbEnts[0], canon(e.kbEnts[0]), e.entityLabel)];
      } else {
        exceptions := exceptions + [ExceptionRow(row.hadmId, row.subjectId, row.chartDate, row.sectionCategory, e.text)];
      }
      k := k + 1;
    }
    assert ents[..k] == ents;
  }

  /** The loop over `df_main`'s rows that fills `list_Cui` and `list_Exception`. */
  method FindCuis(rows: seq<Row>, ner: Recognizer, canon: CanonicalNames)
    returns (cuis: seq<CuiRow>, exceptions: seq<ExceptionRow>)
    ensures (cuis, exceptions) == Partition(rows, ner, canon)
  {
    cuis, exceptions := [], [];
    var i := 0;
    while i < |rows|
      invariant 0 <= i <= |rows|
      invariant (cuis, exceptions) == Partition(rows[..i], ner, canon)
    {
      assert rows[..i + 1][..i] == rows[..i];
      var more, other := PartitionRow(rows[i], ner(rows[i].body), canon);
      cuis, exceptions := cuis + more, exceptions + other;
      i := i + 1;
    }
    assert rows[..i] == rows;
  }
}
