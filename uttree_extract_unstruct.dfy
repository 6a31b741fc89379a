/** `uttree/extract_unstruct.py`: notes are cut into sections, each section body is
    cleaned, and every entity that the linker maps to at least one concept becomes a
    concept record. */
module UttreeExtractUnstruct {
  import opened Text
  import opened Seqs
  import opened RegexPasses
  import opened NlpOutputs
  import CedExtractUnstruct

  /** The `replacements` dictionary, in its insertion order. */
  const Replacements: seq<Rule> := [
    Brackets, Numbering,
    Literal("dr.", "doctor", false), Literal("m.d.", "md", false),
    Literal("admission date:", "", false), Literal("Admission Date:", "", false),
    Literal("discharge date:", "", false), Literal("Discharge Date:", "", false),
    Literal("Date of Birth:", "", false), Literal("date of birth:", "", false),
    Doubles]

  /** Looping over the dictionary applies the same patterns, in the same order, as
      `ced/extract_unstruct.py`'s straight-line `preprocess`. */
  lemma ReplacementsAreCedOrder(text: string)
    ensures StripWs(ApplyRules(Replacements, text)) == CedExtractUnstruct.Preprocess(text)
  {
    var t3 := Replace(RemoveNumbering(RemoveBrackets(text)), "dr.", "doctor", false);
    var t6 := Replace(Replace(Replace(t3, "m.d.", "md", false), "admission date:", "", false), "Admission Date:", "", false);
    var t9 := Replace(Replace(Replace(t6, "discharge date:", "", false), "Discharge Date:", "", false), "Date of Birth:", "", false);
    FirstRules(text);
    MiddleRules(t3);
    LaterRules(t6);
    LastRules(t9);
  }

  lemma FirstRules(text: string)
    ensures ApplyRules(Replacements, text) ==
      ApplyRules(Replacements[3..], Replace(RemoveNumbering(RemoveBrackets(text)), "dr.", "doctor", false))
  {
    var rs := Replacements;
    var t1 := RemoveBrackets(text);
    var t2 := RemoveNumbering(t1);
    assert ApplyRules(rs, text) == ApplyRules(rs[1..], t1);
    assert ApplyRules(rs[1..], t1) == ApplyRules(rs[2..], t2);
    assert ApplyRules(rs[2..], t2) == ApplyRules(rs[3..], Replace(t2, "dr.", "doctor", false));
  }

  lemma MiddleRules(t3: string)
    ensures ApplyRules(Replacements[3..], t3) ==
      ApplyRules(Replacements[6..], Replace(Replace(Replace(t3, "m.d.", "md", false), "admission date:", "", false), "Admission Date:", "", false))
  {
    var rs := Replacements;
    var t4 := Replace(t3, "m.d.", "md", false);
    var t5 := Replace(t4, "admission date:", "", false);
    assert ApplyRules(rs[3..], t3) == ApplyRules(rs[4..], t4);
    assert ApplyRules(rs[4..], t4) == ApplyRules(rs[5..], t5);
    assert ApplyRules(rs[5..], t5) == ApplyRules(rs[6..], Replace(t5, "Admission Date:", "", false));
  }

  lemma LaterRules(t6: string)
    ensures ApplyRules(Replacements[6..], t6) ==
      ApplyRules(Replacements[9..], Replace(Replace(Replace(t6, "discharge date:", "", false), "Discharge Date:", "", false), "Date of Birth:", "", false))
  {
    var rs := Replacements;
    var t7 := Replace(t6, "discharge date:", "", false);
    var t8 := Replace(t7, "Discharge Date:", "", false);
    assert ApplyRules(rs[6..], t6) == ApplyRules(rs[7..], t7);
    assert ApplyRules(rs[7..], t7) == ApplyRules(rs[8..], t8);
    assert ApplyRules(rs[8..], t8) == ApplyRules(rs[9..], Replace(t8, "Date of Birth:", "", false));
  }

  lemma LastRules(t9: string)
    ensures ApplyRules(Replacements[9..], t9) == RemoveDoubles(Replace(t9, "date of birth:", "", false))
  {
    var rs := Replacements;
    var t10 := Replace(t9, "date of birth:", "", false);
    assert ApplyRules(rs[9..], t9) == ApplyRules(rs[10..], t10);
    assert ApplyRules(rs[10..], t10) == ApplyRules(rs[11..], RemoveDoubles(t10));
    assert rs[11..] == [];
  }

  /** `preprocess_text`: rebinding `text` once per dictionary entry, then stripping. */
  method PreprocessText(text: string) returns (r: string)
    ensures r == CedExtractUnstruct.Preprocess(text)
  {
    var t := RunRules(Replacements, text);
    r := StripWs(t);
    ReplacementsAreCedOrder(text);
  }

  datatype Note = Note(hadmId: int, subjectId: int, chartDate: int, category: string, text: string)

  datatype Section = Section(
    hadmId: int, subjectId: int, chartDate: int, noteCategory: string,
    body: string, category: string)

  function Min(a: nat, b: nat): nat { if a <= b then a else b }

  /** The section record for the `i`-th span of a note. */
  function SectionAt(note: Note, doc: Sectioned, i: nat): Section
    requires i < |doc.spans| && i < |doc.categories|
  {
    Section(note.hadmId, note.subjectId, note.chartDate, note.category,
            CedExtractUnstruct.Preprocess(doc.spans[i]), doc.categories[i])
  }

  /** The sections of one note: `zip` pairs spans with categories, so there are as
      many as the shorter list is long. */
  function NoteSections(note: Note, doc: Sectioned): (r: seq<Section>)
    ensures |r| == Min(|doc.spans|, |doc.categories|)
    ensures forall i :: 0 <= i < |r| ==> r[i] == SectionAt(note, doc, i)
  {
    var n := Min(|doc.spans|, |doc.categories|);
    seq(n, i requires 0 <= i < n => SectionAt(note, doc, i))
  }

  /** `process_note`: one cleaned section per (span, category) pair; sections whose
      body cleans to nothing are kept. */
  method ProcessNote(note: Note, doc: Sectioned) returns (sections: seq<Section>)
    ensures sections == NoteSections(note, doc)
  {
    var n := Min(|doc.spans|, |doc.categories|);
    sections := [];
    var i := 0;
    while i < n
      invariant 0 <= i <= n
      invariant sections == NoteSections(note, doc)[..i]
    {
      var processed := PreprocessText(doc.spans[i]);
      var next := Section(note.hadmId, note.subjectId, note.chartDate, note.category,
                          processed, doc.categories[i]);
      SectionsStep(note, doc, i, sections, next);
      sections := sections + [next];
      i := i + 1;
    }
  }

  lemma SectionsStep(note: Note, doc: Sectioned, i: nat, sections: seq<Section>, next: Section)
    requires i < Min(|doc.spans|, |doc.categories|)
    requires sections == NoteSections(note, doc)[..i] && next == SectionAt(note, doc, i)
    ensures sections + [next] == NoteSections(note, doc)[..i + 1]
  {
    PrefixStep(NoteSections(note, doc), i);
  }

  /** Every section carries its note's admission, patient, chart date and category. */
  lemma SectionsCopyNote(note: Note, doc: Sectioned, i: nat)
    requires i < |doc.spans| && i < |doc.categories|
    ensures var s := SectionAt(note, doc, i);
      s.hadmId == note.hadmId && s.subjectId == note.subjectId &&
      s.chartDate == note.chartDate && s.noteCategory == note.category &&
      s.category == doc.categories[i]
  {
  }

  datatype Concept = Concept(
    hadmId: int, subjectId: int, chartDate: int, categoryInner: string,
    negex: bool, entityText: string, firstCui: string, canonicalName: string, entityLabel: string)

  /** The record of an entity with candidates, from its first candidate. */
  function ConceptOf(section: Section, e: Entity, canon: CanonicalNames): Concept
    requires HasCandidates(e)
  {
    Concept(section.hadmId, section.subjectId, section.chartDate, section.category,
            e.negex, e.text, e.kbEnts[0], canon(e.kbEnts[0]), e.entityLabel)
  }

  /** The records of a section's entities: one per entity with candidates, in
      order, whatever the entity's label. */
  function SectionConcepts(section: Section, ents: seq<Entity>, canon: CanonicalNames): (r: seq<Concept>)
    ensures var kept := Filter(ents, HasCandidates);
      |r| == |kept| &&
      forall i :: 0 <= i < |kept| ==> HasCandidates(kept[i]) && r[i] == ConceptOf(section, kept[i], canon)
  {
    if ents == [] then []
    else
      var last := ents[|ents| - 1];
      SectionConcepts(section, ents[..|ents| - 1], canon) +
      (if HasCandidates(last) then [ConceptOf(section, last, canon)] else [])
  }

  /** `extract_entities`. */
  method ExtractEntities(section: Section, ents: seq<Entity>, canon: CanonicalNames)
    returns (concepts: seq<Concept>)
    ensures concepts == SectionConcepts(section, ents, canon)
  {
    concepts := [];
    var i := 0;
    while i < |ents|
      invariant 0 <= i <= |ents|
      invariant concepts == SectionConcepts(section, ents[..i], canon)
    {
      assert ents[..i + 1][..i] == ents[..i];
      if |ents[i].kbEnts| > 0 {
        var e := ents[i];
        concepts := concepts + [Concept(section.hadmId, section.subjectId, section.chartDate,
                                        section.category, e.negex, e.text, e.kbEnts[0],
                                        canon(e.kbEnts[0]), e.entityLabel)];
      }
      i := i + 1;
    }
    assert ents[..i] == ents;
  }

  /** The sections of all notes, note after note. */
  function BatchSections(notes: seq<Note>, nlp: Sectionizer): seq<Section>
  {
    if notes == [] then []
    else
      var last := notes[|notes| - 1];
      BatchSections(notes[..|notes| - 1], nlp) + NoteSections(last, nlp(last.text))
  }

  /** The concepts of all sections, section after section. */
  function BatchConcepts(sections: seq<Section>, ner: Recognizer, canon: CanonicalNames): seq<Concept>
  {
    if sections == [] then []
    else
      var last := sections[|sections| - 1];
      BatchConcepts(sections[..|sections| - 1], ner, canon) + SectionConcepts(last, ner(last.body), canon)
  }

  lemma BatchSectionsStep(notes: seq<Note>, i: nat, nlp: Sectionizer)
    requires i < |notes|
    ensures BatchSections(notes[..i + 1], nlp) == BatchSections(notes[..i], nlp) + NoteSections(notes[i], nlp(notes[i].text))
  {
    assert notes[..i + 1][..i] == notes[..i];
  }

  lemma BatchConceptsStep(sections: seq<Section>, j: nat, ner: Recognizer, canon: CanonicalNames)
    requires j < |sections|
    ensures BatchConcepts(sections[..j + 1], ner, canon) ==
      BatchConcepts(sections[..j], ner, canon) + SectionConcepts(sections[j], ner(sections[j].body), canon)
  {
    assert sections[..j + 1][..j] == sections[..j];
  }

  /** `process_batch`: all sections of the batch first, then the entities of every
      section, each in order. */
  method ProcessBatch(notes: seq<Note>, nlp: Sectionizer, ner: Recognizer, canon: CanonicalNames)
    returns (concepts: seq<Concept>)
    ensures concepts == BatchConcepts(BatchSections(notes, nlp), ner, canon)
  {
    var sections := [];
    var i := 0;
    while i < |notes|
      invariant 0 <= i <= |notes|
      invariant sections == BatchSections(notes[..i], nlp)
    {
      var more := ProcessNote(notes[i], nlp(notes[i].text));
      BatchSectionsStep(notes, i, nlp);
      sections := sections + more;
      i := i + 1;
    }
    assert notes[..i] == notes;
    concepts := [];
    var j := 0;
    while j < |sections|
      invariant 0 <= j <= |sections|
      invariant concepts == BatchConcepts(sections[..j], ner, canon)
    {
      var found := ExtractEntities(sections[j], ner(sections[j].body), canon);
      BatchConceptsStep(sections, j, ner, canon);
      concepts := concepts + found;
      j := j + 1;
    }
    assert sections[..j] == sections;
  }
}
