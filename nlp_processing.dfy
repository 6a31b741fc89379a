/** The note side of `uttree_v2/2_nlp_processing.py`: cleaning, sectioning and the
    disease-concept filter. The section and entity pipelines and the knowledge base
    are parameters. */
module NlpProcessing {
  import opened Wrappers
  import opened Text
  import opened Seqs
  import opened RegexPasses
  import opened NlpOutputs
  import CedExtractUnstruct

  /** The substitutions of `preprocess_text` in order: every word pattern matches
      with `re.IGNORECASE`, and only one casing of each header is listed. */
  const Rules: seq<Rule> := [
    Brackets, Numbering,
    Literal("dr.", "doctor", true), Literal("m.d.", "md", true),
    Literal("admission date:", "", true), Literal("discharge date:", "", true),
    Literal("date of birth:", "", true),
    Doubles]

  /** `preprocess_text`: the substitutions, then `strip()`. */
  function PreprocessText(text: string): (r: string)
    ensures r == [] || (r[0] !in Whitespace && r[|r| - 1] !in Whitespace)
  {
    var substituted := ApplyRules(Rules, text);
    StripWsEnds(substituted);
    StripWs(substituted)
  }

  /** A lower-case rule applied with `re.IGNORECASE` to lower-case text does what the
      case-sensitive rule does, and the text stays lower-case. */
  lemma LowerRule(rs: seq<Rule>, s: string, pat: Pattern, rep: string)
    requires rs != [] && rs[0] == Literal(pat, rep, true)
    requires NoUpper(s) && NoUpper(pat) && NoUpper(rep)
    ensures ApplyRules(rs, s) == ApplyRules(rs[1..], Replace(s, pat, rep, false))
    ensures NoUpper(Replace(s, pat, rep, false))
  {
    ReplaceIgnoreCaseOnLower(s, pat, rep);
    ReplaceNoUpper(s, pat, rep, false);
  }

  /** A pattern starting with a capital changes nothing in lower-case text. */
  lemma UpperStep(s: string, pat: Pattern, rep: string)
    requires NoUpper(s) && 'A' <= pat[0] <= 'Z'
    ensures Replace(s, pat, rep, false) == s
  {
    UpperPatternAbsent(s, pat, 0);
    ReplaceAbsent(s, pat, rep, false);
  }

  lemma RulesHead(text: string)
    requires NoUpper(text)
    ensures var t2 := RemoveNumbering(RemoveBrackets(text));
      ApplyRules(Rules, text) == ApplyRules(Rules[2..], t2) && NoUpper(t2)
  {
    var t1 := RemoveBrackets(text);
    RemoveBracketsNoUpper(text);
    RemoveNumberingNoUpper(t1);
    assert ApplyRules(Rules, text) == ApplyRules(Rules[1..], t1);
    assert ApplyRules(Rules[1..], t1) == ApplyRules(Rules[2..], RemoveNumbering(t1));
  }

  lemma RulesDoctor(t2: string)
    requires NoUpper(t2)
    ensures var t4 := Replace(Replace(t2, "dr.", "doctor", false), "m.d.", "md", false);
      ApplyRules(Rules[2..], t2) == ApplyRules(Rules[4..], t4) && NoUpper(t4)
  {
    LowerRule(Rules[2..], t2, "dr.", "doctor");
    assert Rules[2..][1..] == Rules[3..];
    LowerRule(Rules[3..], Replace(t2, "dr.", "doctor", false), "m.d.", "md");
    assert Rules[3..][1..] == Rules[4..];
  }

  lemma RulesAdmission(t4: string)
    requires NoUpper(t4)
    ensures var t5 := Replace(t4, "admission date:", "", false);
      ApplyRules(Rules[4..], t4) == ApplyRules(Rules[5..], t5) && NoUpper(t5)
  {
    LowerRule(Rules[4..], t4, "admission date:", "");
    assert Rules[4..][1..] == Rules[5..];
  }

  lemma RulesDischarge(t5: string)
    requires NoUpper(t5)
    ensures var t6 := Replace(t5, "discharge date:", "", false);
      ApplyRules(Rules[5..], t5) == ApplyRules(Rules[6..], t6) && NoUpper(t6)
  {
    LowerRule(Rules[5..], t5, "discharge date:", "");
    assert Rules[5..][1..] == Rules[6..];
  }

  lemma RulesTail(t6: string)
    requires NoUpper(t6)
    ensures ApplyRules(Rules[6..], t6) == RemoveDoubles(Replace(t6, "date of birth:", "", false))
  {
    LowerRule(Rules[6..], t6, "date of birth:", "");
    assert Rules[6..][1..] == Rules[7..];
    var t7 := Replace(t6, "date of birth:", "", false);
    assert ApplyRules(Rules[7..], t7) == ApplyRules(Rules[8..], RemoveDoubles(t7));
    assert Rules[8..] == [];
  }

  /** The capitalised headers of the case-sensitive cleaner find nothing in lower-case
      text. */
  lemma CapitalHeadersAbsent(t4: string)
    requires NoUpper(t4)
    ensures var t5 := Replace(t4, "admission date:", "", false);
      var t7 := Replace(Replace(t5, "Admission Date:", "", false), "discharge date:", "", false);
      Replace(Replace(Replace(t7, "Discharge Date:", "", false), "Date of Birth:", "", false), "date of birth:", "", false)
      == Replace(Replace(Replace(t4, "admission date:", "", false), "discharge date:", "", false), "date of birth:", "", false)
  {
    var t5 := Replace(t4, "admission date:", "", false);
    AdmissionHeaderAbsent(t4);
    DischargeHeadersAbsent(t5);
  }

  lemma AdmissionHeaderAbsent(t4: string)
    requires NoUpper(t4)
    ensures NoUpper(Replace(t4, "admission date:", "", false))
    ensures Replace(Replace(t4, "admission date:", "", false), "Admission Date:", "", false)
      == Replace(t4, "admission date:", "", false)
  {
    ReplaceNoUpper(t4, "admission date:", "", false);
    UpperStep(Replace(t4, "admission date:", "", false), "Admission Date:", "");
  }

  lemma DischargeHeadersAbsent(t5: string)
    requires NoUpper(t5)
    ensures var t7 := Replace(t5, "discharge date:", "", false);
      Replace(Replace(t7, "Discharge Date:", "", false), "Date of Birth:", "", false) == t7
  {
    var t7 := Replace(t5, "discharge date:", "", false);
    ReplaceNoUpper(t5, "discharge date:", "", false);
    UpperStep(t7, "Discharge Date:", "");
    UpperStep(t7, "Date of Birth:", "");
  }

  /** On text without capital letters this cleaner and the case-sensitive
      `ced/extract_unstruct.py` one agree; they differ only in what they do with
      capitals. */
  lemma PreprocessAgreesOnLowercase(text: string)
    requires NoUpper(text)
    ensures PreprocessText(text) == CedExtractUnstruct.Preprocess(text)
  {
    RulesHead(text);
    var t2 := RemoveNumbering(RemoveBrackets(text));
    RulesDoctor(t2);
    var t4 := Replace(Replace(t2, "dr.", "doctor", false), "m.d.", "md", false);
    RulesAdmission(t4);
    var t5 := Replace(t4, "admission date:", "", false);
    RulesDischarge(t5);
    RulesTail(Replace(t5, "discharge date:", "", false));
    CapitalHeadersAbsent(t4);
  }

  /** With `re.IGNORECASE`, capitalised `Dr.` is rewritten too. */
  lemma CapitalDoctorRewritten()
    ensures Replace("Dr.", "dr.", "doctor", true) == "doctor"
  {
    assert MatchesAt("Dr.", "dr.", 0, true);
    assert "Dr."[3..] == [];
  }

  // ---------------------------------------------------------------------------
  // `_section_text`

  datatype Section = Section(
    hadmId: int, subjectId: int, chartDate: int, sectionText: string, sectionCategory: string)

  /** The category of the `i`-th span, `'other'` past the end of the category list. */
  function CategoryAt(doc: Sectioned, i: nat): (c: string)
    ensures i < |doc.categories| ==> c == doc.categories[i]
    ensures i >= |doc.categories| ==> c == "other"
  {
    if i < |doc.categories| then doc.categories[i] else "other"
  }

  function SectionFor(doc: Sectioned, i: nat, hadmId: int, subjectId: int, chartDate: int): Section
    requires i < |doc.spans|
  {
    Section(hadmId, subjectId, chartDate, PreprocessText(doc.spans[i]), CategoryAt(doc, i))
  }

  /** One section per span, its text cleaned by `clean`, before empty ones are
      dropped. */
  function SpanSectionsWith(doc: Sectioned, hadmId: int, subjectId: int, chartDate: int, clean: string -> string)
    : (r: seq<Section>)
    ensures |r| == |doc.spans|
    ensures forall i :: 0 <= i < |r| ==>
      r[i] == Section(hadmId, subjectId, chartDate, clean(doc.spans[i]), CategoryAt(doc, i))
  {
    seq(|doc.spans|, i requires 0 <= i < |doc.spans| =>
      Section(hadmId, subjectId, chartDate, clean(doc.spans[i]), CategoryAt(doc, i)))
  }

  /** One section per span, before empty ones are dropped. */
  function SpanSections(doc: Sectioned, hadmId: int, subjectId: int, chartDate: int): (r: seq<Section>)
    ensures |r| == |doc.spans|
    ensures forall i :: 0 <= i < |r| ==> r[i] == SectionFor(doc, i, hadmId, subjectId, chartDate)
  {
    SpanSectionsWith(doc, hadmId, subjectId, chartDate, PreprocessText)
  }

  predicate HasText(x: Section) { x.sectionText != [] }

  /** The sections `_section_text` returns: the spans whose cleaned text is not empty,
      in span order. */
  function KeptSections(doc: Sectioned, hadmId: int, subjectId: int, chartDate: int): seq<Section> {
    Filter(SpanSections(doc, hadmId, subjectId, chartDate), HasText)
  }

  /** Every returned section has text and comes from a span, and every span with text
      is returned. */
  lemma KeptSectionsProps(doc: Sectioned, hadmId: int, subjectId: int, chartDate: int)
    ensures var all := SpanSections(doc, hadmId, subjectId, chartDate);
      var r := KeptSections(doc, hadmId, subjectId, chartDate);
      |r| <= |all|
      && (forall k :: 0 <= k < |r| ==> r[k].sectionText != [] && r[k] in all)
      && (forall i :: 0 <= i < |all| && all[i].sectionText != [] ==> all[i] in r)
  {
    FilterMembers(SpanSections(doc, hadmId, subjectId, chartDate), HasText);
  }

  /** The span loop of `_section_text`: clean each span, keep the non-empty ones. */
  method KeepNonEmpty(doc: Sectioned, hadmId: int, subjectId: int, chartDate: int, clean: string -> string)
    returns (sections: seq<Section>)
    ensures sections == Filter(SpanSectionsWith(doc, hadmId, subjectId, chartDate, clean), HasText)
  {
    ghost var all := SpanSectionsWith(doc, hadmId, subjectId, chartDate, clean);
    sections := [];
    var i := 0;
    while i < |doc.spans|
      invariant 0 <= i <= |doc.spans|
      invariant sections == Filter(all[..i], HasText)
    {
      FilterStep(all, i, HasText);
      var sectionText := clean(doc.spans[i]);
      if sectionText != [] {
        var category := if i < |doc.categories| then doc.categories[i] else "other";
        sections := sections + [Section(hadmId, subjectId, chartDate, sectionText, category)];
      }
      i := i + 1;
    }
    assert all[..i] == all;
  }

  /** The sectioning pipeline `sectioning_nlp`; `None` where the call raises. */
  type SectionPipeline = string -> Option<Sectioned>

  /** What `_section_text` returns for a note, or `None` where sectioning raises. */
  function NoteSections(text: string, hadmId: int, subjectId: int, chartDate: int, nlp: SectionPipeline)
    : Option<seq<Section>>
  {
    match nlp(PreprocessText(text))
    case None => None
    case Some(doc) => Some(KeptSections(doc, hadmId, subjectId, chartDate))
  }

  /** `_section_text`: clean the note, section it, clean each span, keep the
      non-empty ones; `None` is the exception of the sectioning pipeline. */
  method SectionText(text: string, hadmId: int, subjectId: int, chartDate: int, nlp: SectionPipeline)
    returns (sections: Option<seq<Section>>)
    ensures sections.None? <==> nlp(PreprocessText(text)).None?
    ensures sections.Some? ==> sections.value == KeptSections(nlp(PreprocessText(text)).value, hadmId, subjectId, chartDate)
    ensures sections == NoteSections(text, hadmId, subjectId, chartDate, nlp)
  {
    var cleaned := PreprocessText(text);
    var doc := nlp(cleaned);
    if doc.None? {
      return None;
    }
    var kept := KeepNonEmpty(doc.value, hadmId, subjectId, chartDate, PreprocessText);
    sections := Some(kept);
  }

  // ---------------------------------------------------------------------------
  // `_extract_concepts_from_section`

  datatype Concept = Concept(
    hadmId: int, subjectId: int, chartDate: int, sectionCategory: string,
    negation: bool, entityText: string, cui: string, canonicalName: string, entityLabel: string)

  /** `linker.kb.cui_to_entity[cui].canonical_name`, or `None` where the lookup
      raises. */
  type Linker = string -> Option<string>

  /** A disease entity with a candidate whose lookup succeeds; negated entities are
      not excluded. */
  predicate Accepted(e: Entity, kb: Linker) {
    e.entityLabel == "DISEASE" && HasCandidates(e) && kb(e.kbEnts[0]).Some?
  }

  function ConceptOf(section: Section, e: Entity, kb: Linker): Concept
    requires Accepted(e, kb)
  {
    Concept(section.hadmId, section.subjectId, section.chartDate, section.sectionCategory,
            e.negex, e.text, e.kbEnts[0], kb(e.kbEnts[0]).value, e.entityLabel)
  }

  /** One concept per accepted entity, in order, from its first candidate. */
  function ConceptsOf(section: Section, ents: seq<Entity>, kb: Linker): (r: seq<Concept>)
    ensures |r| <= |ents|
  {
    if ents == [] then []
    else
      var before := ConceptsOf(section, ents[..|ents| - 1], kb);
      var e := ents[|ents| - 1];
      if Accepted(e, kb) then before + [ConceptOf(section, e, kb)] else before
  }

  /** Every concept comes from an accepted entity, and every accepted entity gives
      one. */
  lemma {:induction false} ConceptsOfExactly(section: Section, ents: seq<Entity>, kb: Linker)
    ensures forall k :: 0 <= k < |ConceptsOf(section, ents, kb)| ==>
      exists i :: 0 <= i < |ents| && Accepted(ents[i], kb) && ConceptsOf(section, ents, kb)[k] == ConceptOf(section, ents[i], kb)
    ensures forall i :: 0 <= i < |ents| && Accepted(ents[i], kb) ==> ConceptOf(section, ents[i], kb) in ConceptsOf(section, ents, kb)
  {
    if ents != [] {
      var n := |ents| - 1;
      var init := ents[..n];
      var before := ConceptsOf(section, init, kb);
      var r := ConceptsOf(section, ents, kb);
      ConceptsOfExactly(section, init, kb);
      assert forall i :: 0 <= i < n ==> init[i] == ents[i];
      forall k | 0 <= k < |ConceptsOf(section, ents, kb)|
        ensures exists i :: 0 <= i < |ents| && Accepted(ents[i], kb) && ConceptsOf(section, ents, kb)[k] == ConceptOf(section, ents[i], kb)
      {
        if k < |before| {
          assert r[k] == before[k];
          var i :| 0 <= i < n && Accepted(init[i], kb) && before[k] == ConceptOf(section, init[i], kb);
          assert ents[i] == init[i];
          assert 0 <= i < |ents| && Accepted(ents[i], kb) && r[k] == ConceptOf(section, ents[i], kb);
        } else {
          assert Accepted(ents[n], kb) && r[k] == ConceptOf(section, ents[n], kb);
        }
      }
      forall i | 0 <= i < |ents| && Accepted(ents[i], kb)
        ensures ConceptOf(section, ents[i], kb) in r
      {
        if i < n {
          assert ents[i] == init[i];
          assert ConceptOf(section, init[i], kb) in before;
        } else {
          assert r == before + [ConceptOf(section, ents[n], kb)];
        }
      }
    } else {
      assert ConceptsOf(section, ents, kb) == [];
    }
  }

  /** Every concept names a disease, and the negation flag is carried, not used. */
  lemma ConceptsAreDiseases(section: Section, ents: seq<Entity>, kb: Linker, k: nat)
    requires k < |ConceptsOf(section, ents, kb)|
    ensures ConceptsOf(section, ents, kb)[k].entityLabel == "DISEASE"
    ensures ConceptsOf(section, ents, kb)[k].sectionCategory == section.sectionCategory
  {
    ConceptsOfExactly(section, ents, kb);
  }

  method ExtractConceptsFromSection(section: Section, ents: seq<Entity>, kb: Linker)
    returns (concepts: seq<Concept>)
    ensures concepts == ConceptsOf(section, ents, kb)
  {
    concepts := [];
    var i := 0;
    while i < |ents|
      invariant 0 <= i <= |ents|
      invariant concepts == ConceptsOf(section, ents[..i], kb)
    {
      assert ents[..i + 1][..i] == ents[..i];
      var e := ents[i];
      if e.entityLabel == "DISEASE" && |e.kbEnts| > 0 {
        var firstCui := e.kbEnts[0];
        var entry := kb(firstCui);
        if entry.Some? {
          concepts := concepts + [Concept(section.hadmId, section.subjectId, section.chartDate,
                                          section.sectionCategory, e.negex, e.text, firstCui,
                                          entry.value, e.entityLabel)];
        }
      }
      i := i + 1;
    }
    assert ents[..i] == ents;
  }

  /** Concepts of a section are tagged with the section's admission, patient and date. */
  lemma ConceptsOfTagged(section: Section, ents: seq<Entity>, kb: Linker)
    ensures forall c :: c in ConceptsOf(section, ents, kb) ==>
      c.hadmId == section.hadmId && c.subjectId == section.subjectId && c.chartDate == section.chartDate
  {
    ConceptsOfExactly(section, ents, kb);
  }

  // ---------------------------------------------------------------------------
  // `process_clinical_notes`

  /** A row of `NOTEEVENTS.csv`; a missing `HADM_ID` is `None`. */
  datatype NoteEvent = NoteEvent(hadmId: Option<int>, subjectId: int, chartDate: int, text: string)

  /** A missing admission id becomes -1. */
  function HadmOrDefault(h: Option<int>): (r: int)
    ensures h.None? ==> r == -1
    ensures h.Some? ==> r == h.value
  {
    if h.Some? then h.value else -1
  }

  /** The NER pipeline `ner_nlp`; `None` where the call raises. */
  type EntityPipeline = string -> Option<seq<Entity>>

  /** The concepts one note has added to `all_concepts`, and whether the NER
      pipeline raised on one of its sections. */
  datatype Gathered = Gathered(concepts: seq<Concept>, raised: bool)

  /** The section loop: each section's concepts are appended in turn, and the first
      section on which the NER pipeline raises ends the loop, keeping what the
      earlier sections added. */
  function SectionsConcepts(sections: seq<Section>, ner: EntityPipeline, kb: Linker): Gathered {
    if sections == [] then Gathered([], false)
    else
      var last := sections[|sections| - 1];
      var before := SectionsConcepts(sections[..|sections| - 1], ner, kb);
      if before.raised then before
      else
        match ner(last.sectionText)
        case None => Gathered(before.concepts, true)
        case Some(ents) => Gathered(before.concepts + ConceptsOf(last, ents, kb), false)
  }

  /** The NER pipeline fails on `s`. */
  predicate NerFails(ner: EntityPipeline, s: Section) { ner(s.sectionText).None? }

  /** The loop is cut short exactly when the NER pipeline raises on some section. */
  lemma {:induction false} SectionsConceptsRaised(sections: seq<Section>, ner: EntityPipeline, kb: Linker)
    ensures SectionsConcepts(sections, ner, kb).raised <==>
      exists k :: 0 <= k < |sections| && NerFails(ner, sections[k])
  {
    if sections != [] {
      var init := sections[..|sections| - 1];
      SectionsConceptsRaised(init, ner, kb);
      if exists k :: 0 <= k < |init| && NerFails(ner, init[k]) {
        var k :| 0 <= k < |init| && NerFails(ner, init[k]);
        assert sections[k] == init[k];
      }
      if exists k :: 0 <= k < |sections| && NerFails(ner, sections[k]) {
        var k :| 0 <= k < |sections| && NerFails(ner, sections[k]);
        if k < |init| {
          assert init[k] == sections[k];
        }
      }
    }
  }

  /** Once the loop is cut short, later sections add nothing. */
  lemma {:induction false} SectionsConceptsRaisedPrefix(sections: seq<Section>, n: nat, ner: EntityPipeline, kb: Linker)
    requires n <= |sections| && SectionsConcepts(sections[..n], ner, kb).raised
    ensures SectionsConcepts(sections, ner, kb) == SectionsConcepts(sections[..n], ner, kb)
    decreases |sections| - n
  {
    if n < |sections| {
      assert sections[..n + 1][..n] == sections[..n];
      SectionsConceptsRaisedPrefix(sections, n + 1, ner, kb);
    } else {
      assert sections[..n] == sections;
    }
  }

  /** When the NER pipeline first raises on section `k`, the note keeps exactly the
      concepts of the sections before `k`. */
  lemma SectionsConceptsFirstFailure(sections: seq<Section>, k: nat, ner: EntityPipeline, kb: Linker)
    requires k < |sections| && NerFails(ner, sections[k])
    requires forall j :: 0 <= j < k ==> !NerFails(ner, sections[j])
    ensures SectionsConcepts(sections, ner, kb) == Gathered(SectionsConcepts(sections[..k], ner, kb).concepts, true)
  {
    var pre := sections[..k];
    SectionsConceptsRaised(pre, ner, kb);
    assert sections[..k + 1][..k] == pre;
    assert !SectionsConcepts(pre, ner, kb).raised;
    SectionsConceptsRaisedPrefix(sections, k + 1, ner, kb);
  }

  /** The concepts of one note: none where sectioning raises, otherwise what the
      section loop added before any NER failure. */
  function NoteConcepts(note: NoteEvent, nlp: SectionPipeline, ner: EntityPipeline, kb: Linker): seq<Concept> {
    match NoteSections(note.text, HadmOrDefault(note.hadmId), note.subjectId, note.chartDate, nlp)
    case None => []
    case Some(sections) => SectionsConcepts(sections, ner, kb).concepts
  }

  predicate Selected(selected: set<int>, note: NoteEvent) { note.subjectId in selected }

  /** The concepts of the selected patients' notes, note after note; a note whose
      processing raises is skipped from that point on. */
  function NotesConcepts(notes: seq<NoteEvent>, selected: set<int>, nlp: SectionPipeline, ner: EntityPipeline, kb: Linker): seq<Concept> {
    if notes == [] then []
    else
      var last := notes[|notes| - 1];
      NotesConcepts(notes[..|notes| - 1], selected, nlp, ner, kb)
        + (if Selected(selected, last) then NoteConcepts(last, nlp, ner, kb) else [])
  }

  /** Every concept taken from sections tagged with one admission, patient and date
      carries those tags. */
  lemma {:induction false} SectionsConceptsTagged(sections: seq<Section>, ner: EntityPipeline, kb: Linker, h: int, p: int, d: int)
    requires forall k :: 0 <= k < |sections| ==>
      sections[k].hadmId == h && sections[k].subjectId == p && sections[k].chartDate == d
    ensures forall c :: c in SectionsConcepts(sections, ner, kb).concepts ==> c.hadmId == h && c.subjectId == p && c.chartDate == d
  {
    if sections != [] {
      var last := sections[|sections| - 1];
      SectionsConceptsTagged(sections[..|sections| - 1], ner, kb, h, p, d);
      if ner(last.sectionText).Some? {
        ConceptsOfTagged(last, ner(last.sectionText).value, kb);
      }
    }
  }

  /** Every concept of a note carries the note's patient and date, and its admission
      id, or -1 where the note has none. */
  lemma NoteConceptsTagged(note: NoteEvent, nlp: SectionPipeline, ner: EntityPipeline, kb: Linker)
    ensures forall c :: c in NoteConcepts(note, nlp, ner, kb) ==>
      c.hadmId == HadmOrDefault(note.hadmId) && c.subjectId == note.subjectId && c.chartDate == note.chartDate
  {
    var h := HadmOrDefault(note.hadmId);
    var doc := nlp(PreprocessText(note.text));
    if doc.Some? {
      KeptSectionsProps(doc.value, h, note.subjectId, note.chartDate);
      SectionsConceptsTagged(KeptSections(doc.value, h, note.subjectId, note.chartDate), ner, kb, h, note.subjectId, note.chartDate);
    }
  }

  /** A note whose sectioning raises contributes nothing. */
  lemma NoteConceptsSectioningFails(note: NoteEvent, nlp: SectionPipeline, ner: EntityPipeline, kb: Linker)
    requires nlp(PreprocessText(note.text)).None?
    ensures NoteConcepts(note, nlp, ner, kb) == []
  {
  }

  /** Only the selected patients contribute concepts. */
  lemma {:induction false} NotesConceptsSelected(notes: seq<NoteEvent>, selected: set<int>, nlp: SectionPipeline, ner: EntityPipeline, kb: Linker)
    ensures forall c :: c in NotesConcepts(notes, selected, nlp, ner, kb) ==> c.subjectId in selected
  {
    if notes != [] {
      var last := notes[|notes| - 1];
      NotesConceptsSelected(notes[..|notes| - 1], selected, nlp, ner, kb);
      NoteConceptsTagged(last, nlp, ner, kb);
    }
  }

  /** The section loop of one note; it stops at the first NER failure. */
  method ExtractSectionsConcepts(sections: seq<Section>, ner: EntityPipeline, kb: Linker) returns (g: Gathered)
    ensures g == SectionsConcepts(sections, ner, kb)
  {
    var concepts := [];
    var i := 0;
    while i < |sections|
      invariant 0 <= i <= |sections|
      invariant SectionsConcepts(sections[..i], ner, kb) == Gathered(concepts, false)
    {
      assert sections[..i + 1][..i] == sections[..i];
      var ents := ner(sections[i].sectionText);
      if ents.None? {
        SectionsConceptsRaisedPrefix(sections, i + 1, ner, kb);
        return Gathered(concepts, true);
      }
      var found := ExtractConceptsFromSection(sections[i], ents.value, kb);
      concepts := concepts + found;
      i := i + 1;
    }
    assert sections[..i] == sections;
    g := Gathered(concepts, false);
  }

  lemma NotesConceptsStep(notes: seq<NoteEvent>, i: nat, selected: set<int>, nlp: SectionPipeline, ner: EntityPipeline, kb: Linker)
    requires i < |notes|
    ensures NotesConcepts(notes[..i + 1], selected, nlp, ner, kb) ==
      NotesConcepts(notes[..i], selected, nlp, ner, kb)
        + (if Selected(selected, notes[i]) then NoteConcepts(notes[i], nlp, ner, kb) else [])
  {
    assert notes[..i + 1][..i] == notes[..i];
  }

  /** `process_clinical_notes`: the selected patients' notes, sectioned, with the
      concepts of every section collected in order; a note whose sectioning or NER
      raises keeps what it had added and the loop goes on with the next note. */
  method ProcessClinicalNotes(notes: seq<NoteEvent>, selected: set<int>, nlp: SectionPipeline, ner: EntityPipeline, kb: Linker)
    returns (concepts: seq<Concept>)
    ensures concepts == NotesConcepts(notes, selected, nlp, ner, kb)
  {
    concepts := [];
    var i := 0;
    while i < |notes|
      invariant 0 <= i <= |notes|
      invariant concepts == NotesConcepts(notes[..i], selected, nlp, ner, kb)
    {
      NotesConceptsStep(notes, i, selected, nlp, ner, kb);
      var note := notes[i];
      if note.subjectId in selected {
        var hadmId := if note.hadmId.None? then -1 else note.hadmId.value;
        var sections := SectionText(note.text, hadmId, note.subjectId, note.chartDate, nlp);
        if sections.Some? {
          var found := ExtractSectionsConcepts(sections.value, ner, kb);
          concepts := concepts + found.concepts;
        }
      }
      i := i + 1;
    }
    assert notes[..i] == notes;
  }
}
