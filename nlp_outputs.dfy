/** What the spaCy pipelines hand back, as plain values: a sectioned document is its
    section spans and their categories, an entity is its text, label, negation flag
    and the concept ids of its knowledge-base candidates, best first. */
module NlpOutputs {

  datatype Sectioned = Sectioned(spans: seq<string>, categories: seq<string>)

  datatype Entity = Entity(text: string, entityLabel: string, negex: bool, kbEnts: seq<string>)

  predicate HasCandidates(e: Entity) { |e.kbEnts| > 0 }

  /** The section pipeline, applied to a note's text. */
  type Sectionizer = string -> Sectioned

  /** The entity pipeline, applied to a section's text. */
  type Recognizer = string -> seq<Entity>

  /** The linker's `kb.cui_to_entity[cui].canonical_name`. */
  type CanonicalNames = string -> string
}
