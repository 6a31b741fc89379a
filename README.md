# UTTree patient similarity, modelled in Dafny

GenSimi turns a hospital admission's clinical records into a vector. It starts from MIMIC-III style tables: prescriptions, lab events and discharge notes. The pipeline then does the following:

1. It builds *quadruples* (time, temporal event type, event, value). Drug courses are expanded day by day. Lab rows are mapped and filtered. Disease concepts are found in the sectioned, cleaned notes.
2. It merges the structured and unstructured quadruples per admission.
3. It builds a four-level *temporal tree*: root, time window, temporal event type, then one leaf per event and value.
4. It folds the tree's labels bottom-up into one root label (a Weisfeiler-Lehman style relabelling) and cleans that label into the admission's *temporal sequence*.
5. An embedding service turns the sequence into a vector. The vector is stored with metadata, linked into a graph database and searched for similar patients.

This project models the record-level logic of that pipeline:

- **Tree pipeline** (`uttree_v2`): the quadruple builders, tree construction, relabelling and sequence cleaning, the embedding result shape, vector-store bookkeeping, and the analysis steps (similarity search filter, choice of the cluster count, graph merge, report).
- **Older `uttree` and `ced` scripts**: the drug/lab staging, the note sectioning and concept extraction, and the four note cleaners. The cleaners are built from literal regular-expression substitutions, modelled as explicit rewriting passes.
- **`vgsimi` tools**: the chunked embedding of long sequences, the token-merging named-entity recogniser, and the graph loader's filters, vector lookup and node ids.
- **`components/ui_utils.py`**: the Browser URL and metadata formatting helpers.

Operations that loop in the source are methods, proved equal to a specification function. The properties the source promises are lemmas about those functions: contents and order of results, both directions of each filter, and error paths. The NLP models, the embedding service, the vector store, the graph database and the clock are function-typed parameters or plain inputs. A call that can raise returns a `Result` or an `Option`. Dates are day numbers. Where the source's two kinds of date differ in effect (a structured row holds a `datetime.date`, a note row its CHARTDATE string), the model marks the kind explicitly.

Modules follow the source files. `Wrappers`, `Seqs`, `Text`, `Sorting`, `RegexPasses`, `Quadruples` and `NlpOutputs` hold shared definitions: Python built-ins, `re.sub` on literal patterns, and the record types.

## Model

| member | source | states |
|---|---|---|
| DataPreprocessing.QualifiedPatientsProps | uttree_v2/1_data_preprocessing.py:62-63 | a subject qualifies exactly when it has at least `min_notes` note rows; each is listed once, in ascending order |
| DataPreprocessing.LoadAndFilterPatients | uttree_v2/1_data_preprocessing.py:44-70 | without sampling (no size, size 0, or a size not below the count) the qualified subjects are returned unchanged |
| DataPreprocessing.DailyRecords | uttree_v2/1_data_preprocessing.py:98-110 | one `RealTime`/`MainDrug` record per day from start to end inclusive, carrying the drug name; none when a date is missing or the end precedes the start |
| DataPreprocessing.DailyRecordsDays | uttree_v2/1_data_preprocessing.py:102-106 | the covered days are exactly the days from start to end, each once, ascending |
| DataPreprocessing.DrugQuadruplesConcat | uttree_v2/1_data_preprocessing.py:96-112 | a skipped row does not stop the loop: the records of `a + b` are those of `a` then those of `b` |
| DataPreprocessing.DrugQuadruplesSelected | uttree_v2/1_data_preprocessing.py:85-110 | every record is a `RealTime` `MainDrug` record of a selected patient |
| DataPreprocessing.ProcessPrescriptions | uttree_v2/1_data_preprocessing.py:72-114 | the nested row and day loops produce the records of the selected patients' prescriptions, in row order |
| DataPreprocessing.LabQuadruple | uttree_v2/1_data_preprocessing.py:139-155 | a lab row converts exactly when it has a chart time; the record carries the subject, the admission (-1 when missing), the day, the item label (`normal` when unknown) and the flag (`normal` when missing) |
| DataPreprocessing.LabQuadruples | uttree_v2/1_data_preprocessing.py:133-157 | on success one record per selected row; a failure is the `ValueError` of `pd.to_datetime("normal")` |
| DataPreprocessing.LabQuadruplesContents | uttree_v2/1_data_preprocessing.py:133-157 | on success the `k`-th record is the quadruple of the `k`-th selected lab row |
| DataPreprocessing.LabQuadruplesErr | uttree_v2/1_data_preprocessing.py:143-151 | the conversion fails exactly when some selected row has no chart time |
| DataPreprocessing.ProcessLabEvents | uttree_v2/1_data_preprocessing.py:116-157 | the row loop computes `LabQuadruples`, aborting at the first row that cannot be converted |
| DataPreprocessing.LabQuadruplesErrPrefix | uttree_v2/1_data_preprocessing.py:147-155 | a failure among the first rows is a failure of the whole call |
| DataPreprocessing.CombineStructuredData | uttree_v2/1_data_preprocessing.py:173-176 | a failure is the `KeyError` of `sort_values` on a frame without columns |
| DataPreprocessing.CombineStructuredDataProps | uttree_v2/1_data_preprocessing.py:173-186 | the call fails exactly when both inputs are empty; otherwise the output is sorted by (subject, admission, day), holds the drug rows and abnormal lab rows of its inputs as often as they occur there (the same multiset), and is no longer than they are |
| DataPreprocessing.DrugsKept | uttree_v2/1_data_preprocessing.py:180-183 | with a drug record in the input the call succeeds, and the record survives the relevance filter |
| NlpProcessing.PreprocessText | uttree_v2/2_nlp_processing.py:72-92 | the cleaned note has no whitespace at either end |
| NlpProcessing.LowerRule | uttree_v2/2_nlp_processing.py:85-89 | an `IGNORECASE` rule with a lower-case pattern acts on lower-case text as the case-sensitive rule does, and the text stays lower-case |
| NlpProcessing.UpperStep | uttree/2_my_ner.py:39-42 | a pattern starting with a capital letter leaves lower-case text unchanged |
| NlpProcessing.RulesHead | uttree_v2/2_nlp_processing.py:83-84 | on lower-case text the bracket and numbering passes come first and keep it lower-case |
| NlpProcessing.RulesDoctor | uttree_v2/2_nlp_processing.py:85-86 | on lower-case text the `dr.` and `m.d.` rewrites act case-sensitively and keep it lower-case |
| NlpProcessing.RulesAdmission | uttree_v2/2_nlp_processing.py:87 | on lower-case text the admission-date header is removed case-sensitively |
| NlpProcessing.RulesDischarge | uttree_v2/2_nlp_processing.py:88 | on lower-case text the discharge-date header is removed case-sensitively |
| NlpProcessing.RulesTail | uttree_v2/2_nlp_processing.py:89-90 | the last two passes on lower-case text: the date-of-birth header, then `--`, `__`, `==` |
| NlpProcessing.CapitalHeadersAbsent | ced/extract_unstruct.py:19-24 | the capitalised header patterns of the case-sensitive cleaner find nothing in lower-case text |
| NlpProcessing.PreprocessAgreesOnLowercase | uttree_v2/2_nlp_processing.py:72-92 | on text without capitals this cleaner gives exactly what the case-sensitive `ced/extract_unstruct.py` cleaner gives |
| NlpProcessing.CapitalDoctorRewritten | uttree_v2/2_nlp_processing.py:85 | with `IGNORECASE`, `Dr.` becomes `doctor` |
| NlpProcessing.CategoryAt | uttree_v2/2_nlp_processing.py:172 | a span's category is the one at its index, or `other` past the end of the category list |
| NlpProcessing.SpanSections | uttree_v2/2_nlp_processing.py:164-173 | one candidate section per span, in span order, tagged with the note's admission, patient and date |
| NlpProcessing.KeptSectionsProps | uttree_v2/2_nlp_processing.py:164-175 | exactly the candidate sections with non-empty cleaned text are kept |
| NlpProcessing.SectionText | uttree_v2/2_nlp_processing.py:144-175 | nothing where the sectioning pipeline raises on the cleaned note; otherwise the kept sections of the sectioned note |
| NlpProcessing.KeepNonEmpty | uttree_v2/2_nlp_processing.py:164-173 | the span loop keeps, in span order, exactly the cleaned spans whose text is non-empty |
| NlpProcessing.ConceptsOfExactly | uttree_v2/2_nlp_processing.py:187-214 | every concept comes from an accepted entity (a `DISEASE` with a linked CUI found in the knowledge base) and every accepted entity gives one |
| NlpProcessing.ConceptsAreDiseases | uttree_v2/2_nlp_processing.py:194-209 | every concept is labelled `DISEASE` and carries its section's category |
| NlpProcessing.ExtractConceptsFromSection | uttree_v2/2_nlp_processing.py:177-214 | the loop returns the concepts of the section's entities, skipping those whose lookup fails |
| NlpProcessing.ConceptsOfTagged | uttree_v2/2_nlp_processing.py:200-203 | every concept carries its section's admission, patient and chart date |
| NlpProcessing.HadmOrDefault | uttree_v2/2_nlp_processing.py:123-127 | a missing admission id becomes -1, a present one is kept |
| NlpProcessing.SectionsConceptsRaised | uttree_v2/2_nlp_processing.py:133-139 | the section loop of a note is cut short exactly when the NER pipeline raises on one of its sections |
| NlpProcessing.SectionsConceptsRaisedPrefix | uttree_v2/2_nlp_processing.py:133-139 | once the NER pipeline has raised, later sections add nothing |
| NlpProcessing.SectionsConceptsFirstFailure | uttree_v2/2_nlp_processing.py:133-139 | when the NER pipeline first raises on section `k`, the note keeps exactly the concepts of the sections before `k` |
| NlpProcessing.SectionsConceptsTagged | uttree_v2/2_nlp_processing.py:133-135 | concepts gathered from sections of one note carry that note's tags |
| NlpProcessing.NoteConceptsTagged | uttree_v2/2_nlp_processing.py:118-135 | every concept of a note carries the note's admission (or -1), patient and date |
| NlpProcessing.NoteConceptsSectioningFails | uttree_v2/2_nlp_processing.py:129-139 | a note whose sectioning raises contributes no concept |
| NlpProcessing.NotesConceptsSelected | uttree_v2/2_nlp_processing.py:107-108 | only the selected patients' notes yield concepts |
| NlpProcessing.ExtractSectionsConcepts | uttree_v2/2_nlp_processing.py:132-139 | the loop concatenates the concepts of the sections in order, up to the first section on which the NER pipeline raises |
| NlpProcessing.ProcessClinicalNotes | uttree_v2/2_nlp_processing.py:94-142 | the loop returns the concepts of the selected patients' notes, note after note; a note that raises keeps what it had added and the loop goes on |
| NlpQuadruples.ConceptHadms | uttree_v2/2_nlp_processing.py:231 | the `hadm_id` column, one entry per concept |
| NlpQuadruples.ChartDates | uttree_v2/2_nlp_processing.py:236 | the `chart_date` column of a group, one entry per row |
| NlpQuadruples.GroupQuads | uttree_v2/2_nlp_processing.py:240-255 | one quadruple per concept of the group |
| NlpQuadruples.QuadsForSize | uttree_v2/2_nlp_processing.py:231-255 | the quadruples of the listed admissions number the sizes of their groups |
| NlpQuadruples.UnstructuredQuads | uttree_v2/2_nlp_processing.py:216-257 | a failure is the `KeyError` of `groupby('hadm_id')` |
| NlpQuadruples.OneQuadruplePerConcept | uttree_v2/2_nlp_processing.py:216-257 | the call fails exactly when there are no concepts (a frame without columns), and otherwise gives exactly one quadruple per concept |
| NlpQuadruples.SortedDatesIncreasing | uttree_v2/2_nlp_processing.py:233-236 | after sorting by chart date the distinct dates are strictly increasing |
| NlpQuadruples.GroupQuadsFields | uttree_v2/2_nlp_processing.py:241-255 | each quadruple carries the admission, patient, date and canonical name; its type is `Retro` exactly for past medical history and `NewFinding` otherwise; its window lies between 1 and the number of distinct dates |
| NlpQuadruples.GroupQuadsWindowOrder | uttree_v2/2_nlp_processing.py:236-251 | windows follow chart dates: an earlier date has a smaller window, an equal date the same window, both ways |
| NlpQuadruples.GroupQuadsWindowsDense | uttree_v2/2_nlp_processing.py:237 | every window from 1 to the number of distinct dates is used |
| NlpQuadruples.SortedGroupProps | uttree_v2/2_nlp_processing.py:231-233 | a group is sorted by date, is a permutation of the admission's concepts and holds only that admission |
| NlpQuadruples.GroupQuadruples | uttree_v2/2_nlp_processing.py:236-255 | the loop returns the group's quadruples |
| NlpQuadruples.RowQuadruple | uttree_v2/2_nlp_processing.py:240-255 | one row's quadruple: `Retro` exactly when the section is past medical history, otherwise `NewFinding` |
| NlpQuadruples.GenerateUnstructuredQuadruples | uttree_v2/2_nlp_processing.py:216-257 | the `KeyError` for no concepts; otherwise the loop returns the quadruples of every admission group |
| NlpQuadruples.Timestamps | uttree_v2/2_nlp_processing.py:286 | the `timestamp` column, one entry per row |
| NlpQuadruples.StructWindows | uttree_v2/2_nlp_processing.py:284-288 | one windowed row per structured row |
| NlpQuadruples.StructWindowsOrder | uttree_v2/2_nlp_processing.py:286-288 | a structured row keeps its contents; its window is the rank of its timestamp among the sorted distinct timestamps, ordered both ways |
| NlpQuadruples.CombinedContents | uttree_v2/2_nlp_processing.py:290-301 | the combined frame is a permutation of the admission's structured and unstructured rows; its windows never decrease; within a window every structured row precedes every note row, because the mixed `timestamp` column orders dates before strings; rows of one kind and window are in timestamp order |
| NlpQuadruples.CombinedOrigins | uttree_v2/2_nlp_processing.py:290-291 | a combined row marked structured comes from the structured subset, one marked as a note from the unstructured subset |
| NlpQuadruples.StructuredBeforeEarlierNote | uttree_v2/2_nlp_processing.py:291-301 | a lab of day 5 and a note of day 3 in the same window come out lab first |
| NlpQuadruples.StructWindowsHadm | uttree_v2/2_nlp_processing.py:280 | every structured row of an admission's subset belongs to it |
| NlpQuadruples.BothHadm | uttree_v2/2_nlp_processing.py:280-281 | every row of both subsets belongs to the admission |
| NlpQuadruples.CombinedHadm | uttree_v2/2_nlp_processing.py:280-302 | every combined row belongs to the admission it is filed under |
| NlpQuadruples.HadmHasRows | uttree_v2/2_nlp_processing.py:276-298 | an admission from either frame has rows in at least one, so none is skipped |
| NlpQuadruples.IntegrateStructuredUnstructured | uttree_v2/2_nlp_processing.py:259-305 | the map's keys are the admissions of either frame and each value is the admission's combined, sorted rows |
| TemporalTree.AddLeaves | uttree_v2/3_tree_embedding.py:104-109 | the leaf loop adds one leaf per bucket row, in row order, numbered consecutively from the node count, and advances the count by the bucket size |
| TemporalTree.AddTypeNode | uttree_v2/3_tree_embedding.py:99-109 | one type node named after its event type and the current node count, followed by its leaves |
| TemporalTree.AddTypeNodes | uttree_v2/3_tree_embedding.py:96-109 | the middle loop adds one type node per distinct event type of the window, in order of first appearance |
| TemporalTree.AddWindowNode | uttree_v2/3_tree_embedding.py:89-109 | one window node named `str(time_window)` under the root, followed by its type nodes and leaves |
| TemporalTree.ConstructTemporalTree | uttree_v2/3_tree_embedding.py:69-111 | the construction loop builds exactly the tree `BuildTree` describes from the rows |
| TemporalTree.TypeStep | uttree_v2/3_tree_embedding.py:98-109 | one turn of the event-type loop extends the type nodes built so far by the next one |
| TemporalTree.WindowStep | uttree_v2/3_tree_embedding.py:89-109 | one turn of the time-window loop extends the windows built so far by the next one |
| TemporalTreeShape.TimeWindowsProps | uttree_v2/3_tree_embedding.py:86 | the windows are strictly increasing and non-negative, and are exactly the `time_window` values present in the rows |
| TemporalTreeShape.WindowRowsProps | uttree_v2/3_tree_embedding.py:95 | a window's rows are exactly the rows carrying that time window |
| TemporalTreeShape.EventTypesProps | uttree_v2/3_tree_embedding.py:96 | a window's event types are distinct and are exactly the event types of its rows |
| TemporalTreeShape.BucketProps | uttree_v2/3_tree_embedding.py:104 | a bucket holds exactly the window's rows of its event type |
| TemporalTreeShape.TypeForData | uttree_v2/3_tree_embedding.py:100-108 | a type node carries its event type, and its leaves carry the (event, value) pairs of its bucket in order |
| TemporalTreeShape.BuildTreeShape | uttree_v2/3_tree_embedding.py:82-109 | root `PID`; one child per distinct time window in ascending order; under each, one type node per distinct event type in first-appearance order; under each, one leaf per bucket row |
| TemporalTreeShape.BucketsPartitionWindow | uttree_v2/3_tree_embedding.py:96-106 | every row of a window lands in exactly one bucket: the bucket sizes add up to the window's rows |
| TemporalTreeShape.NodeCount | uttree_v2/3_tree_embedding.py:83-108 | the construction ends with a count of 1 + windows + (window, type) buckets + rows |
| TemporalTreeNodes.NodeIdsArePositions | uttree_v2/3_tree_embedding.py:99-107 | the number in every node name is the number of nodes added before it |
| TemporalTreeNodes.NodesCount | uttree_v2/3_tree_embedding.py:79-111 | `number_of_nodes()` after the construction is 1 + windows + buckets + rows |
| TemporalTreeNodes.SuffixIdsEqual | uttree_v2/3_tree_embedding.py:99-107 | two names ending in `-<count>` are equal only when the counts are |
| TemporalTreeNodes.NamesDistinctByKind | uttree_v2/3_tree_embedding.py:90-107 | suffixed names with distinct counts and dash-free window names never collide |
| TemporalTreeNodes.TreeNamesDistinct | uttree_v2/3_tree_embedding.py:82-107 | a tree with root `PID` and distinct non-negative windows has distinct node names |
| TemporalTreeNodes.WindowTimesDistinct | uttree_v2/3_tree_embedding.py:86-90 | the constructed windows carry distinct, non-negative time windows |
| TemporalTreeNodes.NodeNamesDistinct | uttree_v2/3_tree_embedding.py:79-111 | no two `add_node` calls of the construction use the same name, so no node is merged into another |
| Relabeling.PruneTypes | uttree_v2/3_tree_embedding.py:124-135 | the removal pass keeps exactly the type nodes with at least one leaf, in order |
| Relabeling.LabelOfLeaves | uttree_v2/3_tree_embedding.py:148-154 | the label loop over a type node's leaves computes the concatenation of `_<event>_<value>` |
| Relabeling.JoinUnderscored | uttree_v2/3_tree_embedding.py:172-187 | the label loop over successors computes the concatenation of `_<name>` |
| Relabeling.MergeRenamed | uttree_v2/3_tree_embedding.py:157-159 | successive `relabel_nodes` calls merge children renamed to the same label, keeping first occurrences in order |
| Relabeling.RelabelWindow | uttree_v2/3_tree_embedding.py:146-180 | levels 4 → 3 and 3 → 2 for one window compute its new name from its relabeled type nodes |
| Relabeling.ApplyWeisfeilerLehmanRelabeling | uttree_v2/3_tree_embedding.py:113-194 | the whole relabeling pass computes the relabeled root and its successors as `Relabel` describes |
| RelabelingFacts.TypeLabelEmpty | uttree_v2/3_tree_embedding.py:149-157 | a type node's label is empty exactly when it has no leaves, and otherwise starts with `_` |
| RelabelingFacts.UnderscoredEmpty | uttree_v2/3_tree_embedding.py:173-189 | a successor label is empty exactly when there are no successors, and otherwise starts with `_` |
| RelabelingFacts.TypeNameIgnoresEventType | uttree_v2/3_tree_embedding.py:151-159 | a type node with leaves is renamed to its leaves' label whatever its event type and number |
| RelabelingFacts.PrunedProps | uttree_v2/3_tree_embedding.py:124-135 | pruning keeps the root and every window in order, and removes exactly the leafless type nodes |
| RelabelingFacts.SuccessorsMerged | uttree_v2/3_tree_embedding.py:170-187 | the root's successors are the windows' new names, each once, in order of first appearance |
| RelabelingFacts.BucketNonEmpty | uttree_v2/3_tree_embedding.py:96-104 | every event type of a window has a non-empty bucket |
| RelabelingFacts.PruneBuiltTree | uttree_v2/3_tree_embedding.py:124-135 | on a constructed tree the removal pass removes nothing |
| RelabelingFacts.BuiltTypeNames | uttree_v2/3_tree_embedding.py:146-159 | the new names of a constructed window's type nodes are the labels of its buckets |
| RelabelingFacts.BuiltWindowNonEmpty | uttree_v2/3_tree_embedding.py:96-101 | every constructed window has at least one bucket |
| RelabelingFacts.WindowLabelOfBuilt | uttree_v2/3_tree_embedding.py:170-180 | the new name of a constructed window is computed from its rows alone |
| RelabelingFacts.RelabelBuiltTree | uttree_v2/3_tree_embedding.py:69-194 | end to end, the root label of the relabeled constructed tree is a function of the rows grouped by window then event type; event types never appear in it |
| RelabelingFacts.RootIsPidIffNoRows | uttree_v2/3_tree_embedding.py:183-192 | the root keeps the name `PID` exactly when the admission has no rows; otherwise its label starts with `_` |
| BfsSequence.RemoveIdsProps | uttree_v2/3_tree_embedding.py:215 | after removing `-<digits>` no `-` is followed by a digit |
| BfsSequence.RemoveIdsIdentity | uttree_v2/3_tree_embedding.py:215 | a string without ids is unchanged by the id removal |
| BfsSequence.CollapseProps | uttree_v2/3_tree_embedding.py:216 | after collapsing, no two underscores are adjacent, the first character is kept and no id is created |
| BfsSequence.CollapseIdentity | uttree_v2/3_tree_embedding.py:216 | a string without doubled underscores is unchanged by the collapse |
| BfsSequence.StripIdentity | uttree_v2/3_tree_embedding.py:217 | a string without edge underscores is unchanged by `strip("_")` |
| BfsSequence.StripKeeps | uttree_v2/3_tree_embedding.py:217 | stripping keeps a string free of ids and doubled underscores |
| BfsSequence.CleanProps | uttree_v2/3_tree_embedding.py:212-219 | the cleaned sequence has no node id, no doubled underscore and no underscore at either end |
| BfsSequence.CleanIdempotent | uttree_v2/3_tree_embedding.py:215-217 | cleaning a cleaned sequence changes nothing |
| EmbeddingPipeline.Expected | uttree_v2/3_tree_embedding.py:250-273 | one admission's result carries its id, its cleaned sequence and the embedding of that sequence |
| EmbeddingPipeline.ProcessAdmissionToEmbedding | uttree_v2/3_tree_embedding.py:250-273 | the tree stages then the embedding call, on the sequence they produce |
| EmbeddingPipeline.ProcessAllAdmissions | uttree_v2/3_tree_embedding.py:279-307 | one result per admission, in the dictionary's order |
| EmbeddingPipeline.ResultsStep | uttree_v2/3_tree_embedding.py:293-297 | one turn of the admission loop keeps earlier results in place |
| EmbeddingPipeline.AdmissionSequenceProps | uttree_v2/3_tree_embedding.py:196-219 | a row-less admission is embedded as `PID`; every sequence is already clean |
| AddTempTreeStrings.LastIndexOf | vgsimi/add_temp_tree_strings.py:52-53 | `rfind('_')` finds the last occurrence: the character there is `_` and none follows; no result exactly when there is no `_` |
| AddTempTreeStrings.Window | vgsimi/add_temp_tree_strings.py:48 | `text[i:i + 20000]` is the slice clamped to the text |
| AddTempTreeStrings.Chunks | vgsimi/add_temp_tree_strings.py:46-58 | one chunk per window start `0, 20000, …` below the length |
| AddTempTreeStrings.ChunkCount | vgsimi/add_temp_tree_strings.py:47 | the number of chunks is the ceiling of the length over 20000; no chunk exactly for the empty text |
| AddTempTreeStrings.ChunkShape | vgsimi/add_temp_tree_strings.py:47-58 | chunk `k` is a prefix of the window at `20000 k`; the last window is kept whole; another window is cut just before its last `_` when it has one (the rest of the window belongs to no chunk, because reassigning `i` does not move the next start), otherwise kept whole |
| AddTempTreeStrings.SplitIntoChunks | vgsimi/add_temp_tree_strings.py:46-58 | the chunking loop computes `Chunks` |
| AddTempTreeStrings.EmbeddingsFromChunks | vgsimi/add_temp_tree_strings.py:63-83 | at most one embedding per chunk, and each is the answer for a non-blank chunk whose request succeeded |
| AddTempTreeStrings.MinLen | vgsimi/add_temp_tree_strings.py:91-94 | `zip(*vectors)` runs to the length of the shortest vector |
| AddTempTreeStrings.Average | vgsimi/add_temp_tree_strings.py:91-94 | the average has one entry per position common to all vectors, each the column sum divided by the number of vectors |
| AddTempTreeStrings.AverageSingle | vgsimi/add_temp_tree_strings.py:91-94 | the average of one vector is that vector |
| AddTempTreeStrings.GenerateEmbedding | vgsimi/add_temp_tree_strings.py:33-97 | blank text raises `Empty text provided`; non-blank text raises `Could not generate any valid embeddings` exactly when no chunk was embedded, and otherwise gives the average of the chunk embeddings |
| AddTempTreeStrings.SingleChunk | vgsimi/add_temp_tree_strings.py:47-58 | a non-empty text of at most 20000 characters is a single chunk |
| AddTempTreeStrings.SingleChunkEmbedding | vgsimi/add_temp_tree_strings.py:33-97 | such a text is embedded as the answer for the whole text |
| AddTempTreeStrings.EmbedChunks | vgsimi/add_temp_tree_strings.py:63-83 | the embedding loop skips blank chunks and failed requests, keeping the others in order |
| AddTempTreeStrings.GenerateEmbeddingMethod | vgsimi/add_temp_tree_strings.py:33-97 | chunk, embed and average compute `GenerateEmbedding` |
| AddTempTreeStrings.ReadAdmissionStrings | vgsimi/add_temp_tree_strings.py:180-189 | a directory that cannot be listed gives the empty dictionary |
| AddTempTreeStrings.CollectStringsSound | vgsimi/add_temp_tree_strings.py:192-206 | every key is an existing id read from a readable `-merged.txt` file, mapped to that file's stripped contents |
| AddTempTreeStrings.CollectStringsComplete | vgsimi/add_temp_tree_strings.py:192-206 | every readable `-merged.txt` file of an existing id is loaded under its id |
| AddTempTreeStrings.ReadAdmissionStringsMethod | vgsimi/add_temp_tree_strings.py:180-208 | the file loop computes `ReadAdmissionStrings` |
| CedExtractStruct.Find | ced/extract_struct.py:12-29 | the leftmost occurrence of a pattern at or after a position, or none when there is no occurrence |
| CedExtractStruct.BetweenLeftmostShortest | ced/extract_struct.py:12-29 | the lazy `DOTALL` search returns the text after the leftmost opening marker up to the first closing marker after it; nothing when no such pair exists |
| CedExtractStruct.MedicationOfShape | ced/extract_struct.py:16-24 | a line yields a medication exactly when it holds both `(` and `)`; the name is the stripped text before the first `)` plus `)`, the dosage the stripped text between the first and second `)` |
| CedExtractStruct.MedicationsInLines | ced/extract_struct.py:15-24 | at most one medication per line, and a medication is extracted exactly when some line yields it |
| CedExtractStruct.NoMedicationSection | ced/extract_struct.py:12-14 | no section, or a blank one, gives no medications |
| CedExtractStruct.MedicationsOfLines | ced/extract_struct.py:15-24 | the line loop computes the medications of the lines in order |
| CedExtractStruct.ExtractMedications | ced/extract_struct.py:10-25 | `extract_medications` computes `Medications` of the content |
| CedExtractStruct.DayField | ced/extract_struct.py:38 | `%d` accepts only days 1–31 |
| CedExtractStruct.MonthField | ced/extract_struct.py:38 | `%m` accepts only months 1–12 |
| CedExtractStruct.ParseDate | ced/extract_struct.py:38 | a parsed date is a valid calendar date whose day and month are the fields read |
| CedExtractStruct.FormatDate | ced/extract_struct.py:37 | a formatted date passes the date check: ten characters with `/` at positions 2 and 5 |
| CedExtractStruct.ParseFormatDate | ced/extract_struct.py:37-38 | parsing a formatted valid date gives that date back |
| CedExtractStruct.SpacePaddedDay | ced/extract_struct.py:38 | `strptime` also reads a space-padded day (` 5/03/2020`) |
| CedExtractStruct.NoThirtiethOfFebruary | ced/extract_struct.py:38 | an impossible date raises `ValueError` |
| CedExtractStruct.ConsideredCount | ced/extract_struct.py:34-36 | a line is looked at exactly when it holds at least two `|` (three parts) |
| CedExtractStruct.HeaderShape | ced/extract_struct.py:37-38 | a considered line is a date header exactly when its first part is date-shaped, and the header's date is that part parsed |
| CedExtractStruct.Kinds | ced/extract_struct.py:33-45 | each line is classified on its own |
| CedExtractStruct.CurrentDateLatest | ced/extract_struct.py:32-38 | the current date is the one of the latest good header, or `None` before any |
| CedExtractStruct.RecordsLines | ced/extract_struct.py:39-45 | a lab result is recorded exactly for each row line, with the current date at that line; at most one per line |
| CedExtractStruct.LabResultsIn | ced/extract_struct.py:33-45 | the call raises exactly when some date-shaped header is not a valid date |
| CedExtractStruct.HeaderStep | ced/extract_struct.py:37-38 | a good header sets the current date and records nothing |
| CedExtractStruct.RowStep | ced/extract_struct.py:39-45 | a row line appends one result with the current date and leaves the date alone |
| CedExtractStruct.OtherStep | ced/extract_struct.py:34-36 | any other line changes nothing |
| CedExtractStruct.LabResultsOfLines | ced/extract_struct.py:31-45 | the line loop computes the results of the classified lines |
| CedExtractStruct.ClassifyLine | ced/extract_struct.py:34-45 | the tests made on one line (a `|`, three fields, a `dd/mm/yyyy` first field) sort it into a date header, a result row or neither |
| CedExtractStruct.ExtractLabResults | ced/extract_struct.py:27-46 | `extract_lab_results` computes `LabResults` of the content |
| CedExtractStruct.CreateDataframesAsWritten | ced/extract_struct.py:48-68 | as written, an empty medication or lab list raises `KeyError` |
| CedExtractStruct.NoMedicationsRaises | ced/extract_struct.py:49-58 | a file without medications makes `create_dataframes` raise |
| CedExtractStruct.CreateDataframes | ced/extract_struct.py:48-68 | one `Drug` row per medication stamped today with `name dosage`; one row per lab result with its test, date and `value unit`; subject and admission 1, type `RealTime` |
| CedExtractStruct.CreateDataframesAgrees | ced/extract_struct.py:48-68 | wherever the code as written returns, it returns the corrected frames |
| CedExtractStruct.EhrTableAsWritten | ced/extract_struct.py:70-80 | as written, the merged table fails exactly when the lab extraction fails or there are no medications or no lab results, and otherwise has one row per medication and per lab result |
| CedExtractStruct.EhrTable | ced/extract_struct.py:70-80 | on the corrected `create_dataframes`, the merged table fails exactly when the lab extraction does, and otherwise has one row per medication and per lab result |
| CedExtractStruct.EhrTableAgrees | ced/extract_struct.py:70-80 | wherever `main` as written produces a table, the corrected `main` produces the same one |
| RegexPasses.CloseOnLine | uttree_v2/2_nlp_processing.py:83 | the first `]` before the next line break, or none: `.` does not cross a line break |
| RegexPasses.RemoveBracketsFirstLine | uttree_v2/2_nlp_processing.py:83 | text whose first line has no `]` keeps a first line without `]` |
| RegexPasses.RemoveBracketsFree | uttree_v2/2_nlp_processing.py:83 | after the pass no `[` is followed by a `]` on the same line |
| RegexPasses.RemoveBracketsIdentity | uttree_v2/2_nlp_processing.py:83 | text without a bracket pair on one line is unchanged |
| RegexPasses.RemoveBracketsKeepsLines | uttree_v2/2_nlp_processing.py:83 | the pass removes no line break |
| RegexPasses.RemoveNumberingHead | uttree_v2/2_nlp_processing.py:84 | text not starting with `<digits>.` keeps its first character |
| RegexPasses.RemoveNumberingFree | uttree_v2/2_nlp_processing.py:84 | after the pass no digit run is followed by `.` |
| RegexPasses.RemoveNumberingIdentity | uttree_v2/2_nlp_processing.py:84 | text without `<digits>.` is unchanged |
| RegexPasses.RemoveNumberingKeepsText | uttree_v2/2_nlp_processing.py:84 | the pass deletes only digits and full stops; every other character is kept in order |
| RegexPasses.ReplaceAbsent | uttree_v2/2_nlp_processing.py:85-89 | `re.sub` with a literal pattern that does not occur changes nothing |
| RegexPasses.ReplaceLeftmost | uttree_v2/2_nlp_processing.py:85-89 | `re.sub` replaces the leftmost occurrence and continues after it |
| RegexPasses.ReplaceIgnoreCaseOnLower | uttree_v2/2_nlp_processing.py:85-89 | on lower-case text and pattern, `IGNORECASE` makes no difference |
| RegexPasses.UpperPatternAbsent | uttree/2_my_ner.py:39-42 | a pattern with a capital letter never occurs in lower-case text |
| RegexPasses.ReplaceNoUpper | uttree_v2/2_nlp_processing.py:85-89 | replacing with lower-case text keeps lower-case text lower-case |
| RegexPasses.RemoveDoublesKeepsText | uttree_v2/2_nlp_processing.py:90 | the pass deletes only `-`, `_` and `=`; every other character is kept in order |
| RegexPasses.RemoveDoublesIdentity | uttree_v2/2_nlp_processing.py:90 | text without `--`, `__` or `==` is unchanged |
| RegexPasses.RemoveDoublesSinglePass | uttree_v2/2_nlp_processing.py:90 | the pass is not repeated: `---` becomes `-` |
| RegexPasses.RemoveBracketsNoUpper | uttree_v2/2_nlp_processing.py:83 | the bracket pass keeps lower-case text lower-case |
| RegexPasses.RemoveNumberingNoUpper | uttree_v2/2_nlp_processing.py:84 | the numbering pass keeps lower-case text lower-case |
| RegexPasses.RemoveDoublesNoUpper | uttree_v2/2_nlp_processing.py:90 | the doubles pass keeps lower-case text lower-case |
| CedExtractUnstruct.Preprocess | ced/extract_unstruct.py:13-25 | the preprocessed text has no whitespace at either end |
| CedExtractUnstruct.PreprocessStripped | ced/extract_unstruct.py:25 | stripping the result again changes nothing |
| CedExtractUnstruct.CapitalDoctorKept | ced/extract_unstruct.py:16 | the case-sensitive `dr\.` pass leaves `Dr.` alone |
| MyNer.RowsUpTo | uttree/2_my_ner.py:66-69 | the first `n` section rows, one per span, each carrying the note's tags, the fixed category and the cleaned span |
| MyNer.RowsUpToStep | uttree/2_my_ner.py:66-69 | one more section adds exactly its row at the end |
| MyNer.NoteRows | uttree/2_my_ner.py:64-69 | a note's rows fail (`IndexError`) exactly when there are fewer categories than spans; otherwise one row per span in order |
| MyNer.SectionNote | uttree/2_my_ner.py:64-71 | the inner loop returns the note's rows or the `IndexError` |
| MyNer.SectionedNotes | uttree/2_my_ner.py:54-77 | with no notes `df_main` is never bound and `df_main.tail()` raises `NameError` |
| MyNer.AllRowsOk | uttree/2_my_ner.py:54-75 | the rows of all notes exist exactly when every note is sectioned without error |
| MyNer.SectionNotes | uttree/2_my_ner.py:54-77 | `NameError` for no notes; otherwise the outer loop returns every note's rows in note order, or the first failure |
| MyNer.AllRowsErr | uttree/2_my_ner.py:54-75 | once a note fails, the whole script fails with that error |
| MyNer.FillHadm | uttree/2_my_ner.py:79 | a missing admission id becomes -1, the other fields are kept |
| MyNer.RowPartitionSplits | uttree/2_my_ner.py:147-156 | every entity goes to exactly one list: those with a linked candidate to the concepts (read from their first CUI), the others to the exceptions, in order |
| MyNer.PartitionRow | uttree/2_my_ner.py:145-156 | the entity loop of one row returns that row's split |
| MyNer.FindCuis | uttree/2_my_ner.py:131-160 | the row loop returns the concatenated splits of every row |
| MyStruct.TimedeltaDrugStage | uttree/1_my_struct.py:94-116 | the `timedelta` loop yields the same drug stage as the inclusive `date_range` function: one `RealTime` `Drug` record per day, none when a date is missing or the end precedes the start |
| MyStruct.RunStructStaging | uttree/1_my_struct.py:89-167 | the script's merged table: lab rows then drug rows, or the failure of an unparsable chart time |
| UttreeExtractStruct.DrugDays | uttree/extract_struct.py:30-40 | a prescription with both dates and start not after end yields end - start + 1 days; otherwise none |
| UttreeExtractStruct.DrugDaysLikeDaily | uttree/extract_struct.py:32-40 | these days are the daily records of the preprocessing pipeline, with the event `Drug` |
| UttreeExtractStruct.DrugStageMembers | uttree/extract_struct.py:26-44 | a record is in the drug stage exactly when it is one day of some prescription's range |
| UttreeExtractStruct.CreateDrugStageDf | uttree/extract_struct.py:26-44 | the loop returns the drug stage, prescription after prescription |
| UttreeExtractStruct.LabStage | uttree/extract_struct.py:60-68 | the lab stage fails exactly when a chart time is unparsable; otherwise one `RealTime` record per lab event, in order |
| UttreeExtractStruct.LabStageSnoc | uttree/extract_struct.py:60-68 | one more lab event adds its record at the end, or fails |
| UttreeExtractStruct.LabStageAgrees | uttree/extract_struct.py:46-68 | for events of selected patients the lab stage equals the preprocessing pipeline's lab quadruples |
| UttreeExtractStruct.MergedStage | uttree/extract_struct.py:70-82 | the merged table lists every lab record first, then the drug stage, and fails only when the lab stage fails |
| UttreeExtractUnstruct.ReplacementsAreCedOrder | uttree/extract_unstruct.py:28-45 | the dictionary of substitutions cleans text exactly as `ced/extract_unstruct.py` does |
| UttreeExtractUnstruct.FirstRules | uttree/extract_unstruct.py:31-33 | the first three substitutions: brackets, numbering, `dr.` |
| UttreeExtractUnstruct.MiddleRules | uttree/extract_unstruct.py:34-36 | the next three: `m.d.` and both admission-date headers |
| UttreeExtractUnstruct.LaterRules | uttree/extract_unstruct.py:37-39 | the next three: both discharge-date headers and the capitalised birth-date header |
| UttreeExtractUnstruct.LastRules | uttree/extract_unstruct.py:40-41 | the last two: the lower-case birth-date header and `--`, `__`, `==` |
| UttreeExtractUnstruct.PreprocessText | uttree/extract_unstruct.py:28-45 | the substitution loop and `strip()` give the case-sensitive clean text |
| RegexPasses.RunRules | uttree/extract_unstruct.py:43-44 | rebinding the text once per dictionary entry applies every rule once, in insertion order |
| UttreeExtractUnstruct.NoteSections | uttree/extract_unstruct.py:59-73 | `zip` stops at the shorter of spans and categories: one section per pair, in order |
| UttreeExtractUnstruct.ProcessNote | uttree/extract_unstruct.py:59-73 | the loop returns the note's sections |
| UttreeExtractUnstruct.SectionsStep | uttree/extract_unstruct.py:63-72 | one more pair adds exactly its section |
| UttreeExtractUnstruct.SectionsCopyNote | uttree/extract_unstruct.py:65-71 | each section copies the note's admission, patient, date and category and takes its own section category |
| UttreeExtractUnstruct.SectionConcepts | uttree/extract_unstruct.py:75-94 | one concept per entity with a linked candidate, in order, read from its first CUI |
| UttreeExtractUnstruct.ExtractEntities | uttree/extract_unstruct.py:75-94 | the loop returns the section's concepts |
| UttreeExtractUnstruct.BatchSectionsStep | uttree/extract_unstruct.py:99-100 | one more note adds exactly its sections |
| UttreeExtractUnstruct.BatchConceptsStep | uttree/extract_unstruct.py:103-104 | one more section adds exactly its concepts |
| UttreeExtractUnstruct.ProcessBatch | uttree/extract_unstruct.py:96-106 | all sections of the batch first, then the concepts of every section in order |
| MedicalNer.CleanToken | vgsimi/medical_ner.py:17-21 | a `##` word piece loses exactly its first two characters; any other token comes out empty or without whitespace at either end |
| MedicalNer.SpecialTokensVanish | vgsimi/medical_ner.py:21 | `[CLS]` and `[SEP]` clean to the empty token |
| MedicalNer.WholeMarkerRemoved | vgsimi/medical_ner.py:21 | replacing a marker in the marker itself leaves nothing |
| MedicalNer.MinConf | vgsimi/medical_ner.py:50 | the merged confidence is the smaller of the two and one of them |
| MedicalNer.MergeTokens | vgsimi/medical_ner.py:36-61 | the token loop returns the entities of the merge, the open entity closed at the end |
| MedicalNer.ProcessText | vgsimi/medical_ner.py:24-70 | the whole of `process_text` after the network: merged entities with confidence above 0.5, texts stripped |
| MedicalNer.SkippedTokensIgnored | vgsimi/medical_ner.py:40-43 | tokens predicted `O` or cleaning to nothing have no effect on the merge |
| MedicalNer.CollapseRuns | vgsimi/medical_ner.py:48-58 | collapsing runs of equal labels never lengthens the list, empties it only when it was empty and keeps the last label |
| MedicalNer.EntityLabels | vgsimi/medical_ner.py:55-57 | the labels of the entities, one per entity |
| MedicalNer.OpenIffConsidered | vgsimi/medical_ner.py:37-54 | an entity is open exactly when some token was considered, and without one there are no entities |
| MedicalNer.EntitiesFollowLabelRuns | vgsimi/medical_ner.py:39-61 | the entities' labels are the considered tokens' labels with runs of equal labels collapsed: one entity per run |
| MedicalNer.EntityLabelsConcat | vgsimi/medical_ner.py:53-61 | appending entities appends their labels |
| MedicalNer.CollapseRunsNoRepeats | vgsimi/medical_ner.py:48-58 | no two neighbouring collapsed labels are equal |
| MedicalNer.NeighboursDiffer | vgsimi/medical_ner.py:48-58 | two neighbouring entities never share a label |
| MedicalNer.EntityFacts | vgsimi/medical_ner.py:41-58 | every entity has non-empty text and the confidence of one of its considered tokens |
| MedicalNer.ConfidentKept | vgsimi/medical_ner.py:64-68 | the filter keeps exactly the entities with confidence above 0.5, texts stripped, and never adds one |
| MedicalNer.KeptAreConfident | vgsimi/medical_ner.py:64-68 | every kept entity is confident and its text is already stripped |
| MedicalNer.KeptExactly | vgsimi/medical_ner.py:64-68 | an entity is kept exactly when it is a stripped confident one |
| MedicalNer.EntitiesConfident | vgsimi/medical_ner.py:24-70 | `process_text` returns exactly the stripped confident merged entities |
| MedicalNer.SameLabelJoins | vgsimi/medical_ner.py:48-50 | two tokens with one label make one entity: a word piece is glued on, a word joined with a space, the lower confidence kept |
| MedicalNer.ChangedLabelSplits | vgsimi/medical_ner.py:51-58 | two tokens with different labels make two entities |
| MedicalNer.CleanPlainWord | vgsimi/medical_ner.py:21 | a plain word without brackets or outer whitespace cleans to itself |
| MedicalNer.NoBracketUnchanged | vgsimi/medical_ner.py:21 | removing a bracketed marker from text without `[` changes nothing |
| MedicalNer.ComprehensionEach | vgsimi/medical_ner.py:77 | the comprehension completes exactly when every text of the batch runs, and then holds each text's own entities |
| MedicalNer.NoneStaysNone | vgsimi/medical_ner.py:77 | once a text has raised, the comprehension over the whole batch raises |
| MedicalNer.RunBatch | vgsimi/medical_ner.py:77 | the loop over the batch gives the comprehension's value: the entities in order, or nothing when a text raises |
| MedicalNer.BatchOutcomeEach | vgsimi/medical_ner.py:75-81 | a batch gives one result per text: the text's entities when every text runs, else `[]` for each |
| MedicalNer.ProcessSlice | vgsimi/medical_ner.py:75-81 | the `try`/`except` gives the batch outcome |
| MedicalNer.ProcessSlices | vgsimi/medical_ner.py:73-82 | the loop over `range(0, len(texts), batch_size)` appends each batch's outcome, in batch order |
| MedicalNer.ProcessBatch | vgsimi/medical_ner.py:72-82 | the batch loop returns the batches' outcomes in order; a zero batch size raises, a negative one gives no result |
| MedicalNer.BatchStart | vgsimi/medical_ner.py:74 | the start of the batch holding text `k` lies within one batch size before it |
| MedicalNer.BatchResultsPerText | vgsimi/medical_ner.py:72-82 | exactly one list per text, in order: its own entities, or `[]` when its batch failed |
| MedicalNer.WithinBatch | vgsimi/medical_ner.py:74-75 | every text of a batch belongs to that batch |
| MedicalNer.HeadAt | vgsimi/medical_ner.py:74-81 | a text of a batch gets the outcome its batch gives it |
| MedicalNer.ExpectedWhenAllRun | vgsimi/medical_ner.py:72-82 | when every text runs, each text's expected result is its own entities |
| MedicalNer.AllRun | vgsimi/medical_ner.py:72-82 | when every text runs, the results are every text's entities in order |
| UiUtils.BrowserPort | components/ui_utils.py:6 | the port is `7474` exactly for the `neo4j` scheme and `7473` for every other |
| UiUtils.BrowserUrl | components/ui_utils.py:3-7 | the Browser URL starts with `http://` and ends with `/browser/` |
| UiUtils.BrowserUrlReadsBack | components/ui_utils.py:7 | the host text and the port can be read back from the URL |
| UiUtils.BrowserUrlInjective | components/ui_utils.py:3-7 | two URIs give the same URL exactly when their host texts match and both or neither use the `neo4j` scheme |
| UiUtils.OtherSchemesUse7473 | components/ui_utils.py:6 | `bolt` and `neo4j+s` get 7473, `neo4j` gets 7474 |
| UiUtils.FirstThree | components/ui_utils.py:17 | a list shows its first three items, or all of them when it has fewer |
| UiUtils.MetadataLines | components/ui_utils.py:14-19 | one line per entry, in dictionary order |
| UiUtils.FormatMetadata | components/ui_utils.py:9-21 | the loop returns the empty string for no or empty metadata, otherwise the entry lines joined by line breaks |
| UiUtils.LineIsSingle | components/ui_utils.py:17-19 | a line built from single-line keys and values holds no line break |
| UiUtils.OneLinePerEntry | components/ui_utils.py:9-21 | with single-line keys and values the text splits back into exactly the entry lines, with one line break fewer than entries |
| UiUtils.ListShowsFirstThree | components/ui_utils.py:17 | items past the third never appear, and a list line ends with `...` |
| VectorStorage.PropertiesOf | uttree_v2/4_vector_storage.py:172-180 | the properties carry the admission id and sequence, the mapped patient or -1, and the sequence length |
| VectorStorage.EventCountIsSeparators | uttree_v2/4_vector_storage.py:179 | the event count is the number of `_`, one fewer than the `_`-separated fields |
| VectorStorage.StoreEmbeddings | uttree_v2/4_vector_storage.py:148-200 | the loop returns the index of written admissions and the success count |
| VectorStorage.IndexHoldsStored | uttree_v2/4_vector_storage.py:166-190 | the index's keys, listed once each in insertion order, are exactly the ids of results with an embedding whose write succeeded; the count is the number of such results and bounds the index size |
| VectorStorage.OneEntryPerSuccess | uttree_v2/4_vector_storage.py:189-190 | with distinct written ids the index size equals the success count |
| VectorStorage.FirstKeyIsFirstStored | uttree_v2/4_vector_storage.py:382-383 | the index's first key is the first result that was written |
| VectorStorage.NothingStored | uttree_v2/4_vector_storage.py:166-197 | when no write succeeds the index is empty and the count zero |
| VectorStorage.TestSimilaritySearch | uttree_v2/4_vector_storage.py:295-358 | the loop returns the search result: `[]` without a stored object or on failure, else the other admissions cut to `limit` |
| VectorStorage.SearchExcludesTest | uttree_v2/4_vector_storage.py:323-354 | the search never returns the test admission, returns at most `limit`, and keeps the store's nearest-first order |
| VectorStorage.SearchTestFromFirstStored | uttree_v2/4_vector_storage.py:382-384 | the search test runs exactly when some result was written, from the first one |
| VectorStorage.SearchTestRunsWhenStored | uttree_v2/4_vector_storage.py:382-384 | there is a first index key to search with exactly when some result was written |
| Analysis.FindSimilarPatients | uttree_v2/5_analysis.py:137-202 | the loop returns the similar patients: `[]` without a stored object or on failure, else the other admissions cut to `limit` |
| Analysis.SimilarExcludesQuery | uttree_v2/5_analysis.py:165-198 | no result is the query admission; at most `limit` results; they are the first of the other hits in the store's order, exactly `limit` of them when there are that many, all of them otherwise |
| Analysis.UnknownQueryFindsNothing | uttree_v2/5_analysis.py:165-167 | an admission with no stored object finds nobody |
| Analysis.CandidateKsRange | uttree_v2/5_analysis.py:231 | the candidate cluster counts are 2, 3, ... below `min(10, n // 2)`: none for five or fewer embeddings, at most eight, each at most 9 and at most half of `n - 2` |
| Analysis.KScores | uttree_v2/5_analysis.py:234-245 | one score entry per candidate, in order |
| Analysis.BestIndex | uttree_v2/5_analysis.py:248 | the chosen entry is one of the scores |
| Analysis.BestIsFirstMaximum | uttree_v2/5_analysis.py:248 | `max` picks an entry with the greatest silhouette, the first of them: every earlier entry scores strictly less |
| Analysis.BestBySilhouette | uttree_v2/5_analysis.py:248 | the loop finds that first maximum |
| Analysis.PerformClusteringAnalysis | uttree_v2/5_analysis.py:204-301 | the method returns the clustering result or the `max` failure |
| Analysis.ClusteringChoosesBestK | uttree_v2/5_analysis.py:219-296 | no embeddings give no clustering; one to five raise because `max` gets no candidates; six or more give one score per candidate, a chosen count among them with the greatest silhouette and the first such, and the hierarchical score at that count |
| Analysis.FirstMatch | uttree_v2/5_analysis.py:390-393 | the first graph row of the admission, or none exactly when no row has it |
| Analysis.HadmIds | uttree_v2/5_analysis.py:366 | the similar patients' admission ids, in order |
| Analysis.CombineAll | uttree_v2/5_analysis.py:387-398 | one combined record per similar patient, with its first graph row if any |
| Analysis.TestGraphragIntegration | uttree_v2/5_analysis.py:346-408 | the loop returns the integration result |
| Analysis.CollectHadmIds | uttree_v2/5_analysis.py:366 | the ids sent to the graph are the similar patients' admission ids, in order |
| Analysis.CombineRecords | uttree_v2/5_analysis.py:387-398 | one record per similar patient, in order, each with the first graph row of its own admission |
| Analysis.IntegrationOnePerPatient | uttree_v2/5_analysis.py:358-408 | no similar patients gives the error entry; a failed graph query gives `integration_success` false; otherwise one record per similar patient in order, with that admission's graph row when the graph has one and none exactly when it has none |
| Analysis.IntegrationExcludesTest | uttree_v2/5_analysis.py:360-398 | the test admission never appears among the integrated records |
| Analysis.GenerateAnalysisReport | uttree_v2/5_analysis.py:410-475 | the method returns the report, or the failure of the clustering stage |
| Analysis.ReportStages | uttree_v2/5_analysis.py:426-466 | no embeddings give the error report; one to five raise; every report carries the time, version `v2` and the model; six or more give the total, the distinct patient count, a clustering and a search from the first object |
| LoadVectors.AdmissionIds | vgsimi/load_vectors_lab_presc.py:148 | the sampled vectors' admission ids, in order |
| LoadVectors.FilteredRows | vgsimi/load_vectors_lab_presc.py:142-166 | an admission, prescription, lab event or note is kept exactly when it belongs to a sampled admission and, for lab events, has an abnormal flag, for notes, more than 50 words; a patient exactly when a kept admission is theirs; the vectors are the sample |
| LoadVectors.AbnormalFlagCases | vgsimi/load_vectors_lab_presc.py:156-157 | the flag test ignores case and needs a whole listed word: `ABNORMAL` and `Abn.` pass, `delta`, `abnormally` and a missing flag do not |
| LoadVectors.FValues | vgsimi/load_vectors_lab_presc.py:33-39 | the kept feature values are never more than the row's values |
| LoadVectors.FirstRow | vgsimi/load_vectors_lab_presc.py:38-39 | the first vector row of the admission, or none exactly when no row has it |
| LoadVectors.AllFeatureColumns | vgsimi/load_vectors_lab_presc.py:33 | when every column starts with `f`, the whole row is the vector |
| LoadVectors.NoFeatureColumns | vgsimi/load_vectors_lab_presc.py:33 | without `f` columns the vector is empty |
| LoadVectors.AdmissionWrites | vgsimi/load_vectors_lab_presc.py:36-41 | one write per admission, in order, each with its looked-up vector |
| LoadVectors.LoadAdmissions | vgsimi/load_vectors_lab_presc.py:31-41 | the loop issues exactly those writes |
| LoadVectors.VectorLookup | vgsimi/load_vectors_lab_presc.py:38-39 | an admission without a vector row gets `[]`, otherwise the feature values of its first row |
| LoadVectors.NodeId | vgsimi/load_vectors_lab_presc.py:48-70 | the node id is the prefix followed by the row id |
| LoadVectors.EventWrites | vgsimi/load_vectors_lab_presc.py:46-50 | one write per row, in order, carrying its node id and admission |
| LoadVectors.LoadEvents | vgsimi/load_vectors_lab_presc.py:43-74 | a loader loop issues those writes and counts one per row |
| Seqs.Column | uttree_v2/5_analysis.py:443 | a column holds the projected value of every row, in row order |
| LoadVectors.LoadLabEvents | vgsimi/load_vectors_lab_presc.py:43-52 | one `LAB_` write per lab row and a count of all of them |
| LoadVectors.LoadPrescriptions | vgsimi/load_vectors_lab_presc.py:54-63 | one `PRESCRIPTION_` write per prescription and a count of all of them |
| LoadVectors.NotesNeverLoaded | vgsimi/load_vectors_lab_presc.py:65-140 | as written, loading any non-empty notes table fails before a write |
| LoadVectors.LoadNoteEvents | vgsimi/load_vectors_lab_presc.py:65-74 | with the note writer in its place, one `NOTE_` write per note and a count of all of them |
| LoadVectors.NodeIdsDistinct | vgsimi/load_vectors_lab_presc.py:48-70 | ids from the three prefixes are equal exactly when prefix and row id are |
| LoadVectors.EventIdsDistinct | vgsimi/load_vectors_lab_presc.py:46-50 | distinct row ids give distinct node ids |
| LoadVectors.LoadNoteEventsAsWritten | vgsimi/load_vectors_lab_presc.py:65-140 | as written, the note loader succeeds only on an empty table, writing nothing |
| Text.Strip | uttree_v2/2_nlp_processing.py:92 | `strip()` leaves no stripped character at either end |
| Text.StripInfix | uttree_v2/2_nlp_processing.py:92 | `strip()` removes characters only from the two ends: the result is a slice with only stripped characters around it |
| Text.StripIdempotent | ced/extract_unstruct.py:25 | stripping twice is stripping once |
| Text.SplitJoin | components/ui_utils.py:21 | splitting at a character and joining with it gives the text back |
| Text.JoinSplit | components/ui_utils.py:21 | joining parts without the separator and splitting again gives the parts back |
| Text.WordsAreWords | vgsimi/load_vectors_lab_presc.py:163 | `str.split()` yields non-empty words without whitespace |
| Text.Lower | vgsimi/load_vectors_lab_presc.py:157 | `str.lower()` maps each character on its own and keeps the length |
| Text.Count | uttree_v2/4_vector_storage.py:179 | `str.count` of a character is at most the length and zero exactly when the character is absent |
| Text.NatToStringRoundTrip | vgsimi/load_vectors_lab_presc.py:48 | the decimal text of a row id reads back as that number |
| Text.IntToStringInjective | vgsimi/load_vectors_lab_presc.py:48-70 | distinct integers render as distinct decimal texts |
| Seqs.PyPrefix | uttree_v2/5_analysis.py:198 | the slice `[:stop]` is a prefix of `stop` items, all items when there are fewer, and for a negative `stop` all but the last `-stop` |
| Seqs.Range | uttree_v2/5_analysis.py:231 | `range(lo, hi)` lists `lo`, `lo + 1`, ... below `hi` |
| Seqs.SortedDistinctProps | uttree_v2/2_nlp_processing.py:287 | `sorted(unique(...))` is strictly increasing and holds exactly the values of the column |
| Seqs.RankOrder | uttree_v2/2_nlp_processing.py:287-288 | the 1-based rank among sorted distinct values orders values both ways |
| Seqs.RankDense | uttree_v2/2_nlp_processing.py:287 | the `k`-th sorted value has rank `k` |
| Sorting.SortBy | uttree_v2/2_nlp_processing.py:233 | `sort_values` returns a permutation of the rows |
| Sorting.SortBySorted | uttree_v2/2_nlp_processing.py:233 | and the rows come out ordered by the key |

## Left out

- File and CSV reading, the settings loader, plotting, the dendrogram, progress prints and counters: rows arrive as sequences, and nothing is written to disk.
- The spaCy, medspaCy, scispaCy, negex and UMLS pipelines and the transformer network are not modelled. Their outputs are given values: section spans with their categories, entities with their candidate concept ids, and scored tokens.
- The Ollama, Weaviate and Neo4j calls are function-typed parameters. A call that raises returns `None` or `Err`. This covers schema creation, `_get_subject_id_mapping` (its map is an input), `link_admissions_to_vectors`, `create_vector_similarity_index`, `close_connections` and `load_patients`. Only the writes the loaders issue are modelled, not the effect of the Cypher `MERGE`/`SET`/`CREATE` they run.
- `urlparse` is not modelled. Its scheme and host name are the input of `UiUtils.BrowserUrl`.
- `format_metadata` values arrive already rendered by `str`. Python's rendering of numbers and other objects is not modelled.
- Floating point is not modelled; vectors and scores are `real`. Rounding in the chunk-embedding average is not modelled.
- `StandardScaler`, `KMeans`, `AgglomerativeClustering`, `linkage` and both cluster-quality scores are not modelled. The scores are a parameter of the cluster count, so the cluster labels and the linkage matrix are not in the result.
- `analyze_patient_similarity_patterns` and the `embedding_dimensions` statistic (a numpy shape) are left out; they are statistics over floats.
- `datetime.now()` is a parameter: in `ced/extract_struct.py`, `uttree_v2/4_vector_storage.py` and the analysis report.
- `np.random.choice` and `vectors_df.sample` are not modelled; the sampled rows are an input. The `ValueError` that `sample` raises when asked for more rows than exist is not modelled.
- The `ProcessPoolExecutor` fan-out in `uttree/extract_unstruct.py` `main` is not modelled; only `process_batch` on one batch is. The order in which `as_completed` returns batches is nondeterministic. `lru_cache` on `process_text` changes no result.
- `sort_values` uses an unstable quicksort by default. It is modelled as a stable sort, so rows with equal keys keep their input order here.
- pandas `NaN` is modelled only where the code fills it: missing admission ids become -1 and lab flags become `normal`. A missing note text or a float row id is not modelled.
- `str.lower` and the `re.IGNORECASE` matching of `preprocess_text` fold case on ASCII letters only; Unicode case mapping is not modelled. `str.strip` and `str.split` use Python's full `isspace` set.
- `pd.to_datetime` on a column with a date string it cannot parse raises outside any `try` at `uttree_v2/1_data_preprocessing.py:91-92`, `uttree/extract_struct.py:22-23` and `uttree/1_my_struct.py:55-56`, aborting the script. Dates arrive as day numbers, so that abort is not modelled; a `None` date is a missing one. Note dates stay CHARTDATE strings in the source; the model compares two note dates by day, which agrees with the string order of the ISO form those strings take.
- `NlpQuadruples.IntegrateStructuredUnstructured` treats an empty unstructured list as an empty frame. In the source that frame would have no `hadm_id` column, but the pipeline never reaches it: `generate_unstructured_quadruples` has already raised on the same empty input.
- `uttree_v2/3_tree_embedding.py:244,250,279` hold a literal `\n` outside a string, so that file does not parse as written. The model follows the evident line structure.
- `Relabeling`: leaves keep their own names, apart from the relabelled node names. In the source, `nx.relabel_nodes` would merge a type or window node into a leaf whose name equals its new label. That needs an event name that starts with `_`, and the model does not capture it.
- `TemporalTree` and `Relabeling`: an admission with no rows gives the root label `PID`, as the code does.
- `NlpProcessing`: negated concepts are kept, as the code does; the negation flag is carried but never used.
- `VectorStorage.OneEntryPerSuccess`: the dictionary size equals the success count only when the written admission ids are distinct. A repeated id overwrites its entry but is counted twice, so in general only `VectorStorage.IndexHoldsStored`'s bound holds.
- `Analysis.CombineAll`: the graph row and the patient record are kept side by side rather than merged into one dictionary. Their only shared key is `hadm_id`, and the two values are equal.
- `vgsimi/add_temp_tree_strings.py` defines `update_admission_strings_and_vectors` twice, and the later definition wins. That function only writes to the graph database and is not modelled.
- The rename at `vgsimi/load_vectors_lab_presc.py:199-200` can never run, because its condition contradicts itself. It is left out.

## Findings

| source | as written | input that shows it | evidently intended | confidence | as-written member | corrected member |
|---|---|---|---|---|---|---|
| ced/extract_struct.py:48-68 | `create_dataframes` assigns to a column of the frame built from the medication (or lab) list. An empty list gives a frame without that column, and the assignment raises `KeyError` | a record with lab results and no `MEDICATIONS` section, so `medications == []` | an empty list gives an empty frame, and the other frame is built as usual | not executed | CedExtractStruct.CreateDataframesAsWritten | CedExtractStruct.CreateDataframes |
| vgsimi/load_vectors_lab_presc.py:65-140 | `_create_note_event` is indented inside the body of `_create_prescription`, so `Neo4jLoader` has no such attribute. `load_note_events` raises `AttributeError` on its first note | any notes table with one row that passes the filter (a selected admission, more than 50 words) | one `NOTE_<row_id>` node written per note, like the lab and prescription loaders | not executed | LoadVectors.LoadNoteEventsAsWritten | LoadVectors.LoadNoteEvents |
