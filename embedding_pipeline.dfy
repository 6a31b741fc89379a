/** `process_admission_to_embedding` and `process_all_admissions`: each admission's
    rows go through tree construction, relabeling and the breadth-first sequence, and
    the sequence is handed to an embedding service. The service is a parameter here:
    a function from the sequence to a vector, or `None` when the call fails. */
module EmbeddingPipeline {
  import opened Wrappers
  import opened Quadruples
  import opened TemporalTree
  import opened Relabeling
  import opened BfsSequence
  import RelabelingFacts

  type Embedder = string -> Option<seq<real>>

  /** The `(hadm_id, sequence, embedding)` triple of one admission. */
  datatype AdmissionResult = AdmissionResult(hadmId: int, sequence: string, embedding: Option<seq<real>>)

  /** The string the pipeline embeds for one admission's rows. */
  function AdmissionSequence(rows: seq<Windowed>): string {
    GenerateBfsSequence(Relabel(BuildTree(rows)))
  }

  /** What the pipeline returns for one `(hadm_id, rows)` entry. */
  function Expected(entry: (int, seq<Windowed>), embed: Embedder): (r: AdmissionResult)
    ensures r.hadmId == entry.0 && r.sequence == AdmissionSequence(entry.1)
    ensures r.embedding == embed(AdmissionSequence(entry.1))
  {
    var s := AdmissionSequence(entry.1);
    AdmissionResult(entry.0, s, embed(s))
  }

  /** The three tree stages, then the embedding call on their output. */
  method ProcessAdmissionToEmbedding(hadmId: int, rows: seq<Windowed>, embed: Embedder)
    returns (r: AdmissionResult)
    ensures r.hadmId == hadmId
    ensures r.sequence == AdmissionSequence(rows)
    ensures r.embedding == embed(r.sequence)
  {
    var tree := ConstructTemporalTree(rows);
    var relabeled := ApplyWeisfeilerLehmanRelabeling(tree);
    var sequence := GenerateBfsSequence(relabeled);
    r := AdmissionResult(hadmId, sequence, embed(sequence));
  }

  /** One result per admission, in the order of the integrated dictionary. */
  method ProcessAllAdmissions(admissions: seq<(int, seq<Windowed>)>, embed: Embedder)
    returns (results: seq<AdmissionResult>)
    ensures |results| == |admissions|
    ensures forall i :: 0 <= i < |admissions| ==> results[i] == Expected(admissions[i], embed)
  {
    results := [];
    var idx := 0;
    while idx < |admissions|
      invariant 0 <= idx <= |admissions|
      invariant |results| == idx
      invariant forall i :: 0 <= i < idx ==> results[i] == Expected(admissions[i], embed)
    {
      var result := ProcessAdmissionToEmbedding(admissions[idx].0, admissions[idx].1, embed);
      ResultsStep(admissions, embed, results, result);
      results := results + [result];
      idx := idx + 1;
    }
  }

  /** One turn of the admission loop keeps every earlier result in place. */
  lemma ResultsStep(admissions: seq<(int, seq<Windowed>)>, embed: Embedder,
                    results: seq<AdmissionResult>, result: AdmissionResult)
    requires |results| < |admissions|
    requires forall i :: 0 <= i < |results| ==> results[i] == Expected(admissions[i], embed)
    requires result == Expected(admissions[|results|], embed)
    ensures forall i :: 0 <= i <= |results| ==> (results + [result])[i] == Expected(admissions[i], embed)
  {
  }

  /** An admission without rows is embedded as the bare root name `PID`; every
      admission's sequence is already clean: no node id, no doubled underscore, no
      underscore at either end. */
  lemma AdmissionSequenceProps(rows: seq<Windowed>)
    ensures rows == [] ==> AdmissionSequence(rows) == RootName
    ensures var s := AdmissionSequence(rows);
      NoIds(s) && NoDoubleUnderscore(s) && NoEdgeUnderscore(s) && Clean(s) == s
  {
    var root := Relabel(BuildTree(rows)).root;
    RelabelingFacts.RootIsPidIffNoRows(rows);
    if rows == [] {
      assert RemoveIds(RootName) == RootName by { RemoveIdsIdentity(RootName); }
      assert Collapse(RootName) == RootName by { CollapseIdentity(RootName); }
      StripIdentity(RootName);
    }
    CleanProps(root);
    CleanIdempotent(root);
  }
}
