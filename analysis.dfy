/** `uttree_v2/5_analysis.py`: the similarity search from one admission, the
    choice of the number of clusters, the join of search results with graph
    counts, and the report that runs all three. Weaviate, Neo4j and the
    clustering library are inputs: the objects they return, or the scores they
    compute. */
module Analysis {
  import opened Wrappers
  import opened Seqs

  // ---------------------------------------------------------------------------
  // `find_similar_patients`

  /** One similar patient as `find_similar_patients` records it. */
  datatype Similar = Similar(
    hadmId: int, subjectId: int, distance: real, certainty: real,
    sequenceLength: int, medicalEventsCount: int)

  /** The vectors of the objects stored for an admission; `None` when the query
      raises. */
  type Lookup = int -> Option<seq<seq<real>>>

  /** The objects nearest to a vector, nearest first, at most the given number of
      them; `None` when the query raises. */
  type NearSearch = (seq<real>, int) -> Option<seq<Similar>>

  /** The hits whose admission is not `queryId`, in the order the store ranked them. */
  function Others(hits: seq<Similar>, queryId: int): seq<Similar> {
    Filter(hits, (h: Similar) => h.hadmId != queryId)
  }

  /** `find_similar_patients`: nothing when the query admission has no object or a
      query raises; otherwise the first `limit` of the `limit + 1` nearest objects
      that are not the query admission. */
  function SimilarPatients(queryId: int, limit: int, lookup: Lookup, near: NearSearch): seq<Similar> {
    var found := lookup(queryId);
    if found.None? || found.value == [] then []
    else
      var hits := near(found.value[0], limit + 1);
      if hits.None? then [] else PyPrefix(Others(hits.value, queryId), limit)
  }

  /** The loop over the search results, then the slice. */
  method FindSimilarPatients(queryId: int, limit: int, lookup: Lookup, near: NearSearch)
    returns (similar: seq<Similar>)
    ensures similar == SimilarPatients(queryId, limit, lookup, near)
  {
    var found := lookup(queryId);
    if found.None? || found.value == [] {
      return [];
    }
    var results := near(found.value[0], limit + 1);
    if results.None? {
      return [];
    }
    var hits := results.value;
    var kept: seq<Similar> := [];
    for i := 0 to |hits|
      invariant kept == Others(hits[..i], queryId)
    {
      assert hits[..i + 1][..i] == hits[..i];
      if hits[i].hadmId != queryId {
        kept := kept + [hits[i]];
      }
    }
    assert hits[..|hits|] == hits;
    similar := PyPrefix(kept, limit);
  }

  /** The query admission is never among its similar patients; there are at most
      `limit` of them, nearest first; and an admission the store ranked before the
      cut is never dropped. */
  lemma SimilarExcludesQuery(queryId: int, limit: int, lookup: Lookup, near: NearSearch)
    ensures forall k :: 0 <= k < |SimilarPatients(queryId, limit, lookup, near)| ==>
      SimilarPatients(queryId, limit, lookup, near)[k].hadmId != queryId
    ensures limit >= 0 ==> |SimilarPatients(queryId, limit, lookup, near)| <= limit
    ensures (lookup(queryId).Some? && lookup(queryId).value != [] &&
      near(lookup(queryId).value[0], limit + 1).Some?) ==>
      var others := Others(near(lookup(queryId).value[0], limit + 1).value, queryId);
      var r := SimilarPatients(queryId, limit, lookup, near);
      r == others[..|r|] && (0 <= limit <= |others| ==> |r| == limit) &&
      (limit >= |others| ==> r == others)
  {
    var found := lookup(queryId);
    if found.Some? && found.value != [] {
      var hits := near(found.value[0], limit + 1);
      if hits.Some? {
        FilterMembers(hits.value, (h: Similar) => h.hadmId != queryId);
      }
    }
  }

  /** No object for the query admission means no similar patients. */
  lemma UnknownQueryFindsNothing(queryId: int, limit: int, lookup: Lookup, near: NearSearch)
    requires lookup(queryId) == Some([])
    ensures SimilarPatients(queryId, limit, lookup, near) == []
  {
  }

  // ---------------------------------------------------------------------------
  // `perform_clustering_analysis`

  /** `range(2, min(10, n // 2))`: the numbers of clusters tried for `n`
      embeddings. */
  function CandidateKs(n: nat): seq<int> {
    var hi := if n / 2 < 10 then n / 2 else 10;
    if hi <= 2 then [] else Range(2, hi)
  }

  /** There are candidates exactly when there are at least six embeddings; they
      run upwards from 2, stay below 10, and every candidate splits the
      embeddings into clusters of two on average or more. */
  lemma CandidateKsRange(n: nat)
    ensures CandidateKs(n) == [] <==> n <= 5
    ensures |CandidateKs(n)| <= 8
    ensures forall i :: 0 <= i < |CandidateKs(n)| ==>
      CandidateKs(n)[i] == 2 + i && CandidateKs(n)[i] <= 9 && 2 * CandidateKs(n)[i] + 2 <= n
  {
  }

  /** One entry of `kmeans_scores`. */
  datatype KScore = KScore(nClusters: int, silhouette: real, calinskiHarabasz: real)

  /** The silhouette and Calinski–Harabasz scores of the K-means labelling with
      `k` clusters (seeded, so a function of `k` for fixed embeddings). */
  type Scorer = int -> (real, real)

  function ScoreOf(k: int, score: Scorer): KScore {
    KScore(k, score(k).0, score(k).1)
  }

  function KScores(ks: seq<int>, score: Scorer): (r: seq<KScore>)
    ensures |r| == |ks|
    ensures forall i :: 0 <= i < |ks| ==> r[i] == ScoreOf(ks[i], score)
  {
    if ks == [] then [] else KScores(ks[..|ks| - 1], score) + [ScoreOf(ks[|ks| - 1], score)]
  }

  /** The position `max(scores, key=silhouette)` picks: Python keeps the current
      maximum unless a later item is strictly greater. */
  function BestIndex(s: seq<KScore>): (b: nat)
    requires s != []
    ensures b < |s|
  {
    if |s| == 1 then 0
    else
      var b := BestIndex(s[..|s| - 1]);
      if s[|s| - 1].silhouette > s[b].silhouette then |s| - 1 else b
  }

  /** The chosen entry has the largest silhouette, and is the first entry that
      does. */
  lemma {:induction false} BestIsFirstMaximum(s: seq<KScore>)
    requires s != []
    ensures forall j :: 0 <= j < |s| ==> s[j].silhouette <= s[BestIndex(s)].silhouette
    ensures forall j :: 0 <= j < BestIndex(s) ==> s[j].silhouette < s[BestIndex(s)].silhouette
  {
    if |s| > 1 {
      var init := s[..|s| - 1];
      BestIsFirstMaximum(init);
      assert forall j :: 0 <= j < |init| ==> init[j] == s[j];
    }
  }

  /** `max` over the entries, as the loop it performs. */
  method BestBySilhouette(s: seq<KScore>) returns (b: nat)
    requires s != []
    ensures b == BestIndex(s)
  {
    b := 0;
    for i := 1 to |s|
      invariant b == BestIndex(s[..i])
    {
      assert s[..i + 1][..i] == s[..i];
      if s[i].silhouette > s[b].silhouette {
        b := i;
      }
    }
    assert s[..|s|] == s;
  }

  /** The clustering part of the report. `Clustered` holds the chosen number of
      clusters (used by both K-means and the hierarchical clustering), its
      silhouette, the scores of every candidate, and the silhouette of the
      hierarchical labelling. */
  datatype Clustering =
    | NoClustering
    | Clustered(nClusters: int, silhouette: real, scoresByK: seq<KScore>, hierarchicalSilhouette: real)

  /** `perform_clustering_analysis` on `n` embeddings: `{}` for none, the
      `ValueError` of `max` over an empty list when there is no candidate, and the
      best candidate otherwise. `hierarchical(k)` is the silhouette of the
      agglomerative labelling with `k` clusters. */
  function ClusteringAnalysis(n: nat, score: Scorer, hierarchical: int -> real): Result<Clustering> {
    if n == 0 then Ok(NoClustering)
    else
      var scores := KScores(CandidateKs(n), score);
      if scores == [] then Err("ValueError: max() arg is an empty sequence")
      else
        var best := scores[BestIndex(scores)];
        Ok(Clustered(best.nClusters, best.silhouette, scores, hierarchical(best.nClusters)))
  }

  method PerformClusteringAnalysis(n: nat, score: Scorer, hierarchical: int -> real)
    returns (r: Result<Clustering>)
    ensures r == ClusteringAnalysis(n, score, hierarchical)
  {
    if n == 0 {
      return Ok(NoClustering);
    }
    var ks := CandidateKs(n);
    var scores: seq<KScore> := [];
    for i := 0 to |ks|
      invariant scores == KScores(ks[..i], score)
    {
      assert ks[..i + 1][..i] == ks[..i];
      var (silhouetteAvg, calinskiHarabasz) := score(ks[i]);
      scores := scores + [KScore(ks[i], silhouetteAvg, calinskiHarabasz)];
    }
    assert ks[..|ks|] == ks;
    if scores == [] {
      return Err("ValueError: max() arg is an empty sequence");
    }
    var b := BestBySilhouette(scores);
    var best := scores[b];
    r := Ok(Clustered(best.nClusters, best.silhouette, scores, hierarchical(best.nClusters)));
  }

  /** The outcome by the number of embeddings: nothing for none, an exception for
      one to five, and otherwise the first candidate with the largest silhouette,
      reported with its own score and every candidate's score in order. */
  lemma ClusteringChoosesBestK(n: nat, score: Scorer, hierarchical: int -> real)
    ensures n == 0 ==> ClusteringAnalysis(n, score, hierarchical) == Ok(NoClustering)
    ensures 1 <= n <= 5 ==> ClusteringAnalysis(n, score, hierarchical).Err?
    ensures n >= 6 ==>
      var r := ClusteringAnalysis(n, score, hierarchical);
      var ks := CandidateKs(n);
      r.Ok? && r.value.Clustered? &&
      |r.value.scoresByK| == |ks| &&
      (forall i :: 0 <= i < |ks| ==> r.value.scoresByK[i] == ScoreOf(ks[i], score)) &&
      r.value.nClusters in ks &&
      r.value.silhouette == score(r.value.nClusters).0 &&
      r.value.hierarchicalSilhouette == hierarchical(r.value.nClusters) &&
      (forall i :: 0 <= i < |ks| ==> score(ks[i]).0 <= r.value.silhouette) &&
      (forall i :: 0 <= i < |ks| && ks[i] < r.value.nClusters ==> score(ks[i]).0 < r.value.silhouette)
  {
    CandidateKsRange(n);
    if n >= 6 {
      var ks := CandidateKs(n);
      var scores := KScores(ks, score);
      BestIsFirstMaximum(scores);
      var b := BestIndex(scores);
      assert scores[b] == ScoreOf(ks[b], score);
      forall i | 0 <= i < |ks| && ks[i] < ks[b]
        ensures score(ks[i]).0 < score(ks[b]).0
      {
        assert i < b;
        assert scores[i] == ScoreOf(ks[i], score);
      }
      forall i | 0 <= i < |ks|
        ensures score(ks[i]).0 <= score(ks[b]).0
      {
        assert scores[i] == ScoreOf(ks[i], score);
      }
    }
  }

  // ---------------------------------------------------------------------------
  // `test_graphrag_integration`

  /** One row of the Neo4j count query. */
  datatype GraphRow = GraphRow(hadmId: int, labCount: nat, prescriptionCount: nat, noteCount: nat)

  /** The count query for a list of admission ids: its rows, or the message of
      the exception it raises. */
  type GraphQuery = seq<int> -> Result<seq<GraphRow>>

  /** A similar patient merged with its graph row, when one exists. The only key
      the two records share is `hadm_id`, and a matched row carries the same
      value, so letting the graph row win a clash changes nothing. */
  datatype Combined = Combined(patient: Similar, graph: Option<GraphRow>)

  /** The outcome of the test: the merged records, the "no similar patients"
      error, or the error of an exception. */
  datatype Integration =
    | Integrated(testHadmId: int, records: seq<Combined>)
    | NoSimilar
    | Failed(error: string)

  /** `next((g for g in rows if g['hadm_id'] == id), {})`: the first row for `id`. */
  function FirstMatch(rows: seq<GraphRow>, id: int): (m: Option<GraphRow>)
    ensures m.None? <==> forall j :: 0 <= j < |rows| ==> rows[j].hadmId != id
    ensures m.Some? ==> m.value.hadmId == id && m.value in rows
    ensures forall j :: (0 <= j < |rows| && rows[j].hadmId == id &&
      (forall i :: 0 <= i < j ==> rows[i].hadmId != id)) ==> m == Some(rows[j])
  {
    if rows == [] then None
    else if rows[0].hadmId == id then Some(rows[0])
    else
      assert forall j :: 1 <= j < |rows| ==> rows[j] == rows[1..][j - 1];
      FirstMatch(rows[1..], id)
  }

  function HadmIds(ps: seq<Similar>): (ids: seq<int>)
    ensures |ids| == |ps| && forall i :: 0 <= i < |ps| ==> ids[i] == ps[i].hadmId
  {
    seq(|ps|, i requires 0 <= i < |ps| => ps[i].hadmId)
  }

  function CombineAll(ps: seq<Similar>, rows: seq<GraphRow>): (r: seq<Combined>)
    ensures |r| == |ps|
    ensures forall i :: 0 <= i < |ps| ==> r[i] == Combined(ps[i], FirstMatch(rows, ps[i].hadmId))
  {
    if ps == [] then []
    else CombineAll(ps[..|ps| - 1], rows) + [Combined(ps[|ps| - 1], FirstMatch(rows, ps[|ps| - 1].hadmId))]
  }

  /** `test_graphrag_integration` for `testId`, with the five nearest other
      admissions. */
  function GraphragIntegration(testId: int, lookup: Lookup, near: NearSearch, graph: GraphQuery): Integration {
    var ps := SimilarPatients(testId, 5, lookup, near);
    if ps == [] then NoSimilar
    else
      match graph(HadmIds(ps))
      case Err(e) => Failed(e)
      case Ok(rows) => Integrated(testId, CombineAll(ps, rows))
  }

  method TestGraphragIntegration(testId: int, lookup: Lookup, near: NearSearch, graph: GraphQuery)
    returns (r: Integration)
    ensures r == GraphragIntegration(testId, lookup, near, graph)
  {
    var similar := FindSimilarPatients(testId, 5, lookup, near);
    if similar == [] {
      return NoSimilar;
    }
    var ids := CollectHadmIds(similar);
    var answer := graph(ids);
    if answer.Err? {
      return Failed(answer.msg);
    }
    var integrated := CombineRecords(similar, answer.value);
    r := Integrated(testId, integrated);
  }

  /** The admission ids sent to the graph query, in the order of the patients. */
  method CollectHadmIds(similar: seq<Similar>) returns (ids: seq<int>)
    ensures ids == HadmIds(similar)
  {
    ids := [];
    for i := 0 to |similar|
      invariant ids == HadmIds(similar[..i])
    {
      ids := ids + [similar[i].hadmId];
    }
    assert similar[..|similar|] == similar;
  }

  /** One record per similar patient with the first graph row of its admission. */
  method CombineRecords(similar: seq<Similar>, rows: seq<GraphRow>) returns (integrated: seq<Combined>)
    ensures integrated == CombineAll(similar, rows)
  {
    integrated := [];
    for i := 0 to |similar|
      invariant integrated == CombineAll(similar[..i], rows)
    {
      assert similar[..i + 1][..i] == similar[..i];
      integrated := integrated + [Combined(similar[i], FirstMatch(rows, similar[i].hadmId))];
    }
    assert similar[..|similar|] == similar;
  }

  /** The `"error"` entry of the returned dictionary, if any. */
  function ErrorEntry(i: Integration): Option<string> {
    match i
    case Integrated(_, _) => None
    case NoSimilar => Some("No similar patients found")
    case Failed(e) => Some(e)
  }

  /** The `"integration_success"` entry, if any: absent for "no similar patients". */
  function SuccessEntry(i: Integration): Option<bool> {
    match i
    case Integrated(_, _) => Some(true)
    case NoSimilar => None
    case Failed(_) => Some(false)
  }

  /** A successful test keeps one record per similar patient, in order; each
      record carries the first graph row of its own admission, and carries none
      exactly when the graph returned no row for it. Without similar patients
      the test reports the error and no success flag. */
  lemma {:induction false} IntegrationOnePerPatient(testId: int, lookup: Lookup, near: NearSearch, graph: GraphQuery)
    ensures var ps := SimilarPatients(testId, 5, lookup, near);
      var r := GraphragIntegration(testId, lookup, near, graph);
      (ps == [] <==> r == NoSimilar) &&
      (r.NoSimilar? ==> ErrorEntry(r) == Some("No similar patients found") && SuccessEntry(r).None?) &&
      (r.Failed? ==> SuccessEntry(r) == Some(false) && graph(HadmIds(ps)).Err?) &&
      (r.Integrated? ==> (
        ErrorEntry(r).None? && SuccessEntry(r) == Some(true) && r.testHadmId == testId &&
        graph(HadmIds(ps)).Ok? && |r.records| == |ps| &&
        forall i :: 0 <= i < |ps| ==> (
          r.records[i].patient == ps[i] &&
          (r.records[i].graph.Some? ==> (
            r.records[i].graph.value.hadmId == ps[i].hadmId &&
            r.records[i].graph.value in graph(HadmIds(ps)).value)) &&
          (r.records[i].graph.None? <==> forall g :: g in graph(HadmIds(ps)).value ==> g.hadmId != ps[i].hadmId))))
  {
    var ps := SimilarPatients(testId, 5, lookup, near);
    var r := GraphragIntegration(testId, lookup, near, graph);
    if r.Integrated? {
      var rows := graph(HadmIds(ps)).value;
      forall i | 0 <= i < |ps|
        ensures r.records[i].graph.None? <==> forall g :: g in rows ==> g.hadmId != ps[i].hadmId
      {
        var m := FirstMatch(rows, ps[i].hadmId);
        assert m.None? <==> forall j :: 0 <= j < |rows| ==> rows[j].hadmId != ps[i].hadmId;
      }
    }
  }

  /** The test never pairs the test admission with itself. */
  lemma IntegrationExcludesTest(testId: int, lookup: Lookup, near: NearSearch, graph: GraphQuery)
    ensures var r := GraphragIntegration(testId, lookup, near, graph);
      r.Integrated? ==> forall i :: 0 <= i < |r.records| ==> r.records[i].patient.hadmId != testId
  {
    SimilarExcludesQuery(testId, 5, lookup, near);
  }

  // ---------------------------------------------------------------------------
  // `generate_analysis_report`

  /** The identifying fields of one stored embedding, as `get_all_embeddings`
      lists them (an empty list when that query raises). */
  datatype StoredObject = StoredObject(hadmId: int, subjectId: int)

  /** The similarity and integration tests, run from the first stored admission. */
  datatype SearchTest = SearchTest(queryHadmId: int, similar: seq<Similar>, integration: Integration)

  datatype ReportBody =
    | NoEmbeddings(error: string)
    | Analysed(totalEmbeddings: nat, uniqueSubjects: nat, clustering: Clustering, searchTest: SearchTest)

  datatype Report = Report(timestamp: string, uttreeVersion: string, embeddingModel: string, body: ReportBody)

  function ObjectSubject(o: StoredObject): int { o.subjectId }

  /** `generate_analysis_report` with the clock reading `now`; the exception of
      the clustering step escapes it. */
  function AnalysisReport(
    now: string, objects: seq<StoredObject>, score: Scorer, hierarchical: int -> real,
    lookup: Lookup, near: NearSearch, graph: GraphQuery): Result<Report>
  {
    var header := (now, "v2", "mxbai-embed-large");
    if objects == [] then Ok(Report(header.0, header.1, header.2, NoEmbeddings("No embeddings found for analysis")))
    else
      var clustering := ClusteringAnalysis(|objects|, score, hierarchical);
      if clustering.Err? then Err(clustering.msg)
      else
        var testId := objects[0].hadmId;
        var test := SearchTest(testId, SimilarPatients(testId, 5, lookup, near), GraphragIntegration(testId, lookup, near, graph));
        Ok(Report(header.0, header.1, header.2,
          Analysed(|objects|, |Dedup(Column(objects, ObjectSubject))|, clustering.value, test)))
  }

  method GenerateAnalysisReport(
    now: string, objects: seq<StoredObject>, score: Scorer, hierarchical: int -> real,
    lookup: Lookup, near: NearSearch, graph: GraphQuery) returns (r: Result<Report>)
    ensures r == AnalysisReport(now, objects, score, hierarchical, lookup, near, graph)
  {
    if objects == [] {
      return Ok(Report(now, "v2", "mxbai-embed-large", NoEmbeddings("No embeddings found for analysis")));
    }
    var clustering := PerformClusteringAnalysis(|objects|, score, hierarchical);
    if clustering.Err? {
      return Err(clustering.msg);
    }
    var testId := objects[0].hadmId;
    var similar := FindSimilarPatients(testId, 5, lookup, near);
    var integration := TestGraphragIntegration(testId, lookup, near, graph);
    var body := Analysed(|objects|, |Dedup(Column(objects, ObjectSubject))|, clustering.value, SearchTest(testId, similar, integration));
    r := Ok(Report(now, "v2", "mxbai-embed-large", body));
  }

  /** Without embeddings the report is the header and the error; with one to five
      it is not produced at all; otherwise it counts every embedding and each
      subject once, and runs both tests from the first stored admission. */
  lemma ReportStages(
    now: string, objects: seq<StoredObject>, score: Scorer, hierarchical: int -> real,
    lookup: Lookup, near: NearSearch, graph: GraphQuery)
    ensures var r := AnalysisReport(now, objects, score, hierarchical, lookup, near, graph);
      (objects == [] ==> r.Ok? && r.value.body == NoEmbeddings("No embeddings found for analysis")) &&
      (1 <= |objects| <= 5 ==> r.Err?) &&
      (r.Ok? ==> (
        r.value.timestamp == now && r.value.uttreeVersion == "v2" &&
        r.value.embeddingModel == "mxbai-embed-large")) &&
      (|objects| >= 6 ==> (
        r.Ok? && r.value.body.Analysed? &&
        r.value.body.totalEmbeddings == |objects| &&
        r.value.body.uniqueSubjects <= |objects| &&
        (forall i :: 0 <= i < |objects| ==> objects[i].subjectId in Dedup(Column(objects, ObjectSubject))) &&
        r.value.body.clustering.Clustered? &&
        r.value.body.searchTest.queryHadmId == objects[0].hadmId))
  {
    ClusteringChoosesBestK(|objects|, score, hierarchical);
    DedupMembers(Column(objects, ObjectSubject));
  }
}
