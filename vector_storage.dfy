/** `uttree_v2/4_vector_storage.py`: the bookkeeping around the vector store.
    Every admission with an embedding is written with its derived properties;
    the admissions written are indexed by id; the search test keeps the nearest
    other admissions. The store, the graph database and the clock are abstract. */
module VectorStorage {
  import opened Wrappers
  import opened Text
  import opened Seqs

  /** One pipeline result: admission id, temporal sequence, embedding if any. */
  datatype AdmissionResult = AdmissionResult(hadmId: int, sequence: string, embedding: Option<seq<real>>)

  /** The properties written with each vector. */
  datatype Properties = Properties(
    hadmId: int, subjectId: int, temporalSequence: string, embeddingModel: string,
    createdAt: string, sequenceLength: nat, medicalEventsCount: nat)

  const EmbeddingModel := "mxbai-embed-large"

  /** `data_object.create`: the new object's id, or `None` when the call raises. */
  type Store = (Properties, seq<real>) -> Option<string>

  /** The properties of one admission; `subjects` is the admission-to-patient map
      read from the graph database and `now` the ISO time of the call. */
  function PropertiesOf(hadmId: int, sequence: string, subjects: map<int, int>, now: string): (p: Properties)
    ensures p.hadmId == hadmId && p.temporalSequence == sequence
    ensures p.subjectId == (if hadmId in subjects then subjects[hadmId] else -1)
    ensures p.sequenceLength == |sequence|
  {
    Properties(hadmId, if hadmId in subjects then subjects[hadmId] else -1, sequence,
               EmbeddingModel, now + "Z", |sequence|, Count(sequence, '_'))
  }

  /** The number of events the sequence records is one fewer than its
      `_`-separated fields. */
  lemma EventCountIsSeparators(hadmId: int, sequence: string, subjects: map<int, int>, now: string)
    ensures PropertiesOf(hadmId, sequence, subjects, now).medicalEventsCount + 1 == |Split(sequence, '_')|
    ensures PropertiesOf(hadmId, sequence, subjects, now).medicalEventsCount <= |sequence|
  {
    SplitCount(sequence, '_');
  }

  /** The id the store returned for one result, if it has an embedding and the
      write succeeded. */
  function StoredUuid(r: AdmissionResult, subjects: map<int, int>, now: string, store: Store): Option<string> {
    if r.embedding.None? then None
    else store(PropertiesOf(r.hadmId, r.sequence, subjects, now), r.embedding.value)
  }

  /** `hadm_id_to_uuid` (its keys in insertion order and its entries) and
      `successful_stores`. */
  datatype UuidIndex = UuidIndex(order: seq<int>, uuids: map<int, string>, successes: nat)

  /** `d[k] = v`: a new key goes to the end; an existing one keeps its place. */
  function Put(ix: UuidIndex, k: int, v: string): UuidIndex {
    UuidIndex(if k in ix.uuids then ix.order else ix.order + [k], ix.uuids[k := v], ix.successes + 1)
  }

  /** The index after the loop has seen `results`. */
  function StoreAll(results: seq<AdmissionResult>, subjects: map<int, int>, now: string, store: Store): UuidIndex {
    if results == [] then UuidIndex([], map[], 0)
    else
      var ix := StoreAll(results[..|results| - 1], subjects, now, store);
      var last := results[|results| - 1];
      match StoredUuid(last, subjects, now, store)
      case None => ix
      case Some(u) => Put(ix, last.hadmId, u)
  }

  /** `store_embeddings_in_weaviate`: the index, and the success count it prints. */
  method StoreEmbeddings(results: seq<AdmissionResult>, subjects: map<int, int>, now: string, store: Store)
    returns (order: seq<int>, uuids: map<int, string>, successes: nat)
    ensures UuidIndex(order, uuids, successes) == StoreAll(results, subjects, now, store)
  {
    order, uuids, successes := [], map[], 0;
    for i := 0 to |results|
      invariant UuidIndex(order, uuids, successes) == StoreAll(results[..i], subjects, now, store)
    {
      assert results[..i + 1][..i] == results[..i];
      var r := results[i];
      if r.embedding.None? {
        continue;
      }
      var properties := Properties(
        r.hadmId, if r.hadmId in subjects then subjects[r.hadmId] else -1, r.sequence,
        EmbeddingModel, now + "Z", |r.sequence|, Count(r.sequence, '_'));
      var created := store(properties, r.embedding.value);
      if created.None? {
        continue;
      }
      if r.hadmId !in uuids {
        order := order + [r.hadmId];
      }
      uuids := uuids[r.hadmId := created.value];
      successes := successes + 1;
    }
    assert results[..|results|] == results;
  }

  predicate Stored(r: AdmissionResult, subjects: map<int, int>, now: string, store: Store) {
    StoredUuid(r, subjects, now, store).Some?
  }

  /** The index holds exactly the admissions that were written: its keys, listed
      once each in `order`, are the ids of the results that have an embedding and
      whose write succeeded, and the count is the number of such results. */
  lemma IndexHoldsStored(results: seq<AdmissionResult>, subjects: map<int, int>, now: string, store: Store)
    ensures var ix := StoreAll(results, subjects, now, store);
      Distinct(ix.order) &&
      (forall h :: h in ix.uuids <==> h in ix.order) &&
      (forall h :: h in ix.uuids <==> exists i :: 0 <= i < |results| && results[i].hadmId == h && Stored(results[i], subjects, now, store)) &&
      ix.successes == |Filter(results, r => Stored(r, subjects, now, store))| &&
      |ix.uuids| <= ix.successes
  {
    IndexOrderAndCount(results, subjects, now, store);
    IndexKeysStored(results, subjects, now, store);
  }

  /** The order lists each key once, and the count covers every write. */
  lemma {:induction false} IndexOrderAndCount(results: seq<AdmissionResult>, subjects: map<int, int>, now: string, store: Store)
    ensures var ix := StoreAll(results, subjects, now, store);
      Distinct(ix.order) &&
      (forall h :: h in ix.uuids <==> h in ix.order) &&
      ix.successes == |Filter(results, r => Stored(r, subjects, now, store))| &&
      |ix.uuids| <= ix.successes
  {
    if results != [] {
      var n := |results| - 1;
      var init, last := results[..n], results[n];
      IndexOrderAndCount(init, subjects, now, store);
      var ix := StoreAll(init, subjects, now, store);
      var ix' := StoreAll(results, subjects, now, store);
      FilterStep(results, n, r => Stored(r, subjects, now, store));
      assert results[..n + 1] == results;
      if Stored(last, subjects, now, store) && last.hadmId !in ix.uuids {
        assert ix'.order == ix.order + [last.hadmId];
        assert |ix'.uuids| == |ix.uuids| + 1 by {
          assert ix'.uuids.Keys == ix.uuids.Keys + {last.hadmId};
        }
      }
      if Stored(last, subjects, now, store) && last.hadmId in ix.uuids {
        assert ix'.uuids.Keys == ix.uuids.Keys;
      }
    }
  }

  /** The keys are the ids of the results that were written. */
  lemma {:induction false} IndexKeysStored(results: seq<AdmissionResult>, subjects: map<int, int>, now: string, store: Store)
    ensures forall h :: h in StoreAll(results, subjects, now, store).uuids <==>
      exists i :: 0 <= i < |results| && results[i].hadmId == h && Stored(results[i], subjects, now, store)
  {
    if results != [] {
      var init, last := results[..|results| - 1], results[|results| - 1];
      IndexKeysStored(init, subjects, now, store);
      var ix := StoreAll(init, subjects, now, store);
      forall h ensures h in StoreAll(results, subjects, now, store).uuids <==>
        exists i :: 0 <= i < |results| && results[i].hadmId == h && Stored(results[i], subjects, now, store)
      {
        if h in ix.uuids {
          var i :| 0 <= i < |init| && init[i].hadmId == h && Stored(init[i], subjects, now, store);
          assert results[i] == init[i];
        }
        if exists i :: 0 <= i < |results| && results[i].hadmId == h && Stored(results[i], subjects, now, store) {
          var i :| 0 <= i < |results| && results[i].hadmId == h && Stored(results[i], subjects, now, store);
          if i < |init| {
            assert init[i] == results[i];
          }
        }
      }
    }
  }

  /** With distinct admission ids among the written results, the index has one
      entry per success. */
  lemma {:induction false} OneEntryPerSuccess(results: seq<AdmissionResult>, subjects: map<int, int>, now: string, store: Store)
    requires forall i, j :: 0 <= i < j < |results| && Stored(results[i], subjects, now, store) && Stored(results[j], subjects, now, store) ==>
      results[i].hadmId != results[j].hadmId
    ensures |StoreAll(results, subjects, now, store).uuids| == StoreAll(results, subjects, now, store).successes
  {
    if results != [] {
      var init, last := results[..|results| - 1], results[|results| - 1];
      OneEntryPerSuccess(init, subjects, now, store);
      IndexHoldsStored(init, subjects, now, store);
      var ix := StoreAll(init, subjects, now, store);
      if Stored(last, subjects, now, store) {
        forall i | 0 <= i < |init| && Stored(init[i], subjects, now, store)
          ensures init[i].hadmId != last.hadmId
        {
          assert init[i] == results[i];
        }
        assert last.hadmId !in ix.uuids;
        var ix' := StoreAll(results, subjects, now, store);
        assert ix'.uuids.Keys == ix.uuids.Keys + {last.hadmId};
      }
    }
  }

  /** The first key of the index is the first result that was written. */
  lemma {:induction false} FirstKeyIsFirstStored(results: seq<AdmissionResult>, subjects: map<int, int>, now: string, store: Store, i: nat)
    requires i < |results| && Stored(results[i], subjects, now, store)
    requires forall j :: 0 <= j < i ==> !Stored(results[j], subjects, now, store)
    ensures StoreAll(results, subjects, now, store).order != []
    ensures StoreAll(results, subjects, now, store).order[0] == results[i].hadmId
    decreases |results|
  {
    var init := results[..|results| - 1];
    if i < |init| {
      FirstKeyIsFirstStored(init, subjects, now, store, i);
      assert init[i] == results[i];
      forall j | 0 <= j < i ensures !Stored(init[j], subjects, now, store) {
        assert init[j] == results[j];
      }
    } else {
      NothingStored(init, subjects, now, store);
    }
  }

  lemma {:induction false} NothingStored(results: seq<AdmissionResult>, subjects: map<int, int>, now: string, store: Store)
    requires forall j :: 0 <= j < |results| ==> !Stored(results[j], subjects, now, store)
    ensures StoreAll(results, subjects, now, store) == UuidIndex([], map[], 0)
  {
    if results != [] {
      NothingStored(results[..|results| - 1], subjects, now, store);
    }
  }

  // ---------------------------------------------------------------------------
  // `test_similarity_search` and the test in `process_and_store_all`

  /** One object as the search returns it. */
  datatype Hit = Hit(hadmId: int, subjectId: int, distance: real, sequenceLength: int)

  /** The hits whose admission is not `testId`, nearest first. */
  function Others(hits: seq<Hit>, testId: int): seq<Hit> {
    Filter(hits, (h: Hit) => h.hadmId != testId)
  }

  /** `test_similarity_search`: `lookup` is the objects stored for `testId`,
      `neighbours` the `limit + 1` nearest objects to its vector, each `None` when
      its query raises; both cases give `[]`. */
  function SimilaritySearch(testId: int, limit: int, lookup: Option<seq<Hit>>, neighbours: Option<seq<Hit>>): seq<Hit> {
    if lookup.None? || lookup.value == [] || neighbours.None? then []
    else PyPrefix(Others(neighbours.value, testId), limit)
  }

  /** The loop over the search results, then the slice. */
  method TestSimilaritySearch(testId: int, limit: int, lookup: Option<seq<Hit>>, neighbours: Option<seq<Hit>>)
    returns (similar: seq<Hit>)
    ensures similar == SimilaritySearch(testId, limit, lookup, neighbours)
  {
    if lookup.None? || lookup.value == [] || neighbours.None? {
      return [];
    }
    var hits := neighbours.value;
    var kept: seq<Hit> := [];
    for i := 0 to |hits|
      invariant kept == Others(hits[..i], testId)
    {
      assert hits[..i + 1][..i] == hits[..i];
      if hits[i].hadmId != testId {
        kept := kept + [hits[i]];
      }
    }
    assert hits[..|hits|] == hits;
    similar := PyPrefix(kept, limit);
  }

  /** The search never returns the test admission, returns at most `limit`
      admissions, and returns the nearest other admissions first, in the order
      the store ranked them. */
  lemma SearchExcludesTest(testId: int, limit: int, lookup: Option<seq<Hit>>, neighbours: Option<seq<Hit>>)
    ensures var r := SimilaritySearch(testId, limit, lookup, neighbours);
      (forall k :: 0 <= k < |r| ==> r[k].hadmId != testId && r[k] in neighbours.value) &&
      (limit >= 0 ==> |r| <= limit) &&
      (r != [] ==> r == Others(neighbours.value, testId)[..|r|])
  {
    if neighbours.Some? {
      FilterMembers(neighbours.value, (h: Hit) => h.hadmId != testId);
    }
  }

  /** The admission the pipeline searches from: the index's first key, and no
      search at all when nothing was written. */
  function SearchTestId(ix: UuidIndex): Option<int> {
    if ix.order == [] then None else Some(ix.order[0])
  }

  /** A search test runs exactly when some result was written, from the first
      result that was. */
  lemma SearchTestFromFirstStored(results: seq<AdmissionResult>, subjects: map<int, int>, now: string, store: Store)
    ensures SearchTestId(StoreAll(results, subjects, now, store)).Some? <==>
      exists i :: 0 <= i < |results| && Stored(results[i], subjects, now, store)
    ensures forall i :: (0 <= i < |results| && Stored(results[i], subjects, now, store) &&
      (forall j :: 0 <= j < i ==> !Stored(results[j], subjects, now, store))) ==>
      SearchTestId(StoreAll(results, subjects, now, store)) == Some(results[i].hadmId)
  {
    var ix := StoreAll(results, subjects, now, store);
    SearchTestRunsWhenStored(results, subjects, now, store);
    forall i | 0 <= i < |results| && Stored(results[i], subjects, now, store) &&
      (forall j :: 0 <= j < i ==> !Stored(results[j], subjects, now, store))
      ensures SearchTestId(ix) == Some(results[i].hadmId)
    {
      FirstKeyIsFirstStored(results, subjects, now, store, i);
    }
  }

  lemma SearchTestRunsWhenStored(results: seq<AdmissionResult>, subjects: map<int, int>, now: string, store: Store)
    ensures SearchTestId(StoreAll(results, subjects, now, store)).Some? <==>
      exists i :: 0 <= i < |results| && Stored(results[i], subjects, now, store)
  {
    var ix := StoreAll(results, subjects, now, store);
    IndexOrderAndCount(results, subjects, now, store);
    IndexKeysStored(results, subjects, now, store);
    assert forall h :: h in ix.uuids <==> h in ix.order;
    if ix.order != [] {
      assert ix.order[0] in ix.order;
      assert ix.order[0] in ix.uuids;
    }
    if exists i :: 0 <= i < |results| && Stored(results[i], subjects, now, store) {
      var i :| 0 <= i < |results| && Stored(results[i], subjects, now, store);
      var h := results[i].hadmId;
      assert exists j :: 0 <= j < |results| && results[j].hadmId == h && Stored(results[j], subjects, now, store);
      assert h in ix.uuids;
      assert h in ix.order;
    }
  }
}
