/** `vgsimi/add_temp_tree_strings.py`: a temporal-tree string is cut into windows
    of at most 20000 characters, each non-final window broken before its last
    underscore; the chunk embeddings are averaged. Admission strings are read from
    the `-merged.txt` files of a directory listing. The embedding service and the
    file system are parameters. */
module AddTempTreeStrings {
  import opened Wrappers
  import opened Text

  const MaxChunkSize: nat := 20000

  function Min(a: int, b: int): int { if a <= b then a else b }

  /** Python's `s.rfind(c)`, with `None` for -1. */
  function LastIndexOf(s: string, c: char): (r: Option<nat>)
    ensures r.None? <==> c !in s
    ensures r.Some? ==> r.value < |s| && s[r.value] == c && c !in s[r.value + 1..]
  {
    if s == [] then None
    else if s[|s| - 1] == c then Some(|s| - 1)
    else
      var r := LastIndexOf(s[..|s| - 1], c);
      assert s[..|s| - 1] + [s[|s| - 1]] == s;
      if r.Some? then assert s[r.value + 1..] == s[..|s| - 1][r.value + 1..] + [s[|s| - 1]]; r else r
  }

  /** `text[i:i + MAX_CHUNK_SIZE]`, clamped as Python slices are. */
  function Window(text: string, start: nat): (w: string)
    ensures start <= |text| ==> w == text[start..Min(start + MaxChunkSize, |text|)]
    ensures start > |text| ==> w == []
  {
    if start > |text| then [] else text[start..Min(start + MaxChunkSize, |text|)]
  }

  /** A non-final window is cut just before its last underscore; the final window
      is kept whole. */
  function ChunkAt(text: string, start: nat): string {
    var w := Window(text, start);
    if start + MaxChunkSize < |text| && LastIndexOf(w, '_').Some? then w[..LastIndexOf(w, '_').value] else w
  }

  /** `len(range(0, n, MAX_CHUNK_SIZE))`. */
  function NumChunks(n: nat): nat { (n + MaxChunkSize - 1) / MaxChunkSize }

  /** The chunks, one per window start `0, 20000, ...` below `len(text)`: the
      reassignment of `i` inside the loop body does not move the next start. */
  function Chunks(text: string): (r: seq<string>)
    ensures |r| == NumChunks(|text|)
  {
    seq(NumChunks(|text|), k requires 0 <= k < NumChunks(|text|) => ChunkAt(text, k * MaxChunkSize))
  }

  /** The chunk count is the ceiling of `len(text) / 20000`: every window starts
      inside the text, and the windows together reach its end. */
  lemma ChunkCount(text: string)
    ensures NumChunks(|text|) * MaxChunkSize >= |text|
    ensures |text| > 0 ==> (NumChunks(|text|) - 1) * MaxChunkSize < |text|
    ensures |text| == 0 <==> Chunks(text) == []
  {
  }

  /** Each chunk is a prefix of its window. The final window is kept whole. A
      non-final window is cut at its last underscore when it has one, so the
      characters from that underscore to the window's end appear in no chunk. */
  lemma ChunkShape(text: string, k: nat)
    requires k < NumChunks(|text|)
    ensures var start := k * MaxChunkSize; var c := Chunks(text)[k];
      start < |text| && start + |c| <= |text| && |c| <= MaxChunkSize && c == text[start..start + |c|]
      && (start + MaxChunkSize >= |text| ==> c == text[start..])
      && (start + MaxChunkSize < |text| && '_' in Window(text, start) ==>
            |c| < MaxChunkSize && text[start + |c|] == '_' && '_' !in text[start + |c| + 1..start + MaxChunkSize])
      && (start + MaxChunkSize < |text| && '_' !in Window(text, start) ==> c == text[start..start + MaxChunkSize])
  {
    var start := k * MaxChunkSize;
    var w := Window(text, start);
    var c := Chunks(text)[k];
    assert c == ChunkAt(text, start);
    if start + MaxChunkSize < |text| && '_' in w {
      var u := LastIndexOf(w, '_').value;
      assert c == w[..u];
      assert text[start + u] == w[u];
      assert text[start + u + 1..start + MaxChunkSize] == w[u + 1..];
    }
  }

  /** `split into chunks`: the `for i in range(...)` loop. */
  method SplitIntoChunks(text: string) returns (chunks: seq<string>)
    ensures chunks == Chunks(text)
  {
    chunks := [];
    var i: nat := 0;
    var k := 0;
    while i < |text|
      invariant i == k * MaxChunkSize && k <= NumChunks(|text|)
      invariant i < |text| ==> k < NumChunks(|text|)
      invariant i >= |text| ==> k == NumChunks(|text|)
      invariant chunks == Chunks(text)[..k]
    {
      var chunk := Window(text, i);
      if i + MaxChunkSize < |text| {
        var lastUnderscore := LastIndexOf(chunk, '_');
        if lastUnderscore.Some? {
          chunk := chunk[..lastUnderscore.value];
        }
      }
      assert Chunks(text)[..k + 1] == Chunks(text)[..k] + [ChunkAt(text, i)];
      chunks := chunks + [chunk];
      i := i + MaxChunkSize;
      k := k + 1;
    }
    assert Chunks(text)[..k] == Chunks(text);
  }

  // ---------------------------------------------------------------------------
  // `generate_embedding`

  /** One embedding request; `None` where the call raises. */
  type ChunkEmbedder = string -> Option<seq<real>>

  /** The embeddings of the chunks, skipping whitespace-only chunks and failed calls. */
  function Embeddings(chunks: seq<string>, embed: ChunkEmbedder): seq<seq<real>> {
    if chunks == [] then []
    else
      var last := chunks[|chunks| - 1];
      var before := Embeddings(chunks[..|chunks| - 1], embed);
      if StripWs(last) == [] || embed(last).None? then before else before + [embed(last).value]
  }

  /** Chunk `i` is non-blank and its request answered `v`. */
  predicate AnswerAt(chunks: seq<string>, embed: ChunkEmbedder, v: seq<real>, i: int) {
    0 <= i < |chunks| && StripWs(chunks[i]) != [] && embed(chunks[i]) == Some(v)
  }

  /** Every kept embedding is the answer for a non-blank chunk. */
  lemma {:induction false} EmbeddingsFromChunks(chunks: seq<string>, embed: ChunkEmbedder)
    ensures |Embeddings(chunks, embed)| <= |chunks|
    ensures forall v :: v in Embeddings(chunks, embed) ==> exists i :: AnswerAt(chunks, embed, v, i)
  {
    if chunks != [] {
      var init := chunks[..|chunks| - 1];
      var last := chunks[|chunks| - 1];
      EmbeddingsFromChunks(init, embed);
      forall v | v in Embeddings(chunks, embed)
        ensures exists i :: AnswerAt(chunks, embed, v, i)
      {
        if v in Embeddings(init, embed) {
          var i :| AnswerAt(init, embed, v, i);
          assert chunks[i] == init[i];
          assert AnswerAt(chunks, embed, v, i);
        } else {
          assert AnswerAt(chunks, embed, v, |chunks| - 1);
        }
      }
    }
  }

  /** The length of the shortest vector: what `zip(*vs)` yields. */
  function MinLen(vs: seq<seq<real>>): (n: nat)
    requires vs != []
    ensures forall i :: 0 <= i < |vs| ==> n <= |vs[i]|
    ensures exists i :: 0 <= i < |vs| && n == |vs[i]|
  {
    if |vs| == 1 then |vs[0]|
    else
      var m := MinLen(vs[1..]);
      assert forall i :: 1 <= i < |vs| ==> vs[i] == vs[1..][i - 1];
      if |vs[0]| <= m then |vs[0]| else m
  }

  /** The sum of the `j`-th entries. */
  function ColumnSum(vs: seq<seq<real>>, j: nat): real
    requires forall i :: 0 <= i < |vs| ==> j < |vs[i]|
  {
    if vs == [] then 0.0 else ColumnSum(vs[..|vs| - 1], j) + vs[|vs| - 1][j]
  }

  /** The entrywise mean over the common length. */
  function Average(vs: seq<seq<real>>): (r: seq<real>)
    requires vs != []
    ensures |r| == MinLen(vs)
    ensures forall j :: 0 <= j < |r| ==> r[j] == ColumnSum(vs, j) / (|vs| as real)
  {
    seq(MinLen(vs), j requires 0 <= j < MinLen(vs) => ColumnSum(vs, j) / (|vs| as real))
  }

  /** The mean of one vector is that vector. */
  lemma AverageSingle(v: seq<real>)
    ensures Average([v]) == v
  {
    var r := Average([v]);
    forall j | 0 <= j < |v|
      ensures r[j] == v[j]
    {
      assert [v][..0] == [];
      assert ColumnSum([v], j) == v[j];
    }
  }

  /** `generate_embedding`. */
  function GenerateEmbedding(text: string, embed: ChunkEmbedder): (r: Result<seq<real>>)
    ensures StripWs(text) == [] ==> r == Err("Empty text provided")
    ensures r == Err("Could not generate any valid embeddings for the text") <==>
      StripWs(text) != [] && Embeddings(Chunks(text), embed) == []
    ensures StripWs(text) != [] && Embeddings(Chunks(text), embed) != [] ==>
      r == Ok(Average(Embeddings(Chunks(text), embed)))
    ensures r.Ok? ==> Embeddings(Chunks(text), embed) != [] && |r.value| == MinLen(Embeddings(Chunks(text), embed))
  {
    if StripWs(text) == [] then Err("Empty text provided")
    else
      var vs := Embeddings(Chunks(text), embed);
      if vs == [] then Err("Could not generate any valid embeddings for the text") else Ok(Average(vs))
  }

  /** A text no longer than one window is one chunk. */
  lemma SingleChunk(text: string)
    requires 0 < |text| <= MaxChunkSize
    ensures Chunks(text) == [text]
  {
    assert ChunkAt(text, 0) == text;
  }

  /** A text that fits in one window is embedded as itself. */
  lemma SingleChunkEmbedding(text: string, embed: ChunkEmbedder)
    requires 0 < |text| <= MaxChunkSize && StripWs(text) != [] && embed(text).Some?
    ensures GenerateEmbedding(text, embed) == Ok(embed(text).value)
  {
    SingleChunk(text);
    assert [text][..0] == [];
    assert Embeddings([text], embed) == [embed(text).value];
    AverageSingle(embed(text).value);
  }

  /** The embedding loop over the chunks. */
  method EmbedChunks(chunks: seq<string>, embed: ChunkEmbedder) returns (all: seq<seq<real>>)
    ensures all == Embeddings(chunks, embed)
  {
    all := [];
    var i := 0;
    while i < |chunks|
      invariant 0 <= i <= |chunks|
      invariant all == Embeddings(chunks[..i], embed)
    {
      assert chunks[..i + 1][..i] == chunks[..i];
      var chunk := chunks[i];
      if StripWs(chunk) != [] {
        var response := embed(chunk);
        if response.Some? {
          all := all + [response.value];
        }
      }
      i := i + 1;
    }
    assert chunks[..i] == chunks;
  }

  /** `generate_embedding`: chunk, embed the chunks, average. */
  method GenerateEmbeddingMethod(text: string, embed: ChunkEmbedder) returns (r: Result<seq<real>>)
    ensures r == GenerateEmbedding(text, embed)
  {
    if text == [] || StripWs(text) == [] {
      return Err("Empty text provided");
    }
    var chunks := SplitIntoChunks(text);
    var all := EmbedChunks(chunks, embed);
    if all == [] {
      return Err("Could not generate any valid embeddings for the text");
    }
    return Ok(Average(all));
  }

  // ---------------------------------------------------------------------------
  // `read_admission_strings`

  /** A directory entry: its name and its contents, `None` where reading fails. */
  datatype DirEntry = DirEntry(name: string, contents: Option<string>)

  /** The admission id of a file name: the text before the first `-`. */
  function AdmissionKey(name: string): string { Split(name, '-')[0] }

  predicate Loads(e: DirEntry, existing: set<string>) {
    EndsWith(e.name, "-merged.txt") && AdmissionKey(e.name) in existing && e.contents.Some?
  }

  /** The stripped contents by admission id; for a repeated id the later file wins. */
  function CollectStrings(files: seq<DirEntry>, existing: set<string>): map<string, string> {
    if files == [] then map[]
    else
      var last := files[|files| - 1];
      var m := CollectStrings(files[..|files| - 1], existing);
      if Loads(last, existing) then m[AdmissionKey(last.name) := StripWs(last.contents.value)] else m
  }

  /** `read_admission_strings`; `None` is a directory that cannot be listed. */
  function ReadAdmissionStrings(listing: Option<seq<DirEntry>>, existing: set<string>): (m: map<string, string>)
    ensures listing.None? ==> m == map[]
  {
    if listing.None? then map[] else CollectStrings(listing.value, existing)
  }

  /** Every key is an existing id read from a `-merged.txt` file whose stripped
      contents it maps to. */
  lemma {:induction false} CollectStringsSound(files: seq<DirEntry>, existing: set<string>, key: string)
    requires key in CollectStrings(files, existing)
    ensures key in existing
    ensures exists i :: (0 <= i < |files| && Loads(files[i], existing) && AdmissionKey(files[i].name) == key &&
      CollectStrings(files, existing)[key] == StripWs(files[i].contents.value))
  {
    var init := files[..|files| - 1];
    var last := files[|files| - 1];
    if Loads(last, existing) && AdmissionKey(last.name) == key {
      assert files[|files| - 1] == last;
    } else {
      CollectStringsSound(init, existing, key);
      var i :| 0 <= i < |init| && Loads(init[i], existing) && AdmissionKey(init[i].name) == key
        && CollectStrings(init, existing)[key] == StripWs(init[i].contents.value);
      assert files[i] == init[i];
    }
  }

  /** Every readable `-merged.txt` file of an existing id is loaded under its id. */
  lemma {:induction false} CollectStringsComplete(files: seq<DirEntry>, existing: set<string>, i: nat)
    requires i < |files| && Loads(files[i], existing)
    ensures AdmissionKey(files[i].name) in CollectStrings(files, existing)
  {
    var init := files[..|files| - 1];
    if i < |files| - 1 {
      assert files[i] == init[i];
      CollectStringsComplete(init, existing, i);
    }
  }

  method ReadAdmissionStringsMethod(listing: Option<seq<DirEntry>>, existing: set<string>)
    returns (admissionStrings: map<string, string>)
    ensures admissionStrings == ReadAdmissionStrings(listing, existing)
  {
    admissionStrings := map[];
    if listing.None? {
      return;
    }
    var files := listing.value;
    var i := 0;
    while i < |files|
      invariant 0 <= i <= |files|
      invariant admissionStrings == CollectStrings(files[..i], existing)
    {
      assert files[..i + 1][..i] == files[..i];
      var f := files[i];
      if EndsWith(f.name, "-merged.txt") {
        var hadmId := Split(f.name, '-')[0];
        if hadmId in existing && f.contents.Some? {
          admissionStrings := admissionStrings[hadmId := StripWs(f.contents.value)];
        }
      }
      i := i + 1;
    }
    assert files[..i] == files;
  }
}
