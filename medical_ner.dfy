/** `vgsimi/medical_ner.py`: the clinical token classifier's output, one
    (word piece, predicted label id, confidence) triple per token, is merged into
    entities: consecutive labelled tokens with the same label form one entity,
    and only confident entities are kept. The tokenizer and the network are
    abstract: a run of them is the sequence of triples. */
module MedicalNer {
  import opened Wrappers
  import opened Text
  import opened Seqs
  import RegexPasses

  /** One classified token: the tokenizer's piece, the arg-max label id and the
      soft-max probability of that label. */
  datatype Scored = Scored(token: string, pred: int, conf: real)

  /** `model.config.id2label`. */
  type Labels = int -> string

  /** The tokenizer and the network on one text; `None` when either raises. */
  type Runner = string -> Option<seq<Scored>>

  datatype NerEntity = NerEntity(text: string, entityLabel: string, confidence: real)

  // ---------------------------------------------------------------------------
  // `_clean_token`

  predicate IsPiece(token: string) { StartsWith(token, "##") }

  /** `_clean_token`: a word-piece continuation loses its `##` and nothing else;
      any other token loses every `[CLS]` and `[SEP]` and is stripped. */
  function CleanToken(token: string): (r: string)
    ensures IsPiece(token) ==> |r| + 2 == |token| && r == token[2..]
    ensures !IsPiece(token) ==> r == [] || (r[0] !in Whitespace && r[|r| - 1] !in Whitespace)
  {
    if IsPiece(token) then token[2..]
    else StripWs(RegexPasses.Replace(RegexPasses.Replace(token, "[CLS]", "", false), "[SEP]", "", false))
  }

  /** The tokenizer's special tokens clean to nothing, and so never reach an entity. */
  lemma SpecialTokensVanish()
    ensures CleanToken("[CLS]") == [] && CleanToken("[SEP]") == []
  {
    WholeMarkerRemoved("[CLS]");
    WholeMarkerRemoved("[SEP]");
    var sep := "[SEP]";
    assert !RegexPasses.MatchesAt(sep, "[CLS]", 0, false) by {
      assert RegexPasses.Fold(sep[1], false) != RegexPasses.Fold("[CLS]"[1], false);
    }
    NoBracketUnchanged(sep[1..], "[CLS]");
    assert sep == [sep[0]] + sep[1..];
    assert RegexPasses.Replace(sep, "[CLS]", "", false) == sep;
  }

  lemma WholeMarkerRemoved(m: string)
    requires m != []
    ensures RegexPasses.Replace(m, m, "", false) == []
  {
    assert RegexPasses.MatchesAt(m, m, 0, false);
    assert m[|m|..] == [];
  }

  // ---------------------------------------------------------------------------
  // The merging loop of `process_text`

  /** A token takes part in an entity: a label other than 0 (`'O'`), and some text
      left after cleaning. Every other token is skipped without closing anything. */
  predicate Considered(t: Scored) { t.pred != 0 && CleanToken(t.token) != [] }

  /** `entities` so far, and `current_entity`. */
  datatype MergeState = MergeState(entities: seq<NerEntity>, current: Option<NerEntity>)

  /** Python's two-argument `min`: the first argument unless the second is smaller. */
  function MinConf(a: real, b: real): (m: real)
    ensures m <= a && m <= b && (m == a || m == b)
  {
    if b < a then b else a
  }

  /** One iteration of the token loop. */
  function Step(st: MergeState, t: Scored, labels: Labels): MergeState {
    if !Considered(t) then st
    else
      var piece := CleanToken(t.token);
      var lbl := labels(t.pred);
      match st.current
      case Some(e) =>
        if e.entityLabel == lbl then
          var glued := e.text + (if IsPiece(t.token) then piece else " " + piece);
          MergeState(st.entities, Some(NerEntity(glued, lbl, MinConf(e.confidence, t.conf))))
        else
          MergeState(st.entities + [e], Some(NerEntity(piece, lbl, t.conf)))
      case None =>
        MergeState(st.entities, Some(NerEntity(piece, lbl, t.conf)))
  }

  /** The state after the loop has seen `ts`. */
  function Merge(ts: seq<Scored>, labels: Labels): MergeState {
    if ts == [] then MergeState([], None)
    else Step(Merge(ts[..|ts| - 1], labels), ts[|ts| - 1], labels)
  }

  /** The entities once the open one, if any, is appended. */
  function Closed(st: MergeState): seq<NerEntity> {
    st.entities + (if st.current.Some? then [st.current.value] else [])
  }

  /** The final comprehension: confident entities, with their text stripped. */
  function Confident(e: NerEntity): Option<NerEntity> {
    if e.confidence > 0.5 then Some(e.(text := StripWs(e.text))) else None
  }

  /** What `process_text` returns for the classified tokens `ts`. */
  function Entities(ts: seq<Scored>, labels: Labels): seq<NerEntity> {
    FilterMap(Closed(Merge(ts, labels)), Confident)
  }

  /** The token loop: `current_entity` grows or is closed token by token. */
  method MergeTokens(ts: seq<Scored>, labels: Labels) returns (entities: seq<NerEntity>)
    ensures entities == Closed(Merge(ts, labels))
  {
    entities := [];
    var current: Option<NerEntity> := None;
    for i := 0 to |ts|
      invariant MergeState(entities, current) == Merge(ts[..i], labels)
    {
      assert ts[..i + 1][..i] == ts[..i];
      var t := ts[i];
      if t.pred != 0 {
        var piece := CleanToken(t.token);
        if piece == [] {
          continue;
        }
        var lbl := labels(t.pred);
        if current.Some? && current.value.entityLabel == lbl {
          var e := current.value;
          var glued := e.text + (if IsPiece(t.token) then piece else " " + piece);
          current := Some(NerEntity(glued, lbl, MinConf(e.confidence, t.conf)));
        } else {
          if current.Some? {
            entities := entities + [current.value];
          }
          current := Some(NerEntity(piece, lbl, t.conf));
        }
      }
    }
    assert ts[..|ts|] == ts;
    if current.Some? {
      entities := entities + [current.value];
    }
  }

  /** `process_text` after the network has run. */
  method ProcessText(ts: seq<Scored>, labels: Labels) returns (entities: seq<NerEntity>)
    ensures entities == Entities(ts, labels)
  {
    var merged := MergeTokens(ts, labels);
    entities := [];
    for k := 0 to |merged|
      invariant entities == FilterMap(merged[..k], Confident)
    {
      assert merged[..k + 1][..k] == merged[..k];
      var e := merged[k];
      if e.confidence > 0.5 {
        entities := entities + [e.(text := StripWs(e.text))];
      }
    }
    assert merged[..|merged|] == merged;
  }

  // ---------------------------------------------------------------------------
  // What the merge computes

  /** Skipped tokens leave no trace: the merge over all tokens is the merge over
      the considered ones alone. */
  lemma {:induction false} SkippedTokensIgnored(ts: seq<Scored>, labels: Labels)
    ensures Merge(ts, labels) == Merge(Filter(ts, Considered), labels)
  {
    if ts != [] {
      var init, last := ts[..|ts| - 1], ts[|ts| - 1];
      SkippedTokensIgnored(init, labels);
      var f := Filter(init, Considered);
      if Considered(last) {
        assert Filter(ts, Considered) == f + [last];
        assert (f + [last])[..|f|] == f;
      } else {
        assert Filter(ts, Considered) == f;
      }
    }
  }

  /** The labels of the considered tokens, in order. */
  function TokenLabels(ts: seq<Scored>, labels: Labels): seq<string> {
    if ts == [] then []
    else
      var last := ts[|ts| - 1];
      TokenLabels(ts[..|ts| - 1], labels) + (if Considered(last) then [labels(last.pred)] else [])
  }

  /** An independent description of the grouping: each run of equal neighbours
      collapsed to one element. */
  function CollapseRuns(s: seq<string>): (r: seq<string>)
    ensures |r| <= |s| && (r == [] <==> s == [])
    ensures s != [] ==> r[|r| - 1] == s[|s| - 1]
  {
    if s == [] then []
    else
      var init := CollapseRuns(s[..|s| - 1]);
      if init != [] && init[|init| - 1] == s[|s| - 1] then init else init + [s[|s| - 1]]
  }

  function EntityLabels(es: seq<NerEntity>): (r: seq<string>)
    ensures |r| == |es| && forall i :: 0 <= i < |es| ==> r[i] == es[i].entityLabel
  {
    if es == [] then [] else EntityLabels(es[..|es| - 1]) + [es[|es| - 1].entityLabel]
  }

  /** No entity is open before the first considered token, and nothing is closed
      before one is open. */
  lemma {:induction false} OpenIffConsidered(ts: seq<Scored>, labels: Labels)
    ensures Merge(ts, labels).current.None? <==> TokenLabels(ts, labels) == []
    ensures Merge(ts, labels).current.None? ==> Merge(ts, labels).entities == []
  {
    if ts != [] {
      OpenIffConsidered(ts[..|ts| - 1], labels);
    }
  }

  /** The merge emits one entity per run of equally labelled considered tokens:
      its labels are the token labels with runs collapsed. */
  lemma {:induction false} EntitiesFollowLabelRuns(ts: seq<Scored>, labels: Labels)
    ensures EntityLabels(Closed(Merge(ts, labels))) == CollapseRuns(TokenLabels(ts, labels))
  {
    if ts != [] {
      var init, last := ts[..|ts| - 1], ts[|ts| - 1];
      EntitiesFollowLabelRuns(init, labels);
      OpenIffConsidered(init, labels);
      var st := Merge(init, labels);
      var tl := TokenLabels(init, labels);
      assert Merge(ts, labels) == Step(st, last, labels);
      if Considered(last) {
        var l := labels(last.pred);
        var c := CollapseRuns(tl);
        assert TokenLabels(ts, labels) == tl + [l];
        assert (tl + [l])[..|tl|] == tl;
        match st.current
        case None =>
          assert CollapseRuns(tl + [l]) == [l];
          assert Closed(Merge(ts, labels)) == [NerEntity(CleanToken(last.token), l, last.conf)];
        case Some(e) =>
          assert Closed(st) == st.entities + [e];
          EntityLabelsConcat(st.entities, [e]);
          assert c == EntityLabels(st.entities) + [e.entityLabel];
          var n := Merge(ts, labels).current.value;
          if e.entityLabel == l {
            assert CollapseRuns(tl + [l]) == c;
            assert Closed(Merge(ts, labels)) == st.entities + [n];
            EntityLabelsConcat(st.entities, [n]);
          } else {
            assert CollapseRuns(tl + [l]) == c + [l];
            assert Closed(Merge(ts, labels)) == (st.entities + [e]) + [n];
            EntityLabelsConcat(st.entities + [e], [n]);
          }
      } else {
        assert TokenLabels(ts, labels) == tl;
      }
    }
  }

  lemma {:induction false} EntityLabelsConcat(a: seq<NerEntity>, b: seq<NerEntity>)
    ensures EntityLabels(a + b) == EntityLabels(a) + EntityLabels(b)
  {
    var l, r := EntityLabels(a + b), EntityLabels(a) + EntityLabels(b);
    assert |l| == |r|;
    forall i | 0 <= i < |l| ensures l[i] == r[i] {
      if i < |a| { assert (a + b)[i] == a[i]; } else { assert (a + b)[i] == b[i - |a|]; }
    }
  }

  /** Collapsing leaves no two equal neighbours. */
  lemma {:induction false} CollapseRunsNoRepeats(s: seq<string>)
    ensures forall i :: 0 <= i < |CollapseRuns(s)| - 1 ==> CollapseRuns(s)[i] != CollapseRuns(s)[i + 1]
  {
    if s != [] {
      CollapseRunsNoRepeats(s[..|s| - 1]);
    }
  }

  /** Two neighbouring entities never share a label: a shared label would have
      extended the first. */
  lemma NeighboursDiffer(ts: seq<Scored>, labels: Labels, i: nat)
    requires i + 1 < |Closed(Merge(ts, labels))|
    ensures Closed(Merge(ts, labels))[i].entityLabel != Closed(Merge(ts, labels))[i + 1].entityLabel
  {
    EntitiesFollowLabelRuns(ts, labels);
    CollapseRunsNoRepeats(TokenLabels(ts, labels));
  }

  /** Every entity has text, and its confidence is that of one of the considered
      tokens (the least of its run). */
  lemma {:induction false} EntityFacts(ts: seq<Scored>, labels: Labels, e: NerEntity)
    requires e in Closed(Merge(ts, labels))
    ensures e.text != []
    ensures exists k :: 0 <= k < |ts| && Considered(ts[k]) && e.confidence == ts[k].conf
  {
    var init, last := ts[..|ts| - 1], ts[|ts| - 1];
    var st := Merge(init, labels);
    if e in Closed(st) {
      EntityFacts(init, labels, e);
      var k :| 0 <= k < |init| && Considered(init[k]) && e.confidence == init[k].conf;
      assert ts[k] == init[k];
    }
    if !Considered(last) || e !in Closed(st) {
      if e !in Closed(st) {
        assert Considered(last);
        assert e == Merge(ts, labels).current.value;
        if st.current.Some? && st.current.value.entityLabel == labels(last.pred) {
          var old_ := st.current.value;
          assert old_ in Closed(st);
          EntityFacts(init, labels, old_);
          var k :| 0 <= k < |init| && Considered(init[k]) && old_.confidence == init[k].conf;
          assert ts[k] == init[k];
          assert e.confidence == old_.confidence || e.confidence == last.conf;
        }
        assert ts[|ts| - 1] == last;
      }
    }
  }

  /** The final comprehension keeps, in order, the confident entities and only
      them, each with its text stripped. */
  lemma ConfidentKept(closed: seq<NerEntity>, e: NerEntity)
    ensures |FilterMap(closed, Confident)| <= |closed|
    ensures e in FilterMap(closed, Confident) <==>
      exists m :: m in closed && m.confidence > 0.5 && e == m.(text := StripWs(m.text))
    ensures e in FilterMap(closed, Confident) ==> e.confidence > 0.5 && StripWs(e.text) == e.text
  {
    KeptAreConfident(closed, e);
    KeptExactly(closed, e);
  }

  lemma KeptAreConfident(closed: seq<NerEntity>, e: NerEntity)
    ensures e in FilterMap(closed, Confident) ==> e.confidence > 0.5 && StripWs(e.text) == e.text
  {
    FilterMapMembers(closed, Confident, e);
    if e in FilterMap(closed, Confident) {
      var i :| 0 <= i < |closed| && Confident(closed[i]) == Some(e);
      StripIdempotent(closed[i].text, Whitespace);
    }
  }

  lemma KeptExactly(closed: seq<NerEntity>, e: NerEntity)
    ensures |FilterMap(closed, Confident)| <= |closed|
    ensures e in FilterMap(closed, Confident) <==>
      exists m :: m in closed && m.confidence > 0.5 && e == m.(text := StripWs(m.text))
  {
    FilterMapMembers(closed, Confident, e);
    if exists m :: m in closed && m.confidence > 0.5 && e == m.(text := StripWs(m.text)) {
      var m :| m in closed && m.confidence > 0.5 && e == m.(text := StripWs(m.text));
      var i :| 0 <= i < |closed| && closed[i] == m;
      assert Confident(closed[i]) == Some(e);
    }
  }

  /** What `process_text` returns: confident merged entities only, with stripped
      text, at most one per merged entity. */
  lemma EntitiesConfident(ts: seq<Scored>, labels: Labels, e: NerEntity)
    ensures |Entities(ts, labels)| <= |Closed(Merge(ts, labels))|
    ensures e in Entities(ts, labels) <==>
      exists m :: m in Closed(Merge(ts, labels)) && m.confidence > 0.5 && e == m.(text := StripWs(m.text))
    ensures e in Entities(ts, labels) ==> e.confidence > 0.5 && StripWs(e.text) == e.text
  {
    ConfidentKept(Closed(Merge(ts, labels)), e);
  }

  /** Two considered tokens with one label make one entity: a word piece is glued
      to the text before it, a whole word follows a space, and the entity keeps
      the lower confidence. */
  lemma SameLabelJoins(a: Scored, b: Scored, labels: Labels)
    requires Considered(a) && Considered(b) && labels(a.pred) == labels(b.pred)
    ensures Closed(Merge([a, b], labels)) ==
      [NerEntity(CleanToken(a.token) + (if IsPiece(b.token) then b.token[2..] else " " + CleanToken(b.token)),
                 labels(a.pred), MinConf(a.conf, b.conf))]
  {
    var ts := [a, b];
    assert ts[..1] == [a] && [a][..0] == [];
    assert Merge([], labels) == MergeState([], None);
    assert Merge([a], labels) == Step(MergeState([], None), a, labels);
    assert Merge(ts, labels) == Step(Merge([a], labels), b, labels);
  }

  /** Two considered tokens with different labels make two entities, even when
      the labels name the beginning and the inside of one span (`B-problem`,
      `I-problem`). */
  lemma ChangedLabelSplits(a: Scored, b: Scored, labels: Labels)
    requires Considered(a) && Considered(b) && labels(a.pred) != labels(b.pred)
    ensures Closed(Merge([a, b], labels)) ==
      [NerEntity(CleanToken(a.token), labels(a.pred), a.conf), NerEntity(CleanToken(b.token), labels(b.pred), b.conf)]
  {
    var ts := [a, b];
    assert ts[..1] == [a] && [a][..0] == [];
    assert Merge([], labels) == MergeState([], None);
    assert Merge([a], labels) == Step(MergeState([], None), a, labels);
    assert Merge(ts, labels) == Step(Merge([a], labels), b, labels);
  }

  /** A plain word is its own cleaned token. */
  lemma CleanPlainWord(w: string)
    requires w != [] && w[0] != '#' && w[0] !in Whitespace && w[|w| - 1] !in Whitespace
    requires forall i :: 0 <= i < |w| ==> w[i] != '['
    ensures CleanToken(w) == w
  {
    NoBracketUnchanged(w, "[CLS]");
    NoBracketUnchanged(w, "[SEP]");
    StripLeftIdentity(w, Whitespace);
  }

  /** Removing a bracketed marker leaves text without `[` untouched. */
  lemma {:induction false} NoBracketUnchanged(w: string, marker: string)
    requires marker != [] && marker[0] == '['
    requires forall i :: 0 <= i < |w| ==> w[i] != '['
    ensures RegexPasses.Replace(w, marker, "", false) == w
    decreases |w|
  {
    if w != [] {
      assert !RegexPasses.MatchesAt(w, marker, 0, false) by {
        assert RegexPasses.Fold(w[0], false) != RegexPasses.Fold(marker[0], false);
      }
      NoBracketUnchanged(w[1..], marker);
      assert w == [w[0]] + w[1..];
    }
  }

  // ---------------------------------------------------------------------------
  // `process_batch`

  /** `process_text` as `process_batch` sees it: a text's entities, or `None` when
      the call raises. */
  type TextRun = string -> Option<seq<NerEntity>>

  /** `process_text` built from the tokenizer and network run and the merge. */
  function AnalyzeWith(run: Runner, labels: Labels): TextRun {
    text => if run(text).Some? then Some(Entities(run(text).value, labels)) else None
  }

  /** The list comprehension over a batch: every text's entities, in batch order,
      or `None` when a text raises. */
  function Comprehension(batch: seq<string>, analyze: TextRun): (r: Option<seq<seq<NerEntity>>>)
    ensures r.Some? ==> |r.value| == |batch|
  {
    if batch == [] then Some([])
    else
      var init, found := Comprehension(batch[..|batch| - 1], analyze), analyze(batch[|batch| - 1]);
      if init.Some? && found.Some? then Some(init.value + [found.value]) else None
  }

  /** Every text of the batch runs without raising. */
  predicate Runs(batch: seq<string>, analyze: TextRun) {
    Comprehension(batch, analyze).Some?
  }

  /** The comprehension completes exactly when every text runs, and then holds
      each text's own entities. */
  lemma {:induction false} ComprehensionEach(batch: seq<string>, analyze: TextRun)
    ensures Runs(batch, analyze) <==> forall j :: 0 <= j < |batch| ==> analyze(batch[j]).Some?
    ensures Runs(batch, analyze) ==>
      forall j :: 0 <= j < |batch| ==> Some(Comprehension(batch, analyze).value[j]) == analyze(batch[j])
  {
    if batch != [] {
      var init := batch[..|batch| - 1];
      ComprehensionEach(init, analyze);
      assert forall j :: 0 <= j < |init| ==> init[j] == batch[j];
    }
  }

  /** One batch: every text's entities, or, when any text of the batch raises,
      an empty list for each of its texts. */
  function BatchOutcome(batch: seq<string>, analyze: TextRun): (r: seq<seq<NerEntity>>)
    ensures |r| == |batch|
  {
    var c := Comprehension(batch, analyze);
    if c.Some? then c.value else seq(|batch|, _ => [])
  }

  /** A batch gives each text its entities when every text runs, else `[]`. */
  lemma BatchOutcomeEach(batch: seq<string>, analyze: TextRun)
    ensures Runs(batch, analyze) ==> forall j :: 0 <= j < |batch| ==> Some(BatchOutcome(batch, analyze)[j]) == analyze(batch[j])
    ensures !Runs(batch, analyze) ==> forall j :: 0 <= j < |batch| ==> BatchOutcome(batch, analyze)[j] == []
  {
    ComprehensionEach(batch, analyze);
  }

  function MinNat(a: nat, b: nat): nat { if a <= b then a else b }

  /** The outcomes of the batches of `size` texts that start at `i`, `i + size`,
      ..., each batch given to `outcomeOf`. */
  function Chunks(texts: seq<string>, size: nat, i: nat, outcomeOf: seq<string> -> seq<seq<NerEntity>>)
    : seq<seq<NerEntity>>
    requires size > 0
    decreases |texts| - i
  {
    if i >= |texts| then []
    else outcomeOf(texts[i..MinNat(i + size, |texts|)]) + Chunks(texts, size, i + size, outcomeOf)
  }

  /** The results of the batches that start at `i`, `i + size`, ... */
  function ResultsFrom(texts: seq<string>, size: nat, i: nat, analyze: TextRun): seq<seq<NerEntity>>
    requires size > 0
  {
    Chunks(texts, size, i, batch => BatchOutcome(batch, analyze))
  }

  /** `process_batch`: a zero step is refused by `range`, a negative one makes no
      batch at all. */
  function BatchResults(texts: seq<string>, batchSize: int, analyze: TextRun): Result<seq<seq<NerEntity>>> {
    if batchSize == 0 then Err("ValueError")
    else if batchSize < 0 then Ok([])
    else Ok(ResultsFrom(texts, batchSize, 0, analyze))
  }

  /** The list comprehension over one batch; it stops at the first text that raises. */
  method RunBatch(batch: seq<string>, analyze: TextRun) returns (out: Option<seq<seq<NerEntity>>>)
    ensures out == Comprehension(batch, analyze)
  {
    var results: seq<seq<NerEntity>> := [];
    for j := 0 to |batch|
      invariant Comprehension(batch[..j], analyze) == Some(results)
    {
      assert batch[..j + 1][..j] == batch[..j];
      var found := analyze(batch[j]);
      if found.None? {
        NoneStaysNone(batch, j + 1, analyze);
        return None;
      }
      results := results + [found.value];
    }
    assert batch[..|batch|] == batch;
    out := Some(results);
  }

  /** Once a text has raised, the comprehension over any longer prefix raises. */
  lemma {:induction false} NoneStaysNone(batch: seq<string>, j: nat, analyze: TextRun)
    requires j <= |batch| && Comprehension(batch[..j], analyze).None?
    ensures Comprehension(batch, analyze).None?
    decreases |batch| - j
  {
    if j < |batch| {
      assert batch[..j + 1][..j] == batch[..j];
      NoneStaysNone(batch, j + 1, analyze);
    } else {
      assert batch[..j] == batch;
    }
  }

  /** One pass of the batch loop: the comprehension, or, when it raises, one empty
      list per text of the batch. */
  method ProcessSlice(batch: seq<string>, analyze: TextRun) returns (outcome: seq<seq<NerEntity>>)
    ensures outcome == BatchOutcome(batch, analyze)
  {
    var out := RunBatch(batch, analyze);
    if out.Some? {
      outcome := out.value;
    } else {
      outcome := seq(|batch|, _ => []);
      BatchOutcomeEach(batch, analyze);
      assert forall j :: 0 <= j < |batch| ==> outcome[j] == BatchOutcome(batch, analyze)[j];
    }
  }

  method ProcessBatch(texts: seq<string>, batchSize: int, analyze: TextRun)
    returns (r: Result<seq<seq<NerEntity>>>)
    ensures r == BatchResults(texts, batchSize, analyze)
  {
    if batchSize == 0 {
      return Err("ValueError");
    }
    var results: seq<seq<NerEntity>> := [];
    if batchSize > 0 {
      results := ProcessSlices(texts, batchSize, analyze, batch => BatchOutcome(batch, analyze));
    }
    r := Ok(results);
  }

  /** The `for i in range(0, len(texts), batch_size)` loop for a positive step;
      `outcomeOf` names what one pass computes for a batch. */
  method ProcessSlices(texts: seq<string>, size: nat, analyze: TextRun, ghost outcomeOf: seq<string> -> seq<seq<NerEntity>>)
    returns (results: seq<seq<NerEntity>>)
    requires size > 0
    requires forall batch {:trigger BatchOutcome(batch, analyze)} :: outcomeOf(batch) == BatchOutcome(batch, analyze)
    ensures results == Chunks(texts, size, 0, outcomeOf)
  {
    ghost var all := Chunks(texts, size, 0, outcomeOf);
    results := [];
    var i: nat := 0;
    while i < |texts|
      invariant results + Chunks(texts, size, i, outcomeOf) == all
      decreases |texts| - i
    {
      var batch := texts[i..MinNat(i + size, |texts|)];
      var outcome := ProcessSlice(batch, analyze);
      assert outcome == outcomeOf(batch);
      ghost var rest := Chunks(texts, size, i + size, outcomeOf);
      assert Chunks(texts, size, i, outcomeOf) == outcome + rest;
      MoveFront(results, Chunks(texts, size, i, outcomeOf), outcome, rest, all);
      results := results + outcome;
      i := i + size;
    }
    assert results + [] == results;
  }

  /** Where the batch holding the `k`-th text starts: the largest multiple of
      `size` not above `k`. */
  function BatchStart(k: nat, size: nat): (s: nat)
    requires size > 0
    ensures s <= k < s + size
  {
    if k < size then 0 else BatchStart(k - size, size) + size
  }

  /** The result for the `k`-th text: its entities when every text of its batch
      ran, else an empty list. */
  function ExpectedAt(texts: seq<string>, size: nat, k: nat, analyze: TextRun): seq<NerEntity>
    requires size > 0 && k < |texts|
  {
    var start := BatchStart(k, size);
    var batch := texts[start..MinNat(start + size, |texts|)];
    if Runs(batch, analyze) && analyze(texts[k]).Some? then analyze(texts[k]).value else []
  }

  /** `process_batch` returns exactly one list per text, in order: the text's own
      entities, or `[]` when its batch failed. */
  lemma {:induction false} BatchResultsPerText(texts: seq<string>, size: nat, i: nat, analyze: TextRun)
    requires size > 0 && i <= |texts| && BatchStart(i, size) == i
    ensures var r := ResultsFrom(texts, size, i, analyze);
      |r| == |texts| - i &&
      forall k :: i <= k < |texts| ==> r[k - i] == ExpectedAt(texts, size, k, analyze)
    decreases |texts| - i
  {
    if i < |texts| {
      var end := MinNat(i + size, |texts|);
      var head := BatchOutcome(texts[i..end], analyze);
      var tail := ResultsFrom(texts, size, i + size, analyze);
      if i + size <= |texts| {
        assert BatchStart(i + size, size) == i + size;
        BatchResultsPerText(texts, size, i + size, analyze);
      }
      var r := ResultsFrom(texts, size, i, analyze);
      assert r == head + tail;
      forall k | i <= k < |texts|
        ensures r[k - i] == ExpectedAt(texts, size, k, analyze)
      {
        if k < end {
          assert r[k - i] == head[k - i];
          HeadAt(texts, size, i, analyze, k);
        } else {
          assert r[k - i] == tail[k - (i + size)];
        }
      }
    }
  }

  /** A text of the batch starting at `i` gets the batch's outcome for it. */
  lemma HeadAt(texts: seq<string>, size: nat, i: nat, analyze: TextRun, k: nat)
    requires size > 0 && BatchStart(i, size) == i && i <= k < MinNat(i + size, |texts|)
    ensures BatchOutcome(texts[i..MinNat(i + size, |texts|)], analyze)[k - i] == ExpectedAt(texts, size, k, analyze)
  {
    var batch := texts[i..MinNat(i + size, |texts|)];
    WithinBatch(i, size, k);
    BatchOutcomeEach(batch, analyze);
    assert batch[k - i] == texts[k];
  }

  /** Every text of the batch starting at `i` belongs to that batch. */
  lemma {:induction false} WithinBatch(i: nat, size: nat, k: nat)
    requires size > 0 && BatchStart(i, size) == i && i <= k < i + size
    ensures BatchStart(k, size) == i
    decreases i
  {
    if i > 0 {
      WithinBatch(i - size, size, k - size);
    }
  }

  /** When every text runs, each result is that text's own entities. */
  lemma AllRun(texts: seq<string>, size: nat, analyze: TextRun)
    requires size > 0 && Runs(texts, analyze)
    ensures var r := ResultsFrom(texts, size, 0, analyze);
      |r| == |texts| && forall k :: 0 <= k < |texts| ==> Some(r[k]) == analyze(texts[k])
  {
    BatchResultsPerText(texts, size, 0, analyze);
    var r := ResultsFrom(texts, size, 0, analyze);
    forall k | 0 <= k < |texts| ensures Some(r[k]) == analyze(texts[k]) {
      assert r[k - 0] == ExpectedAt(texts, size, k, analyze);
      ExpectedWhenAllRun(texts, size, k, analyze);
    }
  }

  /** When every text runs, the expected result of each is its own entities. */
  lemma ExpectedWhenAllRun(texts: seq<string>, size: nat, k: nat, analyze: TextRun)
    requires size > 0 && k < |texts| && Runs(texts, analyze)
    ensures Some(ExpectedAt(texts, size, k, analyze)) == analyze(texts[k])
  {
    var start := BatchStart(k, size);
    var batch := texts[start..MinNat(start + size, |texts|)];
    ComprehensionEach(texts, analyze);
    forall j | 0 <= j < |batch| ensures analyze(batch[j]).Some? {
      assert batch[j] == texts[start + j];
    }
    ComprehensionEach(batch, analyze);
  }
}
