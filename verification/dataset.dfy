/** The data of `DataHelper.create_data_helper` and a functional statement of
    what one run of it assembles: step-level samples stamped with their
    document's index, one coreference document per tree, the training filter,
    the validation file names and one cluster set per document.

    The foreign collaborators (file existence, tree building and sample
    generation, the merge-file reader, the tokenizer, the stratified split and
    the coreference predictor) are the function fields of `Collaborators`. */
module Dataset {
  import opened Helpers
  import opened TreeReader

  datatype Option<T> = None | Some(value: T)
  datatype Result<T, E> = Success(value: T) | Failure(error: E)

  type ActionLabel = string
  type RelationLabel = string
  /** A mention span: first and last token position. */
  type Span = (nat, nat)
  /** An ordered collection of clusters, each an ordered collection of spans. */
  type Clusters = seq<seq<Span>>

  /** A feature vector as the tree's sample generator returns it: slot 0
      holds the tree file path. */
  datatype RawFeat = RawFeat(path: string, values: seq<int>)

  /** A feature vector after `feat[0] = i`: slot 0 holds the index of the
      document the sample belongs to, the other slots are untouched. */
  datatype Feat = Feat(docIndex: nat, values: seq<int>)

  function Stamp(f: RawFeat, i: nat): Feat {
    Feat(i, f.values)
  }

  /** What `generate_action_relation_samples` returns for one tree. */
  datatype TreeSamples = TreeSamples(feats: seq<RawFeat>, actions: seq<ActionLabel>, relations: seq<RelationLabel>)

  /** The number of triples `zip(feats, actions, relations)` produces. */
  function ZipLen(t: TreeSamples): (n: nat)
    ensures n <= |t.feats| && n <= |t.actions| && n <= |t.relations|
    ensures n == |t.feats| || n == |t.actions| || n == |t.relations|
  {
    var m := if |t.feats| < |t.actions| then |t.feats| else |t.actions|;
    if m < |t.relations| then m else |t.relations|
  }

  /** The `Doc` read from a `.merge` file: its EDU texts and lookup tables. */
  datatype Doc = Doc(docEdus: seq<string>, tokenDict: map<nat, nat>, eduDict: map<nat, nat>)

  /** The coreference `Document`, with the `Doc` lookups attached to it. */
  datatype Document = Document(
    tokens: seq<string>,
    sents: seq<seq<string>>,
    corefs: seq<Clusters>,
    speakers: seq<string>,
    genre: string,
    filename: string,
    tokenDict: map<nat, nat>,
    eduDict: map<nat, nat>,
    oldDoc: Doc)

  /** Lines 43-54: tokenize each EDU on its own, flatten the EDU token lists
      into the document's tokens, and wrap them with one placeholder speaker
      per token, the `nw` genre and no gold coreference. */
  function BuildDocument(fdis: string, doc: Doc, tokenize: string -> seq<string>): (d: Document)
    ensures |d.sents| == |doc.docEdus| && |d.speakers| == |d.tokens|
  {
    var tokEdus := seq(|doc.docEdus|, k requires 0 <= k < |doc.docEdus| => tokenize(doc.docEdus[k]));
    var tokens := Flatten(tokEdus);
    Document(tokens, tokEdus, [], seq(|tokens|, _ => "0"), "nw", fdis, doc.tokenDict, doc.eduDict, doc)
  }

  /** The built document has one sentence per EDU, holding that EDU's tokens,
      as many tokens as the sentences together, one speaker "0" per token, no
      gold coreference, the `nw` genre, the tree path as its name and the
      `Doc`'s lookups. */
  lemma BuildDocumentFields(fdis: string, doc: Doc, tokenize: string -> seq<string>)
    ensures var d := BuildDocument(fdis, doc, tokenize);
      && |d.sents| == |doc.docEdus|
      && (forall k :: 0 <= k < |d.sents| ==> d.sents[k] == tokenize(doc.docEdus[k]))
      && |d.tokens| == |d.speakers| == SumLengths(d.sents)
      && (forall k :: 0 <= k < |d.speakers| ==> d.speakers[k] == "0")
      && d.corefs == [] && d.genre == "nw" && d.filename == fdis
      && d.tokenDict == doc.tokenDict && d.eduDict == doc.eduDict && d.oldDoc == doc
  {
  }

  /** The document's tokens are its EDUs' tokens, EDU after EDU. */
  lemma DocumentTokensFollowEdus(fdis: string, doc: Doc, tokenize: string -> seq<string>, k: nat, j: nat)
    requires k < |doc.docEdus| && j < |tokenize(doc.docEdus[k])|
    ensures var d := BuildDocument(fdis, doc, tokenize);
      SumLengths(d.sents[..k]) + j < |d.tokens| &&
      d.tokens[SumLengths(d.sents[..k]) + j] == tokenize(doc.docEdus[k])[j]
  {
    var d := BuildDocument(fdis, doc, tokenize);
    BuildDocumentFields(fdis, doc, tokenize);
    FlattenIndex(d.sents, k, j);
  }

  /** The collaborators the assembler calls but whose code is not modelled. */
  datatype Collaborators = Collaborators(
    isFile: string -> bool,                        // os.path.isfile
    generate: TreeFiles -> TreeSamples,            // RstTree(fdis, fmerge), build(), generate_action_relation_samples(config)
    readMerge: string -> Doc,                      // Doc().read_from_fmerge
    tokenize: string -> seq<string>,               // nltk.word_tokenize
    split: seq<nat> -> Option<(seq<nat>, seq<nat>)>, // train_test_split over arange(n), stratified; None when it raises
    predict: Document -> Clusters)                 // coref_trainer.predict_rst(doc)[0]

  /** `train` and `val` split the document indices `0..n-1`: every index lies
      in exactly one of them and no other index occurs. */
  ghost predicate IsSplit(train: seq<nat>, val: seq<nat>, n: nat) {
    && (forall k :: 0 <= k < |train| ==> train[k] < n)
    && (forall k :: 0 <= k < |val| ==> val[k] < n)
    && (forall x :: 0 <= x < n ==> (x in train <==> x !in val))
  }

  /** What the stratified split promises: it rejects an empty input (sklearn
      raises when there are no samples to split), and whenever it returns,
      its two index lists partition the input positions. */
  ghost predicate SplitContract(c: Collaborators) {
    && c.split([]).None?
    && forall classes {:trigger c.split(classes)} :: c.split(classes).Some? ==>
         IsSplit(c.split(classes).value.0, c.split(classes).value.1, |classes|)
  }

  // ---------------------------------------------------------------------------
  // Reading the trees
  // ---------------------------------------------------------------------------

  /** The samples `generate` yields for each tree, in tree order. */
  function Generated(trees: seq<TreeFiles>, c: Collaborators): (outs: seq<TreeSamples>)
    ensures |outs| == |trees|
    ensures forall i :: 0 <= i < |trees| ==> outs[i] == c.generate(trees[i])
  {
    seq(|trees|, i requires 0 <= i < |trees| => c.generate(trees[i]))
  }

  /** The samples of every tree the reader yields, in yield order. */
  function Outputs(dataDir: string, names: seq<string>, c: Collaborators): (outs: seq<TreeSamples>)
    ensures |outs| == |ReadRstTrees(dataDir, names, c.isFile)|
  {
    Generated(ReadRstTrees(dataDir, names, c.isFile), c)
  }

  /** The first tree without samples, where `feats[0][0]` raises; `|outs|` if none. */
  function FirstEmptyTree(outs: seq<TreeSamples>): (e: nat)
    ensures e <= |outs|
    ensures e < |outs| ==> |outs[e].feats| == 0
    ensures forall k :: 0 <= k < e ==> |outs[k].feats| > 0
  {
    FirstEmptyFrom(outs, 0)
  }

  /** The first tree at or after `i` without samples; `|outs|` if none. */
  function FirstEmptyFrom(outs: seq<TreeSamples>, i: nat): (e: nat)
    requires i <= |outs|
    ensures i <= e <= |outs|
    ensures e < |outs| ==> |outs[e].feats| == 0
    ensures forall k :: i <= k < e ==> |outs[k].feats| > 0
    decreases |outs| - i
  {
    if i == |outs| || |outs[i].feats| == 0 then i else FirstEmptyFrom(outs, i + 1)
  }

  /** Reading up to the first empty tree: tree `i` is that tree exactly
      when it has no samples. */
  lemma FirstEmptyTreeStep(outs: seq<TreeSamples>, i: nat)
    requires i < |outs| && i <= FirstEmptyTree(outs)
    ensures |outs[i].feats| == 0 ==> FirstEmptyTree(outs) == i
    ensures |outs[i].feats| > 0 ==> i < FirstEmptyTree(outs)
  {
  }

  /** The document of one tree, read from the counterpart of the path held in
      slot 0 of the tree's first feature vector. */
  function DocOf(t: TreeSamples, c: Collaborators): (d: Document)
    requires |t.feats| > 0
    ensures d.filename == t.feats[0].path
    ensures d.oldDoc == c.readMerge(Counterpart(t.feats[0].path))
    ensures |d.sents| == |d.oldDoc.docEdus|
  {
    var fdis := t.feats[0].path;
    BuildDocumentFields(fdis, c.readMerge(Counterpart(fdis)), c.tokenize);
    BuildDocument(fdis, c.readMerge(Counterpart(fdis)), c.tokenize)
  }

  /** The documents of the first `n` trees. */
  function Docs(outs: seq<TreeSamples>, c: Collaborators, n: nat): (docs: seq<Document>)
    requires n <= |outs|
    requires forall k :: 0 <= k < n ==> |outs[k].feats| > 0
    ensures |docs| == n
  {
    seq(n, i requires 0 <= i < n => DocOf(outs[i], c))
  }

  /** Each document is named after the tree path its samples carry, and
      holds the `Doc` read from that path's counterpart. */
  lemma DocsNamedByTrees(outs: seq<TreeSamples>, c: Collaborators, n: nat)
    requires n <= |outs|
    requires forall k :: 0 <= k < n ==> |outs[k].feats| > 0
    ensures forall i :: 0 <= i < n ==> Docs(outs, c, n)[i].filename == outs[i].feats[0].path
    ensures forall i :: 0 <= i < n ==> Docs(outs, c, n)[i].oldDoc == c.readMerge(Counterpart(outs[i].feats[0].path))
  {
  }

  /** A document list built one tree at a time is `Docs`. */
  lemma DocsByElements(ds: seq<Document>, outs: seq<TreeSamples>, c: Collaborators, n: nat)
    requires n <= |outs| && |ds| == n
    requires forall k :: 0 <= k < n ==> |outs[k].feats| > 0 && ds[k] == DocOf(outs[k], c)
    ensures ds == Docs(outs, c, n)
  {
  }

  /** `[len(d.edu_dict) for d in docs]`: the stratifier's input. */
  function EduCounts(docs: seq<Document>): (counts: seq<nat>)
    ensures |counts| == |docs|
    ensures forall i :: 0 <= i < |docs| ==> counts[i] == |docs[i].eduDict|
  {
    seq(|docs|, i requires 0 <= i < |docs| => |docs[i].eduDict|)
  }

  // ---------------------------------------------------------------------------
  // The three accumulators
  // ---------------------------------------------------------------------------

  /** The zipped feature vectors of one tree, each stamped with `i`. */
  function StampedFeats(t: TreeSamples, i: nat): (fs: seq<Feat>)
    ensures |fs| == ZipLen(t)
  {
    seq(ZipLen(t), j requires 0 <= j < ZipLen(t) => Stamp(t.feats[j], i))
  }

  /** Per tree, its zipped feature vectors stamped with the tree's position. */
  function PerTreeFeats(outs: seq<TreeSamples>): (r: seq<seq<Feat>>)
    ensures |r| == |outs|
  {
    seq(|outs|, i requires 0 <= i < |outs| => StampedFeats(outs[i], i))
  }

  /** Per tree, its zipped action labels. */
  function PerTreeActions(outs: seq<TreeSamples>): (r: seq<seq<ActionLabel>>)
    ensures |r| == |outs|
  {
    seq(|outs|, i requires 0 <= i < |outs| => outs[i].actions[..ZipLen(outs[i])])
  }

  /** Per tree, its zipped relation labels. */
  function PerTreeRelations(outs: seq<TreeSamples>): (r: seq<seq<RelationLabel>>)
    ensures |r| == |outs|
  {
    seq(|outs|, i requires 0 <= i < |outs| => outs[i].relations[..ZipLen(outs[i])])
  }

  /** `all_feats_list` once every tree has been read. */
  function AllFeats(outs: seq<TreeSamples>): seq<Feat> {
    Flatten(PerTreeFeats(outs))
  }

  /** `all_actions_numeric` once every tree has been read: one label per
      feature vector. */
  function AllActions(outs: seq<TreeSamples>): (acts: seq<ActionLabel>)
    ensures |acts| == |AllFeats(outs)|
  {
    SumLengthsPointwise(PerTreeFeats(outs), PerTreeActions(outs));
    Flatten(PerTreeActions(outs))
  }

  /** `all_relations_numeric` once every tree has been read: one label per
      feature vector. */
  function AllRelations(outs: seq<TreeSamples>): (rels: seq<RelationLabel>)
    ensures |rels| == |AllFeats(outs)|
  {
    SumLengthsPointwise(PerTreeFeats(outs), PerTreeRelations(outs));
    Flatten(PerTreeRelations(outs))
  }

  lemma {:induction false} SumLengthsPointwise<A, B>(xs: seq<seq<A>>, ys: seq<seq<B>>)
    requires |xs| == |ys|
    requires forall i :: 0 <= i < |xs| ==> |xs[i]| == |ys[i]|
    ensures SumLengths(xs) == SumLengths(ys)
  {
    if xs != [] {
      SumLengthsPointwise(xs[1..], ys[1..]);
    }
  }

  /** Blocks whose vectors all carry an index below `n` flatten to such vectors. */
  lemma {:induction false} FlattenBounded(xss: seq<seq<Feat>>, n: nat)
    requires forall i, j :: 0 <= i < |xss| && 0 <= j < |xss[i]| ==> xss[i][j].docIndex < n
    ensures forall p :: 0 <= p < |Flatten(xss)| ==> Flatten(xss)[p].docIndex < n
  {
    if xss != [] {
      FlattenBounded(xss[1..], n);
      assert forall i, j :: 0 <= i < |xss[1..]| && 0 <= j < |xss[1..][i]| ==> xss[1..][i][j] == xss[i + 1][j];
    }
  }

  /** Reading tree `i` extends each accumulator by that tree's zipped block. */
  lemma AccumulateStep(outs: seq<TreeSamples>, i: nat)
    requires i < |outs|
    ensures Flatten(PerTreeFeats(outs)[..i + 1]) == Flatten(PerTreeFeats(outs)[..i]) + StampedFeats(outs[i], i)
    ensures Flatten(PerTreeActions(outs)[..i + 1]) == Flatten(PerTreeActions(outs)[..i]) + outs[i].actions[..ZipLen(outs[i])]
    ensures Flatten(PerTreeRelations(outs)[..i + 1]) == Flatten(PerTreeRelations(outs)[..i]) + outs[i].relations[..ZipLen(outs[i])]
  {
    var f, a, r := PerTreeFeats(outs), PerTreeActions(outs), PerTreeRelations(outs);
    assert f[..i + 1] == f[..i] + [f[i]];
    assert a[..i + 1] == a[..i] + [a[i]];
    assert r[..i + 1] == r[..i] + [r[i]];
    FlattenSnoc(f[..i], f[i]);
    FlattenSnoc(a[..i], a[i]);
    FlattenSnoc(r[..i], r[i]);
  }

  /** After the last tree the accumulators are complete. */
  lemma AccumulateDone(outs: seq<TreeSamples>)
    ensures Flatten(PerTreeFeats(outs)[..|outs|]) == AllFeats(outs)
    ensures Flatten(PerTreeActions(outs)[..|outs|]) == AllActions(outs)
    ensures Flatten(PerTreeRelations(outs)[..|outs|]) == AllRelations(outs)
  {
    assert PerTreeFeats(outs)[..|outs|] == PerTreeFeats(outs);
    assert PerTreeActions(outs)[..|outs|] == PerTreeActions(outs);
    assert PerTreeRelations(outs)[..|outs|] == PerTreeRelations(outs);
  }

  /** The accumulators stay parallel: the same length, and the tree-`i` blocks
      start at the same offset in all three. */
  lemma AccumulatorsAligned(outs: seq<TreeSamples>, i: nat)
    requires i <= |outs|
    ensures |AllFeats(outs)| == |AllActions(outs)| == |AllRelations(outs)|
    ensures SumLengths(PerTreeFeats(outs)[..i]) == SumLengths(PerTreeActions(outs)[..i])
                                                == SumLengths(PerTreeRelations(outs)[..i])
  {
    var f, a, r := PerTreeFeats(outs), PerTreeActions(outs), PerTreeRelations(outs);
    SumLengthsPointwise(f, a);
    SumLengthsPointwise(f, r);
    SumLengthsPointwise(f[..i], a[..i]);
    SumLengthsPointwise(f[..i], r[..i]);
  }

  /** Every stamped index names a tree that was read. */
  lemma StampedIndexInRange(outs: seq<TreeSamples>)
    ensures forall p :: 0 <= p < |AllFeats(outs)| ==> AllFeats(outs)[p].docIndex < |outs|
  {
    FlattenBounded(PerTreeFeats(outs), |outs|);
  }

  /** The samples of tree `i` sit in one contiguous block, in generation
      order, each carrying `i`, at the same position in all three accumulators. */
  lemma SampleAt(outs: seq<TreeSamples>, i: nat, j: nat)
    requires i < |outs| && j < ZipLen(outs[i])
    ensures var p := SumLengths(PerTreeFeats(outs)[..i]) + j;
      && p < |AllFeats(outs)|
      && AllFeats(outs)[p] == Stamp(outs[i].feats[j], i)
      && p < |AllActions(outs)| && AllActions(outs)[p] == outs[i].actions[j]
      && p < |AllRelations(outs)| && AllRelations(outs)[p] == outs[i].relations[j]
  {
    AccumulatorsAligned(outs, i);
    FlattenIndex(PerTreeFeats(outs), i, j);
    FlattenIndex(PerTreeActions(outs), i, j);
    FlattenIndex(PerTreeRelations(outs), i, j);
  }

  // ---------------------------------------------------------------------------
  // The training filter
  // ---------------------------------------------------------------------------

  /** The positions among the first `n` samples whose stamped index is in `train`,
      in increasing order. */
  function KeptPositions(feats: seq<Feat>, train: seq<nat>, n: nat): (ps: seq<nat>)
    requires n <= |feats|
    ensures forall k :: 0 <= k < |ps| ==> ps[k] < n
  {
    if n == 0 then []
    else
      var ps := KeptPositions(feats, train, n - 1);
      if feats[n - 1].docIndex in train then ps + [n - 1] else ps
  }

  /** The kept positions are exactly those of training samples, each once,
      in increasing order. */
  lemma {:induction false} KeptPositionsExact(feats: seq<Feat>, train: seq<nat>, n: nat)
    requires n <= |feats|
    ensures var ps := KeptPositions(feats, train, n);
      && (forall k :: 0 <= k < |ps| ==> feats[ps[k]].docIndex in train)
      && (forall k, l :: 0 <= k < l < |ps| ==> ps[k] < ps[l])
      && (forall p :: 0 <= p < n && feats[p].docIndex in train ==> p in ps)
  {
    if n > 0 {
      KeptPositionsExact(feats, train, n - 1);
    }
  }

  /** One more kept position adds one element to the selection. */
  lemma SelectSnoc<T>(s: seq<T>, ps: seq<nat>, p: nat)
    requires forall k :: 0 <= k < |ps| ==> ps[k] < |s|
    requires p < |s|
    ensures Select(s, ps + [p]) == Select(s, ps) + [s[p]]
  {
  }

  /** The elements of `s` at positions `ps`, in that order. */
  function Select<T>(s: seq<T>, ps: seq<nat>): (r: seq<T>)
    requires forall k :: 0 <= k < |ps| ==> ps[k] < |s|
    ensures |r| == |ps|
  {
    seq(|ps|, k requires 0 <= k < |ps| => s[ps[k]])
  }

  /** The filter keeps a sample exactly when its document is a training one,
      unchanged (no re-indexing) and in the original relative order. */
  lemma FilterKeepsExactlyTrain(feats: seq<Feat>, train: seq<nat>)
    ensures var ps := KeptPositions(feats, train, |feats|);
      var kept := Select(feats, ps);
      && (forall k :: 0 <= k < |kept| ==> kept[k] == feats[ps[k]] && kept[k].docIndex in train)
      && (forall k, l :: 0 <= k < l < |kept| ==> ps[k] < ps[l])
      && (forall p :: 0 <= p < |feats| && feats[p].docIndex in train ==>
            exists k :: 0 <= k < |kept| && ps[k] == p && kept[k] == feats[p])
  {
    var ps := KeptPositions(feats, train, |feats|);
    KeptPositionsExact(feats, train, |feats|);
    forall p | 0 <= p < |feats| && feats[p].docIndex in train
      ensures exists k :: 0 <= k < |ps| && ps[k] == p && Select(feats, ps)[k] == feats[p]
    {
      var k :| 0 <= k < |ps| && ps[k] == p;
    }
  }

  /** With disjoint partitions, no kept sample belongs to a validation document. */
  lemma FilterExcludesValidation(feats: seq<Feat>, train: seq<nat>, val: seq<nat>)
    requires forall x :: x in train ==> x !in val
    ensures var kept := Select(feats, KeptPositions(feats, train, |feats|));
      forall k :: 0 <= k < |kept| ==> kept[k].docIndex !in val
  {
    KeptPositionsExact(feats, train, |feats|);
  }

  /** Under a split of the `n` documents, every kept sample names an existing
      training document and no validation document. */
  lemma KeptSamplesAreTraining(feats: seq<Feat>, train: seq<nat>, val: seq<nat>, n: nat)
    requires IsSplit(train, val, n)
    requires forall p :: 0 <= p < |feats| ==> feats[p].docIndex < n
    ensures var kept := Select(feats, KeptPositions(feats, train, |feats|));
      forall k :: 0 <= k < |kept| ==> kept[k].docIndex < n && kept[k].docIndex in train && kept[k].docIndex !in val
  {
    var ps := KeptPositions(feats, train, |feats|);
    KeptPositionsExact(feats, train, |feats|);
    forall k | 0 <= k < |ps| ensures Select(feats, ps)[k] == feats[ps[k]] {
    }
  }

  // ---------------------------------------------------------------------------
  // Validation names and clusters
  // ---------------------------------------------------------------------------

  /** `[docs[index].filename for index in val_indexes]` */
  function ValTrees(docs: seq<Document>, val: seq<nat>): (names: seq<string>)
    requires forall k :: 0 <= k < |val| ==> val[k] < |docs|
    ensures |names| == |val|
    ensures forall k :: 0 <= k < |val| ==> names[k] == docs[val[k]].filename
  {
    seq(|val|, k requires 0 <= k < |val| => docs[val[k]].filename)
  }

  /** One predicted cluster set per document, in document order. */
  function AllClusters(docs: seq<Document>, predict: Document -> Clusters): (cs: seq<Clusters>)
    ensures |cs| == |docs|
    ensures forall i :: 0 <= i < |docs| ==> cs[i] == predict(docs[i])
  {
    seq(|docs|, i requires 0 <= i < |docs| => predict(docs[i]))
  }

  // ---------------------------------------------------------------------------
  // The whole assembly
  // ---------------------------------------------------------------------------

  /** The attributes the assembler leaves on the `DataHelper`, which are also
      the fields of its saved snapshot. */
  datatype Corpus = Corpus(
    featsList: seq<Feat>,
    actionsNumeric: seq<ActionLabel>,
    relationsNumeric: seq<RelationLabel>,
    docs: seq<Document>,
    valTrees: seq<string>,
    allClusters: seq<Clusters>)

  /** Why a run stops: a tree with no samples (`feats[0][0]` raises
      IndexError), the split raising, or, in the code as written, the unbound
      local read at line 66. */
  datatype Failure = TreeWithoutSamples(treeIndex: nat) | SplitRejected | UnboundLocal(name: string)

  /** The stratification classes of the documents. */
  function Classes(docs: seq<Document>): (cls: seq<nat>)
    ensures |cls| == |docs|
  {
    GetStratifyClasses(EduCounts(docs))
  }

  /** Document `i`'s class is the class of its EDU count. */
  lemma ClassesOfDocs(docs: seq<Document>, i: nat)
    requires i < |docs|
    ensures Classes(docs)[i] == StratifyClass(|docs[i].eduDict|)
  {
  }

  /** The corpus one run assembles, or why it stops. */
  function Assemble(dataDir: string, names: seq<string>, c: Collaborators): Result<Corpus, Failure>
    requires SplitContract(c)
  {
    var outs := Outputs(dataDir, names, c);
    var e := FirstEmptyTree(outs);
    if e < |outs| then Failure(TreeWithoutSamples(e))
    else
      var docs := Docs(outs, c, |outs|);
      var split := c.split(Classes(docs));
      if split.None? then Failure(SplitRejected)
      else
        var train, val := split.value.0, split.value.1;
        var feats := AllFeats(outs);
        var ps := KeptPositions(feats, train, |feats|);
        AccumulatorsAligned(outs, 0);
        Success(Corpus(Select(feats, ps), Select(AllActions(outs), ps), Select(AllRelations(outs), ps),
                       docs, ValTrees(docs, val), AllClusters(docs, c.predict)))
  }

  /** A run stops at the first tree without samples, and only there. */
  lemma AssembleStopsAtEmptyTree(dataDir: string, names: seq<string>, c: Collaborators, e: nat)
    requires SplitContract(c)
    ensures var outs := Outputs(dataDir, names, c);
      Assemble(dataDir, names, c) == Failure(TreeWithoutSamples(e))
      <==> e < |outs| && |outs[e].feats| == 0 && forall k :: 0 <= k < e ==> |outs[k].feats| > 0
  {
    var outs := Outputs(dataDir, names, c);
    var f := FirstEmptyTree(outs);
    if e < |outs| && |outs[e].feats| == 0 && forall k :: 0 <= k < e ==> |outs[k].feats| > 0 {
      assert f == e;
    }
  }

  /** A run stops only at the first tree without samples or at the split,
      never at an unbound name. */
  lemma AssembleFailures(dataDir: string, names: seq<string>, c: Collaborators)
    requires SplitContract(c)
    ensures var r := Assemble(dataDir, names, c);
      r.Failure? ==>
        r.error == TreeWithoutSamples(FirstEmptyTree(Outputs(dataDir, names, c))) || r.error == SplitRejected
  {
  }

  /** A listing that yields no tree is rejected by the split: there are no
      documents to stratify. */
  lemma EmptyListingRejected(dataDir: string, names: seq<string>, c: Collaborators)
    requires SplitContract(c)
    requires ReadRstTrees(dataDir, names, c.isFile) == []
    ensures Assemble(dataDir, names, c) == Failure(SplitRejected)
  {
    var outs := Outputs(dataDir, names, c);
    assert Classes(Docs(outs, c, |outs|)) == [];
  }

  /** The invariants of an assembled corpus: one cluster set per document,
      parallel sample lists, every kept sample naming an existing training
      document and never a validation one, one name per validation index. */
  lemma AssembledCorpusInvariants(dataDir: string, names: seq<string>, c: Collaborators)
    requires SplitContract(c)
    requires Assemble(dataDir, names, c).Success?
    ensures var corpus := Assemble(dataDir, names, c).value;
      var split := c.split(Classes(corpus.docs)).value;
      && |corpus.docs| == |ReadRstTrees(dataDir, names, c.isFile)|
      && |corpus.allClusters| == |corpus.docs|
      && (forall i :: 0 <= i < |corpus.docs| ==> corpus.allClusters[i] == c.predict(corpus.docs[i]))
      && |corpus.featsList| == |corpus.actionsNumeric| == |corpus.relationsNumeric|
      && (forall k :: 0 <= k < |corpus.featsList| ==>
            corpus.featsList[k].docIndex < |corpus.docs| &&
            corpus.featsList[k].docIndex in split.0 &&
            corpus.featsList[k].docIndex !in split.1)
      && |corpus.valTrees| == |split.1|
      && (forall k :: 0 <= k < |split.1| ==> corpus.valTrees[k] == corpus.docs[split.1[k]].filename)
  {
    var outs := Outputs(dataDir, names, c);
    var docs := Docs(outs, c, |outs|);
    var cls := Classes(docs);
    assert |cls| == |outs|;
    var train, val := c.split(cls).value.0, c.split(cls).value.1;
    var feats := AllFeats(outs);
    var ps := KeptPositions(feats, train, |feats|);
    var corpus := Assemble(dataDir, names, c).value;
    assert corpus.docs == docs && corpus.featsList == Select(feats, ps);
    assert c.split(Classes(corpus.docs)).value == (train, val);
    forall k | 0 <= k < |corpus.featsList|
      ensures corpus.featsList[k].docIndex < |corpus.docs|
      ensures corpus.featsList[k].docIndex in train && corpus.featsList[k].docIndex !in val
    {
      KeptSampleIsTraining(outs, train, val, k);
    }
  }

  /** One kept sample of a run names an existing training document and no
      validation document. */
  lemma KeptSampleIsTraining(outs: seq<TreeSamples>, train: seq<nat>, val: seq<nat>, k: nat)
    requires IsSplit(train, val, |outs|)
    requires k < |KeptPositions(AllFeats(outs), train, |AllFeats(outs)|)|
    ensures var feats := AllFeats(outs);
      var f := Select(feats, KeptPositions(feats, train, |feats|))[k];
      f.docIndex < |outs| && f.docIndex in train && f.docIndex !in val
  {
    StampedIndexInRange(outs);
    KeptSamplesAreTraining(AllFeats(outs), train, val, |outs|);
  }
}
