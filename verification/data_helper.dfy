/** `DataHelper` and its `create_data_helper` loops: read every tree, stamp its
    samples with the tree's position and append them to three parallel
    accumulators, build one coreference document per tree, split the
    documents, keep the training samples, name the validation trees and
    precompute one cluster set per document. */
module Assembler {
  import opened Helpers
  import opened TreeReader
  import opened Dataset

  datatype Outcome = Done | Failed(failure: Failure)

  class DataHelper {
    var actionMap: map<ActionLabel, nat>
    var relationMap: map<RelationLabel, nat>
    var featsList: seq<Feat>
    var actionsNumeric: seq<ActionLabel>
    var relationsNumeric: seq<RelationLabel>
    var docs: seq<Document>
    var valTrees: seq<string>
    var allClusters: seq<Clusters>

    /** The attributes a run leaves behind, as one value. */
    ghost function Snapshot(): Corpus
      reads this
    {
      Corpus(featsList, actionsNumeric, relationsNumeric, docs, valTrees, allClusters)
    }

    /** `__init__`: both label maps start empty. */
    constructor ()
      ensures actionMap == map[] && relationMap == map[]
      ensures Snapshot() == Corpus([], [], [], [], [], [])
    {
      actionMap, relationMap := map[], map[];
      featsList, actionsNumeric, relationsNumeric := [], [], [];
      docs, valTrees, allClusters := [], [], [];
    }

    /** Lines 33-64 over the trees `read_rst_trees` yields for the directory. */
    static method ReadDirectory(dataDir: string, names: seq<string>, c: Collaborators)
      returns (e: nat, ds: seq<Document>, allFeats: seq<Feat>, allActions: seq<ActionLabel>, allRelations: seq<RelationLabel>)
      ensures var outs := Outputs(dataDir, names, c);
        && e == FirstEmptyTree(outs)
        && ds == Docs(outs, c, e)
        && (e == |outs| ==>
              allFeats == AllFeats(outs) && allActions == AllActions(outs) && allRelations == AllRelations(outs))
    {
      var trees := ReadRstTrees(dataDir, names, c.isFile);
      e, ds, allFeats, allActions, allRelations := ReadTrees(trees, c);
    }

    /** Lines 33-64: for each tree, the document built from its merge file and
        its stamped samples, up to the first tree without samples at `e`. On
        that tree `feats[0][0]` raises, after the documents before it were
        appended. */
    static method ReadTrees(trees: seq<TreeFiles>, c: Collaborators)
      returns (e: nat, ds: seq<Document>, allFeats: seq<Feat>, allActions: seq<ActionLabel>, allRelations: seq<RelationLabel>)
      ensures var outs := Generated(trees, c);
        && e == FirstEmptyTree(outs)
        && ds == Docs(outs, c, e)
        && (e == |outs| ==>
              allFeats == AllFeats(outs) && allActions == AllActions(outs) && allRelations == AllRelations(outs))
    {
      ghost var outs := Generated(trees, c);
      ghost var stop := FirstEmptyTree(outs);
      allFeats, allActions, allRelations, ds := [], [], [], [];
      for i := 0 to |trees|
        invariant i <= stop
        invariant |ds| == i && forall k :: 0 <= k < i ==> ds[k] == DocOf(outs[k], c)
        invariant allFeats == Flatten(PerTreeFeats(outs)[..i])
        invariant allActions == Flatten(PerTreeActions(outs)[..i])
        invariant allRelations == Flatten(PerTreeRelations(outs)[..i])
      {
        var t := c.generate(trees[i]);
        assert t == outs[i];
        FirstEmptyTreeStep(outs, i);
        if |t.feats| == 0 {
          DocsByElements(ds, outs, c, i);
          return i, ds, allFeats, allActions, allRelations;
        }
        var fdis := t.feats[0].path;
        var doc := c.readMerge(Counterpart(fdis));
        var corefDocument := BuildDocument(fdis, doc, c.tokenize);
        assert corefDocument == DocOf(outs[i], c);

        allFeats, allActions, allRelations := AppendSamples(allFeats, allActions, allRelations, t, i);
        AccumulateStep(outs, i);

        ds := ds + [corefDocument];
      }
      AccumulateDone(outs);
      DocsByElements(ds, outs, c, |outs|);
      e := |trees|;
    }

    /** Lines 56-60: stamp each zipped sample of tree `i` with `i` and append
        the triple to the three accumulators. */
    static method AppendSamples(feats: seq<Feat>, actions: seq<ActionLabel>, relations: seq<RelationLabel>,
                                t: TreeSamples, i: nat)
      returns (feats': seq<Feat>, actions': seq<ActionLabel>, relations': seq<RelationLabel>)
      ensures feats' == feats + StampedFeats(t, i)
      ensures actions' == actions + t.actions[..ZipLen(t)]
      ensures relations' == relations + t.relations[..ZipLen(t)]
    {
      feats', actions', relations' := feats, actions, relations;
      var n := ZipLen(t);
      for j := 0 to n
        invariant feats' == feats + StampedFeats(t, i)[..j]
        invariant actions' == actions + t.actions[..j]
        invariant relations' == relations + t.relations[..j]
      {
        feats' := feats' + [Stamp(t.feats[j], i)];
        actions' := actions' + [t.actions[j]];
        relations' := relations' + [t.relations[j]];
        assert StampedFeats(t, i)[..j + 1] == StampedFeats(t, i)[..j] + [Stamp(t.feats[j], i)];
        assert t.actions[..j + 1] == t.actions[..j] + [t.actions[j]];
        assert t.relations[..j + 1] == t.relations[..j] + [t.relations[j]];
      }
      assert StampedFeats(t, i)[..n] == StampedFeats(t, i);
    }

    /** `create_data_helper` without lines 66-67: read the trees, stratify
        and split the documents, keep the samples of training documents
        (lines 75-79), name the validation trees (line 81) and predict one
        cluster set per document (lines 82-88). */
    method CreateDataHelper(dataDir: string, names: seq<string>, c: Collaborators) returns (outcome: Outcome)
      requires SplitContract(c)
      modifies this
      ensures var r := Assemble(dataDir, names, c);
        r.Success? ==> outcome == Done && Snapshot() == r.value
      ensures var r := Assemble(dataDir, names, c);
        var outs := Outputs(dataDir, names, c);
        r.Failure? ==>
          && outcome == Failed(r.error)
          && featsList == [] && actionsNumeric == [] && relationsNumeric == [] && valTrees == []
          && docs == Docs(outs, c, FirstEmptyTree(outs))
          && allClusters == old(allClusters)
      ensures actionMap == old(actionMap) && relationMap == old(relationMap)
    {
      var e, ds, allFeats, allActions, allRelations := ReadDirectory(dataDir, names, c);
      StoreReading(ds);
      if e < |Outputs(dataDir, names, c)| {
        return Failed(TreeWithoutSamples(e));
      }
      var split := c.split(Classes(ds));
      if split.None? {
        return Failed(SplitRejected);
      }
      var trainIndexes, valIndexes := split.value.0, split.value.1;
      assert IsSplit(trainIndexes, valIndexes, |ds|);
      AccumulatorsAligned(Outputs(dataDir, names, c), 0);
      KeepTrainSamples(allFeats, allActions, allRelations, trainIndexes);
      NameValTrees(valIndexes);
      PredictClusters(c.predict);
      outcome := Done;
    }

    /** Lines 26-30 and the appends of line 62: the attributes a run resets
        start empty, and `docs` holds the documents built while reading.
        Reading touches no attribute, so storing them after the reading loop
        leaves the state the loop leaves. */
    method StoreReading(ds: seq<Document>)
      modifies this`featsList, this`actionsNumeric, this`relationsNumeric, this`docs, this`valTrees
      ensures featsList == [] && actionsNumeric == [] && relationsNumeric == [] && valTrees == []
      ensures docs == ds
    {
      featsList, actionsNumeric, relationsNumeric, valTrees := [], [], [], [];
      docs := ds;
    }

    /** Line 81: the file name of each validation document, in split order. */
    method NameValTrees(valIndexes: seq<nat>)
      requires forall k :: 0 <= k < |valIndexes| ==> valIndexes[k] < |docs|
      modifies this`valTrees
      ensures valTrees == ValTrees(docs, valIndexes)
    {
      valTrees := [];
      for k := 0 to |valIndexes|
        invariant |valTrees| == k
        invariant forall j :: 0 <= j < k ==> valTrees[j] == docs[valIndexes[j]].filename
      {
        valTrees := valTrees + [docs[valIndexes[k]].filename];
      }
    }

    /** Lines 75-79: append to the three attributes, in order, each sample
        whose stamped index is a training index, keeping the lists parallel. */
    method KeepTrainSamples(allFeats: seq<Feat>, allActions: seq<ActionLabel>, allRelations: seq<RelationLabel>,
                            trainIndexes: seq<nat>)
      requires |allActions| == |allFeats| && |allRelations| == |allFeats|
      modifies this`featsList, this`actionsNumeric, this`relationsNumeric
      ensures var ps := KeptPositions(allFeats, trainIndexes, |allFeats|);
        && featsList == old(featsList) + Select(allFeats, ps)
        && actionsNumeric == old(actionsNumeric) + Select(allActions, ps)
        && relationsNumeric == old(relationsNumeric) + Select(allRelations, ps)
    {
      for p := 0 to |allFeats|
        invariant featsList == old(featsList) + Select(allFeats, KeptPositions(allFeats, trainIndexes, p))
        invariant actionsNumeric == old(actionsNumeric) + Select(allActions, KeptPositions(allFeats, trainIndexes, p))
        invariant relationsNumeric == old(relationsNumeric) + Select(allRelations, KeptPositions(allFeats, trainIndexes, p))
      {
        ghost var ps := KeptPositions(allFeats, trainIndexes, p);
        if allFeats[p].docIndex in trainIndexes {
          featsList := featsList + [allFeats[p]];
          actionsNumeric := actionsNumeric + [allActions[p]];
          relationsNumeric := relationsNumeric + [allRelations[p]];
          SelectSnoc(allFeats, ps, p);
          SelectSnoc(allActions, ps, p);
          SelectSnoc(allRelations, ps, p);
        }
      }
    }

    /** Lines 82-88: one predicted cluster set per document, in document order. */
    method PredictClusters(predict: Document -> Clusters)
      modifies this`allClusters
      ensures allClusters == AllClusters(docs, predict)
    {
      allClusters := [];
      for i := 0 to |docs|
        invariant |allClusters| == i
        invariant forall k :: 0 <= k < i ==> allClusters[k] == predict(docs[k])
      {
        allClusters := allClusters + [predict(docs[i])];
      }
    }

    /** `create_data_helper` as written: lines 66-67 read the locals
        `actions_numeric` and `relations_numeric`, which the same lines
        assign, so Python raises UnboundLocalError there and a run never
        gets past the accumulation loop. */
    method CreateDataHelperAsWritten(dataDir: string, names: seq<string>, c: Collaborators) returns (outcome: Outcome)
      modifies this
      ensures outcome != Done
      ensures var outs := Outputs(dataDir, names, c);
        var e := FirstEmptyTree(outs);
        && outcome == Failed(if e < |outs| then TreeWithoutSamples(e) else UnboundLocal("actions_numeric"))
        && docs == Docs(outs, c, e)
      ensures featsList == [] && actionsNumeric == [] && relationsNumeric == [] && valTrees == []
      ensures actionMap == old(actionMap) && relationMap == old(relationMap) && allClusters == old(allClusters)
    {
      var e, ds, allFeats, allActions, allRelations := ReadDirectory(dataDir, names, c);
      StoreReading(ds);
      if e < |Outputs(dataDir, names, c)| {
        return Failed(TreeWithoutSamples(e));
      }
      outcome := Failed(UnboundLocal("actions_numeric"));
    }
  }
}
