# Dataset assembly of rst-coref's `DataHelper`

This project models the bookkeeping that `DataHelper.create_data_helper`
(`src/data_helper.py`) performs when it turns a directory of RST discourse
trees into a training corpus. It proves properties of that model.

The assembly runs in these steps:

- It lists the `.dis` tree files of the directory and pairs each with its
  `.merge` annotation file (`read_rst_trees`).
- It asks each tree for its step-level samples. Each sample is a feature
  vector with an action label and a relation label.
- It stamps every feature vector that `zip` pairs with an action and a
  relation label with the position of its tree.
- It appends the samples to three parallel accumulators.
- It builds one coreference `Document` per tree from the tokenized EDUs
  (`flatten`).
- It stratifies the documents by EDU count (`get_stratify_classes`).
- It splits the documents into training and validation documents.
- It keeps only the samples of training documents.
- It names the validation trees.
- It predicts one cluster set per document.

The project has five modules:

- `PyStr` (`pystr.dfy`): the Python string and path primitives the reader
  relies on. These are `str.endswith`, `str.replace`, which rewrites every
  occurrence, and POSIX `os.path.join`.
- `Helpers` (`helpers.dfy`): `flatten` and `get_stratify_classes`.
- `TreeReader` (`tree_reader.dfy`): the pairing and skipping logic of
  `read_rst_trees`. The directory listing is an input sequence and file
  existence is a predicate.
- `Dataset` (`dataset.dfy`): the datatypes, and a functional statement
  `Assemble` of what one run produces or why it stops. It also holds the
  lemmas about the accumulators, the training filter, the validation names
  and the clusters.
- `Assembler` (`data_helper.dfy`): the class `DataHelper`, with the
  attributes the run assigns as `seq` fields. Its methods are the loops of
  `create_data_helper`, and each is proved against the `Dataset` functions.

The code the assembler calls but does not contain is held in one value of
type `Collaborators`:

- `isFile`: existence of the counterpart file.
- `generate`: tree building plus `generate_action_relation_samples`.
- `readMerge`: `Doc.read_from_fmerge`.
- `tokenize`: `nltk.word_tokenize`.
- `split`: the stratified `train_test_split`. It returns `None` where sklearn
  raises. Where it returns, `SplitContract` requires that the two index
  lists partition `0..n-1`.
- `predict`: `predict_rst(doc)[0]`.

Three facts about the code shape the model:

- The counterpart path comes from `replace('.dis', '.merge')`. This rewrites
  every `.dis` in the path, not only the extension (`DirectoryNamedDisIsRewritten`).
- The code has no empty-corpus check. As written, a directory without trees
  stops at the unbound read of line 66, like any other directory whose trees
  all yield samples (see Findings). Once that line is dropped, the split is
  asked to split zero documents. `train_test_split` raises on an empty input,
  so `SplitContract` requires the split to reject it, and the run fails with
  `SplitRejected` (`EmptyListingRejected`).
- The code has no per-tree recovery when a tree yields no samples.
  `feats[0][0]` raises and the whole run stops (`TreeWithoutSamples`).

## Model

| member | source | states |
|---|---|---|
| Helpers.Flatten | src/data_helper.py:132-134 | the flattened list is as long as all sublists together |
| Helpers.FlattenAppend | src/data_helper.py:132-134 | flattening a concatenation concatenates the flattened parts |
| Helpers.FlattenSnoc | src/data_helper.py:132-134 | appending one sublist appends exactly its elements |
| Helpers.FlattenIndex | src/data_helper.py:132-134 | order is preserved: element j of sublist i sits at the offset of the earlier sublists' total length plus j |
| Helpers.CountExceeded | src/data_helper.py:140 | `np.sum(x > ts)` is at most the number of thresholds |
| Helpers.StratifyClass | src/data_helper.py:139-140 | a class is one of 0..3 |
| Helpers.GetStratifyClasses | src/data_helper.py:137-142 | one class per input, in order, each in 0..3 and equal to the count of exceeded thresholds |
| Helpers.StratifyClassBuckets | src/data_helper.py:139-141 | <=50 gives 0, 51..100 gives 1, 101..200 gives 2, >200 gives 3 |
| Helpers.CountExceededMonotone | src/data_helper.py:140 | counting exceeded thresholds is monotone in the value |
| Helpers.StratifyClassMonotone | src/data_helper.py:139-141 | a document with more EDUs never falls into a lower class |
| PyStr.Join | src/data_helper.py:121 | the joined path ends with the name and, for a relative name, starts with the directory |
| PyStr.JoinRelative | src/data_helper.py:121 | a relative name joined to a directory without trailing separator gets exactly one separator |
| PyStr.EndsWithTransitive | src/data_helper.py:121 | a suffix of a suffix is a suffix, so a path joined from a `.dis` name keeps `.dis` |
| PyStr.Replace | src/data_helper.py:123 | a replacement at least as long as the pattern never shortens the string, and one of the same length keeps its length |
| PyStr.ReplaceKeepsSuffix | src/data_helper.py:123 | for a pattern that cannot overlap itself, such as `.dis`, a string ending in the pattern ends in the replacement afterwards |
| PyStr.ReplaceWithoutOccurrence | src/data_helper.py:123 | `replace` leaves a string without the pattern unchanged |
| PyStr.ReplaceOnlySuffix | src/data_helper.py:123 | when the pattern occurs only as the suffix, `replace` swaps the suffix |
| TreeReader.Counterpart | src/data_helper.py:123 | the annotation path of a `.dis` path ends in `.merge` |
| TreeReader.PairOf | src/data_helper.py:121-123 | the pair formed for a `.dis` name has a `.dis` tree path and a `.merge` annotation path |
| TreeReader.Accepted | src/data_helper.py:121-124 | an accepted name gives a `.dis` tree path whose `.merge` annotation path is an existing file |
| TreeReader.DisPaths | src/data_helper.py:121 | the joined paths of the listed names all end in `.dis`, no more than there are names |
| TreeReader.PairWithMerge | src/data_helper.py:122-129 | each yielded pair is a listed path with its `replace` counterpart, and that counterpart is a file |
| TreeReader.ReadRstTrees | src/data_helper.py:119-129 | every yielded pair has a `.dis` tree, its `replace` counterpart as annotation, and that annotation exists |
| TreeReader.DisPathsAppend | src/data_helper.py:121 | filtering a concatenated listing concatenates the filtered parts |
| TreeReader.PairWithMergeAppend | src/data_helper.py:122-129 | pairing a concatenation of paths concatenates the pairings |
| TreeReader.ReadRstTreesAppend | src/data_helper.py:121-129 | the trees of a concatenated listing are those of each part in order, so skipped files take no position |
| TreeReader.ReadRstTreesSingle | src/data_helper.py:121-126 | a single name yields its pair exactly when it ends in `.dis` and its counterpart exists |
| TreeReader.ReadRstTreesCons | src/data_helper.py:121-129 | the first listed name contributes its pair, if accepted, ahead of the rest |
| TreeReader.ReadRstTreesSound | src/data_helper.py:121-129 | every yielded pair is the pair of an accepted listed name, and the lemma returns that name's position |
| TreeReader.ReadRstTreesComplete | src/data_helper.py:121-129 | every accepted listed name has its pair yielded |
| TreeReader.ReadRstTreesMembers | src/data_helper.py:121-129 | the yielded pairs are exactly the pairs of the accepted names (both directions) |
| TreeReader.CounterpartSwapsExtension | src/data_helper.py:123 | when `.dis` occurs only as the extension, the counterpart swaps it for `.merge` |
| TreeReader.CounterpartKeep | src/data_helper.py:123 | `replace` copies a leading character other than `.`, which cannot begin `.dis` |
| TreeReader.CounterpartRewrite | src/data_helper.py:123 | `replace` rewrites a leading `.dis` to `.merge` |
| TreeReader.CounterpartOfName | src/data_helper.py:123 | `a.dis` becomes `a.merge` for any character `a` other than `.` |
| TreeReader.CounterpartOfSeparatedName | src/data_helper.py:123 | `/a.dis` becomes `/a.merge` for any character `a` other than `.` |
| TreeReader.CounterpartRewritesDirectory | src/data_helper.py:123 | for any characters `c` and `a` other than `.`, `c.dis/a.dis` becomes `c.merge/a.merge`: the directory is rewritten too |
| TreeReader.DirectoryNamedDisIsRewritten | src/data_helper.py:121-124 | for any characters `c` and `a` other than `.` and `/`, in directory `c.dis`, when `c.merge/a.merge` exists, the listed tree `a.dis` is paired with it |
| Dataset.ZipLen | src/data_helper.py:56 | `zip` yields as many triples as the shortest of the three lists |
| Dataset.BuildDocument | src/data_helper.py:43-54 | the document has one sentence per EDU of the `Doc` and one speaker per token |
| Dataset.BuildDocumentFields | src/data_helper.py:43-54 | the document has one sentence per EDU holding its tokens, one speaker "0" per token, no gold corefs, genre `nw`, the tree path as name and the `Doc`'s lookups |
| Dataset.DocumentTokensFollowEdus | src/data_helper.py:43-48 | the document's tokens are the EDUs' tokens, EDU after EDU, in order |
| Dataset.Generated | src/data_helper.py:33-35 | one sample set per yielded tree, tree i's from tree i |
| Dataset.Outputs | src/data_helper.py:33-35 | as many sample sets as the reader yields trees |
| Dataset.FirstEmptyTree | src/data_helper.py:33-36 | the position where `feats[0][0]` first raises: every earlier tree has samples, that one has none |
| Dataset.FirstEmptyFrom | src/data_helper.py:33-36 | the first tree at or after a position with no samples, all before it having some |
| Dataset.FirstEmptyTreeStep | src/data_helper.py:33-36 | loop step of the reading loop: a tree not past the stopping point is the stopping point when it has no samples, and lies before it when it has some |
| Dataset.DocOf | src/data_helper.py:36-54 | a tree's document is named after the path in slot 0 of its first sample, holds the `Doc` read from that path's counterpart, and has one sentence per EDU |
| Dataset.Docs | src/data_helper.py:62 | one document per tree read |
| Dataset.DocsNamedByTrees | src/data_helper.py:36-54 | document i is named after the tree path carried by tree i's first sample and holds the `Doc` read from its counterpart |
| Dataset.DocsByElements | src/data_helper.py:62 | loop exit step: a list holding tree k's document at each position k is `Docs` |
| Dataset.EduCounts | src/data_helper.py:70 | one count per document, count i being the size of document i's `edu_dict` |
| Dataset.StampedFeats | src/data_helper.py:56-58 | one stamped vector per zipped triple |
| Dataset.PerTreeFeats | src/data_helper.py:56-58 | one block of stamped vectors per tree |
| Dataset.PerTreeActions | src/data_helper.py:56-59 | one block of action labels per tree |
| Dataset.PerTreeRelations | src/data_helper.py:56-60 | one block of relation labels per tree |
| Dataset.AllActions | src/data_helper.py:56-59 | one accumulated action label per accumulated feature vector |
| Dataset.AllRelations | src/data_helper.py:56-60 | one accumulated relation label per accumulated feature vector |
| Dataset.SumLengthsPointwise | src/data_helper.py:56-60 | blocks of equal lengths add up to equal totals |
| Dataset.AccumulateStep | src/data_helper.py:56-60 | reading tree i extends each accumulator by exactly tree i's zipped block |
| Dataset.AccumulateDone | src/data_helper.py:33-60 | loop exit step: the blocks of the first `len(trees)` trees are all the blocks, so the loop's accumulators are `AllFeats`, `AllActions` and `AllRelations` |
| Dataset.AccumulatorsAligned | src/data_helper.py:56-60 | the three accumulators have equal length, and each tree's block starts at the same offset in all three |
| Dataset.StampedIndexInRange | src/data_helper.py:57 | every stamped index is below the number of documents |
| Dataset.SampleAt | src/data_helper.py:56-60 | tree i's samples are contiguous, in generation order, all stamped i, at the same position in all three lists |
| Dataset.KeptPositions | src/data_helper.py:75-76 | the kept positions lie inside the sample list |
| Dataset.KeptPositionsExact | src/data_helper.py:75-76 | the kept positions are exactly the training samples' positions, increasing |
| Dataset.SelectSnoc | src/data_helper.py:77-79 | loop step of the filter: keeping one more position appends exactly that element |
| Dataset.Select | src/data_helper.py:77-79 | one kept element per kept position |
| Dataset.FilterKeepsExactlyTrain | src/data_helper.py:75-79 | the filter keeps a sample exactly when its document is a training one, unchanged and in original order |
| Dataset.FilterExcludesValidation | src/data_helper.py:71-79 | with disjoint partitions no kept sample carries a validation index |
| Dataset.KeptSamplesAreTraining | src/data_helper.py:71-79 | under a split of the n documents, every kept sample names a document below n that is a training one and not a validation one |
| Dataset.KeptSampleIsTraining | src/data_helper.py:57-79 | the same for one kept sample of a run's stamped samples |
| Dataset.ValTrees | src/data_helper.py:81 | `val_trees[k]` is the file name of document `val_indexes[k]` |
| Dataset.AllClusters | src/data_helper.py:82-87 | exactly one cluster set per document, entry i predicted from document i |
| Dataset.Classes | src/data_helper.py:70 | one stratification class per document |
| Dataset.ClassesOfDocs | src/data_helper.py:70 | class i is the stratification class of the size of document i's `edu_dict` |
| Dataset.AssembleStopsAtEmptyTree | src/data_helper.py:33-36 | a run stops with `TreeWithoutSamples(e)` exactly when tree e is the first without samples |
| Dataset.AssembleFailures | src/data_helper.py:33-72 | a run fails only at the first tree without samples or at the split |
| Dataset.EmptyListingRejected | src/data_helper.py:70-72 | a listing that yields no tree fails at the split, which has no documents to split |
| Dataset.AssembledCorpusInvariants | src/data_helper.py:22-87 | a completed run has one document per yielded tree, one cluster set per document, aligned sample lists whose indices name existing training documents and never validation ones, and one validation name per validation index |
| Assembler.DataHelper.constructor | src/data_helper.py:18-20 | both label maps start empty |
| Assembler.DataHelper.ReadDirectory | src/data_helper.py:33-62 | reading the directory yields the documents up to the first tree without samples, and, when there is none, every tree's stamped samples |
| Assembler.DataHelper.ReadTrees | src/data_helper.py:33-62 | the reading loop builds the documents and accumulators that `Docs` and `AllFeats`/`AllActions`/`AllRelations` specify, stopping at the first tree without samples |
| Assembler.DataHelper.AppendSamples | src/data_helper.py:56-60 | the zip loop appends the stamped vectors and the zipped labels of one tree |
| Assembler.DataHelper.CreateDataHelper | src/data_helper.py:22-88 | a run leaves exactly the corpus `Assemble` specifies, or the failure it names with the documents read so far and emptied sample lists |
| Assembler.DataHelper.StoreReading | src/data_helper.py:26-30 | the sample lists and validation names start empty and `docs` holds the documents read |
| Assembler.DataHelper.NameValTrees | src/data_helper.py:81 | `val_trees` is the file names of the validation documents, in split order |
| Assembler.DataHelper.KeepTrainSamples | src/data_helper.py:75-79 | each attribute gains exactly the samples at the kept positions, in order |
| Assembler.DataHelper.PredictClusters | src/data_helper.py:82-88 | `all_clusters` is reset and holds one prediction per document |
| Assembler.DataHelper.CreateDataHelperAsWritten | src/data_helper.py:22-67 | the code as written never completes: it stops at the first tree without samples or at the unbound read of line 66 |

## Left out

- `save_data_helper` and `load_data_helper` (lines 90-113): pickle I/O of opaque objects.
- `gen_action_train_data` (lines 115-116): it returns an attribute that nothing assigns.
- Progress `print`s and `torch.no_grad`: no effect on the assembled data.
- Tree building, sample generation, `Doc.read_from_fmerge`, `nltk.word_tokenize`, `predict_rst` and `train_test_split` are foreign code, so they are function fields of `Collaborators`. Only the split's promises are assumed, through `SplitContract`: it rejects an empty input, and what it returns partitions the indices.
- The ubc_coref `Document` class is foreign code too. It is modelled as the datatype `Document`, a record that keeps the arguments lines 48-54 pass to it. Whatever its constructor derives from them (wordpieces, coreference boundaries) is not modelled.
- The function fields of `Collaborators` are total. An exception from `build` (line 128), `read_from_fmerge` (line 41), `word_tokenize` (line 43) or `predict_rst` (line 87) would abort a Python run with partial state. `Failure` has no outcome for it, so such aborts are not modelled. Only `train_test_split` can fail, as `SplitRejected`.
- `config` is folded into `generate`, which is fixed for a run.
- `os.listdir` and `os.path.isfile` are the `names` input and the `isFile` predicate. The listing order is whatever `names` gives.
- Dataset.Stamp: `feat[0] = i` changes the generator's own list in place. The model builds a new `Feat` value, so aliasing between the accumulated vectors and the tree's sample lists is not modelled.
- Dataset.Docs: its own contract gives only the length. The per-document facts are in `DocsNamedByTrees` and `BuildDocumentFields`.
- Assembler.DataHelper.constructor: it also starts the corpus attributes empty, while Python creates them only when `create_data_helper` runs.
- Assembler.DataHelper.StoreReading: Python appends each document to `self.docs` inside the reading loop. The model collects the documents in a local list and stores them after the loop. Nothing else reads `self.docs` during the loop, so the final state is the same, but an observer in the middle of the loop is not modelled.
- `action_map` and `relation_map` are never read by the assembly, so the methods only promise to leave them unchanged. The module-level `action_map`/`relation_map` of `utils.other` are not part of this model.
- Assembler.DataHelper.CreateDataHelper: on a failure, `all_clusters` keeps its earlier value, as in Python, because only line 82 resets it.

## Findings

| source | as written | input that shows it | evidently intended | confidence | as-written member | corrected member |
|---|---|---|---|---|---|---|
| src/data_helper.py:66-67 | both lines read the locals `actions_numeric` and `relations_numeric`, which they themselves assign, so Python raises UnboundLocalError | any directory whose trees all yield samples, including an empty one | the lines are dead: their results are never used, and the samples keep their labels as generated | not executed | Assembler.DataHelper.CreateDataHelperAsWritten | Assembler.DataHelper.CreateDataHelper |
