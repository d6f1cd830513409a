/** The pairing logic of `DataHelper.read_rst_trees`: which `.dis` tree files
    of a directory listing are read, and with which `.merge` counterpart.
    The directory listing is an input sequence and file existence a predicate. */
module TreeReader {
  import opened PyStr

  const DisExt: string := ".dis"
  const MergeExt: string := ".merge"

  /** A tree file and the annotation file it is built with. */
  datatype TreeFiles = TreeFiles(dis: string, merge: string)

  /** `fdis.replace('.dis', '.merge')`: a tree path's annotation path always
      ends in `.merge`. */
  function Counterpart(fdis: string): (r: string)
    ensures EndsWith(fdis, DisExt) ==> EndsWith(r, MergeExt)
  {
    ReplaceKeepsSuffix(fdis, DisExt, MergeExt);
    Replace(fdis, DisExt, MergeExt)
  }

  /** The pair the reader forms for a listed name. */
  function PairOf(dataDir: string, name: string): (r: TreeFiles)
    ensures EndsWith(name, DisExt) ==> EndsWith(r.dis, DisExt) && EndsWith(r.merge, MergeExt)
  {
    var fdis := Join(dataDir, name);
    EndsWithTransitive(fdis, name, DisExt);
    TreeFiles(fdis, Counterpart(fdis))
  }

  /** A listed name that yields a tree: it ends in `.dis` and its counterpart exists. */
  predicate Accepted(dataDir: string, name: string, isFile: string -> bool): (b: bool)
    ensures b ==> EndsWith(PairOf(dataDir, name).dis, DisExt) && EndsWith(PairOf(dataDir, name).merge, MergeExt)
    ensures b ==> isFile(PairOf(dataDir, name).merge)
  {
    EndsWith(name, DisExt) && isFile(PairOf(dataDir, name).merge)
  }

  /** The list of line 121: joined paths of the listed names ending in `.dis`,
      in listing order. */
  function DisPaths(dataDir: string, names: seq<string>): (r: seq<string>)
    ensures |r| <= |names|
    ensures forall k :: 0 <= k < |r| ==> EndsWith(r[k], DisExt)
  {
    if names == [] then []
    else
      var rest := DisPaths(dataDir, names[1..]);
      if EndsWith(names[0], DisExt) then
        EndsWithTransitive(Join(dataDir, names[0]), names[0], DisExt);
        [Join(dataDir, names[0])] + rest
      else rest
  }

  /** The loop of lines 122-129: a path whose counterpart is not a file is
      skipped, the others are yielded in order. */
  function PairWithMerge(files: seq<string>, isFile: string -> bool): (r: seq<TreeFiles>)
    ensures |r| <= |files|
    ensures forall k :: 0 <= k < |r| ==>
      r[k].dis in files && r[k].merge == Counterpart(r[k].dis) && isFile(r[k].merge)
  {
    if files == [] then []
    else
      var fmerge := Counterpart(files[0]);
      var rest := PairWithMerge(files[1..], isFile);
      if isFile(fmerge) then [TreeFiles(files[0], fmerge)] + rest else rest
  }

  /** `read_rst_trees(data_dir)`: the (tree, annotation) pairs it builds trees from. */
  function ReadRstTrees(dataDir: string, names: seq<string>, isFile: string -> bool): (r: seq<TreeFiles>)
    ensures |r| <= |names|
    ensures forall k :: 0 <= k < |r| ==>
      EndsWith(r[k].dis, DisExt) && r[k].merge == Counterpart(r[k].dis) && isFile(r[k].merge)
  {
    PairWithMerge(DisPaths(dataDir, names), isFile)
  }

  lemma {:induction false} DisPathsAppend(dataDir: string, a: seq<string>, b: seq<string>)
    ensures DisPaths(dataDir, a + b) == DisPaths(dataDir, a) + DisPaths(dataDir, b)
  {
    if a == [] {
      assert a + b == b;
    } else {
      assert (a + b)[1..] == a[1..] + b;
      DisPathsAppend(dataDir, a[1..], b);
    }
  }

  lemma {:induction false} PairWithMergeAppend(a: seq<string>, b: seq<string>, isFile: string -> bool)
    ensures PairWithMerge(a + b, isFile) == PairWithMerge(a, isFile) + PairWithMerge(b, isFile)
  {
    if a == [] {
      assert a + b == b;
    } else {
      assert (a + b)[1..] == a[1..] + b;
      PairWithMergeAppend(a[1..], b, isFile);
    }
  }

  /** Reading a concatenated listing yields the trees of each part, in order:
      a skipped file takes no position, so yielded positions stay dense. */
  lemma ReadRstTreesAppend(dataDir: string, a: seq<string>, b: seq<string>, isFile: string -> bool)
    ensures ReadRstTrees(dataDir, a + b, isFile)
         == ReadRstTrees(dataDir, a, isFile) + ReadRstTrees(dataDir, b, isFile)
  {
    DisPathsAppend(dataDir, a, b);
    PairWithMergeAppend(DisPaths(dataDir, a), DisPaths(dataDir, b), isFile);
  }

  /** A single listed name contributes its pair exactly when it is accepted. */
  lemma ReadRstTreesSingle(dataDir: string, name: string, isFile: string -> bool)
    ensures ReadRstTrees(dataDir, [name], isFile)
         == if Accepted(dataDir, name, isFile) then [PairOf(dataDir, name)] else []
  {
    assert [name][1..] == [];
    if EndsWith(name, DisExt) {
      var files := [Join(dataDir, name)];
      assert DisPaths(dataDir, [name]) == files;
      assert files[1..] == [];
    }
  }

  /** Splitting a listing after its first name. */
  lemma ReadRstTreesCons(dataDir: string, names: seq<string>, isFile: string -> bool)
    requires names != []
    ensures ReadRstTrees(dataDir, names, isFile)
         == (if Accepted(dataDir, names[0], isFile) then [PairOf(dataDir, names[0])] else [])
            + ReadRstTrees(dataDir, names[1..], isFile)
  {
    assert names == [names[0]] + names[1..];
    ReadRstTreesAppend(dataDir, [names[0]], names[1..], isFile);
    ReadRstTreesSingle(dataDir, names[0], isFile);
  }

  /** Every yielded pair is the pair of some accepted listed name: the
      position `k` of that name. */
  lemma {:induction false} ReadRstTreesSound(dataDir: string, names: seq<string>, isFile: string -> bool, t: TreeFiles)
    returns (k: nat)
    requires t in ReadRstTrees(dataDir, names, isFile)
    ensures k < |names| && Accepted(dataDir, names[k], isFile) && t == PairOf(dataDir, names[k])
  {
    ReadRstTreesCons(dataDir, names, isFile);
    if Accepted(dataDir, names[0], isFile) && t == PairOf(dataDir, names[0]) {
      k := 0;
    } else {
      var j := ReadRstTreesSound(dataDir, names[1..], isFile, t);
      k := j + 1;
      assert names[k] == names[1..][j];
    }
  }

  /** Every accepted listed name has its pair yielded. */
  lemma {:induction false} ReadRstTreesComplete(dataDir: string, names: seq<string>, isFile: string -> bool, k: nat)
    requires k < |names| && Accepted(dataDir, names[k], isFile)
    ensures PairOf(dataDir, names[k]) in ReadRstTrees(dataDir, names, isFile)
  {
    ReadRstTreesCons(dataDir, names, isFile);
    if k > 0 {
      assert names[1..][k - 1] == names[k];
      ReadRstTreesComplete(dataDir, names[1..], isFile, k - 1);
    }
  }

  /** The yielded pairs are exactly the pairs of the accepted listed names. */
  lemma ReadRstTreesMembers(dataDir: string, names: seq<string>, isFile: string -> bool, t: TreeFiles)
    ensures t in ReadRstTrees(dataDir, names, isFile)
        <==> exists k :: 0 <= k < |names| && Accepted(dataDir, names[k], isFile) && t == PairOf(dataDir, names[k])
  {
    if t in ReadRstTrees(dataDir, names, isFile) {
      var k := ReadRstTreesSound(dataDir, names, isFile, t);
    }
    if exists k :: 0 <= k < |names| && Accepted(dataDir, names[k], isFile) && t == PairOf(dataDir, names[k]) {
      var k :| 0 <= k < |names| && Accepted(dataDir, names[k], isFile) && t == PairOf(dataDir, names[k]);
      ReadRstTreesComplete(dataDir, names, isFile, k);
    }
  }

  /** When `.dis` occurs in a tree path only as its extension, the counterpart
      is that path with the extension swapped for `.merge`. */
  lemma CounterpartSwapsExtension(fdis: string)
    requires EndsWith(fdis, DisExt)
    requires forall p :: p < |fdis| - |DisExt| ==> !OccursAt(fdis, DisExt, p)
    ensures Counterpart(fdis) == fdis[..|fdis| - 4] + MergeExt
  {
    ReplaceOnlySuffix(fdis, DisExt, MergeExt);
  }

  /** One step of `replace` past a character other than `.`, which cannot
      begin `.dis`. */
  lemma CounterpartKeep(x: char, t: string)
    requires x != '.'
    ensures Counterpart([x] + t) == [x] + Counterpart(t)
  {
    assert !StartsWith([x] + t, DisExt) by {
      if |DisExt| <= |[x] + t| {
        assert ([x] + t)[..|DisExt|][0] == x;
      }
    }
    assert ([x] + t)[1..] == t;
  }

  /** One step of `replace` over a leading `.dis`. */
  lemma CounterpartRewrite(t: string)
    ensures Counterpart(DisExt + t) == MergeExt + Counterpart(t)
  {
    assert (DisExt + t)[..|DisExt|] == DisExt;
    assert (DisExt + t)[|DisExt|..] == t;
  }

  /** A name of one character before `.dis` gets its extension swapped. */
  lemma CounterpartOfName(a: char)
    requires a != '.'
    ensures Counterpart([a] + DisExt) == [a] + MergeExt
  {
    CounterpartRewrite([]);
    assert Counterpart([]) == [] && DisExt + [] == DisExt && MergeExt + [] == MergeExt;
    CounterpartKeep(a, DisExt);
  }

  /** The same after a separator. */
  lemma CounterpartOfSeparatedName(a: char)
    requires a != '.'
    ensures Counterpart(['/'] + ([a] + DisExt)) == ['/'] + ([a] + MergeExt)
  {
    CounterpartOfName(a);
    CounterpartKeep('/', [a] + DisExt);
  }

  /** `replace` is not a suffix swap: a `.dis` inside the directory part of
      a path is rewritten as well. */
  lemma CounterpartRewritesDirectory(c: char, a: char)
    requires c != '.' && a != '.'
    ensures Counterpart([c] + DisExt + ['/', a] + DisExt) == [c] + MergeExt + ['/', a] + MergeExt
  {
    var s2 := ['/'] + ([a] + DisExt);
    CounterpartOfSeparatedName(a);
    CounterpartRewrite(s2);
    CounterpartKeep(c, DisExt + s2);
    assert [c] + DisExt + ['/', a] + DisExt == [c] + (DisExt + s2);
    assert [c] + (MergeExt + (['/'] + ([a] + MergeExt))) == [c] + MergeExt + ['/', a] + MergeExt;
  }

  /** For the directory `c.dis` and the listed name `a.dis` the reader looks
      for the annotation `c.merge/a.merge`, in another directory. */
  lemma DirectoryNamedDisIsRewritten(c: char, a: char, isFile: string -> bool)
    requires c != '.' && c != '/' && a != '.' && a != '/'
    requires isFile([c] + MergeExt + ['/', a] + MergeExt)
    ensures ReadRstTrees([c] + DisExt, [[a] + DisExt], isFile)
         == [TreeFiles([c] + DisExt + ['/', a] + DisExt, [c] + MergeExt + ['/', a] + MergeExt)]
  {
    var dir, name := [c] + DisExt, [a] + DisExt;
    var path := [c] + DisExt + ['/', a] + DisExt;
    JoinRelative(dir, name);
    assert Join(dir, name) == path;
    CounterpartRewritesDirectory(c, a);
    assert name[|name| - |DisExt|..] == DisExt;
    assert Accepted(dir, name, isFile);
    ReadRstTreesSingle(dir, name, isFile);
  }
}
