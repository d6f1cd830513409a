/** The two module-level helpers of data_helper.py: `flatten` and
    `get_stratify_classes`. */
module Helpers {

  // ---------------------------------------------------------------------------
  // flatten
  // ---------------------------------------------------------------------------

  /** Total number of elements over all sublists. */
  function SumLengths<T>(xss: seq<seq<T>>): nat {
    if xss == [] then 0 else |xss[0]| + SumLengths(xss[1..])
  }

  /** `[item for sublist in xss for item in sublist]` */
  function Flatten<T>(xss: seq<seq<T>>): (r: seq<T>)
    ensures |r| == SumLengths(xss)
  {
    if xss == [] then [] else xss[0] + Flatten(xss[1..])
  }

  /** Flattening distributes over concatenation of the outer list. */
  lemma {:induction false} FlattenAppend<T>(a: seq<seq<T>>, b: seq<seq<T>>)
    ensures Flatten(a + b) == Flatten(a) + Flatten(b)
  {
    if a != [] {
      assert (a + b)[1..] == a[1..] + b;
      FlattenAppend(a[1..], b);
    } else {
      assert a + b == b;
    }
  }

  /** Appending one sublist appends its elements. */
  lemma FlattenSnoc<T>(a: seq<seq<T>>, x: seq<T>)
    ensures Flatten(a + [x]) == Flatten(a) + x
  {
    FlattenAppend(a, [x]);
    assert Flatten([x]) == x + Flatten([x][1..]);
  }

  /** Element order is kept: element `j` of sublist `i` sits right after all
      the elements of the sublists before it. */
  lemma {:induction false} FlattenIndex<T>(xss: seq<seq<T>>, i: nat, j: nat)
    requires i < |xss| && j < |xss[i]|
    ensures SumLengths(xss[..i]) + j < |Flatten(xss)|
    ensures Flatten(xss)[SumLengths(xss[..i]) + j] == xss[i][j]
  {
    if i == 0 {
      assert xss[..0] == [];
    } else {
      FlattenIndex(xss[1..], i - 1, j);
      assert xss[..i][1..] == xss[1..][..i - 1];
    }
  }

  // ---------------------------------------------------------------------------
  // get_stratify_classes
  // ---------------------------------------------------------------------------

  /** The fixed EDU-count thresholds of the stratifier. */
  const Thresholds: seq<int> := [50, 100, 200]

  /** `np.sum(x > ts)`: how many thresholds `x` strictly exceeds. */
  function CountExceeded(x: int, ts: seq<int>): (c: nat)
    ensures c <= |ts|
  {
    if ts == [] then 0 else (if x > ts[0] then 1 else 0) + CountExceeded(x, ts[1..])
  }

  /** The stratification class of one document with `count` EDUs. */
  function StratifyClass(count: int): (c: nat)
    ensures c <= 3
  {
    CountExceeded(count, Thresholds)
  }

  /** `get_stratify_classes`: one class per input, in input order. */
  function GetStratifyClasses(counts: seq<int>): (r: seq<nat>)
    ensures |r| == |counts|
    ensures forall k :: 0 <= k < |r| ==> r[k] <= 3
    ensures forall k :: 0 <= k < |r| ==> r[k] == StratifyClass(counts[k])
  {
    seq(|counts|, k requires 0 <= k < |counts| => StratifyClass(counts[k]))
  }

  /** The four buckets: <=50, 51..100, 101..200 and >200. */
  lemma StratifyClassBuckets(x: int)
    ensures x <= 50 ==> StratifyClass(x) == 0
    ensures 50 < x <= 100 ==> StratifyClass(x) == 1
    ensures 100 < x <= 200 ==> StratifyClass(x) == 2
    ensures 200 < x ==> StratifyClass(x) == 3
  {
    var t1, t2 := Thresholds[1..], Thresholds[2..];
    assert t1 == [100, 200] && t1[1..] == t2 == [200] && t2[1..] == [];
    assert CountExceeded(x, t2) == if x > 200 then 1 else 0;
    assert CountExceeded(x, t1) == (if x > 100 then 1 else 0) + CountExceeded(x, t2);
    assert StratifyClass(x) == (if x > 50 then 1 else 0) + CountExceeded(x, t1);
  }

  /** Counting exceeded thresholds is monotone in the value. */
  lemma {:induction false} CountExceededMonotone(x: int, y: int, ts: seq<int>)
    requires x <= y
    ensures CountExceeded(x, ts) <= CountExceeded(y, ts)
  {
    if ts != [] {
      CountExceededMonotone(x, y, ts[1..]);
    }
  }

  /** A document with more EDUs never falls into a lower class. */
  lemma StratifyClassMonotone(x: int, y: int)
    requires x <= y
    ensures StratifyClass(x) <= StratifyClass(y)
  {
    CountExceededMonotone(x, y, Thresholds);
  }
}
