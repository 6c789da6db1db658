/** The comparison script `compare_numpy.py`: every file's array must equal the
    first file's array. Loading is outside the model: `arrays[i]` is what
    `numpy.load(files[i])` would return. */
module CompareNumpy {

  /** An array as `numpy.array_equal` sees it: a shape and the elements in
      row-major order. */
  datatype NdArray = NdArray(shape: seq<nat>, elements: seq<int>)

  /** `numpy.array_equal`: same shape and same elements. */
  predicate ArrayEqual(a: NdArray, b: NdArray) {
    a.shape == b.shape && a.elements == b.elements
  }

  /** Every array after the first equals the first. */
  predicate AllMatchFirst(arrays: seq<NdArray>) {
    forall i | 1 <= i < |arrays| :: ArrayEqual(arrays[0], arrays[i])
  }

  /** `main()`: the exit code, and how many files it loaded. */
  method Compare(arrays: seq<NdArray>) returns (code: int, loaded: nat)
    ensures |arrays| <= 1 ==> code == 0 && loaded == 0
    ensures code == 0 || code == 1
    ensures code == 0 <==> AllMatchFirst(arrays)
    ensures code == 0 && |arrays| > 1 ==> loaded == |arrays|
    ensures code == 1 ==> 2 <= loaded <= |arrays| && !ArrayEqual(arrays[0], arrays[loaded - 1])
    ensures code == 1 ==> forall i | 1 <= i < loaded - 1 :: ArrayEqual(arrays[0], arrays[i])
  {
    if |arrays| <= 1 {
      return 0, 0;
    }
    var first := arrays[0];
    loaded := 1;
    while loaded < |arrays|
      invariant 1 <= loaded <= |arrays|
      invariant forall i | 1 <= i < loaded :: ArrayEqual(first, arrays[i])
    {
      var other := arrays[loaded];
      loaded := loaded + 1;
      if !ArrayEqual(first, other) {
        return 1, loaded;
      }
    }
    code := 0;
  }

  /** Each array is only compared with the first, but equality is transitive:
      exit code 0 means all arrays are pairwise equal. */
  lemma {:induction false} MatchFirstPairwise(arrays: seq<NdArray>, i: nat, j: nat)
    requires AllMatchFirst(arrays) && i < |arrays| && j < |arrays|
    ensures ArrayEqual(arrays[i], arrays[j])
  {
    if i > 0 {
      assert ArrayEqual(arrays[0], arrays[i]);
    }
    if j > 0 {
      assert ArrayEqual(arrays[0], arrays[j]);
    }
  }

  /** The decision depends on the files' contents, not on their order after
      the first: swapping two later files keeps the exit code. */
  lemma SwapLaterKeepsDecision(arrays: seq<NdArray>, i: nat, j: nat)
    requires 1 <= i < |arrays| && 1 <= j < |arrays|
    ensures AllMatchFirst(arrays) <==> AllMatchFirst(arrays[i := arrays[j]][j := arrays[i]])
  {
    var swapped := arrays[i := arrays[j]][j := arrays[i]];
    if AllMatchFirst(swapped) {
      forall k | 1 <= k < |arrays|
        ensures ArrayEqual(arrays[0], arrays[k])
      {
        if k == i {
          assert swapped[j] == arrays[i];
        } else if k == j {
          assert swapped[i] == arrays[j];
        } else {
          assert swapped[k] == arrays[k];
        }
      }
    }
  }
}
