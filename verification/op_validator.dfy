/** The operation validator (`MLOperationValidator`): the integer structure of the
    reference convolution (valid padding, stride 1), the hard-coded Conv2D test
    scenario, the per-operation results and the summary counts of the report. */
module OpValidator {
  import opened Outcome
  import opened Scenario

  /** An NHWC (input) or HWIO (filter) shape. */
  datatype Shape4 = Shape4(d0: nat, d1: nat, d2: nat, d3: nat)

  type Tensor4 = seq<seq<seq<seq<int>>>>

  /** A numpy array of rank 4: its shape and its nested elements. */
  datatype Array4 = Array4(shape: Shape4, data: Tensor4)

  predicate Valid(a: Array4) {
    && |a.data| == a.shape.d0
    && (forall i | 0 <= i < |a.data| :: |a.data[i]| == a.shape.d1)
    && (forall i, j | 0 <= i < |a.data| && 0 <= j < |a.data[i]| :: |a.data[i][j]| == a.shape.d2)
    && (forall i, j, k | 0 <= i < |a.data| && 0 <= j < |a.data[i]| && 0 <= k < |a.data[i][j]| ::
          |a.data[i][j][k]| == a.shape.d3)
  }

  /** Ways the reference computation fails: `np.zeros` refuses a negative output
      dimension, and the patch-times-kernel product needs channel counts that
      NumPy can broadcast together. */
  datatype RefError = NegativeDimension | ChannelMismatch

  /** NumPy broadcasts two axes when they are equal or one of them is 1. */
  predicate Broadcastable(a: nat, b: nat) {
    a == b || a == 1 || b == 1
  }

  /** The length of the broadcast channel axis of `patch * kernel`: the other
      operand's count when one side has a single channel. */
  function Channels(x: Array4, f: Array4): nat {
    if x.shape.d3 == 1 then f.shape.d2 else x.shape.d3
  }

  /** The input channel read at broadcast channel `c`: always 0 for a one-channel input. */
  function InputChannel(x: Array4, c: nat): nat {
    if x.shape.d3 == 1 then 0 else c
  }

  /** The filter channel read at broadcast channel `c`: always 0 for a one-channel filter. */
  function FilterChannel(f: Array4, c: nat): nat {
    if f.shape.d2 == 1 then 0 else c
  }

  /** `(N, H - F_h + 1, W - F_w + 1, C_out)`, or `None` when a spatial dimension
      would be negative. */
  function OutputShape(input: Shape4, filter: Shape4): (r: Option<Shape4>)
    ensures r.Some? <==> filter.d0 <= input.d1 + 1 && filter.d1 <= input.d2 + 1
    ensures r.Some? ==> r.value.d0 == input.d0 && r.value.d3 == filter.d3
    ensures r.Some? ==> r.value.d1 + filter.d0 == input.d1 + 1 && r.value.d2 + filter.d1 == input.d2 + 1
  {
    var hOut := input.d1 - filter.d0 + 1;
    var wOut := input.d2 - filter.d1 + 1;
    if hOut < 0 || wOut < 0 then None else Some(Shape4(input.d0, hOut, wOut, filter.d3))
  }

  /** Indices at which the patch `[n, h:h+F_h, w:w+F_w, :]` and the kernel
      `[:, :, :, co]` are both in range. */
  predicate PatchInRange(x: Array4, f: Array4, n: nat, h: nat, w: nat, co: nat) {
    && Valid(x) && Valid(f) && Broadcastable(x.shape.d3, f.shape.d2)
    && n < x.shape.d0 && h + f.shape.d0 <= x.shape.d1 && w + f.shape.d1 <= x.shape.d2 && co < f.shape.d3
  }

  /** The sum over the first `k` broadcast channels at kernel offset (i, j). */
  function SumChannels(x: Array4, f: Array4, n: nat, h: nat, w: nat, co: nat, i: nat, j: nat, k: nat): int
    requires PatchInRange(x, f, n, h, w, co) && i < f.shape.d0 && j < f.shape.d1 && k <= Channels(x, f)
  {
    if k == 0 then 0
    else
      SumChannels(x, f, n, h, w, co, i, j, k - 1)
      + x.data[n][h + i][w + j][InputChannel(x, k - 1)] * f.data[i][j][FilterChannel(f, k - 1)][co]
  }

  /** The sum over the first `j` kernel columns of row `i`. */
  function SumColumns(x: Array4, f: Array4, n: nat, h: nat, w: nat, co: nat, i: nat, j: nat): int
    requires PatchInRange(x, f, n, h, w, co) && i < f.shape.d0 && j <= f.shape.d1
  {
    if j == 0 then 0
    else SumColumns(x, f, n, h, w, co, i, j - 1) + SumChannels(x, f, n, h, w, co, i, j - 1, Channels(x, f))
  }

  /** The sum over the first `i` kernel rows. */
  function SumRows(x: Array4, f: Array4, n: nat, h: nat, w: nat, co: nat, i: nat): int
    requires PatchInRange(x, f, n, h, w, co) && i <= f.shape.d0
  {
    if i == 0 then 0
    else SumRows(x, f, n, h, w, co, i - 1) + SumColumns(x, f, n, h, w, co, i - 1, f.shape.d1)
  }

  /** `np.sum(patch * kernel)` for output element `[n, h, w, co]`. */
  function PatchSum(x: Array4, f: Array4, n: nat, h: nat, w: nat, co: nat): int
    requires PatchInRange(x, f, n, h, w, co)
  {
    SumRows(x, f, n, h, w, co, f.shape.d0)
  }

  /** Output element `[n, h, w, co]`, where it exists. */
  function Cell(x: Array4, f: Array4, n: int, h: int, w: int, co: int): int {
    if 0 <= n && 0 <= h && 0 <= w && 0 <= co && PatchInRange(x, f, n, h, w, co)
    then PatchSum(x, f, n, h, w, co) else 0
  }

  /** The array of shape `o` filled with the reference sums. */
  function Fill(o: Shape4, x: Array4, f: Array4): (a: Array4)
    ensures a.shape == o && Valid(a)
    ensures forall n, h, w, co | 0 <= n < o.d0 && 0 <= h < o.d1 && 0 <= w < o.d2 && 0 <= co < o.d3 ::
      a.data[n][h][w][co] == Cell(x, f, n, h, w, co)
  {
    Array4(o, seq(o.d0, n => seq(o.d1, h => seq(o.d2, w => seq(o.d3, co => Cell(x, f, n, h, w, co))))))
  }

  /** The loops' body runs only when no output dimension is zero. */
  predicate HasElements(o: Shape4) {
    o.d0 > 0 && o.d1 > 0 && o.d2 > 0 && o.d3 > 0
  }

  /** `_conv2d_reference(input_data, filter_data)` over integers. */
  function Conv2DReference(x: Array4, f: Array4): (r: Result<Array4, RefError>)
    requires Valid(x) && Valid(f)
    ensures r.Ok? ==> Valid(r.value) && Some(r.value.shape) == OutputShape(x.shape, f.shape)
    ensures r.Err? && r.error == NegativeDimension <==> OutputShape(x.shape, f.shape).None?
    ensures r.Err? && r.error == ChannelMismatch <==>
      OutputShape(x.shape, f.shape).Some? && HasElements(OutputShape(x.shape, f.shape).value)
      && !Broadcastable(x.shape.d3, f.shape.d2)
    ensures r.Ok? ==> forall n, h, w, co |
        0 <= n < r.value.shape.d0 && 0 <= h < r.value.shape.d1 && 0 <= w < r.value.shape.d2 && 0 <= co < r.value.shape.d3 ::
        PatchInRange(x, f, n, h, w, co) && r.value.data[n][h][w][co] == PatchSum(x, f, n, h, w, co)
  {
    match OutputShape(x.shape, f.shape)
    case None => Err(NegativeDimension)
    case Some(o) =>
      if HasElements(o) && !Broadcastable(x.shape.d3, f.shape.d2) then Err(ChannelMismatch)
      else Ok(Fill(o, x, f))
  }

  /** A one-channel input meets a two-channel filter: NumPy broadcasts the
      input's channel, so the single output element sums the products with both
      filter channels. */
  lemma OneChannelInputBroadcast(x: Array4, f: Array4)
    requires Valid(x) && x.shape == Shape4(1, 3, 3, 1)
    requires Valid(f) && f.shape == Shape4(3, 3, 2, 1)
    ensures var r := Conv2DReference(x, f);
      && r.Ok? && r.value.shape == Shape4(1, 1, 1, 1)
      && r.value.data[0][0][0][0] ==
         SumChannels(x, f, 0, 0, 0, 0, 0, 0, 2) + SumChannels(x, f, 0, 0, 0, 0, 0, 1, 2) + SumChannels(x, f, 0, 0, 0, 0, 0, 2, 2)
         + SumChannels(x, f, 0, 0, 0, 0, 1, 0, 2) + SumChannels(x, f, 0, 0, 0, 0, 1, 1, 2) + SumChannels(x, f, 0, 0, 0, 0, 1, 2, 2)
         + SumChannels(x, f, 0, 0, 0, 0, 2, 0, 2) + SumChannels(x, f, 0, 0, 0, 0, 2, 1, 2) + SumChannels(x, f, 0, 0, 0, 0, 2, 2, 2)
    ensures forall i, j | 0 <= i < 3 && 0 <= j < 3 ::
      SumChannels(x, f, 0, 0, 0, 0, i, j, 2) == x.data[0][i][j][0] * f.data[i][j][0][0] + x.data[0][i][j][0] * f.data[i][j][1][0]
  {
    assert OutputShape(x.shape, f.shape) == Some(Shape4(1, 1, 1, 1));
    assert Channels(x, f) == 2;
    forall i, j | 0 <= i < 3 && 0 <= j < 3
      ensures SumChannels(x, f, 0, 0, 0, 0, i, j, 2) == x.data[0][i][j][0] * f.data[i][j][0][0] + x.data[0][i][j][0] * f.data[i][j][1][0]
    {
      assert SumChannels(x, f, 0, 0, 0, 0, i, j, 1) == x.data[0][i][j][0] * f.data[i][j][0][0];
    }
    forall i | 0 <= i < 3
      ensures SumColumns(x, f, 0, 0, 0, 0, i, 3)
        == SumChannels(x, f, 0, 0, 0, 0, i, 0, 2) + SumChannels(x, f, 0, 0, 0, 0, i, 1, 2) + SumChannels(x, f, 0, 0, 0, 0, i, 2, 2)
    {
      assert SumColumns(x, f, 0, 0, 0, 0, i, 1) == SumChannels(x, f, 0, 0, 0, 0, i, 0, 2);
      assert SumColumns(x, f, 0, 0, 0, 0, i, 2) == SumColumns(x, f, 0, 0, 0, 0, i, 1) + SumChannels(x, f, 0, 0, 0, 0, i, 1, 2);
    }
    assert SumRows(x, f, 0, 0, 0, 0, 1) == SumColumns(x, f, 0, 0, 0, 0, 0, 3);
    assert SumRows(x, f, 0, 0, 0, 0, 2) == SumRows(x, f, 0, 0, 0, 0, 1) + SumColumns(x, f, 0, 0, 0, 0, 1, 3);
    assert SumRows(x, f, 0, 0, 0, 0, 3) == SumRows(x, f, 0, 0, 0, 0, 2) + SumColumns(x, f, 0, 0, 0, 0, 2, 3);
  }

  // ----- A 1×1 identity kernel reproduces its input -----

  /** The 1×1 filter whose channel `c` feeds output channel `c` with weight 1. */
  predicate IsIdentityKernel(f: Array4, c: nat) {
    && f.shape == Shape4(1, 1, c, c) && Valid(f)
    && forall ci, co | 0 <= ci < c && 0 <= co < c :: f.data[0][0][ci][co] == (if ci == co then 1 else 0)
  }

  lemma {:induction false} OneHotChannels(x: Array4, f: Array4, n: nat, h: nat, w: nat, co: nat, k: nat)
    requires PatchInRange(x, f, n, h, w, co) && IsIdentityKernel(f, x.shape.d3) && k <= x.shape.d3
    ensures SumChannels(x, f, n, h, w, co, 0, 0, k) == if co < k then x.data[n][h][w][co] else 0
    decreases k
  {
    if k > 0 {
      OneHotChannels(x, f, n, h, w, co, k - 1);
    }
  }

  /** Convolving with the identity kernel gives back the input, element for element. */
  lemma IdentityKernel(x: Array4, f: Array4)
    requires Valid(x) && IsIdentityKernel(f, x.shape.d3)
    ensures Conv2DReference(x, f) == Ok(x)
  {
    var r := Conv2DReference(x, f);
    assert OutputShape(x.shape, f.shape) == Some(x.shape);
    forall n, h, w, co | 0 <= n < x.shape.d0 && 0 <= h < x.shape.d1 && 0 <= w < x.shape.d2 && 0 <= co < x.shape.d3
      ensures r.value.data[n][h][w][co] == x.data[n][h][w][co]
    {
      OneHotChannels(x, f, n, h, w, co, x.shape.d3);
      assert SumColumns(x, f, n, h, w, co, 0, 1) == SumChannels(x, f, n, h, w, co, 0, 0, x.shape.d3);
      assert SumRows(x, f, n, h, w, co, 1) == SumColumns(x, f, n, h, w, co, 0, 1);
    }
    SameElements(r.value, x);
  }

  /** Two valid arrays of one shape with the same elements are equal. */
  lemma SameElements(a: Array4, b: Array4)
    requires Valid(a) && Valid(b) && a.shape == b.shape
    requires forall n, h, w, c | 0 <= n < a.shape.d0 && 0 <= h < a.shape.d1 && 0 <= w < a.shape.d2 && 0 <= c < a.shape.d3 ::
      a.data[n][h][w][c] == b.data[n][h][w][c]
    ensures a == b
  {
    forall n | 0 <= n < a.shape.d0 ensures a.data[n] == b.data[n] {
      forall h | 0 <= h < a.shape.d1 ensures a.data[n][h] == b.data[n][h] {
        forall w | 0 <= w < a.shape.d2 ensures a.data[n][h][w] == b.data[n][h][w] {
        }
      }
    }
  }

  // ----- The hard-coded test scenario -----

  const TestInput := Shape4(1, 8, 8, 3)
  const TestFilter := Shape4(3, 3, 3, 16)

  /** `input_data.nbytes` for a float32 array. */
  function Float32Bytes(s: Shape4): nat { s.d0 * s.d1 * s.d2 * s.d3 * 4 }

  /** The scenario `_run_vulkan_conv2d` writes for arrays of `inputBytes` and
      `filterBytes` bytes. */
  function TestScenario(inputBytes: nat, filterBytes: nat): Scenario {
    Scenario(None, [
      Declare(Shader("conv2d_test", "../shaders/conv2d.spv", "main", None)),
      Declare(Buffer("input", ReadOnly, inputBytes, Some("/tmp/conv2d_input.npy"))),
      Declare(Buffer("filter", ReadOnly, filterBytes, Some("/tmp/conv2d_filter.npy"))),
      Declare(Buffer("output", WriteOnly, 6 * 6 * 16 * 4, None)),
      Issue(Dispatch("conv2d_test", [6, 6, 1],
        [Binding(0, 0, "input"), Binding(1, 0, "filter"), Binding(2, 0, "output")]))
    ])
  }

  /** The fixed numbers of the test scenario agree with the reference shape for
      the 8×8×3 input and 3×3×3×16 filter: the range is the output's width and
      height, and the output buffer holds exactly the output's float32 bytes. */
  lemma TestScenarioConsistent()
    ensures OutputShape(TestInput, TestFilter) == Some(Shape4(1, 6, 6, 16))
    ensures var o := OutputShape(TestInput, TestFilter).value;
      var t := TestScenario(Float32Bytes(TestInput), Float32Bytes(TestFilter)).steps;
      && t[4].command.range == [o.d2, o.d1, 1]
      && t[3].resource.size == Float32Bytes(o)
      && t[1].resource.size == 1 * 8 * 8 * 3 * 4
      && t[2].resource.size == 3 * 3 * 3 * 16 * 4
  {
  }

  // ----- Results and report -----

  datatype OpResult = OpResult(operation: string, passed: bool, error: Option<string>)

  /** `validate_conv2d`: `run` is `None` when the Vulkan run failed, else whether
      the maximum difference was within tolerance. */
  function ValidateConv2D(run: Option<bool>): (r: OpResult)
    ensures r.operation == "Conv2D"
    ensures r.passed <==> run == Some(true)
    ensures r.error.Some? <==> run.None?
  {
    match run
    case None => OpResult("Conv2D", false, Some("Vulkan execution failed"))
    case Some(withinTolerance) => OpResult("Conv2D", withinTolerance, None)
  }

  /** `validate_matmul`: a placeholder that records a pass without comparing. */
  function ValidateMatmul(): (r: OpResult)
    ensures r.operation == "MatMul" && r.passed && r.error.None?
  {
    OpResult("MatMul", true, None)
  }

  datatype Summary = Summary(total: nat, passed: nat, failed: int)

  /** Printing the success rate divides by the number of results. */
  datatype ReportError = ZeroDivision

  function CountPassed(results: seq<OpResult>): nat {
    if results == [] then 0 else (if results[0].passed then 1 else 0) + CountPassed(results[1..])
  }

  lemma {:induction false} CountPassedBounds(results: seq<OpResult>)
    ensures CountPassed(results) <= |results|
    ensures CountPassed(results) == |results| <==> forall i | 0 <= i < |results| :: results[i].passed
    decreases |results|
  {
    if results != [] {
      CountPassedBounds(results[1..]);
      if forall i | 1 <= i < |results| :: results[i].passed {
        assert forall i | 0 <= i < |results[1..]| :: results[1..][i].passed by {
          forall i | 0 <= i < |results[1..]| ensures results[1..][i].passed {
            assert results[1..][i] == results[i + 1];
          }
        }
      } else {
        var i :| 1 <= i < |results| && !results[i].passed;
        assert !results[1..][i - 1].passed;
      }
    }
  }

  /** `generate_report`'s summary: failed is total minus passed, and no summary
      exists for an empty result list. */
  function Report(results: seq<OpResult>): (r: Result<Summary, ReportError>)
    ensures r.Err? <==> results == []
    ensures r.Ok? ==> r.value.total == |results| && r.value.passed + r.value.failed == r.value.total
    ensures r.Ok? ==> 0 <= r.value.failed
    ensures r.Ok? ==> (r.value.failed == 0 <==> forall i | 0 <= i < |results| :: results[i].passed)
  {
    CountPassedBounds(results);
    var passed := CountPassed(results);
    var total := |results|;
    if total == 0 then Err(ZeroDivision) else Ok(Summary(total, passed, total - passed))
  }

  /** The validator's run (conv2d, then matmul) reports two operations, at least
      one passed, and none failed exactly when the Vulkan conv ran within
      tolerance. */
  lemma MainReport(run: Option<bool>)
    ensures var r := Report([ValidateConv2D(run), ValidateMatmul()]);
      && r.Ok? && r.value.total == 2 && r.value.passed >= 1
      && (r.value.failed == 0 <==> run == Some(true))
  {
    var rs := [ValidateConv2D(run), ValidateMatmul()];
    assert rs[1..] == [ValidateMatmul()];
    assert rs[1..][1..] == [];
    assert CountPassed(rs[1..][1..]) == 0;
    assert CountPassed(rs[1..]) == 1;
    assert CountPassed(rs) == (if run == Some(true) then 2 else 1);
    assert (forall i | 0 <= i < |rs| :: rs[i].passed) <==> run == Some(true) by {
      assert rs[0] == ValidateConv2D(run);
    }
  }
}
