/** The TFLite analyzer's op-to-stage conversion (`TFLiteModelAnalyzer`): a fixed
    op-type → shader table, per-type dispatch sizes, the pipeline's filtering of
    unmapped ops, the simulated op lists and the per-type tally. */
module TfliteAnalyzer {
  import opened Outcome
  import Text

  /** An analyzed op. The `params` dictionaries of the simulated op lists are
      never read by the stage conversion and are left out. */
  datatype AnalyzedOp = AnalyzedOp(kind: string, name: string)

  datatype Dim = Dim(x: int, y: int, z: int)

  datatype VkStage = VkStage(name: string, kind: string, shader: string, dispatch: Dim)

  /** The `shader_map` of `_convert_op_to_vulkan_stage`. */
  const ShaderMap: map<string, string> := map[
    "CONV_2D" := "conv2d.spv",
    "CONV_TRANSPOSE_2D" := "conv_transpose2d.spv",
    "RELU" := "relu.spv",
    "TANH" := "tanh.spv",
    "INSTANCE_NORM" := "instance_norm.spv",
    "RESIDUAL_BLOCK" := "residual_block.spv",
    "FULLY_CONNECTED" := "matmul.spv"
  ]

  /** The dispatch grid a mapped op type gets. */
  function DispatchFor(kind: string): (d: Dim)
    ensures d.z == 1
    ensures kind == "CONV_2D" || kind == "CONV_TRANSPOSE_2D" ==> d == Dim(256, 256, 1)
    ensures kind == "FULLY_CONNECTED" ==> d == Dim(1024, 1, 1)
    ensures kind !in {"CONV_2D", "CONV_TRANSPOSE_2D", "FULLY_CONNECTED"} ==> d == Dim(65536, 1, 1)
  {
    if kind in ["CONV_2D", "CONV_TRANSPOSE_2D"] then Dim(256, 256, 1)
    else if kind == "FULLY_CONNECTED" then Dim(1024, 1, 1)
    else Dim(65536, 1, 1)
  }

  /** `_convert_op_to_vulkan_stage(op, index)`: `None` for an op type outside the
      table. */
  function ConvertOp(op: AnalyzedOp): (r: Option<VkStage>)
    ensures r.Some? <==> op.kind in ShaderMap
    ensures r.Some? ==> r.value.name == op.name && r.value.kind == op.kind
    ensures r.Some? ==> r.value.shader == ShaderMap[op.kind]
  {
    if op.kind in ShaderMap then
      Some(VkStage(op.name, op.kind, ShaderMap[op.kind], DispatchFor(op.kind)))
    else None
  }

  predicate Mapped(op: AnalyzedOp) {
    op.kind in ShaderMap
  }

  /** The stage loop of `generate_vulkan_pipeline`: mapped ops become stages, in
      order; unmapped ops are dropped. */
  function Stages(ops: seq<AnalyzedOp>): (s: seq<VkStage>)
    ensures |s| <= |ops|
    ensures forall k | 0 <= k < |s| :: s[k].kind in ShaderMap && s[k].shader == ShaderMap[s[k].kind]
    decreases |ops|
  {
    if ops == [] then []
    else
      var rest := Stages(ops[1..]);
      match ConvertOp(ops[0])
      case Some(stage) => [stage] + rest
      case None => rest
  }

  function CountMapped(ops: seq<AnalyzedOp>): nat {
    if ops == [] then 0 else (if Mapped(ops[0]) then 1 else 0) + CountMapped(ops[1..])
  }

  lemma {:induction false} StagesAppend(a: seq<AnalyzedOp>, b: seq<AnalyzedOp>)
    ensures Stages(a + b) == Stages(a) + Stages(b)
    decreases |a|
  {
    if a == [] {
      assert a + b == b;
    } else {
      assert (a + b)[1..] == a[1..] + b;
      StagesAppend(a[1..], b);
    }
  }

  /** One stage per mapped op: the stage count is the number of mapped ops. */
  lemma {:induction false} StageCount(ops: seq<AnalyzedOp>)
    ensures |Stages(ops)| == CountMapped(ops)
    decreases |ops|
  {
    if ops != [] {
      StageCount(ops[1..]);
    }
  }

  /** With every op mapped, stage `i` is exactly op `i`'s conversion. */
  lemma {:induction false} StagesAllMapped(ops: seq<AnalyzedOp>)
    requires forall i | 0 <= i < |ops| :: ops[i].kind in ShaderMap
    ensures |Stages(ops)| == |ops|
    ensures forall i | 0 <= i < |ops| ::
      Stages(ops)[i] == VkStage(ops[i].name, ops[i].kind, ShaderMap[ops[i].kind], DispatchFor(ops[i].kind))
    decreases |ops|
  {
    if ops != [] {
      StagesAllMapped(ops[1..]);
      forall i | 1 <= i < |ops|
        ensures Stages(ops)[i] == Stages(ops[1..])[i - 1]
      {
      }
    }
  }

  /** Ops outside the table never make it into the pipeline. */
  lemma {:induction false} UnmappedDropped(a: seq<AnalyzedOp>, op: AnalyzedOp, b: seq<AnalyzedOp>)
    requires !Mapped(op)
    ensures Stages(a + [op] + b) == Stages(a) + Stages(b)
  {
    StagesAppend(a + [op], b);
    StagesAppend(a, [op]);
    assert [op][1..] == [];
  }

  /** The 22 ops of `_analyze_style_transfer_model`. */
  const StyleOps: seq<AnalyzedOp> := [
    AnalyzedOp("CONV_2D", "conv1"), AnalyzedOp("INSTANCE_NORM", "norm1"), AnalyzedOp("RELU", "relu1"),
    AnalyzedOp("CONV_2D", "conv2"), AnalyzedOp("INSTANCE_NORM", "norm2"), AnalyzedOp("RELU", "relu2"),
    AnalyzedOp("CONV_2D", "conv3"), AnalyzedOp("INSTANCE_NORM", "norm3"), AnalyzedOp("RELU", "relu3"),
    AnalyzedOp("RESIDUAL_BLOCK", "res1"), AnalyzedOp("RESIDUAL_BLOCK", "res2"),
    AnalyzedOp("RESIDUAL_BLOCK", "res3"), AnalyzedOp("RESIDUAL_BLOCK", "res4"),
    AnalyzedOp("RESIDUAL_BLOCK", "res5"),
    AnalyzedOp("CONV_TRANSPOSE_2D", "deconv1"), AnalyzedOp("INSTANCE_NORM", "norm4"), AnalyzedOp("RELU", "relu4"),
    AnalyzedOp("CONV_TRANSPOSE_2D", "deconv2"), AnalyzedOp("INSTANCE_NORM", "norm5"), AnalyzedOp("RELU", "relu5"),
    AnalyzedOp("CONV_2D", "conv_out"), AnalyzedOp("TANH", "output_activation")
  ]

  /** The 3 ops of `_analyze_generic_model`. */
  const GenericOps: seq<AnalyzedOp> := [
    AnalyzedOp("CONV_2D", "conv1"), AnalyzedOp("RELU", "relu1"), AnalyzedOp("FULLY_CONNECTED", "fc1")
  ]

  /** The selection in `analyze`: on the whole path, not the basename. */
  function ModelOps(path: string): (ops: seq<AnalyzedOp>)
    ensures forall i | 0 <= i < |ops| :: Mapped(ops[i])
    ensures Text.Contains(path, "la_muse") ==> |ops| == 22 && ops[|ops| - 1].kind == "TANH"
    ensures Text.Contains(path, "style") ==> |ops| == 22
    ensures |ops| == 3 || |ops| == 22
    ensures ops[0] == AnalyzedOp("CONV_2D", "conv1")
  {
    Text.StyleAnyCase(path);
    if Text.Contains(path, "la_muse") || Text.Contains(Text.Lower(path), "style") then StyleOps else GenericOps
  }

  /** Both simulated op lists use only table types, so every op becomes a stage:
      22 for a style-transfer path, 3 otherwise. */
  lemma ModelStages(path: string)
    ensures |Stages(ModelOps(path))| == |ModelOps(path)|
    ensures |ModelOps(path)| == (if Text.Contains(path, "la_muse") || Text.Contains(Text.Lower(path), "style") then 22 else 3)
  {
    assert forall i | 0 <= i < |StyleOps| :: StyleOps[i].kind in ShaderMap;
    assert forall i | 0 <= i < |GenericOps| :: GenericOps[i].kind in ShaderMap;
    StagesAllMapped(StyleOps);
    StagesAllMapped(GenericOps);
  }

  // ----- The per-type tally -----

  /** An insertion-ordered dict from op type to count, as a list of entries. */
  type Tally = seq<(string, nat)>

  /** `op_types.get(kind, 0)` */
  function Lookup(t: Tally, kind: string): nat {
    if t == [] then 0 else if t[0].0 == kind then t[0].1 else Lookup(t[1..], kind)
  }

  predicate DistinctKeys(t: Tally) {
    forall i, j | 0 <= i < j < |t| :: t[i].0 != t[j].0
  }

  function Sum(t: Tally): nat {
    if t == [] then 0 else t[0].1 + Sum(t[1..])
  }

  predicate HasKey(t: Tally, kind: string) {
    exists i | 0 <= i < |t| :: t[i].0 == kind
  }

  /** Lookup, sum and key set of a tally with one entry in front. */
  lemma TallyCons(h: (string, nat), r: Tally)
    ensures forall x :: Lookup([h] + r, x) == if h.0 == x then h.1 else Lookup(r, x)
    ensures Sum([h] + r) == h.1 + Sum(r)
    ensures forall x :: HasKey([h] + r, x) <==> x == h.0 || HasKey(r, x)
  {
    var t := [h] + r;
    assert t[1..] == r;
    forall x ensures HasKey(t, x) <==> x == h.0 || HasKey(r, x) {
      if x == h.0 {
        assert t[0].0 == x;
      }
      if HasKey(t, x) && x != h.0 {
        var i :| 0 <= i < |t| && t[i].0 == x;
        assert i > 0 && t[i] == r[i - 1];
        assert r[i - 1].0 == x;
      }
      if HasKey(r, x) {
        var i :| 0 <= i < |r| && r[i].0 == x;
        assert t[i + 1].0 == x;
      }
    }
  }

  /** An entry whose key is new keeps the keys distinct. */
  lemma DistinctCons(h: (string, nat), r: Tally)
    requires DistinctKeys(r) && !HasKey(r, h.0)
    ensures DistinctKeys([h] + r)
  {
    var t := [h] + r;
    forall i, j | 0 <= i < j < |t| ensures t[i].0 != t[j].0 {
      if i == 0 {
        assert t[j].0 == r[j - 1].0;
      } else {
        assert t[i].0 == r[i - 1].0 && t[j].0 == r[j - 1].0;
      }
    }
  }

  /** `op_types[kind] = op_types.get(kind, 0) + 1` */
  function Bump(t: Tally, kind: string): (t': Tally)
    requires DistinctKeys(t)
    ensures DistinctKeys(t')
    ensures Sum(t') == Sum(t) + 1
    ensures forall x :: Lookup(t', x) == Lookup(t, x) + (if x == kind then 1 else 0)
    ensures forall x :: HasKey(t', x) <==> HasKey(t, x) || x == kind
    decreases |t|
  {
    if t == [] then
      TallyCons((kind, 1), []);
      [(kind, 1)] + []
    else
      assert t == [t[0]] + t[1..];
      TallyCons(t[0], t[1..]);
      assert !HasKey(t[1..], t[0].0);
      if t[0].0 == kind then
        TallyCons((kind, t[0].1 + 1), t[1..]);
        DistinctCons((kind, t[0].1 + 1), t[1..]);
        [(kind, t[0].1 + 1)] + t[1..]
      else
        var rest := Bump(t[1..], kind);
        TallyCons(t[0], rest);
        DistinctCons(t[0], rest);
        [t[0]] + rest
  }

  /** How many ops of `ops` have type `kind`. */
  function Count(ops: seq<AnalyzedOp>, kind: string): nat {
    if ops == [] then 0
    else Count(ops[..|ops| - 1], kind) + (if ops[|ops| - 1].kind == kind then 1 else 0)
  }

  /** The breakdown loop of `_analyze_style_transfer_model`: each type's count is
      the number of ops of that type, every op's type has an entry, and the
      counts add up to the number of ops. */
  method TallyOps(ops: seq<AnalyzedOp>) returns (t: Tally)
    ensures t == [] <==> ops == []
    ensures DistinctKeys(t)
    ensures forall x :: Lookup(t, x) == Count(ops, x)
    ensures forall i | 0 <= i < |ops| :: HasKey(t, ops[i].kind)
    ensures Sum(t) == |ops|
  {
    t := [];
    var i := 0;
    while i < |ops|
      invariant i <= |ops|
      invariant DistinctKeys(t)
      invariant forall x :: Lookup(t, x) == Count(ops[..i], x)
      invariant forall j | 0 <= j < i :: HasKey(t, ops[j].kind)
      invariant Sum(t) == i
      invariant t == [] <==> i == 0
    {
      assert ops[..i + 1][..i] == ops[..i];
      t := Bump(t, ops[i].kind);
      i := i + 1;
    }
    assert ops[..i] == ops;
  }
}
