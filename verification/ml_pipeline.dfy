/** The ML pipeline builder (`MLPipelineBuilder`): conv ops registered with
    consecutive tensor indices, and a scenario with one shader, one buffer per
    tensor and a single dispatch whose bindings are fixed. */
module MlPipeline {
  import opened Outcome
  import opened Scenario
  import Text

  datatype Tensor = Tensor(shape: seq<int>, dtype: string)

  /** An entry of `self.operations`; every op the builder adds is a conv. */
  datatype PipelineOp =
    PipelineOp(kind: string, inputTensor: nat, filterTensor: nat, outputTensor: nat,
               stride: seq<int>, padding: string)

  datatype Builder = Builder(operations: seq<PipelineOp>, tensors: seq<Tensor>)

  /** A freshly constructed builder. */
  const Empty := Builder([], [])

  const ShaderUid := "conv2d_shader"

  function TensorUid(i: nat): string { "tensor_" + Text.NatToString(i) }

  /** `add_conv2d_operation`: the op refers to the three tensors it appends, which
      take the next three indices. */
  function AddConv2D(b: Builder, inputShape: seq<int>, filterShape: seq<int>, outputShape: seq<int>): (b': Builder)
    ensures var n := |b.tensors|;
      && |b'.tensors| == n + 3
      && b'.tensors[..n] == b.tensors
      && b'.tensors[n] == Tensor(inputShape, "float32")
      && b'.tensors[n + 1] == Tensor(filterShape, "float32")
      && b'.tensors[n + 2] == Tensor(outputShape, "float32")
    ensures |b'.operations| == |b.operations| + 1 && b'.operations[..|b.operations|] == b.operations
    ensures var op := b'.operations[|b.operations|];
      && op.kind == "conv2d"
      && op.inputTensor == |b.tensors| && op.filterTensor == |b.tensors| + 1 && op.outputTensor == |b.tensors| + 2
      && op.stride == [1, 1] && op.padding == "SAME"
  {
    var n := |b.tensors|;
    var op := PipelineOp("conv2d", n, n + 1, n + 2, [1, 1], "SAME");
    Builder(b.operations + [op],
            b.tensors + [Tensor(inputShape, "float32"), Tensor(filterShape, "float32"), Tensor(outputShape, "float32")])
  }

  /** `load_tflite_model` ignores the file and adds one fixed conv. */
  function LoadTfliteModel(b: Builder, path: string): (b': Builder)
    ensures |b'.operations| == |b.operations| + 1
    ensures var n := |b.tensors|;
      && |b'.tensors| == n + 3
      && b'.tensors[n].shape == [1, 224, 224, 3]
      && b'.tensors[n + 1].shape == [32, 3, 3, 3]
      && b'.tensors[n + 2].shape == [1, 224, 224, 32]
  {
    AddConv2D(b, [1, 224, 224, 3], [32, 3, 3, 3], [1, 224, 224, 32])
  }

  /** Every op's tensor indices point into the tensor list: the invariant
      `add_conv2d_operation` keeps. */
  predicate WellIndexed(b: Builder) {
    forall k | 0 <= k < |b.operations| ::
      b.operations[k].outputTensor < |b.tensors|
      && b.operations[k].inputTensor < b.operations[k].filterTensor < b.operations[k].outputTensor
  }

  lemma AddConv2DKeepsIndexed(b: Builder, inputShape: seq<int>, filterShape: seq<int>, outputShape: seq<int>)
    requires WellIndexed(b)
    ensures WellIndexed(AddConv2D(b, inputShape, filterShape, outputShape))
  {
    var b' := AddConv2D(b, inputShape, filterShape, outputShape);
    forall k | 0 <= k < |b'.operations|
      ensures b'.operations[k].outputTensor < |b'.tensors|
      ensures b'.operations[k].inputTensor < b'.operations[k].filterTensor < b'.operations[k].outputTensor
    {
      if k < |b.operations| {
        assert b'.operations[k] == b.operations[k];
      }
    }
  }

  /** The path given to `load_tflite_model` makes no difference. */
  lemma LoadIgnoresPath(b: Builder, p: string, q: string)
    ensures LoadTfliteModel(b, p) == LoadTfliteModel(b, q)
  {
  }

  /** One read-write buffer per tensor, sized product(shape)·4, for the first `n`
      tensors. */
  function TensorSteps(tensors: seq<Tensor>, n: nat): (t: seq<Step>)
    requires n <= |tensors|
    ensures |t| == n
    ensures forall i | 0 <= i < n :: t[i].Declare? && t[i].resource.Buffer? && t[i].resource.uid == TensorUid(i)
  {
    if n == 0 then []
    else TensorSteps(tensors, n - 1) + [Declare(Buffer(TensorUid(n - 1), ReadWrite, Product(tensors[n - 1].shape) * 4, None))]
  }

  /** The one command, whatever the operations and tensors are. */
  const FixedDispatch :=
    Dispatch(ShaderUid, [224, 224, 1],
      [Binding(0, 0, "tensor_0"), Binding(1, 0, "tensor_1"), Binding(2, 0, "tensor_2")])

  /** `generate_vulkan_scenario` without the final `json.dump`. */
  function Generate(b: Builder): (s: Scenario)
    ensures |s.steps| == |b.tensors| + 2
    ensures s.steps[0].Declare? && s.steps[0].resource.uid == ShaderUid
    ensures forall i | 1 <= i <= |b.tensors| :: s.steps[i].Declare? && s.steps[i].resource.Buffer?
    ensures s.steps[|s.steps| - 1] == Issue(FixedDispatch)
  {
    Scenario(None,
      [Declare(Shader(ShaderUid, "../shaders/conv2d.spv", "main", None))]
      + TensorSteps(b.tensors, |b.tensors|)
      + [Issue(FixedDispatch)])
  }

  lemma {:induction false} TensorStepsFacts(tensors: seq<Tensor>, n: nat)
    requires n <= |tensors|
    ensures var s := TensorSteps(tensors, n);
      && |s| == n
      && Commands(s) == []
      && |Resources(s)| == n
      && (forall i | 0 <= i < n ::
            Resources(s)[i] == Buffer("tensor_" + Text.NatToString(i), ReadWrite, Product(tensors[i].shape) * 4, None))
      && (forall i | 0 <= i < n :: s[i].Declare?)
    decreases n
  {
    if n > 0 {
      var e := TensorSteps(tensors, n - 1);
      var x := Declare(Buffer(TensorUid(n - 1), ReadWrite, Product(tensors[n - 1].shape) * 4, None));
      TensorStepsFacts(tensors, n - 1);
      CommandsAppend(e, [x]);
      ResourcesAppend(e, [x]);
      Cons({}, x, []);
      assert [x] + [] == [x];
    }
  }

  /** `tensor_j` is declared by the first `n` buffer steps exactly when `j < n`. */
  lemma {:induction false} TensorDeclared(tensors: seq<Tensor>, n: nat, j: nat)
    requires n <= |tensors|
    ensures TensorUid(j) in Declared(TensorSteps(tensors, n)) <==> j < n
    ensures ShaderUid !in Declared(TensorSteps(tensors, n))
    decreases n
  {
    if n > 0 {
      var e := TensorSteps(tensors, n - 1);
      var x := Declare(Buffer(TensorUid(n - 1), ReadWrite, Product(tensors[n - 1].shape) * 4, None));
      TensorDeclared(tensors, n - 1, j);
      DeclaredAppend(e, [x]);
      Cons({}, x, []);
      assert [x] + [] == [x];
      if TensorUid(j) == TensorUid(n - 1) {
        Text.PrefixCancel("tensor_", Text.NatToString(j), Text.NatToString(n - 1));
        Text.RenderInjective(j, n - 1);
      }
      assert ShaderUid[0] != TensorUid(n - 1)[0];
    }
  }

  /** The resources are the shader followed by one buffer per tensor, in tensor
      order; there is exactly one command, the fixed dispatch on `tensor_0..2`. */
  lemma GenerateShape(b: Builder)
    ensures var t := Generate(b).steps;
      && |Resources(t)| == 1 + |b.tensors|
      && Resources(t)[0] == Shader("conv2d_shader", "../shaders/conv2d.spv", "main", None)
      && (forall i | 0 <= i < |b.tensors| ::
            Resources(t)[1 + i] == Buffer("tensor_" + Text.NatToString(i), ReadWrite,
                                          Product(b.tensors[i].shape) * 4, None))
      && Commands(t) == [Dispatch("conv2d_shader", [224, 224, 1],
           [Binding(0, 0, "tensor_0"), Binding(1, 0, "tensor_1"), Binding(2, 0, "tensor_2")])]
  {
    GenerateResources(b);
    GenerateCommands(b);
  }

  /** The resource half of `GenerateShape`. */
  lemma GenerateResources(b: Builder)
    ensures var t := Generate(b).steps;
      && |Resources(t)| == 1 + |b.tensors|
      && Resources(t)[0] == Shader("conv2d_shader", "../shaders/conv2d.spv", "main", None)
      && (forall i | 0 <= i < |b.tensors| ::
            Resources(t)[1 + i] == Buffer("tensor_" + Text.NatToString(i), ReadWrite,
                                          Product(b.tensors[i].shape) * 4, None))
  {
    var head := [Declare(Shader(ShaderUid, "../shaders/conv2d.spv", "main", None))];
    var mid := TensorSteps(b.tensors, |b.tensors|);
    var tail := [Issue(FixedDispatch)];
    assert Generate(b).steps == head + mid + tail;
    TensorStepsFacts(b.tensors, |b.tensors|);
    Cons({}, head[0], []);
    Cons({}, tail[0], []);
    assert head == [head[0]] + [];
    assert tail == [tail[0]] + [];
    ResourcesAppend(head, mid);
    ResourcesAppend(head + mid, tail);
  }

  /** The command half of `GenerateShape`. */
  lemma GenerateCommands(b: Builder)
    ensures Commands(Generate(b).steps) == [FixedDispatch]
  {
    var head := [Declare(Shader(ShaderUid, "../shaders/conv2d.spv", "main", None))];
    var mid := TensorSteps(b.tensors, |b.tensors|);
    var tail := [Issue(FixedDispatch)];
    assert Generate(b).steps == head + mid + tail;
    TensorStepsFacts(b.tensors, |b.tensors|);
    Cons({}, head[0], []);
    Cons({}, tail[0], []);
    assert head == [head[0]] + [];
    assert tail == [tail[0]] + [];
    CommandsAppend(head, mid);
    CommandsAppend(head + mid, tail);
  }

  lemma FixedRefs()
    ensures Refs(FixedDispatch) == {TensorUid(0), TensorUid(1), TensorUid(2)}
  {
    var bs := FixedDispatch.bindings;
    assert bs == [bs[0]] + ([bs[1]] + ([bs[2]] + []));
    BindingsCons(bs[2], []);
    BindingsCons(bs[1], [bs[2]] + []);
    BindingsCons(bs[0], [bs[1]] + ([bs[2]] + []));
    assert Text.NatToString(0) == "0" && Text.NatToString(1) == "1" && Text.NatToString(2) == "2";
    assert bs[0].ref == TensorUid(0);
    assert bs[1].ref == TensorUid(1);
    assert bs[2].ref == TensorUid(2);
    assert BindingRefs([]) == {};
  }

  /** The steps before the dispatch only declare: the shader, then the buffers. */
  lemma BeforeDispatch(b: Builder)
    ensures var pre := [Declare(Shader(ShaderUid, "../shaders/conv2d.spv", "main", None))]
                       + TensorSteps(b.tensors, |b.tensors|);
      && SoundFrom({}, pre)
      && Declared(pre) == {ShaderUid} + Declared(TensorSteps(b.tensors, |b.tensors|))
  {
    var head := [Declare(Shader(ShaderUid, "../shaders/conv2d.spv", "main", None))];
    var mid := TensorSteps(b.tensors, |b.tensors|);
    var pre := head + mid;
    TensorStepsFacts(b.tensors, |b.tensors|);
    assert forall i | 0 <= i < |pre| :: pre[i].Declare?;
    DeclaresOnlySound({}, pre);
    Cons({}, head[0], []);
    assert head == [head[0]] + [];
    DeclaredAppend(head, mid);
  }

  /** The fixed bindings resolve exactly when there are at least three tensors:
      with fewer, the dispatch binds a `tensor_i` that was never declared. */
  lemma GenerateSoundIff(b: Builder)
    ensures ReferenceSound(Generate(b).steps) <==> |b.tensors| >= 3
  {
    var n := |b.tensors|;
    var pre := [Declare(Shader(ShaderUid, "../shaders/conv2d.spv", "main", None))] + TensorSteps(b.tensors, n);
    var tail := [Issue(FixedDispatch)];
    BeforeDispatch(b);
    SoundAppend({}, pre, tail);
    assert tail == [tail[0]] + [];
    Cons({} + Declared(pre), tail[0], []);
    FixedRefs();
    TensorDeclared(b.tensors, n, 0);
    TensorDeclared(b.tensors, n, 1);
    TensorDeclared(b.tensors, n, 2);
    assert ShaderUid != TensorUid(2) by { assert ShaderUid[0] != TensorUid(2)[0]; }
  }

  /** The scenario the command-line flow writes (`load_tflite_model`, then
      `generate_vulkan_scenario`) is reference sound. */
  lemma LoadedModelSound(path: string)
    ensures ReferenceSound(Generate(LoadTfliteModel(Empty, path)).steps)
  {
    GenerateSoundIff(LoadTfliteModel(Empty, path));
  }

  /** A builder with no conv yet still emits the dispatch on `tensor_0..2`, binding
      buffers that do not exist. */
  lemma EmptyBuilderUnsound()
    ensures !ReferenceSound(Generate(Empty).steps)
  {
    GenerateSoundIff(Empty);
  }
}
