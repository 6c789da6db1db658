/** The style-transfer demo's scenario builder
    (`StyleTransferDemo.create_style_transfer_scenario`): an op list becomes an
    input-image buffer followed, op by op, by shaders, weight and output buffers and
    dispatch commands. */
module StyleTransfer {
  import opened Outcome
  import opened Scenario
  import Text

  /** One entry of the op list. Ops of any type other than `conv2d` and `relu` are
      skipped by the builder. */
  datatype Op =
    | Conv2D(name: string, inputShape: seq<int>, outputShape: seq<int>, kernelSize: seq<int>, stride: int)
    | Relu(name: string, shape: seq<int>)
    | Other(name: string, kind: string)

  /** A conv op whose shape lists are too short makes Python raise `IndexError`,
      and no scenario is written. */
  datatype BuildError = IndexError

  const InputImageUid := "input_image"

  const InputImage: Resource :=
    Buffer(InputImageUid, ReadOnly, 1 * 256 * 256 * 3 * 4, Some("input_image.npy"))

  function ShaderUid(name: string): string { name + "_shader" }

  function WeightsUid(name: string): string { name + "_weights" }

  function OutputUid(name: string): string { name + "_output" }

  /** The conv branch reads `kernel_size[0..1]`, `input_shape[3]` and
      `output_shape[1..3]`. */
  predicate Indexable(op: Op) {
    op.Conv2D? ==> |op.kernelSize| >= 2 && |op.inputShape| >= 4 && |op.outputShape| >= 4
  }

  predicate AllIndexable(ops: seq<Op>) {
    forall i | 0 <= i < |ops| :: Indexable(ops[i])
  }

  /** Python's `operations[i-1]`: for `i == 0` this is the LAST op. */
  function Previous(ops: seq<Op>, i: nat): Op
    requires i < |ops|
  {
    ops[if i == 0 then |ops| - 1 else i - 1]
  }

  /** Binding 0 of a conv: the input image for the first op, else the previous op's
      `_output`, whatever kind that op is. */
  function ConvInput(ops: seq<Op>, i: nat): string
    requires i < |ops|
  {
    if i == 0 then InputImageUid else OutputUid(Previous(ops, i).name)
  }

  function ConvSteps(c: Op, input: string): seq<Step>
    requires c.Conv2D? && Indexable(c)
  {
    var k := c.kernelSize;
    var o := c.outputShape;
    [ Declare(Shader(ShaderUid(c.name), "shaders/conv2d.spv", "main", None)),
      Declare(Buffer(WeightsUid(c.name), ReadOnly, k[0] * k[1] * c.inputShape[3] * o[3] * 4, None)),
      Declare(Buffer(OutputUid(c.name), WriteOnly, Product(o) * 4, None)),
      Issue(Dispatch(ShaderUid(c.name), [o[2], o[1], 1],
        [Binding(0, 0, input), Binding(1, 0, WeightsUid(c.name)), Binding(2, 0, OutputUid(c.name))])) ]
  }

  function ReluSteps(r: Op, input: string): seq<Step>
    requires r.Relu?
  {
    [ Declare(Shader(ShaderUid(r.name), "shaders/relu.spv", "main", None)),
      Issue(Dispatch(ShaderUid(r.name), [Product(r.shape)], [Binding(0, 0, input)])) ]
  }

  /** The appends made by the loop body for op `i`. */
  function OpSteps(ops: seq<Op>, i: nat): seq<Step>
    requires i < |ops| && Indexable(ops[i])
  {
    match ops[i]
    case Conv2D(_, _, _, _, _) => ConvSteps(ops[i], ConvInput(ops, i))
    case Relu(_, _) => ReluSteps(ops[i], OutputUid(Previous(ops, i).name))
    case Other(_, _) => []
  }

  /** The scenario after the loop has handled the first `n` ops. */
  function Emit(ops: seq<Op>, n: nat): (t: seq<Step>)
    requires n <= |ops| && AllIndexable(ops)
    ensures |t| >= 1 && t[0] == Declare(InputImage)
  {
    if n == 0 then [Declare(InputImage)] else Emit(ops, n - 1) + OpSteps(ops, n - 1)
  }

  /** `create_style_transfer_scenario` on an arbitrary op list, without the final
      `json.dump`. */
  function Build(ops: seq<Op>): (r: Result<Scenario, BuildError>)
    ensures r.Ok? <==> AllIndexable(ops)
    ensures r.Ok? ==> r.value.name.None?
    ensures r.Ok? ==> |Resources(r.value.steps)| >= 1 && Resources(r.value.steps)[0] == InputImage
  {
    if AllIndexable(ops) then Ok(Scenario(None, Emit(ops, |ops|))) else Err(IndexError)
  }

  /** The op list the demo hard-codes. */
  const DemoOps: seq<Op> := [
    Conv2D("conv1", [1, 256, 256, 3], [1, 256, 256, 32], [9, 9], 1),
    Relu("relu1", [1, 256, 256, 32]),
    Conv2D("conv2", [1, 256, 256, 32], [1, 256, 256, 64], [3, 3], 2),
    Conv2D("conv3", [1, 128, 128, 64], [1, 128, 128, 128], [3, 3], 2)
  ]

  // ----- Shape of the output -----

  /** Earlier snapshots of the loop are prefixes of later ones: nothing appended is
      ever removed or reordered. */
  lemma {:induction false} EmitPrefix(ops: seq<Op>, n: nat, m: nat)
    requires n <= m <= |ops| && AllIndexable(ops)
    ensures Emit(ops, n) <= Emit(ops, m)
    decreases m - n
  {
    if n < m {
      EmitPrefix(ops, n, m - 1);
    }
  }

  /** The uids op `i` declares. */
  function OpUids(op: Op): set<string> {
    match op
    case Conv2D(name, _, _, _, _) => {ShaderUid(name), WeightsUid(name), OutputUid(name)}
    case Relu(name, _) => {ShaderUid(name)}
    case Other(_, _) => {}
  }

  function Convs(ops: seq<Op>): nat {
    if ops == [] then 0 else (if ops[0].Conv2D? then 1 else 0) + Convs(ops[1..])
  }

  function Relus(ops: seq<Op>): nat {
    if ops == [] then 0 else (if ops[0].Relu? then 1 else 0) + Relus(ops[1..])
  }

  lemma CountsSnoc(ops: seq<Op>, n: nat)
    requires n < |ops|
    ensures Convs(ops[..n + 1]) == Convs(ops[..n]) + (if ops[n].Conv2D? then 1 else 0)
    ensures Relus(ops[..n + 1]) == Relus(ops[..n]) + (if ops[n].Relu? then 1 else 0)
  {
    var p := ops[..n];
    assert ops[..n + 1] == p + [ops[n]];
    SnocCounts(p, ops[n]);
  }

  lemma {:induction false} SnocCounts(p: seq<Op>, op: Op)
    ensures Convs(p + [op]) == Convs(p) + (if op.Conv2D? then 1 else 0)
    ensures Relus(p + [op]) == Relus(p) + (if op.Relu? then 1 else 0)
    decreases |p|
  {
    if p == [] {
      assert p + [op] == [op];
      assert [op][1..] == [];
    } else {
      assert (p + [op])[1..] == p[1..] + [op];
      SnocCounts(p[1..], op);
    }
  }

  /** What one conv's appends declare and bind. */
  lemma ConvStepsFacts(c: Op, input: string)
    requires c.Conv2D? && Indexable(c)
    ensures var s := ConvSteps(c, input);
      && |Commands(s)| == 1 && |Resources(s)| == 3
      && Declared(s) == OpUids(c) && Declared(s[..3]) == OpUids(c)
      && Refs(s[3].command) == {input, WeightsUid(c.name), OutputUid(c.name)}
      && forall known | input in known :: SoundFrom(known, s)
  {
    var s := ConvSteps(c, input);
    assert s == [s[0]] + ([s[1]] + ([s[2]] + ([s[3]] + [])));
    assert s[..3] == [s[0]] + ([s[1]] + ([s[2]] + []));
    assert s[3..] == [s[3]] + [];
    Cons({}, s[3], []);
    Cons({}, s[2], [s[3]] + []);
    Cons({}, s[1], [s[2]] + ([s[3]] + []));
    Cons({}, s[0], [s[1]] + ([s[2]] + ([s[3]] + [])));
    Cons({}, s[2], []);
    Cons({}, s[1], [s[2]] + []);
    Cons({}, s[0], [s[1]] + ([s[2]] + []));
    var bs := s[3].command.bindings;
    assert bs == [bs[0]] + ([bs[1]] + ([bs[2]] + []));
    BindingsCons(bs[2], []);
    BindingsCons(bs[1], [bs[2]] + []);
    BindingsCons(bs[0], [bs[1]] + ([bs[2]] + []));
    forall known: set<string> | input in known
      ensures SoundFrom(known, s)
    {
      var k1 := known + {ShaderUid(c.name)};
      var k2 := k1 + {WeightsUid(c.name)};
      var k3 := k2 + {OutputUid(c.name)};
      Cons(k3, s[3], []);
      Cons(k2, s[2], [s[3]] + []);
      Cons(k1, s[1], [s[2]] + ([s[3]] + []));
      Cons(known, s[0], [s[1]] + ([s[2]] + ([s[3]] + [])));
    }
  }

  /** What one relu's appends declare and bind. */
  lemma ReluStepsFacts(r: Op, input: string)
    requires r.Relu?
    ensures var s := ReluSteps(r, input);
      && |Commands(s)| == 1 && |Resources(s)| == 1
      && Declared(s) == OpUids(r)
      && Refs(s[1].command) == {input}
      && forall known | input in known :: SoundFrom(known, s)
  {
    var s := ReluSteps(r, input);
    assert s == [s[0]] + ([s[1]] + []);
    assert s[1..] == [s[1]] + [];
    Cons({}, s[1], []);
    Cons({}, s[0], [s[1]] + []);
    var bs := s[1].command.bindings;
    assert bs == [bs[0]] + [];
    BindingsCons(bs[0], []);
    forall known: set<string> | input in known
      ensures SoundFrom(known, s)
    {
      Cons(known + {ShaderUid(r.name)}, s[1], []);
      Cons(known, s[0], [s[1]] + []);
    }
  }

  /** What the loop body appends for op `i`. */
  lemma OpStepsFacts(ops: seq<Op>, i: nat)
    requires i < |ops| && Indexable(ops[i])
    ensures |Commands(OpSteps(ops, i))| == (if ops[i].Conv2D? || ops[i].Relu? then 1 else 0)
    ensures |Resources(OpSteps(ops, i))| == (if ops[i].Conv2D? then 3 else if ops[i].Relu? then 1 else 0)
    ensures Declared(OpSteps(ops, i)) == OpUids(ops[i])
  {
    match ops[i]
    case Conv2D(_, _, _, _, _) => ConvStepsFacts(ops[i], ConvInput(ops, i));
    case Relu(_, _) => ReluStepsFacts(ops[i], OutputUid(Previous(ops, i).name));
    case Other(_, _) =>
  }

  /** Each conv and each relu adds one command, anything else none. */
  lemma {:induction false} EmitCommandCount(ops: seq<Op>, n: nat)
    requires n <= |ops| && AllIndexable(ops)
    ensures |Commands(Emit(ops, n))| == Convs(ops[..n]) + Relus(ops[..n])
    decreases n
  {
    if n == 0 {
      assert ops[..0] == [];
      Cons({}, Declare(InputImage), []);
      assert Emit(ops, 0) == [Declare(InputImage)] + [];
    } else {
      EmitCommandCount(ops, n - 1);
      CountsSnoc(ops, n - 1);
      CommandsAppend(Emit(ops, n - 1), OpSteps(ops, n - 1));
      OpStepsFacts(ops, n - 1);
    }
  }

  /** Each conv adds three resources, each relu one, anything else none; plus the
      input image. */
  lemma {:induction false} EmitResourceCount(ops: seq<Op>, n: nat)
    requires n <= |ops| && AllIndexable(ops)
    ensures |Resources(Emit(ops, n))| == 1 + 3 * Convs(ops[..n]) + Relus(ops[..n])
    decreases n
  {
    if n == 0 {
      assert ops[..0] == [];
      Cons({}, Declare(InputImage), []);
      assert Emit(ops, 0) == [Declare(InputImage)] + [];
    } else {
      EmitResourceCount(ops, n - 1);
      CountsSnoc(ops, n - 1);
      ResourcesAppend(Emit(ops, n - 1), OpSteps(ops, n - 1));
      OpStepsFacts(ops, n - 1);
    }
  }

  /** Each conv adds three resources and one command, each relu one resource and
      one command, anything else nothing; plus the input image. */
  lemma EmitCounts(ops: seq<Op>, n: nat)
    requires n <= |ops| && AllIndexable(ops)
    ensures |Commands(Emit(ops, n))| == Convs(ops[..n]) + Relus(ops[..n])
    ensures |Resources(Emit(ops, n))| == 1 + 3 * Convs(ops[..n]) + Relus(ops[..n])
  {
    EmitCommandCount(ops, n);
    EmitResourceCount(ops, n);
  }

  /** The uids declared by the input image and the first `n` ops. */
  function PrefixUids(ops: seq<Op>, n: nat): set<string>
    requires n <= |ops|
  {
    if n == 0 then {InputImageUid} else PrefixUids(ops, n - 1) + OpUids(ops[n - 1])
  }

  lemma {:induction false} EmitDeclared(ops: seq<Op>, n: nat)
    requires n <= |ops| && AllIndexable(ops)
    ensures Declared(Emit(ops, n)) == PrefixUids(ops, n)
    decreases n
  {
    if n > 0 {
      EmitDeclared(ops, n - 1);
      DeclaredAppend(Emit(ops, n - 1), OpSteps(ops, n - 1));
      OpStepsFacts(ops, n - 1);
    }
  }

  /** `<name>_output` is declared by the first `n` ops only if one of them is a conv
      called `name`. */
  lemma {:induction false} OutputAbsent(ops: seq<Op>, n: nat, name: string)
    requires n <= |ops|
    requires forall j | 0 <= j < n && ops[j].Conv2D? :: ops[j].name != name
    ensures OutputUid(name) !in PrefixUids(ops, n)
    decreases n
  {
    OutputNotOtherUid(name, "");
    if n > 0 {
      OutputAbsent(ops, n - 1, name);
      OutputNotOtherUid(name, ops[n - 1].name);
      if ops[n - 1].Conv2D? && OutputUid(name) == OutputUid(ops[n - 1].name) {
        Text.SuffixCancel(name, ops[n - 1].name, "_output");
      }
    }
  }

  /** The command count is the number of conv2d and relu ops; other op types
      contribute nothing. */
  lemma CommandCount(ops: seq<Op>)
    requires AllIndexable(ops)
    ensures |Commands(Emit(ops, |ops|))| == Convs(ops) + Relus(ops)
    ensures |Resources(Emit(ops, |ops|))| == 1 + 3 * Convs(ops) + Relus(ops)
  {
    EmitCounts(ops, |ops|);
    assert ops[..|ops|] == ops;
  }

  /** A conv op appends, in order, shader `<name>_shader`, read-only weights sized
      kh·kw·in_channels·out_channels·4, write-only output sized product(output)·4,
      and one dispatch binding (0: its input, 1: weights, 2: output) in set 0 over
      [width, height, 1]. */
  lemma ConvContribution(ops: seq<Op>, i: nat)
    requires i < |ops| && AllIndexable(ops) && ops[i].Conv2D?
    ensures var c := ops[i];
      var t := Emit(ops, |ops|);
      var k := |Emit(ops, i)|;
      && k + 4 <= |t|
      && t[k] == Declare(Shader(c.name + "_shader", "shaders/conv2d.spv", "main", None))
      && t[k + 1] == Declare(Buffer(c.name + "_weights", ReadOnly,
           c.kernelSize[0] * c.kernelSize[1] * c.inputShape[3] * c.outputShape[3] * 4, None))
      && t[k + 2] == Declare(Buffer(c.name + "_output", WriteOnly, Product(c.outputShape) * 4, None))
      && t[k + 3].Issue?
      && t[k + 3].command.shaderRef == c.name + "_shader"
      && t[k + 3].command.range == [c.outputShape[2], c.outputShape[1], 1]
      && t[k + 3].command.bindings == [
           Binding(0, 0, if i == 0 then "input_image" else ops[i - 1].name + "_output"),
           Binding(1, 0, c.name + "_weights"),
           Binding(2, 0, c.name + "_output")]
  {
    EmitPrefix(ops, i + 1, |ops|);
  }

  /** A relu op appends only its shader (no buffer) and one in-place dispatch on the
      previous op's output over the one-element range [product(shape)]. */
  lemma ReluContribution(ops: seq<Op>, i: nat)
    requires i < |ops| && AllIndexable(ops) && ops[i].Relu?
    ensures var r := ops[i];
      var t := Emit(ops, |ops|);
      var k := |Emit(ops, i)|;
      && k + 2 <= |t|
      && t[k] == Declare(Shader(r.name + "_shader", "shaders/relu.spv", "main", None))
      && t[k + 1] == Issue(Dispatch(r.name + "_shader", [Product(r.shape)],
           [Binding(0, 0, Previous(ops, i).name + "_output")]))
  {
    EmitPrefix(ops, i + 1, |ops|);
  }

  /** Ops of other types leave the scenario unchanged. */
  lemma OtherContributesNothing(ops: seq<Op>, i: nat)
    requires i < |ops| && AllIndexable(ops) && ops[i].Other?
    ensures Emit(ops, i + 1) == Emit(ops, i)
  {
    assert OpSteps(ops, i) == [];
  }

  // ----- Reference soundness -----

  lemma OutputNotOtherUid(r: string, n: string)
    ensures OutputUid(r) != ShaderUid(n)
    ensures OutputUid(r) != WeightsUid(n)
    ensures OutputUid(r) != InputImageUid
  {
    Text.LastCharDiffers(r, "_output", n, "_shader");
    Text.LastCharDiffers(r, "_output", n, "_weights");
    Text.LastCharDiffers(r, "_output", "", InputImageUid);
    assert "" + InputImageUid == InputImageUid;
  }

  /** `<relu name>_output` is not declared by anything appended before the conv's
      command. */
  lemma ReluOutputUndeclared(ops: seq<Op>, i: nat)
    requires 0 < i < |ops| && AllIndexable(ops)
    requires ops[i - 1].Relu? && ops[i].Conv2D?
    requires forall j | 0 <= j <= i && ops[j].Conv2D? :: ops[j].name != ops[i - 1].name
    ensures OutputUid(ops[i - 1].name) !in Declared(Emit(ops, i) + OpSteps(ops, i)[..3])
  {
    var r := OutputUid(ops[i - 1].name);
    var s := OpSteps(ops, i);
    EmitDeclared(ops, i);
    OutputAbsent(ops, i, ops[i - 1].name);
    OutputNotOtherUid(ops[i - 1].name, ops[i].name);
    if r == OutputUid(ops[i].name) {
      Text.SuffixCancel(ops[i - 1].name, ops[i].name, "_output");
    }
    ConvStepsFacts(ops[i], ConvInput(ops, i));
    DeclaredAppend(Emit(ops, i), s[..3]);
  }

  /** The snapshot right after such a conv is already unsound. */
  lemma ConvAfterReluStepUnsound(ops: seq<Op>, i: nat)
    requires 0 < i < |ops| && AllIndexable(ops)
    requires ops[i - 1].Relu? && ops[i].Conv2D?
    requires forall j | 0 <= j <= i && ops[j].Conv2D? :: ops[j].name != ops[i - 1].name
    ensures !ReferenceSound(Emit(ops, i + 1))
  {
    var r := OutputUid(ops[i - 1].name);
    var e := Emit(ops, i);
    var s := OpSteps(ops, i);
    var t := e + s;
    ReluOutputUndeclared(ops, i);
    ConvStepsFacts(ops[i], ConvInput(ops, i));
    assert t[..|e| + 3] == e + s[..3];
    assert t[|e| + 3] == s[3];
    UndeclaredBreaksSoundness(t, |e| + 3, r);
  }

  /** A conv that directly follows a relu binds `<relu name>_output`, which no op
      declares unless a conv up to it carries the relu's name: the scenario is not
      reference sound. */
  lemma ConvAfterReluUnsound(ops: seq<Op>, i: nat)
    requires 0 < i < |ops| && AllIndexable(ops)
    requires ops[i - 1].Relu? && ops[i].Conv2D?
    requires forall j | 0 <= j <= i && ops[j].Conv2D? :: ops[j].name != ops[i - 1].name
    ensures !ReferenceSound(Emit(ops, |ops|))
  {
    ConvAfterReluStepUnsound(ops, i);
    EmitPrefix(ops, i + 1, |ops|);
    SoundPrefixOf({}, Emit(ops, i + 1), Emit(ops, |ops|));
  }

  /** The demo's own op list binds `relu1_output` in `conv2`'s command, a buffer it
      never declares. */
  lemma DemoIsUnsound()
    ensures AllIndexable(DemoOps)
    ensures !ReferenceSound(Emit(DemoOps, |DemoOps|))
  {
    assert "conv1" != "relu1" by { assert "conv1"[0] != "relu1"[0]; }
    assert "conv2" != "relu1" by { assert "conv2"[0] != "relu1"[0]; }
    ConvAfterReluUnsound(DemoOps, 2);
  }

  // ----- Stride -----

  /** Two op lists that differ only in their conv strides. */
  predicate SameButStride(ops: seq<Op>, ops': seq<Op>) {
    && |ops| == |ops'|
    && forall i | 0 <= i < |ops| ::
         if ops[i].Conv2D? then ops'[i].Conv2D? && ops'[i] == ops[i].(stride := ops'[i].stride)
         else ops'[i] == ops[i]
  }

  /** The builder never reads `stride`: output sizes and ranges come from the
      declared output shape alone. */
  lemma {:induction false} StrideIgnored(ops: seq<Op>, ops': seq<Op>, n: nat)
    requires SameButStride(ops, ops') && AllIndexable(ops) && n <= |ops|
    ensures AllIndexable(ops')
    ensures Emit(ops, n) == Emit(ops', n)
    decreases n
  {
    assert forall i | 0 <= i < |ops| :: Indexable(ops'[i]);
    if n > 0 {
      StrideIgnored(ops, ops', n - 1);
      var i := n - 1;
      assert Previous(ops, i).name == Previous(ops', i).name;
      assert OpSteps(ops, i) == OpSteps(ops', i);
    }
  }

  // ----- The corrected builder -----

  /** The tensor the next op consumes: the output of the most recent conv, or the
      input image. A relu works in place, so it does not change it. */
  function Current(ops: seq<Op>, n: nat): string
    requires n <= |ops|
  {
    if n == 0 then InputImageUid
    else if ops[n - 1].Conv2D? then OutputUid(ops[n - 1].name)
    else Current(ops, n - 1)
  }

  function ChainedOpSteps(ops: seq<Op>, i: nat): seq<Step>
    requires i < |ops| && Indexable(ops[i])
  {
    match ops[i]
    case Conv2D(_, _, _, _, _) => ConvSteps(ops[i], Current(ops, i))
    case Relu(_, _) => ReluSteps(ops[i], Current(ops, i))
    case Other(_, _) => []
  }

  function EmitChained(ops: seq<Op>, n: nat): seq<Step>
    requires n <= |ops| && AllIndexable(ops)
  {
    if n == 0 then [Declare(InputImage)] else EmitChained(ops, n - 1) + ChainedOpSteps(ops, n - 1)
  }

  /** The builder as evidently intended: each op binds the buffer that currently
      holds the data, so every reference is declared before use. */
  function BuildChained(ops: seq<Op>): (r: Result<Scenario, BuildError>)
    ensures r.Ok? <==> AllIndexable(ops)
    ensures r.Ok? ==> ReferenceSound(r.value.steps)
  {
    if AllIndexable(ops) then
      ChainedSound(ops, |ops|);
      Ok(Scenario(None, EmitChained(ops, |ops|)))
    else Err(IndexError)
  }

  lemma {:induction false} ChainedSound(ops: seq<Op>, n: nat)
    requires n <= |ops| && AllIndexable(ops)
    ensures ReferenceSound(EmitChained(ops, n))
    ensures Current(ops, n) in Declared(EmitChained(ops, n))
    decreases n
  {
    if n > 0 {
      ChainedSound(ops, n - 1);
      var e := EmitChained(ops, n - 1);
      var s := ChainedOpSteps(ops, n - 1);
      var cur := Current(ops, n - 1);
      var known := Declared(e);
      assert {} + known == known;
      match ops[n - 1] {
        case Conv2D(_, _, _, _, _) => ConvStepsFacts(ops[n - 1], cur);
        case Relu(_, _) => ReluStepsFacts(ops[n - 1], cur);
        case Other(_, _) => assert s == [];
      }
      SoundAppend({}, e, s);
      DeclaredAppend(e, s);
    }
  }

  /** On a list of convs only, the corrected builder produces exactly what the
      original does: the two differ only in what follows a relu. */
  lemma {:induction false} ChainedAgreesOnConvs(ops: seq<Op>, n: nat)
    requires n <= |ops| && AllIndexable(ops)
    requires forall i | 0 <= i < |ops| :: ops[i].Conv2D?
    ensures EmitChained(ops, n) == Emit(ops, n)
    decreases n
  {
    if n > 0 {
      ChainedAgreesOnConvs(ops, n - 1);
      assert ChainedOpSteps(ops, n - 1) == OpSteps(ops, n - 1);
    }
  }
}
