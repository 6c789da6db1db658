/** The production inference runner's scenario builder
    (`MLInferenceRunner._create_inference_scenario` with its two pipeline helpers):
    an optional input buffer, then either the four-stage style pipeline or the
    one-dispatch generic pipeline, chosen from the model's file name. */
module InferenceRunner {
  import opened Outcome
  import opened Scenario
  import Text

  /** What the caller passes as input data: a numpy array (of which only the byte
      count enters the scenario) or anything else. */
  datatype InputData = NdArray(nbytes: nat) | NotArray

  /** One entry of the style pipeline's stage table: name, shader file, dispatch. */
  datatype Stage = Stage(name: string, shader: string, dispatch: seq<int>)

  const InputUid := "input"

  const ScenarioName := "ml_inference"

  const StyleStages: seq<Stage> := [
    Stage("conv1", "conv2d.spv", [256, 256, 1]),
    Stage("relu1", "relu.spv", [65536]),
    Stage("conv2", "conv2d.spv", [128, 128, 1]),
    Stage("relu2", "relu.spv", [16384])
  ]

  const StyleModelNames: seq<string> := ["la_muse", "udnie", "wave_crop"]

  function InputBuffer(nbytes: nat): Resource {
    Buffer(InputUid, ReadOnly, nbytes, Some("/tmp/ml_input.npy"))
  }

  function ShaderUid(name: string): string { name + "_shader" }

  /** `f"stage_{i}_output"` */
  function StageOutput(i: nat): string { "stage_" + Text.NatToString(i) + "_output" }

  /** The single binding of stage `i`: the input for the first stage, else the
      previous stage's output. */
  function StageInput(i: nat): string {
    if i == 0 then InputUid else StageOutput(i - 1)
  }

  function StageDispatch(stages: seq<Stage>, i: nat): Dispatch
    requires i < |stages|
  {
    Dispatch(ShaderUid(stages[i].name), stages[i].dispatch, [Binding(0, 0, StageInput(i))])
  }

  /** The appends of loop iteration `i`: shader, dispatch, and, except for the last
      stage, the stage's read-write output buffer. */
  function StageSteps(stages: seq<Stage>, i: nat): seq<Step>
    requires i < |stages|
  {
    [ Declare(Shader(ShaderUid(stages[i].name), "../shaders/" + stages[i].shader, "main", None)),
      Issue(StageDispatch(stages, i)) ]
    + (if i < |stages| - 1
       then [Declare(Buffer(StageOutput(i), ReadWrite, 4 * Product(stages[i].dispatch), None))]
       else [])
  }

  /** `_add_style_transfer_pipeline` after its loop has handled `n` stages. */
  function StylePipeline(stages: seq<Stage>, n: nat): seq<Step>
    requires n <= |stages|
  {
    if n == 0 then [] else StylePipeline(stages, n - 1) + StageSteps(stages, n - 1)
  }

  const GenericDispatch := Dispatch("generic_ml", [256, 256, 1], [Binding(0, 0, InputUid)])

  /** `_add_generic_pipeline` */
  const GenericPipeline: seq<Step> := [
    Declare(Shader("generic_ml", "../shaders/conv2d.spv", "main", None)),
    Issue(GenericDispatch)
  ]

  /** The name test of `_create_inference_scenario`: the basename without
      `.tflite` contains `style` in any case, or is one of three known models. */
  predicate IsStyleModel(path: string): (b: bool)
    ensures Text.ModelName(path) in StyleModelNames ==> b
    ensures Text.Contains(Text.ModelName(path), "style") ==> b
    ensures Text.Contains(Text.ModelName(path), "STYLE") ==> b
  {
    Text.StyleAnyCase(Text.ModelName(path));
    var name := Text.ModelName(path);
    Text.Contains(Text.Lower(name), "style") || name in StyleModelNames
  }

  function InputSteps(input: InputData): seq<Step> {
    if input.NdArray? then [Declare(InputBuffer(input.nbytes))] else []
  }

  /** `_create_inference_scenario(model_path, input_data)` without `np.save`. */
  function CreateScenario(path: string, input: InputData): (s: Scenario)
    ensures s.name == Some(ScenarioName)
    ensures input.NdArray? <==> |s.steps| > 0 && s.steps[0].Declare? && s.steps[0].resource.uid == InputUid
    ensures input.NdArray? ==> s.steps[0] == Declare(InputBuffer(input.nbytes))
  {
    var pipeline := if IsStyleModel(path) then StylePipeline(StyleStages, |StyleStages|) else GenericPipeline;
    PipelineStartsWithShader(path);
    Scenario(Some(ScenarioName), InputSteps(input) + pipeline)
  }

  // ----- Facts about one stage -----

  lemma StageStepsFacts(stages: seq<Stage>, i: nat)
    requires i < |stages|
    ensures var s := StageSteps(stages, i);
      && Commands(s) == [StageDispatch(stages, i)]
      && |Resources(s)| == (if i < |stages| - 1 then 2 else 1)
      && Declared(s) == {ShaderUid(stages[i].name)} + (if i < |stages| - 1 then {StageOutput(i)} else {})
      && forall known | StageInput(i) in known :: SoundFrom(known, s)
  {
    var s := StageSteps(stages, i);
    var d := StageDispatch(stages, i);
    assert d.bindings == [d.bindings[0]] + [];
    BindingsCons(d.bindings[0], []);
    if i < |stages| - 1 {
      assert s == [s[0]] + ([s[1]] + ([s[2]] + []));
      Cons({}, s[2], []);
      Cons({}, s[1], [s[2]] + []);
      Cons({}, s[0], [s[1]] + ([s[2]] + []));
      forall known: set<string> | StageInput(i) in known
        ensures SoundFrom(known, s)
      {
        var k1 := known + {ShaderUid(stages[i].name)};
        Cons(k1, s[2], []);
        Cons(k1, s[1], [s[2]] + []);
        Cons(known, s[0], [s[1]] + ([s[2]] + []));
      }
    } else {
      assert s == [s[0]] + ([s[1]] + []);
      Cons({}, s[1], []);
      Cons({}, s[0], [s[1]] + []);
      forall known: set<string> | StageInput(i) in known
        ensures SoundFrom(known, s)
      {
        Cons(known + {ShaderUid(stages[i].name)}, s[1], []);
        Cons(known, s[0], [s[1]] + []);
      }
    }
  }

  // ----- The style pipeline -----

  lemma {:induction false} StylePipelinePrefix(stages: seq<Stage>, n: nat, m: nat)
    requires n <= m <= |stages|
    ensures StylePipeline(stages, n) <= StylePipeline(stages, m)
    decreases m - n
  {
    if n < m {
      StylePipelinePrefix(stages, n, m - 1);
    }
  }

  /** The pipeline issues exactly one dispatch per stage, in stage order: stage `i`
      runs `<name>_shader` over its dispatch size and binds `input` (first stage)
      or `stage_{i-1}_output`. Every stage but the last adds two resources, the
      last one. */
  lemma {:induction false} StylePipelineShape(stages: seq<Stage>, n: nat)
    requires n <= |stages|
    ensures |Commands(StylePipeline(stages, n))| == n
    ensures forall i | 0 <= i < n ::
      Commands(StylePipeline(stages, n))[i] ==
        Dispatch(stages[i].name + "_shader", stages[i].dispatch,
          [Binding(0, 0, if i == 0 then "input" else "stage_" + Text.NatToString(i - 1) + "_output")])
    ensures |Resources(StylePipeline(stages, n))| == 2 * n - (if n == |stages| && n > 0 then 1 else 0)
    decreases n
  {
    if n > 0 {
      StylePipelineShape(stages, n - 1);
      var e := StylePipeline(stages, n - 1);
      var s := StageSteps(stages, n - 1);
      StageStepsFacts(stages, n - 1);
      CommandsAppend(e, s);
      ResourcesAppend(e, s);
    }
  }

  /** Stage `i`'s appends, located in the finished pipeline: its shader, then its
      dispatch, then (not for the last stage) buffer `stage_i_output`, read-write,
      sized 4·product(dispatch). So each `stage_i_output` is declared after the
      command of stage `i` and before that of stage `i+1`. */
  lemma StageContribution(stages: seq<Stage>, i: nat)
    requires i < |stages|
    ensures var t := StylePipeline(stages, |stages|);
      var k := |StylePipeline(stages, i)|;
      && k + 2 <= |t|
      && t[k] == Declare(Shader(stages[i].name + "_shader", "../shaders/" + stages[i].shader, "main", None))
      && t[k + 1].Issue? && t[k + 1].command.shaderRef == stages[i].name + "_shader"
      && (i < |stages| - 1 ==>
            && k + 3 <= |t|
            && t[k + 2] == Declare(Buffer("stage_" + Text.NatToString(i) + "_output", ReadWrite,
                                          4 * Product(stages[i].dispatch), None)))
  {
    StylePipelinePrefix(stages, i + 1, |stages|);
  }

  /** With the input already known, every binding of the style pipeline names a
      resource declared before its command. */
  lemma {:induction false} StylePipelineSound(stages: seq<Stage>, n: nat, known: set<string>)
    requires n <= |stages| && InputUid in known
    ensures SoundFrom(known, StylePipeline(stages, n))
    ensures 0 < n < |stages| ==> StageOutput(n - 1) in Declared(StylePipeline(stages, n))
    decreases n
  {
    if n > 0 {
      StylePipelineSound(stages, n - 1, known);
      var e := StylePipeline(stages, n - 1);
      var s := StageSteps(stages, n - 1);
      StageStepsFacts(stages, n - 1);
      assert StageInput(n - 1) in known + Declared(e);
      SoundAppend(known, e, s);
      DeclaredAppend(e, s);
    }
  }

  // ----- The whole scenario -----

  lemma PipelineStartsWithShader(path: string)
    ensures var p := if IsStyleModel(path) then StylePipeline(StyleStages, |StyleStages|) else GenericPipeline;
      |p| >= 2 && p[0].Declare? && p[0].resource.Shader? && p[0].resource.uid != InputUid
      && p[1].Issue? && InputUid in Refs(p[1].command)
  {
    var b := [Binding(0, 0, InputUid)];
    assert b == [b[0]] + [];
    BindingsCons(b[0], []);
    StylePipelinePrefix(StyleStages, 1, |StyleStages|);
    assert StylePipeline(StyleStages, 1) == StageSteps(StyleStages, 0);
    assert ShaderUid("conv1")[0] != InputUid[0];
    assert "generic_ml"[0] != InputUid[0];
  }

  /** The scenario is reference sound exactly when the input is an array: otherwise
      the first dispatch binds `input`, which was never declared. */
  lemma InferenceSoundIffInput(path: string, input: InputData)
    ensures ReferenceSound(CreateScenario(path, input).steps) <==> input.NdArray?
  {
    var pipeline := if IsStyleModel(path) then StylePipeline(StyleStages, |StyleStages|) else GenericPipeline;
    var t := CreateScenario(path, input).steps;
    PipelineStartsWithShader(path);
    if input.NdArray? {
      var pre := InputSteps(input);
      Cons({}, pre[0], []);
      assert pre == [pre[0]] + [];
      assert SoundFrom({}, pre);
      assert {} + Declared(pre) == {InputUid};
      if IsStyleModel(path) {
        StylePipelineSound(StyleStages, |StyleStages|, {InputUid});
      } else {
        var g := GenericPipeline;
        var gb := GenericDispatch.bindings;
        assert gb == [gb[0]] + [];
        BindingsCons(gb[0], []);
        assert g == [g[0]] + ([g[1]] + []);
        Cons({InputUid, "generic_ml"}, g[1], []);
        Cons({InputUid}, g[0], [g[1]] + []);
        assert SoundFrom({InputUid}, g);
      }
      SoundAppend({}, pre, pipeline);
    } else {
      assert t == pipeline;
      assert t[..1] == [t[0]];
      Cons({}, t[0], []);
      assert [t[0]] + [] == [t[0]];
      UndeclaredBreaksSoundness(t, 1, InputUid);
    }
  }

  /** The style pipeline issues four dispatches and declares four shaders and three
      stage buffers; the generic one a single shader and dispatch. The input buffer
      adds one resource when present. */
  lemma InferenceCounts(path: string, input: InputData)
    ensures var t := CreateScenario(path, input).steps;
      && |Commands(t)| == (if IsStyleModel(path) then 4 else 1)
      && |Resources(t)| == (if input.NdArray? then 1 else 0) + (if IsStyleModel(path) then 7 else 1)
  {
    var pre := InputSteps(input);
    var pipeline := if IsStyleModel(path) then StylePipeline(StyleStages, |StyleStages|) else GenericPipeline;
    CommandsAppend(pre, pipeline);
    ResourcesAppend(pre, pipeline);
    if IsStyleModel(path) {
      StylePipelineShape(StyleStages, |StyleStages|);
    } else {
      var g := GenericPipeline;
      assert g == [g[0]] + ([g[1]] + []);
      Cons({}, g[1], []);
      Cons({}, g[0], [g[1]] + []);
    }
    if input.NdArray? {
      assert pre == [pre[0]] + [];
      Cons({}, pre[0], []);
    }
  }

  /** The generic pipeline, chosen for any other model name, is one shader
      `generic_ml` and one 256×256×1 dispatch on `input`. */
  lemma GenericChosen(path: string, input: InputData)
    requires !IsStyleModel(path)
    ensures Commands(CreateScenario(path, input).steps)
      == [Dispatch("generic_ml", [256, 256, 1], [Binding(0, 0, "input")])]
  {
    var pre := InputSteps(input);
    var g := GenericPipeline;
    CommandsAppend(pre, g);
    assert g == [g[0]] + ([g[1]] + []);
    Cons({}, g[1], []);
    Cons({}, g[0], [g[1]] + []);
    if input.NdArray? {
      assert pre == [pre[0]] + [];
      Cons({}, pre[0], []);
    }
  }

  /** A path whose basename is exactly `<name>.tflite` for a known style model
      selects the style pipeline whatever directory it is in. */
  lemma KnownStyleModel(dir: string, name: string)
    requires name in StyleModelNames
    ensures IsStyleModel(dir + "/" + name + ".tflite")
  {
    var file := name + ".tflite";
    var p := dir + "/" + file;
    assert p == (dir + "/" + name) + ".tflite";
    BasenameOfFile(dir, file);
    assert Text.Basename(p) == file;
    TflitePatternAbsent(name);
    StripTflite(name);
  }

  /** `/` followed by a file name with no `/`: the basename is the file name. */
  lemma BasenameOfFile(dir: string, file: string)
    requires forall j | 0 <= j < |file| :: file[j] != '/'
    ensures Text.Basename(dir + "/" + file) == file
  {
    var p := dir + "/" + file;
    var k := Text.BaseStart(p);
    assert p[|dir|] == '/';
    assert k == |dir| + 1;
    assert p[k..] == file;
  }

  lemma TflitePatternAbsent(name: string)
    requires name in StyleModelNames
    ensures forall j | 0 <= j < |name + ".tflite"| :: (name + ".tflite")[j] != '/'
  {
    var f := name + ".tflite";
    forall j | 0 <= j < |f|
      ensures f[j] != '/'
    {
      if j < |name| {
        assert f[j] == name[j];
      } else {
        assert f[j] == ".tflite"[j - |name|];
      }
    }
  }

  /** Removing `.tflite` from `<name>.tflite` gives back the name, for the three
      known style model names (none of which contains a `.`). */
  lemma StripTflite(name: string)
    requires name in StyleModelNames
    ensures Text.Replace(name + ".tflite", ".tflite", "") == name
  {
    var pat := ".tflite";
    assert pat[0] == '.';
    assert forall j | 0 <= j < |name| :: name[j] != '.';
    ReplaceSkipsPrefix(name, pat);
    Text.ReplaceWhole(pat, "");
  }

  /** A prefix without `pat[0]` is copied through unchanged. */
  lemma {:induction false} ReplaceSkipsPrefix(a: string, pat: string)
    requires |pat| > 0 && forall j | 0 <= j < |a| :: a[j] != pat[0]
    ensures Text.Replace(a + pat, pat, "") == a + Text.Replace(pat, pat, "")
    decreases |a|
  {
    if a != [] {
      var s := a + pat;
      assert s[..|pat|] != pat by { assert s[0] == a[0]; }
      assert s[1..] == a[1..] + pat;
      ReplaceSkipsPrefix(a[1..], pat);
      assert a == [a[0]] + a[1..];
    } else {
      assert a + pat == pat;
    }
  }
}
