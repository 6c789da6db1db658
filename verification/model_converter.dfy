/** The optimizing model converter (`OptimizedModelConverter`): a fixed table of
    device profiles, and a scenario holding only shader resources chosen by the
    target device, plus the memory-savings estimate of its report. */
module ModelConverter {
  import opened Outcome
  import opened Scenario
  import Text

  /** Looking up a target outside the profile table raises `KeyError`. */
  datatype ConvertError = KeyError(target: string)

  /** The converted document: a scenario plus the `target_device` and
      `optimizations` fields this builder adds. */
  datatype Converted = Converted(scenario: Scenario, targetDevice: string, optimizations: Params)

  /** The optimization report, without the floating-point speedup estimate. */
  datatype Report = Report(model: string, target: string, applied: Params, memorySavings: int)

  const AppleSilicon := "apple_silicon"
  const Generic := "generic"

  const AppleProfile: Params := map[
    "use_fp16" := Bool(true),
    "use_shared_memory" := Bool(true),
    "tile_size" := Int(32),
    "use_simdgroup" := Bool(true),
    "threadgroup_size" := Ints([32, 1, 1])
  ]

  const GenericProfile: Params := map[
    "use_fp16" := Bool(false),
    "use_shared_memory" := Bool(true),
    "tile_size" := Int(16),
    "use_simdgroup" := Bool(false),
    "threadgroup_size" := Ints([256, 1, 1])
  ]

  /** `self.optimizations`, as set up by the constructor. */
  const Profiles: map<string, Params> := map[AppleSilicon := AppleProfile, Generic := GenericProfile]

  const AppleShaders: seq<Resource> := [
    Shader("conv2d_apple_optimized", "shaders/conv2d_apple_optimized.spv", "main",
      Some(map["use_fp16" := Bool(true), "use_simdgroup_matrix" := Bool(true), "shared_memory_size" := Int(32768)])),
    Shader("matmul_simdgroup", "shaders/matmul_simdgroup.spv", "main",
      Some(map["tile_m" := Int(32), "tile_n" := Int(32), "tile_k" := Int(8)]))
  ]

  const GenericShaders: seq<Resource> := [
    Shader("conv2d_generic", "shaders/conv2d.spv", "main", None)
  ]

  function Declarations(rs: seq<Resource>): (t: seq<Step>)
    ensures |t| == |rs|
    ensures forall i | 0 <= i < |rs| :: t[i] == Declare(rs[i])
  {
    if rs == [] then [] else [Declare(rs[0])] + Declarations(rs[1..])
  }

  /** `convert_tflite_to_vulkan(model_path, output_dir)` for converter target
      `target`, without the file writes. */
  function Convert(path: string, target: string): (r: Result<Converted, ConvertError>)
    ensures r.Ok? <==> target in Profiles
    ensures r.Err? ==> r.error == KeyError(target)
    ensures r.Ok? ==> r.value.targetDevice == target && r.value.optimizations == Profiles[target]
    ensures r.Ok? ==> r.value.scenario.name == Some(Text.ModelName(path) + "_optimized")
  {
    if target !in Profiles then Err(KeyError(target))
    else
      var shaders := if target == AppleSilicon then AppleShaders else GenericShaders;
      Ok(Converted(Scenario(Some(Text.ModelName(path) + "_optimized"), Declarations(shaders)),
                   target, Profiles[target]))
  }

  /** `_estimate_memory_savings(opts)`: 50 percent when the profile asks for fp16. */
  function MemorySavings(opts: Params): (pct: int)
    ensures pct == 50 || pct == 0
    ensures pct == 50 <==> Flag(opts, "use_fp16")
  {
    var savings := 0;
    if Flag(opts, "use_fp16") then savings + 50 else savings
  }

  /** `_generate_optimization_report`, without the speedup estimate. */
  function MakeReport(modelName: string, target: string, opts: Params): (rep: Report)
    ensures rep.memorySavings == (if Flag(opts, "use_fp16") then 50 else 0)
    ensures rep.model == modelName && rep.target == target && rep.applied == opts
  {
    Report(modelName, target, opts, MemorySavings(opts))
  }

  lemma {:induction false} DeclarationsFacts(rs: seq<Resource>)
    ensures Resources(Declarations(rs)) == rs
    ensures Commands(Declarations(rs)) == []
    decreases |rs|
  {
    if rs != [] {
      DeclarationsFacts(rs[1..]);
      Cons({}, Declare(rs[0]), Declarations(rs[1..]));
      assert rs == [rs[0]] + rs[1..];
    }
  }

  /** Only the two table entries convert; any other target fails at the lookup,
      with no fallback to the generic profile. */
  lemma OnlyKnownTargets(path: string, target: string)
    ensures Convert(path, target).Ok? <==> target == "apple_silicon" || target == "generic"
  {
  }

  /** The converted scenario declares shaders only and issues no command. For
      `apple_silicon` the shaders are the fp16/simdgroup conv and the 32×32×8
      tiled matmul; for `generic` the plain conv without an `optimizations`
      field. */
  lemma ConvertedShaders(path: string, target: string)
    requires target in Profiles
    ensures var c := Convert(path, target).value;
      && Commands(c.scenario.steps) == []
      && (target == "apple_silicon" ==>
            Resources(c.scenario.steps) == [
              Shader("conv2d_apple_optimized", "shaders/conv2d_apple_optimized.spv", "main",
                Some(map["use_fp16" := Bool(true), "use_simdgroup_matrix" := Bool(true),
                         "shared_memory_size" := Int(32768)])),
              Shader("matmul_simdgroup", "shaders/matmul_simdgroup.spv", "main",
                Some(map["tile_m" := Int(32), "tile_n" := Int(32), "tile_k" := Int(8)]))])
      && (target == "generic" ==>
            Resources(c.scenario.steps) == [Shader("conv2d_generic", "shaders/conv2d.spv", "main", None)])
      && ReferenceSound(c.scenario.steps)
  {
    var shaders := if target == AppleSilicon then AppleShaders else GenericShaders;
    DeclarationsFacts(shaders);
    var t := Declarations(shaders);
    DeclaresOnlySound({}, t);
  }

  /** The report of a successful conversion estimates 50% savings exactly for
      `apple_silicon`, the one profile with fp16 on. */
  lemma SavingsByTarget(path: string, target: string)
    requires target in Profiles
    ensures var c := Convert(path, target).value;
      MakeReport(Text.ModelName(path), target, c.optimizations).memorySavings
        == (if target == "apple_silicon" then 50 else 0)
  {
  }

  /** The apple shaders agree with the apple profile: fp16 in the conv shader as in
      the profile, and the matmul's square tile equals the profile's tile size. */
  lemma AppleShadersMatchProfile()
    ensures AppleShaders[0].optimizations.value["use_fp16"] == AppleProfile["use_fp16"]
    ensures AppleShaders[1].optimizations.value["tile_m"] == AppleProfile["tile_size"]
    ensures AppleShaders[1].optimizations.value["tile_n"] == AppleProfile["tile_size"]
  {
  }
}
