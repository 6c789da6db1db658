/** The Apple Silicon optimizer (`AppleSiliconOptimizer`): two rewrites of an
    operation's parameter dictionary and the workgroup size chosen for the
    generated shader. */
module SiliconOptimizer {
  import opened Scenario

  /** The optimizer's own `self.optimizations` settings that the rewrites read. */
  datatype Config = Config(useFp16: Value, useSimdgroupOperations: Value, tileSize: Value, threadgroupMemory: Value)

  /** The settings the constructor installs. */
  const Default := Config(Bool(true), Bool(true), Int(32), Int(32768))

  /** `optimize_conv2d(params)`: Winograd for a `[3, 3]` kernel, fp16 accumulation
      when the optimizer uses fp16. */
  function OptimizeConv2D(cfg: Config, params: Params): (r: Params)
    ensures "kernel_size" in params && params["kernel_size"] == Ints([3, 3]) ==> "algorithm" in r && r["algorithm"] == Str("winograd")
    ensures !("kernel_size" in params && params["kernel_size"] == Ints([3, 3])) ==>
      ("algorithm" in r <==> "algorithm" in params) && ("algorithm" in params ==> r["algorithm"] == params["algorithm"])
    ensures Truthy(cfg.useFp16) ==> "accumulator_type" in r && r["accumulator_type"] == Str("float16")
    ensures !Truthy(cfg.useFp16) ==>
      ("accumulator_type" in r <==> "accumulator_type" in params) && ("accumulator_type" in params ==> r["accumulator_type"] == params["accumulator_type"])
    ensures forall k | k in params && k != "algorithm" && k != "accumulator_type" :: k in r && r[k] == params[k]
    ensures forall k | k in r :: k in params || k == "algorithm" || k == "accumulator_type"
  {
    var p1 := if "kernel_size" in params && params["kernel_size"] == Ints([3, 3])
              then params["algorithm" := Str("winograd")] else params;
    if Truthy(cfg.useFp16) then p1["accumulator_type" := Str("float16")] else p1
  }

  /** `optimize_matmul(params)`: square tiles of the optimizer's tile size, a K
      tile of 8, and simdgroup use when enabled. */
  function OptimizeMatmul(cfg: Config, params: Params): (r: Params)
    ensures "tile_m" in r && r["tile_m"] == cfg.tileSize
    ensures "tile_n" in r && r["tile_n"] == cfg.tileSize
    ensures "tile_k" in r && r["tile_k"] == Int(8)
    ensures Truthy(cfg.useSimdgroupOperations) ==> "use_simdgroup" in r && r["use_simdgroup"] == Bool(true)
    ensures !Truthy(cfg.useSimdgroupOperations) ==>
      ("use_simdgroup" in r <==> "use_simdgroup" in params) && ("use_simdgroup" in params ==> r["use_simdgroup"] == params["use_simdgroup"])
    ensures forall k | k in params && k !in {"tile_m", "tile_n", "tile_k", "use_simdgroup"} :: k in r && r[k] == params[k]
    ensures forall k | k in r :: k in params || k in {"tile_m", "tile_n", "tile_k", "use_simdgroup"}
  {
    var p1 := params["tile_m" := cfg.tileSize]["tile_n" := cfg.tileSize]["tile_k" := Int(8)];
    if Truthy(cfg.useSimdgroupOperations) then p1["use_simdgroup" := Bool(true)] else p1
  }

  /** Applying the conv rewrite twice changes nothing more. */
  lemma Conv2DIdempotent(cfg: Config, params: Params)
    ensures OptimizeConv2D(cfg, OptimizeConv2D(cfg, params)) == OptimizeConv2D(cfg, params)
  {
    var once := OptimizeConv2D(cfg, params);
    var twice := OptimizeConv2D(cfg, once);
    assert twice.Keys == once.Keys;
  }

  /** Applying the matmul rewrite twice changes nothing more. */
  lemma MatmulIdempotent(cfg: Config, params: Params)
    ensures OptimizeMatmul(cfg, OptimizeMatmul(cfg, params)) == OptimizeMatmul(cfg, params)
  {
    var once := OptimizeMatmul(cfg, params);
    var twice := OptimizeMatmul(cfg, once);
    assert twice.Keys == once.Keys;
  }

  /** `(local_x, local_y)` of `generate_optimized_shader(operation, params)`; the
      z size is always 1. */
  function LocalSize(operation: string, params: Params): (r: (Value, Value))
    ensures operation == "conv2d" ==> r == (Int(32), Int(1))
    ensures operation == "matmul" ==>
      r.0 == (if "tile_m" in params then params["tile_m"] else Int(32)) &&
      r.1 == (if "tile_n" in params then params["tile_n"] else Int(32))
    ensures operation != "conv2d" && operation != "matmul" ==> r == (Int(256), Int(1))
  {
    if operation == "conv2d" then (Int(32), Int(1))
    else if operation == "matmul" then
      (if "tile_m" in params then params["tile_m"] else Int(32),
       if "tile_n" in params then params["tile_n"] else Int(32))
    else (Int(256), Int(1))
  }

  /** With the default settings, an optimized matmul's shader runs 32×32
      workgroups whatever tiles the parameters asked for before. */
  lemma OptimizedMatmulWorkgroup(params: Params)
    ensures LocalSize("matmul", OptimizeMatmul(Default, params)) == (Int(32), Int(32))
  {
  }

  /** What `main` computes with the default settings: Winograd and fp16 for the
      3×3 conv, and 32/32/8 tiles with simdgroups for the empty matmul. */
  lemma MainOptimizations()
    ensures OptimizeConv2D(Default, map["kernel_size" := Ints([3, 3])]) ==
      map["kernel_size" := Ints([3, 3]), "algorithm" := Str("winograd"), "accumulator_type" := Str("float16")]
    ensures OptimizeMatmul(Default, map[]) ==
      map["tile_m" := Int(32), "tile_n" := Int(32), "tile_k" := Int(8), "use_simdgroup" := Bool(true)]
  {
  }
}
