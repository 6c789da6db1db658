# ML SDK scenario builders and emulation layer, modelled in Dafny

This project models the core of a macOS port of an ML SDK for Vulkan. The core has three parts:

- **Scenario builders.** These Python scripts turn a model description into a *scenario* for the scenario runner: a list of resources and a list of `dispatch_compute` commands.
  - Resources are SPIR-V shaders and buffers, each with a `uid`.
  - Commands name a shader and bind buffers by uid.
- **Helper tools.** These tools rewrite, analyse and check operations:
  - a converter with per-device optimization profiles;
  - a TFLite analyzer that maps operator types to shaders;
  - an operation validator with a reference convolution;
  - an Apple-Silicon parameter optimizer;
  - the end-to-end runner's template substitution;
  - a script that compares NumPy files.
- **Emulation layer (C++).** It emulates the ARM tensor and data-graph extensions on top of plain Vulkan buffers and compute pipelines.

Shared modules:

- `Outcome` holds `Option` and `Result`. They stand in for `None` and for the exceptions the scripts raise: `IndexError`, `KeyError`, `ZeroDivisionError`.
- `Text` covers:
  - decimal rendering of indices;
  - Python's `str.replace`;
  - substring search;
  - ASCII `lower()`;
  - `os.path.basename`.
- `Scenario` is the scenario document.

Every builder appends to `resources` and `commands` in an interleaved order. A `Scenario` records that order as a trace of `Declare`/`Issue` steps. The JSON lists are the trace's projections `Resources` and `Commands`.

The central property is **reference soundness** (`Scenario.ReferenceSound`): every binding names a resource declared before the command that uses it. Some builders keep it and some do not.

Where the design documents and the code disagree, the model follows the code:

- The design describes one shared shader resource per operation kind. The builders declare one shader per operation, named `<op>_shader`.
- The design gives the style-transfer relu a `[count, 1, 1]` range. The builder dispatches it over the one-element range `[product(shape)]`.
- The design expects a fresh output buffer per producing operation. The style-transfer relu declares no buffer and works in place on the previous op's output.

## Model

| member | source | states |
|---|---|---|
| StyleTransfer.Build | unified-ml-sdk/create_style_transfer_demo.py:33-157 | The builder succeeds exactly when every conv op has shape lists long enough to index (otherwise `IndexError`). Its first resource is always the read-only `input_image` buffer of 1·256·256·3·4 bytes loaded from `input_image.npy`. |
| StyleTransfer.Emit | unified-ml-sdk/create_style_transfer_demo.py:80-157 | The step list after any number of ops starts with the `input_image` declaration. |
| StyleTransfer.EmitPrefix | unified-ml-sdk/create_style_transfer_demo.py:91-157 | The loop only appends: the scenario after n ops is a prefix of the scenario after m ≥ n ops. |
| StyleTransfer.EmitCounts | unified-ml-sdk/create_style_transfer_demo.py:91-157 | After n ops there are convs+relus commands and 1 + 3·convs + relus resources. |
| StyleTransfer.CommandCount | unified-ml-sdk/create_style_transfer_demo.py:91-157 | The finished scenario has one command per conv2d or relu op, and three resources per conv and one per relu besides the input. |
| StyleTransfer.OpStepsFacts | unified-ml-sdk/create_style_transfer_demo.py:92-157 | One loop iteration adds 1 command for conv2d or relu and none otherwise. It adds 3, 1 or 0 resources, declaring exactly that op's uids. |
| StyleTransfer.EmitDeclared | unified-ml-sdk/create_style_transfer_demo.py:80-157 | The uids declared after n ops are `input_image` plus each op's own uids. |
| StyleTransfer.ConvContribution | unified-ml-sdk/create_style_transfer_demo.py:92-135 | A conv op appends, in order:<br>• shader `<name>_shader`;<br>• read-only weights of kh·kw·cin·cout·4 bytes;<br>• write-only output of product(output_shape)·4 bytes;<br>• one dispatch over [width, height, 1] binding ids 0, 1, 2 in set 0 (input, weights, output). |
| StyleTransfer.ReluContribution | unified-ml-sdk/create_style_transfer_demo.py:137-157 | A relu op appends its shader and one dispatch. The dispatch runs over [product(shape)] and binds `operations[i-1]` + `_output`. Python's `operations[-1]` for the first op is the last op. |
| StyleTransfer.OtherContributesNothing | unified-ml-sdk/create_style_transfer_demo.py:91-157 | An op that is neither conv2d nor relu leaves the scenario unchanged. |
| StyleTransfer.OutputAbsent | unified-ml-sdk/create_style_transfer_demo.py:114-122 | `<name>_output` is declared only by a conv op of that name. |
| StyleTransfer.ReluOutputUndeclared | unified-ml-sdk/create_style_transfer_demo.py:125-157 | When a conv directly follows a relu, `<relu>_output` is not declared by anything appended before the conv's dispatch. |
| StyleTransfer.ConvAfterReluStepUnsound | unified-ml-sdk/create_style_transfer_demo.py:125-135 | The scenario right after such a conv is not reference sound. |
| StyleTransfer.ConvAfterReluUnsound | unified-ml-sdk/create_style_transfer_demo.py:125-157 | Any op list with a conv directly after a relu yields a finished scenario that is not reference sound. |
| StyleTransfer.DemoIsUnsound | unified-ml-sdk/create_style_transfer_demo.py:47-157 | The demo's own op list builds, and its scenario is not reference sound: `conv2` binds `relu1_output`. |
| StyleTransfer.StrideIgnored | unified-ml-sdk/create_style_transfer_demo.py:54-132 | Two op lists that differ only in their conv strides produce the same scenario. |
| StyleTransfer.BuildChained | unified-ml-sdk/create_style_transfer_demo.py:91-157 | Corrected builder: each op binds the buffer that currently holds the data. It succeeds on the same inputs as the original and always yields a reference-sound scenario. |
| StyleTransfer.ChainedSound | unified-ml-sdk/create_style_transfer_demo.py:91-157 | Every prefix of the corrected builder's trace is sound, and the tensor the next op consumes is already declared. |
| StyleTransfer.ChainedAgreesOnConvs | unified-ml-sdk/create_style_transfer_demo.py:92-135 | On conv-only op lists the corrected builder produces exactly the original's scenario. |
| InferenceRunner.CreateScenario | arm-ml-sdk-vulkan-macos-production/tools/run_ml_inference.py:57-91 | The scenario is named `ml_inference`. It starts with the read-only `input` buffer of `nbytes` bytes exactly when the input is a NumPy array. |
| InferenceRunner.StageStepsFacts | arm-ml-sdk-vulkan-macos-production/tools/run_ml_inference.py:102-134 | One stage adds its shader and one dispatch, plus a buffer `stage_i_output` except for the last stage. The stage is sound once its input is known. |
| InferenceRunner.StylePipelinePrefix | arm-ml-sdk-vulkan-macos-production/tools/run_ml_inference.py:102-134 | The stage loop only appends. |
| InferenceRunner.StylePipelineShape | arm-ml-sdk-vulkan-macos-production/tools/run_ml_inference.py:93-134 | There is one dispatch per stage, in order. Stage i runs `<name>_shader` over its dispatch size and binds `input` (i = 0) or `stage_{i-1}_output`. Resources number 2n, or 2n−1 once the last stage is done. |
| InferenceRunner.StageContribution | arm-ml-sdk-vulkan-macos-production/tools/run_ml_inference.py:102-134 | Stage i appends:<br>• its shader from `../shaders/<file>`;<br>• its dispatch;<br>• except for the last stage, the read-write `stage_i_output` of 4·product(dispatch) bytes, declared after its own dispatch. |
| InferenceRunner.StylePipelineSound | arm-ml-sdk-vulkan-macos-production/tools/run_ml_inference.py:102-134 | With `input` known, the style pipeline is reference sound. |
| InferenceRunner.PipelineStartsWithShader | arm-ml-sdk-vulkan-macos-production/tools/run_ml_inference.py:86-158 | Both pipelines begin with a shader (not `input`) and then a dispatch that binds `input`. |
| InferenceRunner.InferenceSoundIffInput | arm-ml-sdk-vulkan-macos-production/tools/run_ml_inference.py:57-158 | The scenario is reference sound exactly when the input is a NumPy array. Otherwise the first dispatch binds the undeclared `input`. |
| InferenceRunner.InferenceCounts | arm-ml-sdk-vulkan-macos-production/tools/run_ml_inference.py:57-158 | A style model gets 4 commands and 7 resources; any other model gets 1 and 1. The input buffer adds one resource when present. |
| InferenceRunner.GenericChosen | arm-ml-sdk-vulkan-macos-production/tools/run_ml_inference.py:83-158 | For a non-style model the only command is `generic_ml` over [256, 256, 1] binding `input`. |
| InferenceRunner.KnownStyleModel | arm-ml-sdk-vulkan-macos-production/tools/run_ml_inference.py:83-86 | A path `<dir>/<name>.tflite` with name `la_muse`, `udnie` or `wave_crop` selects the style pipeline. |
| InferenceRunner.StripTflite | arm-ml-sdk-vulkan-macos-production/tools/run_ml_inference.py:83 | Removing `.tflite` from `<name>.tflite` gives back the name, for the three known names. |
| InferenceRunner.BasenameOfFile | arm-ml-sdk-vulkan-macos-production/tools/run_ml_inference.py:83 | The basename of `<dir>/<file>` with no `/` in the file is the file. |
| InferenceRunner.IsStyleModel | arm-ml-sdk-vulkan-macos-production/tools/run_ml_inference.py:83-86 | A model whose name (basename without `.tflite`) is `la_muse`, `udnie` or `wave_crop`, or contains `style` or `STYLE`, gets the style pipeline. |
| Text.ContainsLower | arm-ml-sdk-vulkan-macos-production/tools/run_ml_inference.py:86 | If `t` occurs in `s`, then `t.lower()` occurs in `s.lower()`. |
| Text.StyleAnyCase | arm-ml-sdk-vulkan-macos-production/tools/run_ml_inference.py:86 | A name containing `style` or `STYLE` passes the `"style" in name.lower()` test. |
| MlPipeline.AddConv2D | unified-ml-sdk/tools/create_ml_pipeline.py:29-47 | Three float32 tensors with the given shapes are appended at indices n, n+1, n+2. One `conv2d` op referring to exactly those indices, with stride [1, 1] and padding `SAME`, is appended. Earlier entries are unchanged. |
| MlPipeline.LoadTfliteModel | unified-ml-sdk/tools/create_ml_pipeline.py:18-27 | Adds one op and the fixed tensors [1,224,224,3], [32,3,3,3] and [1,224,224,32]. |
| MlPipeline.AddConv2DKeepsIndexed | unified-ml-sdk/tools/create_ml_pipeline.py:29-47 | Adding a conv keeps every op's tensor indices inside the tensor list, in input < filter < output order. |
| MlPipeline.LoadIgnoresPath | unified-ml-sdk/tools/create_ml_pipeline.py:18-27 | The model path makes no difference. |
| MlPipeline.TensorSteps | unified-ml-sdk/tools/create_ml_pipeline.py:66-75 | After n tensors there are n steps, and step i declares the buffer `tensor_i`. |
| MlPipeline.TensorStepsFacts | unified-ml-sdk/tools/create_ml_pipeline.py:66-75 | The tensor loop declares one read-write buffer `tensor_i` of product(shape)·4 bytes per tensor, in order, and issues nothing. |
| MlPipeline.TensorDeclared | unified-ml-sdk/tools/create_ml_pipeline.py:66-75 | `tensor_j` is declared by the first n buffers exactly when j < n. |
| MlPipeline.GenerateShape | unified-ml-sdk/tools/create_ml_pipeline.py:49-88 | The resources are `conv2d_shader` followed by one buffer per tensor. There is exactly one command: [224, 224, 1] on `tensor_0..2`. |
| MlPipeline.Generate | unified-ml-sdk/tools/create_ml_pipeline.py:49-88 | The trace has one step per tensor plus two: `conv2d_shader` first, a buffer declaration for every tensor, and the fixed dispatch last. |
| MlPipeline.FixedRefs | unified-ml-sdk/tools/create_ml_pipeline.py:78-88 | The dispatch binds exactly `tensor_0`, `tensor_1` and `tensor_2`. |
| MlPipeline.BeforeDispatch | unified-ml-sdk/tools/create_ml_pipeline.py:56-75 | Everything before the dispatch is declarations: the shader, then the buffers. |
| MlPipeline.GenerateSoundIff | unified-ml-sdk/tools/create_ml_pipeline.py:49-88 | The scenario is reference sound exactly when the builder holds at least three tensors. |
| MlPipeline.LoadedModelSound | unified-ml-sdk/tools/create_ml_pipeline.py:18-88 | Loading a model into a fresh builder and generating gives a sound scenario. |
| MlPipeline.EmptyBuilderUnsound | unified-ml-sdk/tools/create_ml_pipeline.py:49-88 | A fresh builder still emits the dispatch on `tensor_0..2`, so its scenario is unsound. |
| ModelConverter.Convert | unified-ml-sdk/tools/convert_model_optimized.py:31-63 | Succeeds exactly for targets in the profile table; any other target is `KeyError(target)`. The result carries the target, that target's profile and the name `<model>_optimized`. |
| ModelConverter.MemorySavings | unified-ml-sdk/tools/convert_model_optimized.py:137-142 | 50 exactly when `use_fp16` is truthy, else 0. |
| ModelConverter.MakeReport | unified-ml-sdk/tools/convert_model_optimized.py:108-116 | The report carries the model, target and applied profile, with the savings rule above. |
| ModelConverter.OnlyKnownTargets | unified-ml-sdk/tools/convert_model_optimized.py:14-36 | Only `apple_silicon` and `generic` convert. |
| ModelConverter.ConvertedShaders | unified-ml-sdk/tools/convert_model_optimized.py:47-106 | No commands are issued, and the scenario is sound. `apple_silicon` declares the fp16/simdgroup conv and the 32×32×8 matmul; `generic` declares one plain conv. |
| ModelConverter.SavingsByTarget | unified-ml-sdk/tools/convert_model_optimized.py:14-142 | A successful conversion reports 50% savings for `apple_silicon` and 0 for `generic`. |
| ModelConverter.AppleShadersMatchProfile | unified-ml-sdk/tools/convert_model_optimized.py:14-95 | The apple shaders' fp16 flag and tile sizes agree with the apple profile. |
| TfliteAnalyzer.DispatchFor | unified-ml-sdk/tools/analyze_tflite_model.py:153-159 | Convolutions get 256×256×1, fully connected gets 1024×1×1, everything else 65536×1×1. |
| TfliteAnalyzer.ConvertOp | unified-ml-sdk/tools/analyze_tflite_model.py:130-163 | A stage exists exactly for op types in the shader map. It keeps the op's name and type and takes the mapped shader. |
| TfliteAnalyzer.Stages | unified-ml-sdk/tools/analyze_tflite_model.py:114-118 | There are no more stages than ops, and every stage has a mapped type and its shader. |
| TfliteAnalyzer.StagesAppend | unified-ml-sdk/tools/analyze_tflite_model.py:115-118 | The stage list of a concatenation is the concatenation of the stage lists. |
| TfliteAnalyzer.StageCount | unified-ml-sdk/tools/analyze_tflite_model.py:115-118 | The stage count equals the number of mapped ops. |
| TfliteAnalyzer.StagesAllMapped | unified-ml-sdk/tools/analyze_tflite_model.py:115-118 | When every op is mapped, stage i is op i's conversion. |
| TfliteAnalyzer.UnmappedDropped | unified-ml-sdk/tools/analyze_tflite_model.py:115-163 | An op outside the shader map leaves no stage. |
| TfliteAnalyzer.ModelOps | unified-ml-sdk/tools/analyze_tflite_model.py:41-101 | Every simulated op has a shader. A path containing `la_muse` or `style` gives the 22-op list ending in `TANH`; every path gives 22 or 3 ops, starting with `conv1`. |
| TfliteAnalyzer.ModelStages | unified-ml-sdk/tools/analyze_tflite_model.py:41-101 | A path containing `la_muse`, or `style` in any case, gives 22 ops; any other path gives 3. Every op becomes a stage. |
| TfliteAnalyzer.Bump | unified-ml-sdk/tools/analyze_tflite_model.py:87 | One kind's count goes up by one and no other count changes. Keys stay distinct. |
| TfliteAnalyzer.TallyOps | unified-ml-sdk/tools/analyze_tflite_model.py:84-87 | The breakdown is empty exactly when there are no ops. It counts every type exactly as often as it occurs, has an entry for every occurring type, and sums to the op count. |
| OpValidator.OutputShape | unified-ml-sdk/tools/validate_ml_operations.py:60-66 | The output is (N, H−Fh+1, W−Fw+1, Cout). It is absent exactly when a spatial size would be negative. |
| OpValidator.Fill | unified-ml-sdk/tools/validate_ml_operations.py:66-75 | The filled array has the requested shape, and each element is that position's patch sum. |
| OpValidator.Conv2DReference | unified-ml-sdk/tools/validate_ml_operations.py:58-77 | There are two error cases: a negative output dimension, and channel counts NumPy cannot broadcast (different, and neither is 1) while the loops run. Otherwise every output element is the sum of patch × kernel over rows, columns and the broadcast channel axis; a one-channel operand is reused for every channel of the other. |
| OpValidator.OneChannelInputBroadcast | unified-ml-sdk/tools/validate_ml_operations.py:60-77 | A (1,3,3,1) input with a (3,3,2,1) filter gives a (1,1,1,1) output whose element sums the input pixel times both filter channels at every kernel offset. |
| OpValidator.OneHotChannels | unified-ml-sdk/tools/validate_ml_operations.py:73-75 | With a one-hot 1×1 kernel, the channel sum picks out one input element. |
| OpValidator.IdentityKernel | unified-ml-sdk/tools/validate_ml_operations.py:58-77 | Convolving with the 1×1 identity kernel gives back the input. |
| OpValidator.TestScenarioConsistent | unified-ml-sdk/tools/validate_ml_operations.py:22-131 | For the 8×8×3 input and 3×3×3×16 filter, the output shape is (1, 6, 6, 16). The scenario's [6, 6, 1] range and 6·6·16·4-byte output buffer agree with it. |
| OpValidator.ValidateConv2D | unified-ml-sdk/tools/validate_ml_operations.py:35-51 | Passes exactly when the Vulkan run produced a result within tolerance. An error is recorded exactly when the run failed. |
| OpValidator.ValidateMatmul | unified-ml-sdk/tools/validate_ml_operations.py:161-165 | The placeholder always passes, with no error. |
| OpValidator.CountPassedBounds | unified-ml-sdk/tools/validate_ml_operations.py:174 | The passed count is at most the total, and equal to it exactly when every result passed. |
| OpValidator.Report | unified-ml-sdk/tools/validate_ml_operations.py:170-189 | An empty result list fails, as the success-rate division does. Otherwise passed + failed = total, and failed = 0 exactly when all passed. |
| OpValidator.MainReport | unified-ml-sdk/tools/validate_ml_operations.py:17-191 | The validator's own run reports 2 operations with at least 1 passed. None fail exactly when the Vulkan conv passed. |
| ModelRunner.TokenPrefix | scripts/run_model_e2e.py:100-110 | Each family's token prefix is at least 26 characters long. |
| ModelRunner.Token | scripts/run_model_e2e.py:100-110 | Every template token is at least 27 characters long. |
| ModelRunner.Replacements | scripts/run_model_e2e.py:97-111 | There is one entry per file: inputs, then outputs, then shaders. Entry offset(f)+i pairs token i of family f with file i of f. |
| ModelRunner.EntryFamily | scripts/run_model_e2e.py:97-111 | Every entry index falls in exactly its family's block. |
| ModelRunner.EntryAt | scripts/run_model_e2e.py:97-111 | Entry k is (token, file) for its family and position. |
| ModelRunner.SubstituteNoToken | scripts/run_model_e2e.py:124-125 | A template with no token in it comes back unchanged. |
| ModelRunner.ShortTextUnchanged | scripts/run_model_e2e.py:124-125 | Text shorter than every token comes back unchanged. |
| ModelRunner.SequentialCollision | scripts/run_model_e2e.py:97-125 | As written, with 11 or more inputs (the second shorter than 26 characters), the token for input 10 becomes `inputs[1] + "0"`. |
| ModelRunner.Substitute | scripts/run_model_e2e.py:124-125 | As written: the replacements apply in list order, so the result of the whole list is the last pair's `str.replace` applied to the result of all earlier pairs. |
| ModelRunner.Best | scripts/run_model_e2e.py:124-125 | Corrected scanner: the chosen entry matches at this position and is the longest that matches. There is none exactly when nothing matches. |
| ModelRunner.ScanNoToken | scripts/run_model_e2e.py:124-125 | The corrected scanner leaves token-free text unchanged. |
| ModelRunner.ScanPlainChar | scripts/run_model_e2e.py:124-125 | A character that no token starts with is copied. |
| ModelRunner.FamiliesDiffer | scripts/run_model_e2e.py:100-110 | Tokens of different families differ at position 14 or 21. |
| ModelRunner.BestIsToken | scripts/run_model_e2e.py:97-125 | Where token j of family f starts (and the number does not go on), the corrected scanner picks exactly that token's entry. |
| ModelRunner.ScanToken | scripts/run_model_e2e.py:97-125 | Such a token is replaced by its own file and scanning resumes after it. |
| ModelRunner.ScanQuotedToken | scripts/run_model_e2e.py:97-125 | A quoted token maps to its own quoted file name. |
| ModelRunner.ScanNoCollision | scripts/run_model_e2e.py:97-125 | On the collision input the corrected scanner yields `inputs[10]`. |
| ModelRunner.GenerateScenarioText | scripts/run_model_e2e.py:91-126 | With the corrected substitution: a template in which no token occurs is written back unchanged; a template that begins with token j of a family (the number not going on) begins with that family's file j, followed by the substituted rest; a leading character that starts no token is copied. |
| ModelRunner.ScanTokenFree | scripts/run_model_e2e.py:124-125 | The corrected scanner copies a template that contains none of the tokens. |
| ModelRunner.ScanLeadingToken | scripts/run_model_e2e.py:97-125 | Whichever token the template begins with, the corrected scanner emits that token's own file first. |
| ModelRunner.GenerateReplacesToken | scripts/run_model_e2e.py:97-126 | A token followed by anything but a digit becomes its own file, followed by the generated text of the rest. |
| ModelRunner.LastDot | scripts/run_model_e2e.py:60-62 | The index found is a `.` with no `.` after it, and there is none exactly when the name has no `.`. |
| ModelRunner.Stem | scripts/run_model_e2e.py:59-61 | The stem is a prefix of the name. When shorter, it stops at the last `.`, which is neither the first nor the last character. A name without `.` is its own stem. |
| ModelRunner.WithSuffix | scripts/run_model_e2e.py:59-61 | The result ends with the new suffix, what precedes it is a prefix of the original path, and the directory part is kept. |
| ModelRunner.Join | scripts/run_model_e2e.py:59 | The joined path's file name is the model's file name. |
| ModelRunner.JoinBaseStart | scripts/run_model_e2e.py:59 | The last `/` of `dir/model` is the model's last `/`, or the joining one. |
| ModelRunner.SharedStem | scripts/run_model_e2e.py:58-95 | The `.vgf` and `.json` paths share one stem that is a prefix of the joined path, and the two paths differ. |
| SiliconOptimizer.OptimizeConv2D | unified-ml-sdk/tools/optimize_for_apple_silicon.py:18-29 | `algorithm` is `winograd` exactly when `kernel_size` is [3, 3], and is otherwise untouched. `accumulator_type` is `float16` when fp16 is on. No other key changes and no other key is added. |
| SiliconOptimizer.OptimizeMatmul | unified-ml-sdk/tools/optimize_for_apple_silicon.py:31-42 | Sets `tile_m` and `tile_n` to the tile size and `tile_k` to 8. Sets `use_simdgroup` to True when enabled. Everything else is kept. |
| SiliconOptimizer.Conv2DIdempotent | unified-ml-sdk/tools/optimize_for_apple_silicon.py:18-29 | Optimizing a conv twice equals optimizing it once. |
| SiliconOptimizer.MatmulIdempotent | unified-ml-sdk/tools/optimize_for_apple_silicon.py:31-42 | Optimizing a matmul twice equals optimizing it once. |
| SiliconOptimizer.LocalSize | unified-ml-sdk/tools/optimize_for_apple_silicon.py:59-67 | conv2d gives (32, 1); matmul gives (`tile_m`, `tile_n`), each defaulting to 32; anything else gives (256, 1). |
| SiliconOptimizer.OptimizedMatmulWorkgroup | unified-ml-sdk/tools/optimize_for_apple_silicon.py:31-67 | With the default settings, an optimized matmul's shader has a 32×32 workgroup. |
| SiliconOptimizer.MainOptimizations | unified-ml-sdk/tools/optimize_for_apple_silicon.py:10-82 | `main`'s two calls give the exact dictionaries: winograd plus float16 for the 3×3 conv, and 32/32/8 tiles with simdgroups for `{}`. |
| TensorEmulation.TotalElements | minimal-emulation/src/tensor_emulation.cpp:43-46 | The element count is the product of the first `dimensionCount` dimensions modulo 2^64, and 1 for rank 0. |
| TensorEmulation.CreateTensor | minimal-emulation/src/tensor_emulation.cpp:33-77 | The buffer request is a storage, transfer-src and transfer-dst buffer in exclusive sharing mode. Its size is the element count × 4 modulo 2^64, and the same size is stored in the tensor. The stored dimensions are the first `dimensionCount` entries, and the memory handle is null. The result is the buffer call's result. `*pTensor` is set only on success. |
| TensorEmulation.SizeWraps | minimal-emulation/src/tensor_emulation.cpp:43-50 | Two dimensions of 2^31 give a byte size of 0. |
| TensorEmulation.SizeExact | minimal-emulation/src/tensor_emulation.cpp:43-50 | When the true byte size fits in 64 bits, it is stored exactly. |
| TensorEmulation.Destroy | minimal-emulation/src/tensor_emulation.cpp:80-98 | A null handle releases nothing. Otherwise each non-null handle is released once and nothing else is, the buffer before the memory. |
| TensorEmulation.ReleasesDetermined | minimal-emulation/src/tensor_emulation.cpp:86-93 | Any release list with those properties is the one `Destroy` produces, so the order and contents are fixed. |
| TensorEmulation.DestroyCreated | minimal-emulation/src/tensor_emulation.cpp:61-98 | A tensor the layer created releases exactly its buffer, because its memory is never set. |
| TensorEmulation.Properties | minimal-emulation/src/tensor_emulation.cpp:101-114 | Reports the stored format and the stored rank. |
| TensorEmulation.CreateThenQuery | minimal-emulation/src/tensor_emulation.cpp:61-114 | Creating a tensor and querying it returns the create info's format and dimension count. |
| GraphEmulation.ToCompute | minimal-emulation/src/graph_emulation.cpp:41-53 | The output is a compute create info with the same flags and layout. Its stage is the first stage if there is one, else zero. |
| GraphEmulation.CreateDataGraphPipelines | minimal-emulation/src/graph_emulation.cpp:27-65 | There is one compute create info per graph create info, in order. The result of the compute-pipeline call is returned unchanged. |
| GraphEmulation.LaterStagesDropped | minimal-emulation/src/graph_emulation.cpp:47-50 | Stages after the first make no difference. |
| GraphEmulation.ConversionFaithful | minimal-emulation/src/graph_emulation.cpp:42-50 | Flags, layout and first stage can be recovered from the converted create info. |
| CompareNumpy.Compare | scripts/compare_numpy.py:23-32 | At most one file gives 0 with nothing loaded. The code is 0 exactly when every later array equals the first. On 1, loading stopped at the first mismatching file. |
| CompareNumpy.MatchFirstPairwise | scripts/compare_numpy.py:27-32 | Exit code 0 means all arrays are pairwise equal. |
| CompareNumpy.SwapLaterKeepsDecision | scripts/compare_numpy.py:28-32 | Reordering the files after the first does not change the decision. |

## Left out

- File and process I/O is not modelled. Input values stand in for what would be read.
  - Not modelled: `json.dump`, `np.save`, `np.load`, `open`, `read_text`/`write_text`, `subprocess.run` of the scenario runner, model converter and `vgf_dump`, image preprocessing, and every `print` and `std::cout`.
  - `CompareNumpy.Compare` receives the loaded arrays.
  - `OpValidator.ValidateConv2D` receives the Vulkan run's outcome.
  - `ModelRunner.GenerateScenarioText` receives the template text.
- Argument parsing and every `main` are left out, except the calls in the optimizer's and the validator's `main`.
- Floating point is not modelled: random test data, the float tolerance comparison, `_estimate_speedup` and `round`. Elements are integers.
- OpValidator.Conv2DReference: float32 rounding of `np.sum` is not modelled; elements are unbounded integers. Channel broadcasting is modelled for the channel axis only. A patch is never spatially short, because the loops stop at `H_out` and `W_out`.
- CompareNumpy.Compare: `numpy.array_equal` on floats (NaN is unequal to itself) and across dtypes is not modelled. Arrays are shapes with integer elements.
- Shape products (`np.prod`) are unbounded integers. NumPy's int64 overflow is not modelled.
- StyleTransfer.Build: the relu's `rangeND` entry (create_style_transfer_demo.py:154) is a `numpy.int64` never passed through `int()`. `json.dump` at line 161 raises `TypeError` on it, so every op list with a relu, the demo's own included, leaves a file cut off at that value. The model returns the scenario that would be dumped.
- InferenceRunner.CreateScenario: the stage buffer size `4 * np.prod(dispatch)` (run_ml_inference.py:132) is a `numpy.int64`. `json.dump` at line 34 raises `TypeError` for every style model. The model returns the scenario that would be dumped.
- `lower()` is modelled for ASCII letters only.
- `os.path.basename` and `pathlib` are modelled for `/`-separated paths.
- ModelRunner.Join: `joinpath` with an absolute model path is not modelled. Neither is pathlib's normalisation: `.` components, repeated `/` and a trailing `/` are kept as written. `SharedStem` holds for the joined string, which equals pathlib's result only for a normalised relative model path.
- The analyzer's `TFL3` file check, its `params` dictionaries and the `sorted` print of the breakdown are left out, as is the pipeline JSON it writes. The breakdown's counts are modelled.
- SiliconOptimizer.LocalSize: the shader text is not produced. Only the local sizes placed into the template are modelled.
- SiliconOptimizer.OptimizeConv2D: Python mutates the caller's dictionary in place and returns it. The model returns the new dictionary. Only list-valued `kernel_size` is modelled; a tuple `(3, 3)` compares unequal in Python too.
- TensorEmulation.CreateTensor: `vkCreateBuffer` is a parameter (its result and the handle it writes). The allocator is ignored. The `TensorEmulation` object leaked when buffer creation fails is not modelled, and neither is its heap identity.
- TensorEmulation.Destroy: the `delete` of the emulation object is not modelled.
- TensorEmulation.Properties: reading through a handle that does not point at an emulated tensor is undefined behaviour in C++ and is not modelled.
- GraphEmulation.CreateDataGraphPipelines: the pipelines written by `vkCreateComputePipelines` and the cache and allocator pass-through are not modelled. `GraphNode` is unused by the code.
- ModelConverter.Convert: the output directory and the report path are not modelled.
- The `datetime` timestamp of the validation report is not modelled.

## Findings

| source | as written | input that shows it | evidently intended | confidence | as-written member | corrected member |
|---|---|---|---|---|---|---|
| unified-ml-sdk/create_style_transfer_demo.py:128 | Binding 0 of a conv names `<previous op>_output`. A relu declares no buffer, so after a relu that uid is never declared. | The demo's own list: `conv2` follows `relu1` and binds `relu1_output`. | Bind the buffer that holds the data: the most recent conv's output (`conv1_output`), so every binding names a declared resource. | not executed | StyleTransfer.DemoIsUnsound | StyleTransfer.BuildChained |
| scripts/run_model_e2e.py:124-125 | The replacements run one after another with `str.replace`. `TEMPLATE_PATH_TENSOR_INPUT_1` is a prefix of `TEMPLATE_PATH_TENSOR_INPUT_10`, so it rewrites the latter first. | Eleven or more inputs, the second one shorter than 26 characters: the token for input 10 becomes `inputs[1] + "0"`. | Each token is replaced by its own file name. | not executed | ModelRunner.SequentialCollision | ModelRunner.ScanNoCollision |
