/** The data-graph half of the emulation layer: `vkCreateDataGraphPipelinesARM`
    turns every data-graph pipeline create info into a compute pipeline create
    info and hands the batch to `vkCreateComputePipelines`, whose result it
    returns. That driver call is outside the model; its result is a parameter. */
module GraphEmulation {
  import opened TensorEmulation

  datatype StructureType = ComputePipelineCreateInfoType | Unset

  /** `VkPipelineShaderStageCreateInfo`, reduced to the fields a compute stage
      names; `ZERO_STAGE` is its value-initialised form. */
  datatype ShaderStage = ShaderStage(stageFlags: U32, shaderModule: Handle, entryName: string)

  const ZERO_STAGE := ShaderStage(0, NULL_HANDLE, "")

  /** `VkDataGraphPipelineCreateInfoARM`; `stages` is what `pStages` points at. */
  datatype GraphCreateInfo = GraphCreateInfo(flags: U32, layout: Handle, stageCount: U32, stages: seq<ShaderStage>)

  datatype ComputeCreateInfo = ComputeCreateInfo(sType: StructureType, flags: U32, layout: Handle, stage: ShaderStage)

  /** A create info whose first stage can be read when it claims to have one. */
  predicate Readable(info: GraphCreateInfo) {
    info.stageCount > 0 ==> |info.stages| > 0
  }

  /** The body of the loop at graph_emulation.cpp:41-53 for one create info. */
  function ToCompute(info: GraphCreateInfo): (c: ComputeCreateInfo)
    requires Readable(info)
    ensures c.sType == ComputePipelineCreateInfoType
    ensures c.flags == info.flags && c.layout == info.layout
    ensures info.stageCount > 0 ==> c.stage == info.stages[0]
    ensures info.stageCount == 0 ==> c.stage == ZERO_STAGE
  {
    ComputeCreateInfo(ComputePipelineCreateInfoType, info.flags, info.layout,
      if info.stageCount > 0 then info.stages[0] else ZERO_STAGE)
  }

  /** `vkCreateDataGraphPipelinesARM`: the compute create infos it builds from the
      first `count` graph create infos, and the result it returns.
      `computeResult` is what `vkCreateComputePipelines` returns. */
  method CreateDataGraphPipelines(count: U32, infos: seq<GraphCreateInfo>, computeResult: int)
    returns (result: int, computeInfos: seq<ComputeCreateInfo>)
    requires count <= |infos|
    requires forall i | 0 <= i < count :: Readable(infos[i])
    ensures |computeInfos| == count
    ensures forall i | 0 <= i < count :: computeInfos[i] == ToCompute(infos[i])
    ensures result == computeResult
  {
    computeInfos := [];
    var i := 0;
    while i < count
      invariant i <= count
      invariant |computeInfos| == i
      invariant forall j | 0 <= j < i :: computeInfos[j] == ToCompute(infos[j])
    {
      var stage := ZERO_STAGE;
      if infos[i].stageCount > 0 {
        stage := infos[i].stages[0];
      }
      var computeInfo := ComputeCreateInfo(ComputePipelineCreateInfoType, infos[i].flags, infos[i].layout, stage);
      computeInfos := computeInfos + [computeInfo];
      i := i + 1;
    }
    result := computeResult;
  }

  /** Only the first stage survives the conversion: two create infos that agree
      on flags, layout and first stage convert alike, whatever later stages
      they carry. */
  lemma LaterStagesDropped(a: GraphCreateInfo, b: GraphCreateInfo)
    requires Readable(a) && Readable(b)
    requires a.flags == b.flags && a.layout == b.layout
    requires a.stageCount > 0 && b.stageCount > 0 && a.stages[0] == b.stages[0]
    ensures ToCompute(a) == ToCompute(b)
  {
  }

  /** The conversion loses nothing it reads: flags, layout and first stage of a
      staged create info are recovered from its compute create info. */
  lemma ConversionFaithful(a: GraphCreateInfo, b: GraphCreateInfo)
    requires Readable(a) && Readable(b) && a.stageCount > 0 && b.stageCount > 0
    requires ToCompute(a) == ToCompute(b)
    ensures a.flags == b.flags && a.layout == b.layout && a.stages[0] == b.stages[0]
  {
  }
}
