/**
 * The two Game-of-Life scene objects: the flags they keep (pause, active
 * rule), the step counter that a restart resets, and the draw call they
 * issue (a line-strip mesh drawn once per grid cell).  Buffer creation,
 * shader loading and pipeline creation are WebGPU work; only whether a
 * shader module and a pipeline layout exist is kept, because the quest 3
 * object's methods branch on it.  The cell-state buffers belong to a base
 * class that is not part of this model.
 */
module AliveDead {

  /** The grid resolution both objects start with. */
  const GridResolution: nat := 2048

  /** pass.draw(vertexCount, instanceCount).  vertices.length / 2 is a
      JavaScript division, so the count is a real. */
  datatype Draw = Draw(vertexCount: real, instanceCount: nat)

  /** CameraLineStrip2DAliveDeadObject of quest 3. */
  class Quest3Grid {
    const gridResolution: nat
    var paused: bool
    var activeRuleSet: bool
    var step: int
    const vertices: seq<real>
    var hasShaderModule: bool
    var hasPipelineLayout: bool
    /** The entry point of the compute pipeline, once one is built. */
    var computeEntry: seq<char>
    var hasComputePipeline: bool
    var hasRenderPipeline: bool

    constructor (verts: seq<real>)
      ensures gridResolution == GridResolution && !paused && activeRuleSet
      ensures vertices == verts && !hasShaderModule && !hasPipelineLayout
      ensures !hasComputePipeline && !hasRenderPipeline
    {
      gridResolution := GridResolution;
      paused := false;
      activeRuleSet := true;
      step := 0;
      vertices := verts;
      hasShaderModule := false;
      hasPipelineLayout := false;
      computeEntry := [];
      hasComputePipeline := false;
      hasRenderPipeline := false;
    }

    /** Builds nothing (and warns) while no shader module is loaded. */
    method CreateComputePipeline(shaderName: seq<char>)
      modifies this`computeEntry, this`hasComputePipeline
      ensures !old(hasShaderModule) ==> unchanged(this)
      ensures old(hasShaderModule) ==>
        && hasComputePipeline && computeEntry == shaderName
        && paused == old(paused) && step == old(step) && hasPipelineLayout == old(hasPipelineLayout)
        && hasShaderModule && hasRenderPipeline == old(hasRenderPipeline) && activeRuleSet == old(activeRuleSet)
    {
      if !hasShaderModule {
        return;
      }
      hasComputePipeline := true;
      computeEntry := shaderName;
    }

    /** Builds nothing (and warns) while no shader module is loaded. */
    method CreatePipelineLayout()
      modifies this`hasPipelineLayout
      ensures !old(hasShaderModule) ==> unchanged(this)
      ensures old(hasShaderModule) ==> hasPipelineLayout
      ensures hasShaderModule == old(hasShaderModule) && paused == old(paused) && step == old(step)
      ensures activeRuleSet == old(activeRuleSet) && hasRenderPipeline == old(hasRenderPipeline)
    {
      if !hasShaderModule {
        return;
      }
      hasPipelineLayout := true;
    }

    /** Loads the shader (the file read is not modelled) and compiles it. */
    method CreateShaders()
      modifies this`hasShaderModule
      ensures hasShaderModule && hasPipelineLayout == old(hasPipelineLayout)
      ensures paused == old(paused) && step == old(step) && activeRuleSet == old(activeRuleSet)
    {
      hasShaderModule := true;
    }

    /** Builds the pipeline layout first when there is none. */
    method CreateRenderPipeline()
      modifies this`hasPipelineLayout, this`hasRenderPipeline
      ensures hasRenderPipeline && (old(hasShaderModule) ==> hasPipelineLayout)
      ensures hasShaderModule == old(hasShaderModule)
      ensures paused == old(paused) && step == old(step) && activeRuleSet == old(activeRuleSet)
    {
      if !hasPipelineLayout {
        CreatePipelineLayout();
      }
      hasRenderPipeline := true;
    }

    method Render() returns (d: Draw)
      ensures d.vertexCount * 2.0 == |vertices| as real && d.instanceCount == gridResolution * gridResolution
    {
      d := Draw(|vertices| as real / 2.0, gridResolution * gridResolution);
    }

    method TogglePause()
      modifies this`paused
      ensures paused == !old(paused)
      ensures activeRuleSet == old(activeRuleSet) && step == old(step)
    {
      paused := !paused;
    }

    /** Step 0, the shader, layout and render pipeline rebuilt, and running
        again once it completes.  The compute pipeline is not rebuilt: it
        keeps the entry it was built with. */
    method RefreshSimulation()
      modifies this`step, this`paused, this`hasShaderModule, this`hasPipelineLayout, this`hasRenderPipeline
      ensures step == 0 && !paused
      ensures hasShaderModule && hasPipelineLayout && hasRenderPipeline
      ensures activeRuleSet == old(activeRuleSet)
      ensures hasComputePipeline == old(hasComputePipeline) && computeEntry == old(computeEntry)
    {
      step := 0;
      CreateShaders();
      CreatePipelineLayout();
      CreateRenderPipeline();
      paused := false;
    }

    /** The other rule set, then a refresh: the compute pipeline is kept. */
    method ToggleRule()
      modifies this`activeRuleSet, this`step, this`paused, this`hasShaderModule, this`hasPipelineLayout, this`hasRenderPipeline
      ensures activeRuleSet == !old(activeRuleSet)
      ensures step == 0 && !paused
      ensures hasShaderModule && hasPipelineLayout && hasRenderPipeline
      ensures hasComputePipeline == old(hasComputePipeline) && computeEntry == old(computeEntry)
    {
      activeRuleSet := !activeRuleSet;
      RefreshSimulation();
    }
  }

  /** DynamicGrid of the shared library. */
  class DynamicGrid {
    const gridSize: nat
    var isPaused: bool
    var currentRule: bool
    var step: int
    const vertices: seq<real>

    constructor (verts: seq<real>)
      ensures gridSize == GridResolution && !isPaused && currentRule && vertices == verts
    {
      gridSize := GridResolution;
      isPaused := false;
      currentRule := true;
      step := 0;
      vertices := verts;
    }

    method Render() returns (d: Draw)
      ensures d.vertexCount * 2.0 == |vertices| as real && d.instanceCount == gridSize * gridSize
    {
      d := Draw(|vertices| as real / 2.0, gridSize * gridSize);
    }

    method TogglePause()
      modifies this
      ensures isPaused == !old(isPaused)
      ensures currentRule == old(currentRule) && step == old(step)
    {
      isPaused := !isPaused;
    }

    method ResetSimulation()
      modifies this
      ensures step == 0 && !isPaused
      ensures currentRule == old(currentRule)
    {
      step := 0;
      isPaused := false;
    }

    method ToggleRule()
      modifies this
      ensures currentRule == !old(currentRule)
      ensures step == 0 && !isPaused
    {
      currentRule := !currentRule;
      ResetSimulation();
    }
  }
}
