/**
 * The fog-parameter registry of `class FogDemo` in main.js: the list of
 * registered shader programs' fog uniforms, the accumulated clock, the
 * canonical fog settings, and the operations that change them and push the
 * change to every registered program.
 */
module FogDemoModel {

  import opened Wrappers
  import opened Uniforms
  import opened Clock

  /** Initial fog density set by the constructor. */
  const DEFAULT_FOG_DENSITY: real := 0.00005
  /** Initial fog height factor set by the constructor. */
  const DEFAULT_FOG_HEIGHT_FACTOR: real := 0.05

  /**
   * The uniforms `ModifyShaderCallback_` gives a program it registers: time
   * 0, the scene fog's density when scene fog exists (otherwise the initial
   * density), and the current height factor.
   */
  function Seeded(sceneFog: Option<real>, initialDensity: real, heightFactor: real): (b: UniformBlock)
    ensures b.Complete()
    ensures b.Holds(Time, 0.0) && b.Holds(HeightFactor, heightFactor)
    ensures b.Holds(Density, if sceneFog.Some? then sceneFog.value else initialDensity)
  {
    var density := if sceneFog.Some? then sceneFog.value else initialDensity;
    UniformBlock(Some(0.0), Some(density), Some(heightFactor))
  }

  /** A material as the compile hook sees it. */
  class Material {
    /** `onBeforeCompile`: the demo whose `ModifyShaderCallback_` runs when the material compiles. */
    var onBeforeCompile: FogDemo?
    /** `needsUpdate`: the renderer must recompile the material. */
    var needsUpdate: bool
    /** `uniforms.fogDensity.value`; None when `uniforms` or its `fogDensity` is missing. */
    var fogDensity: Option<real>

    constructor (fogDensity: Option<real>)
      ensures onBeforeCompile == null && !needsUpdate && this.fogDensity == fogDensity
    {
      onBeforeCompile := null;
      needsUpdate := false;
      this.fogDensity := fogDensity;
    }
  }

  /** `child.material`: one material or an array of them, any of which may be null. */
  datatype MaterialSlot = Single(material: Material?) | Many(materials: seq<Material?>)
  {
    /** `Array.isArray(m) ? m : [m]` */
    function List(): seq<Material?>
    {
      match this
      case Single(m) => [m]
      case Many(ms) => ms
    }
  }

  /** A node of a loaded model; only meshes carry shadow flags and materials. */
  class Object3D {
    const isMesh: bool
    const material: MaterialSlot
    var castShadow: bool
    var receiveShadow: bool

    constructor (isMesh: bool, material: MaterialSlot)
      ensures this.isMesh == isMesh && this.material == material && !castShadow && !receiveShadow
    {
      this.isMesh := isMesh;
      this.material := material;
      castShadow := false;
      receiveShadow := false;
    }
  }

  /** The meshes among the nodes of `model` (none for a null model). */
  ghost function Meshes(model: Option<seq<Object3D>>): set<Object3D>
  {
    if model.None? then {} else set n | n in model.value && n.isMesh
  }

  /** The non-null materials of the meshes of `model`. */
  ghost function MaterialsOf(model: Option<seq<Object3D>>): set<Material>
  {
    if model.None? then {} else set n, m: Material | n in model.value && n.isMesh && m in n.material.List() :: m
  }

  /**
   * A material's density uniform after the hook is attached: when scene fog
   * exists and the uniform is present it takes the scene fog's density.
   */
  function SyncedUniform(u: Option<real>, sceneFog: Option<real>): Option<real>
  {
    if sceneFog.Some? && u.Some? then sceneFog else u
  }

  class FogDemo {
    /** `initialFogDensity`: the density used while no scene fog exists. */
    var initialFogDensity: real
    /** `initialFogHeightFactor`: the canonical height factor, kept current by the height slider. */
    var initialFogHeightFactor: real
    /** `scene_.fog`: None before the scene fog is created, then Some(its density). */
    var sceneFog: Option<real>
    /** `totalTime_`, in seconds. */
    var totalTime: real
    /** `previousRAF_`: the previous animation-frame timestamp, None for `null`. */
    var previousRAF: Option<real>
    /** `shaders_`: the fog uniforms of every registered program, in registration order. */
    var shaders: seq<UniformBlock>

    /**
     * What every operation keeps: the clock is non-negative; every block
     * carries all three fog uniforms; every height-factor uniform equals the
     * canonical height factor; once scene fog exists every density uniform
     * equals its density; every time uniform is at its seed 0 or at the
     * current total time.
     */
    ghost predicate Valid()
      reads this
    {
      && totalTime >= 0.0
      && AllComplete(shaders)
      && Synced(shaders, HeightFactor, initialFogHeightFactor)
      && (sceneFog.Some? ==> Synced(shaders, Density, sceneFog.value))
      && forall i :: 0 <= i < |shaders| ==> shaders[i].Holds(Time, 0.0) || shaders[i].Holds(Time, totalTime)
    }

    constructor ()
      ensures Valid()
      ensures initialFogDensity == DEFAULT_FOG_DENSITY && initialFogHeightFactor == DEFAULT_FOG_HEIGHT_FACTOR
      ensures sceneFog == None && totalTime == 0.0 && previousRAF == None && shaders == []
    {
      initialFogDensity := DEFAULT_FOG_DENSITY;
      initialFogHeightFactor := DEFAULT_FOG_HEIGHT_FACTOR;
      sceneFog := None;
      totalTime := 0.0;
      previousRAF := None;
      shaders := [];
    }

    /**
     * Writes `v` into slot `s` of every registered block that has it, in
     * order; the list keeps its length and nothing else changes.
     */
    method BroadcastToShaders(s: Slot, v: real)
      modifies this`shaders
      ensures shaders == Broadcast(old(shaders), s, v)
    {
      var i := 0;
      while i < |shaders|
        invariant 0 <= i <= |shaders| == |old(shaders)|
        invariant forall k :: 0 <= k < i ==> shaders[k] == old(shaders)[k].Write(s, v)
        invariant forall k :: i <= k < |shaders| ==> shaders[k] == old(shaders)[k]
      {
        var block := shaders[i];
        if block.Get(s).Some? {
          shaders := shaders[i := block.Write(s, v)];
        }
        i := i + 1;
      }
      forall k | 0 <= k < |shaders|
        ensures shaders[k] == Broadcast(old(shaders), s, v)[k]
      {
        BroadcastAt(old(shaders), s, v, k);
      }
    }

    /**
     * `ModifyShaderCallback_`: the compiled program is appended to the list
     * (with no check for an earlier registration) with seeded fog uniforms;
     * earlier blocks are unchanged.
     */
    method ModifyShaderCallback()
      requires Valid()
      modifies this`shaders
      ensures Valid()
      ensures shaders == old(shaders) + [Seeded(sceneFog, initialFogDensity, initialFogHeightFactor)]
    {
      var density := if sceneFog.Some? then sceneFog.value else initialFogDensity;
      shaders := shaders + [UniformBlock(Some(0.0), Some(density), Some(initialFogHeightFactor))];
    }

    /**
     * `Step_`: a NaN or non-positive delta changes nothing; otherwise the
     * clock grows by exactly the delta and every time uniform takes the new
     * total.
     */
    method Step(timeElapsed: JsNumber)
      requires Valid()
      modifies this`totalTime, this`shaders
      ensures Valid()
      ensures totalTime == Advance(old(totalTime), timeElapsed)
      ensures shaders == if Advances(timeElapsed) then Broadcast(old(shaders), Time, totalTime) else old(shaders)
    {
      if timeElapsed.NaN? || timeElapsed.value <= 0.0 {
        return;
      }
      totalTime := totalTime + timeElapsed.value;
      BroadcastToShaders(Time, totalTime);
      BroadcastSyncs(old(shaders), Time, totalTime);
    }

    /**
     * The density slider's `input` handler: the scene fog (when it exists)
     * and every density uniform take the new density.
     */
    method OnDensityInput(newDensity: real)
      requires Valid()
      modifies this`sceneFog, this`shaders
      ensures Valid()
      ensures sceneFog == if old(sceneFog).Some? then Some(newDensity) else None
      ensures shaders == Broadcast(old(shaders), Density, newDensity)
    {
      if sceneFog.Some? {
        sceneFog := Some(newDensity);
      }
      BroadcastToShaders(Density, newDensity);
      BroadcastSyncs(old(shaders), Density, newDensity);
    }

    /**
     * The height slider's `input` handler: the canonical height factor, used
     * to seed later registrations, and every height-factor uniform take the
     * new value.
     */
    method OnHeightFactorInput(newHeightFactor: real)
      requires Valid()
      modifies this`initialFogHeightFactor, this`shaders
      ensures Valid()
      ensures initialFogHeightFactor == newHeightFactor
      ensures shaders == Broadcast(old(shaders), HeightFactor, newHeightFactor)
    {
      initialFogHeightFactor := newHeightFactor;
      BroadcastToShaders(HeightFactor, newHeightFactor);
      BroadcastSyncs(old(shaders), HeightFactor, newHeightFactor);
    }

    /**
     * End of `Initialize_`: the scene fog is created with the initial
     * density, and every program registered so far is re-synced to it.
     */
    method CreateSceneFog()
      requires Valid()
      modifies this`sceneFog, this`shaders
      ensures Valid()
      ensures sceneFog == Some(initialFogDensity)
      ensures shaders == Broadcast(old(shaders), Density, initialFogDensity)
    {
      sceneFog := Some(initialFogDensity);
      BroadcastToShaders(Density, sceneFog.value);
      BroadcastSyncs(old(shaders), Density, initialFogDensity);
    }

    /**
     * One `requestAnimationFrame` callback at timestamp `t`, without the
     * render and the re-scheduling: the clock steps by the frame delta and
     * `t` becomes the previous timestamp. On the first frame the delta is 0,
     * so only the timestamp changes.
     */
    method AnimationFrame(t: real)
      requires Valid()
      modifies this`previousRAF, this`totalTime, this`shaders
      ensures Valid()
      ensures previousRAF == Some(t)
      ensures totalTime == Advance(old(totalTime), Num(FrameDelta(old(previousRAF), t)))
      ensures shaders == if totalTime == old(totalTime) then old(shaders) else Broadcast(old(shaders), Time, totalTime)
      ensures Falsy(old(previousRAF)) ==> totalTime == old(totalTime) && shaders == old(shaders)
    {
      if Falsy(previousRAF) {
        previousRAF := Some(t);
      }
      Step(Num((t - previousRAF.value) * 0.001));
      previousRAF := Some(t);
    }

    /**
     * A run of `requestAnimationFrame` callbacks at timestamps `ts`, in
     * order: the clock ends at `TotalAfterFrames` of the run and the last
     * timestamp becomes `previousRAF_`. If the clock advanced, every time
     * uniform holds the final total; nothing else in the blocks changes.
     */
    method Frames(ts: seq<real>)
      requires Valid()
      modifies this`previousRAF, this`totalTime, this`shaders
      ensures Valid()
      ensures totalTime == TotalAfterFrames(old(previousRAF), old(totalTime), ts)
      ensures previousRAF == if ts == [] then old(previousRAF) else Some(ts[|ts| - 1])
      ensures shaders == if totalTime == old(totalTime) then old(shaders) else Broadcast(old(shaders), Time, totalTime)
    {
      var i := 0;
      while i < |ts|
        invariant 0 <= i <= |ts|
        invariant Valid()
        invariant TotalAfterFrames(previousRAF, totalTime, ts[i..]) == TotalAfterFrames(old(previousRAF), old(totalTime), ts)
        invariant previousRAF == if i == 0 then old(previousRAF) else Some(ts[i - 1])
        invariant totalTime >= old(totalTime)
        invariant shaders == if totalTime == old(totalTime) then old(shaders) else Broadcast(old(shaders), Time, totalTime)
      {
        assert ts[i..][1..] == ts[i + 1..];
        ghost var previous := totalTime;
        AnimationFrame(ts[i]);
        if previous != old(totalTime) && totalTime != previous {
          BroadcastOverwrite(old(shaders), Time, previous, totalTime);
        }
        i := i + 1;
      }
    }

    /**
     * Material `m`, whose density uniform was `was`, has this demo's compile
     * hook, is marked for recompilation, and its density uniform is synced
     * to the scene fog.
     */
    ghost predicate Hooked(m: Material, was: Option<real>)
      reads this, m
    {
      m.onBeforeCompile == this && m.needsUpdate && m.fogDensity == SyncedUniform(was, sceneFog)
    }

    /**
     * The `traverse` callback of `ApplyShaderToModelMaterials_` on a mesh:
     * the mesh takes the shadow flags, then every non-null material in its
     * material list gets this demo's compile hook, has its density uniform
     * synced to the scene fog and is marked for recompilation; null entries
     * are skipped.
     */
    method ApplyToMesh(child: Object3D, castsShadow: bool, receivesShadow: bool)
      requires child.isMesh
      modifies child, set m: Material | m in child.material.List()
      ensures child.castShadow == castsShadow && child.receiveShadow == receivesShadow
      ensures forall m: Material :: m in child.material.List() ==> Hooked(m, old(m.fogDensity))
    {
      child.castShadow := castsShadow;
      child.receiveShadow := receivesShadow;
      var materials := child.material.List();
      var j := 0;
      while j < |materials|
        invariant 0 <= j <= |materials|
        invariant child.castShadow == castsShadow && child.receiveShadow == receivesShadow
        invariant forall m: Material :: m in materials[..j] ==> Hooked(m, old(m.fogDensity))
        invariant forall m: Material :: m in materials ==>
          SyncedUniform(m.fogDensity, sceneFog) == SyncedUniform(old(m.fogDensity), sceneFog)
      {
        var material := materials[j];
        if material != null {
          material.onBeforeCompile := this;
          if sceneFog.Some? {
            if material.fogDensity.Some? {
              material.fogDensity := Some(sceneFog.value);
            }
          }
          material.needsUpdate := true;
        }
        j := j + 1;
      }
      assert materials[..j] == materials;
    }

    /**
     * `ApplyShaderToModelMaterials_`, over the model's nodes given as a flat
     * list: a null model changes nothing; every mesh takes the shadow flags;
     * every non-null material of a mesh gets this demo's compile hook, is
     * marked for recompilation and has its density uniform synced to the
     * scene fog; null materials and non-mesh nodes are skipped.
     */
    method ApplyShaderToModelMaterials(model: Option<seq<Object3D>>, castsShadow: bool := false, receivesShadow: bool := false)
      modifies Meshes(model), MaterialsOf(model)
      ensures model.Some? ==> forall k :: 0 <= k < |model.value| && model.value[k].isMesh ==>
        model.value[k].castShadow == castsShadow && model.value[k].receiveShadow == receivesShadow
      ensures model.Some? ==> forall k, m: Material :: 0 <= k < |model.value| && model.value[k].isMesh && m in model.value[k].material.List() ==>
        Hooked(m, old(m.fogDensity))
    {
      if model.None? {
        return;
      }
      var nodes := model.value;
      var i := 0;
      while i < |nodes|
        invariant 0 <= i <= |nodes|
        invariant forall k :: 0 <= k < i && nodes[k].isMesh ==>
          nodes[k].castShadow == castsShadow && nodes[k].receiveShadow == receivesShadow
        invariant forall k, m: Material :: 0 <= k < i && nodes[k].isMesh && m in nodes[k].material.List() ==>
          Hooked(m, old(m.fogDensity))
        invariant forall k, m: Material :: 0 <= k < |nodes| && nodes[k].isMesh && m in nodes[k].material.List() ==>
          SyncedUniform(m.fogDensity, sceneFog) == SyncedUniform(old(m.fogDensity), sceneFog)
      {
        var child := nodes[i];
        if child.isMesh {
          assert forall m: Material :: m in child.material.List() ==> m in MaterialsOf(model);
          label BeforeHook:
          ApplyToMesh(child, castsShadow, receivesShadow);
          forall k, m: Material | 0 <= k < |nodes| && nodes[k].isMesh && m in nodes[k].material.List()
            ensures SyncedUniform(m.fogDensity, sceneFog) == SyncedUniform(old(m.fogDensity), sceneFog)
            ensures k <= i ==> Hooked(m, old(m.fogDensity))
          {
            if m in child.material.List() {
              assert m.fogDensity == SyncedUniform(old@BeforeHook(m.fogDensity), sceneFog);
            }
          }
        }
        i := i + 1;
      }
    }
  }
}
