# Fog parameter registry of the fog demo

This project models the fog-parameter registry and broadcaster of `class FogDemo`
in `main.js`. The demo patches every fog-receiving material's shader program at
compile time. Each compiled program gets its own fog uniforms: `fogTime`,
`fogDensity` and `fogHeightFactor`. The demo keeps the list of these uniform
blocks (`shaders_`), an accumulated clock (`totalTime_`) and the canonical fog
settings (`initialFogDensity`, `initialFogHeightFactor` and the scene fog's
density). Every slider change is pushed into every registered block, and so is
every animation frame that advances the clock. The first frame does not: its
delta is 0. Neither does a frame whose timestamp did not move forward.

Modules:

- `Wrappers` (`wrappers.dfy`): `Option`, for JavaScript's `null`/missing values.
- `Uniforms` (`uniforms.dfy`): a block's optional fog uniforms, the guarded
  write `if (s.uniforms.x) s.uniforms.x.value = v`, and `Broadcast`, the value
  of the list after one `for (let s of this.shaders_)` loop. Its lemmas say
  what a broadcast changes and what it leaves alone.
- `Clock` (`clock.dfy`): the `Step_` guard (`JsNumber` has a `NaN` case), the
  frame delta computed from `requestAnimationFrame` timestamps, and what a run
  of frames does to the clock.
- `FogDemoModel` (`fog_demo.dfy`): `class FogDemo`, whose fields are the
  registry's state. Its methods change that state in place and are proved
  against `Broadcast`, `Advance` and `FrameDelta`. It also holds the
  `Material` and `Object3D` classes that `ApplyShaderToModelMaterials_`
  mutates. `Valid()` is the object invariant every public operation keeps. `BroadcastToShaders` is the internal loop those operations share; it neither assumes nor promises `Valid()`. The invariant says:
  - the clock is non-negative;
  - every block has all three fog uniforms, so the source's presence guards
    never skip a registered block;
  - every height-factor uniform equals `initialFogHeightFactor`;
  - once scene fog exists, every density uniform equals its density;
  - every time uniform is either at its seed 0 or at `totalTime_`.
- `Startup` (`startup.dfy`): a client that uses only the contracts. It runs
  the operations in the page's order (main.js:456-461): the constructor, then
  the scene fog created at the end of `Initialize_`, then the render loop.
  Programs compile inside the first render (main.js:438), so they register
  after the first frame and after the scene fog exists. A slider change comes
  last. `StartupSequence` states no contract of its own and models no single
  source function, so it has no row below.

The model keeps the code's behaviour where it is loose:

- Registration is not deduplicated. Every compile pushes a new block
  (main.js:189), even for a program that was registered before.
- A new block's `fogTime` starts at 0, not at the current total time
  (main.js:190). It catches up at the next positive `Step_`. So `Valid()`
  allows a time uniform to be 0 or the current time.
- The slider handlers neither validate nor clamp their input. The model takes
  any real, as the handlers do; the sliders' ranges are not modelled.
- The density handler updates the scene fog but not `initialFogDensity`
  (main.js:373-381). If no scene fog exists, later registrations are still
  seeded with the old `initialFogDensity`.
- There is no fog-colour setter and no colour uniform of the demo's own.
- `!this.previousRAF_` is true for `null` and also for a timestamp of 0.
  `Clock.Falsy` models both.

## Model

| member | source | states |
|---|---|---|
| `Uniforms.UniformBlock.Write` | main.js:377-381 | a guarded write gives a present slot the new value, keeps a missing slot missing, and leaves the other two slots unchanged |
| `Uniforms.Broadcast` | main.js:446-450 | a loop over `shaders_` keeps the list's length |
| `Uniforms.BroadcastAt` | main.js:414-418 | the loop writes each block independently: block i afterwards is block i with the guarded write applied |
| `Uniforms.BroadcastSyncs` | main.js:377-381 | after a broadcast, every block agrees with the new value on that slot; every other slot of every block is unchanged; agreement with any value on another slot, and completeness, are kept |
| `Uniforms.BroadcastIdempotent` | main.js:372-383 | broadcasting the same value twice (the same slider value delivered twice) gives the same list as broadcasting it once |
| `Uniforms.BroadcastSyncedIsNoOp` | main.js:321-324 | re-syncing blocks that already agree with the value on that slot leaves the list unchanged |
| `Uniforms.BroadcastOverwrite` | main.js:446-450 | a second broadcast to the same slot overwrites the first, so after several advancing frames every time uniform holds only the latest total |
| `Uniforms.BroadcastsCommute` | main.js:411-420 | broadcasts to different slots do not interfere, so density and height changes are independent of their order |
| `Clock.Advance` | main.js:443-445 | the clock never decreases; it stays unchanged exactly when the delta is NaN or not positive; otherwise it grows by exactly the delta |
| `Clock.FrameDelta` | main.js:431-435 | with a falsy previous timestamp (first frame) the delta is 0; otherwise it is the milliseconds since the previous frame, in seconds, and it is positive exactly when the timestamp moved forward |
| `Clock.TotalAfterFrames` | main.js:429-451 | `totalTime_` after a run of animation frames; whatever timestamps arrive, it never decreases |
| `Clock.FramesMeasureElapsed` | main.js:429-451 | after a previous frame at p > 0, with non-decreasing timestamps, the clock gains exactly (last - p) / 1000 seconds |
| `Clock.FramesFromStart` | main.js:431-436 | starting with `previousRAF_` null, the first frame adds nothing, and the clock then measures (last - first) / 1000 seconds |
| `FogDemoModel.Seeded` | main.js:190-194 | a new block has all three uniforms: time 0, the scene fog's density when scene fog exists and `initialFogDensity` otherwise, and the given height factor |
| `FogDemoModel.FogDemo.constructor` | main.js:102-125 | density 0.00005, height factor 0.05, no scene fog, clock 0, no previous frame, no registered programs; the invariant holds |
| `FogDemoModel.FogDemo.BroadcastToShaders` | main.js:446-450 | the in-place loop leaves `shaders_` equal to `Broadcast` of its old value; nothing else changes |
| `FogDemoModel.FogDemo.ModifyShaderCallback` | main.js:188-195 | exactly one block, seeded from the current settings, is appended at the end; earlier blocks are unchanged; the invariant is kept |
| `FogDemoModel.FogDemo.Step` | main.js:443-451 | NaN or a non-positive delta changes nothing; otherwise the clock grows by the delta and every time uniform takes the new total; other slots, the length and all other fields are unchanged |
| `FogDemoModel.FogDemo.OnDensityInput` | main.js:372-383 | the scene fog, if it exists, and every density uniform take the new density; height and time uniforms, the length and the other fields are unchanged |
| `FogDemoModel.FogDemo.OnHeightFactorInput` | main.js:411-420 | `initialFogHeightFactor` takes the new value, so later registrations are seeded with it; every height-factor uniform takes it too; density and time uniforms are unchanged |
| `FogDemoModel.FogDemo.CreateSceneFog` | main.js:317-324 | the scene fog exists with the initial density, and every density uniform equals it; other slots are unchanged |
| `FogDemoModel.FogDemo.AnimationFrame` | main.js:429-436 | the timestamp becomes `previousRAF_`; the clock steps by the frame delta; on the first frame nothing else changes |
| `FogDemoModel.FogDemo.Frames` | main.js:429-451 | running `AnimationFrame` over timestamps ts, in order, leaves `totalTime_` equal to `Clock.TotalAfterFrames` of the run, so its monotonicity and `FramesMeasureElapsed` and `FramesFromStart` hold of the object. The last timestamp becomes `previousRAF_`. If the clock advanced, every time uniform holds the final total; otherwise the blocks are unchanged. Density and height uniforms and the number of blocks never change, and the invariant is kept |
| `FogDemoModel.FogDemo.ApplyToMesh` | main.js:200-216 | the mesh takes the given shadow flags; every non-null material in its single material or material array (`MaterialSlot.List`, main.js:204) gets the hook and `needsUpdate = true`, and its density uniform, if present, takes the scene fog's density when scene fog exists; null entries are skipped |
| `FogDemoModel.FogDemo.ApplyShaderToModelMaterials` | main.js:197-219 | a null model changes nothing; every mesh takes the given shadow flags, which default to `false` as in the source; every non-null material of every mesh is hooked, marked for update and density-synced; non-mesh nodes and other objects are untouched |

## Left out

- The GLSL noise, FBM and fog-factor code (main.js:8-98, 140-159) is left out. These are shader source strings that the GPU compiles and runs, using floating-point numerics. No JavaScript evaluates them.
- `SetupShaderChunks_` is left out. It only assigns constant strings to the renderer's global shader-chunk table.
- Renderer, camera, light, sky, ground, monolith and orbit-control set-up are left out. They are calls into three.js. This includes the hook assignments on the fallback ground and the monolith (main.js:299, 314), each a single-material hook like the one `ApplyToMesh` attaches.
- GLTF loading is left out. It is asynchronous I/O.
- DOM construction in `CreateUI_` is left out, and so are `parseFloat` and `toFixed`. Slider inputs are taken as already-parsed reals.
- Window resize, the `requestAnimationFrame` recursion and the render call are left out. `AnimationFrame` keeps only the delta arithmetic and the `Step_` call.
- The renderer's compile step is not modelled. A material's hook is recorded as a field; the call from three.js into `ModifyShaderCallback_` is not.
- Scene-graph traversal is not modelled. A model is given as the flat list of its nodes. A mesh's material reference is fixed (`const`), since this code never reassigns it.
- Aliasing between registered shader objects is not modelled. Neither is aliasing between a material's own `uniforms` and a registered block. Each registered block is a separate value in `shaders_`. A shader's uniforms other than the three fog uniforms are not modelled.
- Numbers are exact reals. Rounding and infinities are not modelled. NaN is modelled only where the source tests for it (`Step_`).
- The fog colour is not modelled. It is fixed when the scene fog is created, and no handler changes it.
