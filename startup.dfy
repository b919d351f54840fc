/**
 * A client of the registry in the page's own order: the constructor, then
 * `Initialize_` creating the scene fog, then the render loop. Programs
 * compile inside the first render, so they register after the first frame
 * and after the scene fog exists; a slider change comes later.
 */
module Startup {

  import opened Wrappers
  import opened Uniforms
  import opened FogDemoModel

  method StartupSequence()
  {
    var demo := new FogDemo();
    demo.CreateSceneFog();
    assert demo.sceneFog == Some(DEFAULT_FOG_DENSITY);

    demo.AnimationFrame(1000.0);
    assert demo.totalTime == 0.0;
    demo.ModifyShaderCallback();
    demo.ModifyShaderCallback();
    assert |demo.shaders| == 2;
    assert demo.shaders[1].fogDensity == Some(DEFAULT_FOG_DENSITY);

    ghost var before := demo.shaders;
    demo.AnimationFrame(1016.0);
    assert demo.totalTime == 0.016;
    BroadcastSyncs(before, Time, 0.016);
    assert Synced(demo.shaders, Time, 0.016);

    demo.OnDensityInput(0.001);
    assert demo.sceneFog == Some(0.001);
    assert Synced(demo.shaders, Density, 0.001);
    assert |demo.shaders| == 2;
  }
}
