/**
 * The pass functions of game/graphics/renderer.cpp that record a frame (387-453, 485-628), step
 * by step into an encoder. While a frame is recorded the renderer's fields are only read, so
 * each method reads them through the FrameState snapshot Renderer.State() takes, and each is
 * proved to record exactly the command sequence Frame specifies for that snapshot.
 */
module Passes {
  import opened Wrappers
  import opened Gpu
  import opened HiZ
  import opened Binder
  import opened Frame

  /**
   * The mip loop of Renderer::drawHiZ (renderer.cpp:495-503): for each mip descriptor, halve the
   * running size, bind the descriptor and dispatch at least one thread in each direction.
   */
  method DrawHiZMips(mips: seq<Desc>, w0: U32, h0: U32, enc: Encoder)
    modifies enc
    ensures enc.cmds == old(enc.cmds) + MipCmds(mips, MipDispatches(w0, h0, |mips|))
  {
    ghost var head := enc.cmds;
    var w, h := w0, h0;
    var i := 0;
    while i < |mips|
      invariant 0 <= i <= |mips|
      invariant w == Halved(w0, i) && h == Halved(h0, i)
      invariant enc.cmds == head + MipCmds(mips[..i], MipDispatches(w0, h0, i))
    {
      DrawHiZStep(head, mips, w0, h0, i, enc.cmds);
      w := w / 2;
      h := h / 2;
      enc.Push(Uniforms(Some(HiZMip), mips[i]));
      enc.Push(DispatchThreads(Max1(w), Max1(h)));
      i := i + 1;
    }
    assert mips[..i] == mips;
  }

  /** Renderer::drawHiZ (renderer.cpp:485-504): occluders, the padded base level, then one dispatch per mip set. */
  method DrawHiZ(f: FrameState, enc: Encoder)
    modifies enc
    ensures enc.cmds == old(enc.cmds) + HiZCmds(f)
  {
    if !f.meshShading {
      return;
    }
    ghost var c0 := enc.cmds;
    enc.Push(Framebuffer([], Some(Att(ZBuffer, Clear(1.0)))));
    enc.Push(View(DrawHiZOccluders));
    enc.Push(Framebuffer([], None));
    enc.Push(Uniforms(Some(HiZPot), f.uboPot));
    enc.Push(Dispatch(W(f.hiZ), H(f.hiZ)));
    ghost var base := [Framebuffer([], Some(Att(ZBuffer, Clear(1.0)))), View(DrawHiZOccluders),
      Framebuffer([], None), Uniforms(Some(HiZPot), f.uboPot), Dispatch(W(f.hiZ), H(f.hiZ))];
    assert enc.cmds == c0 + base;
    DrawHiZMips(f.uboMip, W(f.hiZ), H(f.hiZ), enc);
    AppendAssoc(c0, base, MipCmds(f.uboMip, MipDispatches(W(f.hiZ), H(f.hiZ), |f.uboMip|)));
  }

  /** Renderer::drawGBuffer (renderer.cpp:526-538). */
  method DrawGBuffer(f: FrameState, enc: Encoder)
    modifies enc
    ensures enc.cmds == old(enc.cmds) + GBufferCmds(f)
  {
    if f.meshShading {
      enc.Push(Framebuffer([Att(GbufDiffuse, Clear(0.0)), Att(GbufNormal, Discard)], Some(Att(ZBuffer, Preserve))));
    } else {
      enc.Push(Framebuffer([Att(GbufDiffuse, Discard), Att(GbufNormal, Discard)], Some(Att(ZBuffer, Clear(1.0)))));
    }
    enc.Push(View(ViewStep.DrawGBuffer));
  }

  /**
   * Renderer::drawShadowMap (renderer.cpp:569-579): with shadows on, every cascade is cleared,
   * and drawn only while the light is above the minimum elevation.
   */
  method DrawShadowMap(f: FrameState, lightY: real, enc: Encoder)
    modifies enc
    ensures enc.cmds == old(enc.cmds) + ShadowMapCmds(f, lightY)
  {
    if f.shadowResolution <= 0 {
      return;
    }
    for i := 0 to ShadowLayers
      invariant enc.cmds == old(enc.cmds) + CascadesCmds(i, lightY, f.minShadowY)
    {
      enc.Push(Framebuffer([], Some(Att(ShadowMap(i), Clear(0.0)))));
      if lightY > f.minShadowY {
        enc.Push(View(DrawShadow(i)));
      }
    }
  }

  /** Renderer::prepareSSAO (renderer.cpp:600-616): only with cloud shadows on. */
  method PrepareSSAO(f: FrameState, enc: Encoder)
    modifies enc
    ensures enc.cmds == old(enc.cmds) + SsaoCmds(f)
  {
    if !f.cloudShadowScale {
      return;
    }
    enc.Push(Framebuffer([], None));
    enc.Push(Uniforms(f.ssaoPso, f.uboSsao));
    enc.Push(DispatchThreads(W(f.ssaoBuf), H(f.ssaoBuf)));
  }

  /** Renderer::prepareIrradiance (renderer.cpp:623-628). */
  method PrepareIrradiance(f: FrameState, enc: Encoder)
    modifies enc
    ensures enc.cmds == old(enc.cmds) + IrradianceCmds(f)
  {
    enc.Push(Framebuffer([], None));
    enc.Push(Uniforms(f.irradiancePso, f.irradianceUbo));
    enc.Push(Dispatch(1, 1));
  }

  /** Renderer::stashSceneAux (renderer.cpp:475-483): only when the z-buffer format can be sampled. */
  method StashSceneAux(f: FrameState, enc: Encoder)
    modifies enc
    ensures enc.cmds == old(enc.cmds) + StashCmds(f)
  {
    if !f.stashSampled {
      return;
    }
    enc.Push(Framebuffer([Att(SceneOpaque, Discard), Att(SceneDepth, Discard)], None));
    enc.Push(Uniforms(Some(Stash), f.uboStash));
    enc.Push(DrawFullscreen);
  }

  /** Renderer::drawReflections (renderer.cpp:551-559). */
  method DrawReflections(f: FrameState, enc: Encoder)
    modifies enc
    ensures enc.cmds == old(enc.cmds) + ReflectionCmds(f)
  {
    enc.Push(Uniforms(f.reflectionsPso, f.waterUbo));
    if f.meshShading {
      enc.Push(DispatchMesh(W(f.gbufDiffuse), H(f.gbufDiffuse)));
    } else {
      enc.Push(DrawFullscreen);
    }
  }

  /** Renderer::drawUnderwater (renderer.cpp:561-567). */
  method DrawUnderwater(f: FrameState, enc: Encoder)
    modifies enc
    ensures enc.cmds == old(enc.cmds) + UnderwaterCmds(f)
  {
    enc.Push(Uniforms(Some(UnderwaterT), f.underUbo));
    enc.Push(DrawFullscreen);
    enc.Push(Uniforms(Some(UnderwaterS), f.underUbo));
    enc.Push(DrawFullscreen);
  }

  /** prepareGlobals, drawHiZ, prepareSky and drawGBuffer (renderer.cpp:412-417). */
  method DrawHead(f: FrameState, enc: Encoder)
    modifies enc
    ensures enc.cmds == old(enc.cmds) + HeadPasses(f)
  {
    ghost var c0 := enc.cmds;
    enc.Push(View(PrepareGlobals));
    DrawHiZ(f, enc);
    enc.Push(View(PrepareSky));
    DrawGBuffer(f, enc);
    AppendParts(c0, [View(PrepareGlobals)], HiZCmds(f), [View(PrepareSky)], GBufferCmds(f));
  }

  /** The lighting of sceneLinear over the read-only z-buffer: shadows, ambient, lights, sky (renderer.cpp:425-430). */
  method DrawCompose(f: FrameState, enc: Encoder)
    modifies enc
    ensures enc.cmds == old(enc.cmds) + [Framebuffer([Att(SceneLinear, Discard)], Some(Att(ZBuffer, Readonly))),
      Uniforms(f.shadowPso, f.shadowUbo), DrawFullscreen,
      Uniforms(f.ambientPso, f.uboCompose), DrawFullscreen,
      View(DrawLights), View(DrawSky)]
  {
    enc.Push(Framebuffer([Att(SceneLinear, Discard)], Some(Att(ZBuffer, Readonly))));
    enc.Push(Uniforms(f.shadowPso, f.shadowUbo));
    enc.Push(DrawFullscreen);
    enc.Push(Uniforms(f.ambientPso, f.uboCompose));
    enc.Push(DrawFullscreen);
    enc.Push(View(DrawLights));
    enc.Push(View(DrawSky));
  }

  /** SSAO, fog and irradiance preparation, then the lighting of sceneLinear (renderer.cpp:420-430). */
  method DrawLighting(f: FrameState, enc: Encoder)
    modifies enc
    ensures enc.cmds == old(enc.cmds) + LightingPasses(f)
  {
    ghost var c0 := enc.cmds;
    PrepareSSAO(f, enc);
    enc.Push(View(PrepareFog));
    PrepareIrradiance(f, enc);
    AppendThree(c0, SsaoCmds(f), [View(PrepareFog)], IrradianceCmds(f));
    DrawCompose(f, enc);
    AppendAssoc(c0, SsaoCmds(f) + [View(PrepareFog)] + IrradianceCmds(f),
      [Framebuffer([Att(SceneLinear, Discard)], Some(Att(ZBuffer, Readonly))),
       Uniforms(f.shadowPso, f.shadowUbo), DrawFullscreen,
       Uniforms(f.ambientPso, f.uboCompose), DrawFullscreen,
       View(DrawLights), View(DrawSky)]);
  }

  /** stashSceneAux, drawGWater, sun and moon, translucent and drawReflections (renderer.cpp:430-441). */
  method DrawScene(f: FrameState, enc: Encoder)
    modifies enc
    ensures enc.cmds == old(enc.cmds) + ScenePasses(f)
  {
    ghost var c0 := enc.cmds;
    StashSceneAux(f, enc);
    ghost var c1 := enc.cmds;
    enc.Push(Framebuffer([Att(SceneLinear, Preserve), Att(GbufDiffuse, Clear(0.0)), Att(GbufNormal, Preserve)],
                         Some(Att(ZBuffer, Preserve))));
    enc.Push(View(DrawWater));
    enc.Push(Framebuffer([Att(SceneLinear, Preserve)], Some(Att(ZBuffer, Preserve))));
    enc.Push(View(DrawSunMoon));
    enc.Push(View(DrawTranslucent));
    enc.Push(Framebuffer([Att(SceneLinear, Preserve)], None));
    ghost var mid := [Framebuffer([Att(SceneLinear, Preserve), Att(GbufDiffuse, Clear(0.0)), Att(GbufNormal, Preserve)],
                                  Some(Att(ZBuffer, Preserve))),
                      View(DrawWater),
                      Framebuffer([Att(SceneLinear, Preserve)], Some(Att(ZBuffer, Preserve))),
                      View(DrawSunMoon), View(DrawTranslucent),
                      Framebuffer([Att(SceneLinear, Preserve)], None)];
    assert enc.cmds == c1 + mid;
    DrawReflections(f, enc);
    AppendThree(c0, StashCmds(f), mid, ReflectionCmds(f));
  }

  /** The lighting passes, then the scene passes (renderer.cpp:420-441). */
  method DrawBody(f: FrameState, enc: Encoder)
    modifies enc
    ensures enc.cmds == old(enc.cmds) + BodyPasses(f)
  {
    ghost var c0 := enc.cmds;
    DrawLighting(f, enc);
    DrawScene(f, enc);
    AppendAssoc(c0, LightingPasses(f), ScenePasses(f));
  }

  /** drawUnderwater when the camera is in water, the fog otherwise (renderer.cpp:442-448). */
  method DrawMedium(f: FrameState, inWater: bool, enc: Encoder)
    modifies enc
    ensures enc.cmds == old(enc.cmds) + MediumCmds(f, inWater)
  {
    if inWater {
      DrawUnderwater(f, enc);
    } else {
      enc.Push(View(DrawFog));
    }
  }

  /** The tonemapping pass into the result (renderer.cpp:449-452). */
  method DrawTonemapping(f: FrameState, result: Target, enc: Encoder)
    modifies enc
    ensures enc.cmds == old(enc.cmds) + ToneCmds(f, result)
  {
    enc.Push(Framebuffer([Att(result, Discard)], None));
    enc.Push(Uniforms(f.tonePso, f.uboTone));
    enc.Push(DrawFullscreen);
  }

  /**
   * The body of Renderer::draw(result, cmd, fId) once a world view and a camera exist
   * (renderer.cpp:412-452): head passes, shadow maps, lighting, scene, the medium, then
   * tonemapping into the result.
   */
  method RecordFrame(f: FrameState, result: Target, lightY: real, inWater: bool, enc: Encoder)
    modifies enc
    ensures enc.cmds == old(enc.cmds) + FullFrame(f, result, lightY, inWater)
  {
    ghost var c0 := enc.cmds;
    DrawHead(f, enc);
    DrawShadowMap(f, lightY, enc);
    DrawBody(f, enc);
    DrawMedium(f, inWater, enc);
    DrawTonemapping(f, result, enc);
    AppendFive(c0, HeadPasses(f), ShadowMapCmds(f, lightY), BodyPasses(f), MediumCmds(f, inWater), ToneCmds(f, result));
  }

  /** The UI layer over a swapchain image, then the inventory and its counters when open (renderer.cpp:339-351). */
  method DrawOverlay(result: Target, inventoryOpen: bool, enc: Encoder)
    modifies enc
    ensures enc.cmds == old(enc.cmds) + OverlayCmds(result, inventoryOpen)
  {
    enc.Push(Framebuffer([Att(result, Preserve)], None));
    enc.Push(DrawUi);
    if inventoryOpen {
      enc.Push(Framebuffer([Att(result, Preserve)], Some(Att(ZBuffer, Clear(1.0)))));
      enc.Push(DrawInventory);
      enc.Push(Framebuffer([Att(result, Preserve)], None));
      enc.Push(DrawInventoryCounters);
    }
  }
}
