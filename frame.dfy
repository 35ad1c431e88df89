/**
 * The commands one frame records (game/graphics/renderer.cpp:387-453 and the pass functions they
 * call, 455-646), as functions of a snapshot of the renderer's state, and the order and gating
 * rules that sequence obeys.
 */
module Frame {
  import opened Wrappers
  import opened Gpu
  import opened HiZ
  import opened Binder

  /** The renderer state a frame reads. */
  datatype FrameState = FrameState(
    meshShading: bool,
    hiZ: Image, uboPot: Desc, uboMip: seq<Desc>,
    shadowResolution: U32, minShadowY: real,
    cloudShadowScale: bool, ssaoPso: Option<Pso>, uboSsao: Desc, ssaoBuf: Image,
    irradiancePso: Option<Pso>, irradianceUbo: Desc,
    shadowPso: Option<Pso>, shadowUbo: Desc,
    ambientPso: Option<Pso>, uboCompose: Desc,
    stashSampled: bool, uboStash: Desc,
    reflectionsPso: Option<Pso>, waterUbo: Desc, gbufDiffuse: Image,
    underUbo: Desc,
    tonePso: Option<Pso>, uboTone: Desc)

  /** A frame's destination: a swapchain image or a screenshot image, never an internal target. */
  predicate IsDestination(t: Target) {
    t.Swapchain? || t.Capture?
  }

  /** The frame recorded without a world view or a camera: clear the result and stop. */
  function BlankFrame(result: Target): seq<Cmd> {
    [Framebuffer([Att(result, Clear(0.0))], None)]
  }

  /** The per-mip commands of drawHiZ: bind descriptor i, dispatch at size i. */
  function MipCmds(ubos: seq<Desc>, sizes: seq<Size>): (r: seq<Cmd>)
    requires |sizes| == |ubos|
    ensures |r| == 2 * |ubos|
  {
    if |ubos| == 0 then []
    else
      var n := |ubos| - 1;
      MipCmds(ubos[..n], sizes[..n]) + [Uniforms(Some(HiZMip), ubos[n]), DispatchThreads(sizes[n].w, sizes[n].h)]
  }

  /** Step i of the mip commands binds set i and dispatches at size i, and nothing else is recorded. */
  lemma {:induction false} MipCmdsShape(ubos: seq<Desc>, sizes: seq<Size>)
    requires |sizes| == |ubos|
    ensures var r := MipCmds(ubos, sizes);
      (forall i :: 0 <= i < |ubos| ==>
        r[2 * i] == Uniforms(Some(HiZMip), ubos[i]) && r[2 * i + 1] == DispatchThreads(sizes[i].w, sizes[i].h)) &&
      (forall c :: c in r ==> (c.Uniforms? && c.pso == Some(HiZMip)) || c.DispatchThreads?)
    decreases |ubos|
  {
    if |ubos| > 0 {
      var n := |ubos| - 1;
      MipCmdsShape(ubos[..n], sizes[..n]);
    }
  }

  /** The commands of the first i + 1 mip steps are those of the first i followed by step i. */
  lemma MipCmdsSnoc(ubos: seq<Desc>, ds: seq<Size>, i: nat)
    requires i < |ubos| && |ds| == i + 1
    ensures MipCmds(ubos[..i + 1], ds)
      == MipCmds(ubos[..i], ds[..i]) + [Uniforms(Some(HiZMip), ubos[i]), DispatchThreads(ds[i].w, ds[i].h)]
  {
    assert ubos[..i + 1][..i] == ubos[..i];
  }

  /**
   * One iteration of the mip loop of drawHiZ: binding set i and dispatching at the size after
   * i + 1 halvings extends the recorded mip commands by step i.
   */
  lemma DrawHiZStep(head: seq<Cmd>, ubos: seq<Desc>, w0: U32, h0: U32, i: nat, cmds: seq<Cmd>)
    requires i < |ubos|
    requires cmds == head + MipCmds(ubos[..i], MipDispatches(w0, h0, i))
    ensures cmds + [Uniforms(Some(HiZMip), ubos[i]), DispatchThreads(Max1(Halved(w0, i) / 2), Max1(Halved(h0, i) / 2))]
      == head + MipCmds(ubos[..i + 1], MipDispatches(w0, h0, i + 1))
  {
    var ds := MipDispatches(w0, h0, i + 1);
    DispatchesSnoc(w0, h0, i);
    assert ds[..i] == MipDispatches(w0, h0, i);
    MipCmdsSnoc(ubos, ds, i);
  }

  /** drawHiZ (renderer.cpp:485-504): nothing without mesh shading. */
  function HiZCmds(f: FrameState): seq<Cmd> {
    if !f.meshShading then []
    else
      [Framebuffer([], Some(Att(ZBuffer, Clear(1.0)))), View(DrawHiZOccluders),
       Framebuffer([], None), Uniforms(Some(HiZPot), f.uboPot), Dispatch(W(f.hiZ), H(f.hiZ))]
      + MipCmds(f.uboMip, MipDispatches(W(f.hiZ), H(f.hiZ), |f.uboMip|))
  }

  /**
   * When the hi-Z image has size s and one mip descriptor per halving of s, as resetSwapchain
   * builds them, mip dispatch i of drawHiZ covers exactly level i + 1 of the chain of s.
   */
  lemma HiZDispatchesFollowChain(f: FrameState, s: Size)
    requires f.meshShading && f.hiZ == Image(s.w, s.h) && |f.uboMip| == MipCount(s)
    ensures |HiZCmds(f)| == 5 + 2 * MipCount(s)
    ensures forall i :: 0 <= i < MipCount(s) ==>
      HiZCmds(f)[5 + 2 * i + 1] == DispatchThreads(MipLevels(s)[i + 1].w, MipLevels(s)[i + 1].h)
  {
    DispatchesMatchLevels(s);
    var ds := MipDispatches(s.w, s.h, MipCount(s));
    var tail := MipCmds(f.uboMip, ds);
    MipCmdsShape(f.uboMip, ds);
    assert HiZCmds(f)[5..] == tail;
    forall i | 0 <= i < MipCount(s)
      ensures HiZCmds(f)[5 + 2 * i + 1] == DispatchThreads(MipLevels(s)[i + 1].w, MipLevels(s)[i + 1].h)
    {
      assert HiZCmds(f)[5 + 2 * i + 1] == tail[2 * i + 1];
      assert ds[i] == MipLevels(s)[1..][i];
    }
  }

  /** drawGBuffer (renderer.cpp:526-538). */
  function GBufferCmds(f: FrameState): seq<Cmd> {
    if f.meshShading then
      [Framebuffer([Att(GbufDiffuse, Clear(0.0)), Att(GbufNormal, Discard)], Some(Att(ZBuffer, Preserve))),
       View(DrawGBuffer)]
    else
      [Framebuffer([Att(GbufDiffuse, Discard), Att(GbufNormal, Discard)], Some(Att(ZBuffer, Clear(1.0)))),
       View(DrawGBuffer)]
  }

  /** Cascade i of drawShadowMap: always cleared, drawn only above the minimum light elevation. */
  function CascadeCmds(i: nat, lightY: real, minShadowY: real): seq<Cmd> {
    [Framebuffer([], Some(Att(ShadowMap(i), Clear(0.0))))]
    + (if lightY > minShadowY then [View(DrawShadow(i))] else [])
  }

  /** Cascades 0 .. n - 1 in order. */
  function CascadesCmds(n: nat, lightY: real, minShadowY: real): seq<Cmd> {
    if n == 0 then [] else CascadesCmds(n - 1, lightY, minShadowY) + CascadeCmds(n - 1, lightY, minShadowY)
  }

  /** The first n cascades clear each of their maps, and draw each of them only above the minimum elevation. */
  lemma {:induction false} CascadesShape(n: nat, lightY: real, minShadowY: real)
    ensures var r := CascadesCmds(n, lightY, minShadowY);
      (forall i: nat :: View(DrawShadow(i)) in r <==> i < n && lightY > minShadowY) &&
      (forall i: nat :: Framebuffer([], Some(Att(ShadowMap(i), Clear(0.0)))) in r <==> i < n)
  {
    if n > 0 {
      CascadesShape(n - 1, lightY, minShadowY);
    }
  }

  /** The cascades record nothing but shadow-map clears and shadow draws. */
  lemma {:induction false} CascadesKinds(n: nat, lightY: real, minShadowY: real)
    ensures var r := CascadesCmds(n, lightY, minShadowY);
      (forall c :: c in r ==> c.Framebuffer? || c.View?) &&
      (forall c :: c in r && c.View? ==> c.step.DrawShadow?) &&
      (forall c :: c in r && c.Framebuffer? ==> c.colors == [] && c.depth.Some? && c.depth.value.target.ShadowMap?)
  {
    if n > 0 {
      CascadesKinds(n - 1, lightY, minShadowY);
    }
  }

  /** drawShadowMap (renderer.cpp:569-579): nothing when shadows are off. */
  function ShadowMapCmds(f: FrameState, lightY: real): seq<Cmd> {
    if f.shadowResolution == 0 then [] else CascadesCmds(ShadowLayers, lightY, f.minShadowY)
  }

  /** prepareSSAO (renderer.cpp:600-616): only with cloud shadows on. */
  function SsaoCmds(f: FrameState): seq<Cmd> {
    if !f.cloudShadowScale then []
    else [Framebuffer([], None), Uniforms(f.ssaoPso, f.uboSsao), DispatchThreads(W(f.ssaoBuf), H(f.ssaoBuf))]
  }

  /** prepareIrradiance (renderer.cpp:623-628). */
  function IrradianceCmds(f: FrameState): seq<Cmd> {
    [Framebuffer([], None), Uniforms(f.irradiancePso, f.irradianceUbo), Dispatch(1, 1)]
  }

  /** stashSceneAux (renderer.cpp:475-483): only when the z-buffer format can be sampled. */
  function StashCmds(f: FrameState): seq<Cmd> {
    if !f.stashSampled then []
    else
      [Framebuffer([Att(SceneOpaque, Discard), Att(SceneDepth, Discard)], None),
       Uniforms(Some(Stash), f.uboStash), DrawFullscreen]
  }

  /** drawReflections (renderer.cpp:551-559). */
  function ReflectionCmds(f: FrameState): seq<Cmd> {
    [Uniforms(f.reflectionsPso, f.waterUbo),
     if f.meshShading then DispatchMesh(W(f.gbufDiffuse), H(f.gbufDiffuse)) else DrawFullscreen]
  }

  /** drawUnderwater (renderer.cpp:561-567). */
  function UnderwaterCmds(f: FrameState): seq<Cmd> {
    [Uniforms(Some(UnderwaterT), f.underUbo), DrawFullscreen,
     Uniforms(Some(UnderwaterS), f.underUbo), DrawFullscreen]
  }

  /** The tonemapping pass into the result (renderer.cpp:450-452, 471-472). */
  function ToneCmds(f: FrameState, result: Target): seq<Cmd> {
    [Framebuffer([Att(result, Discard)], None), Uniforms(f.tonePso, f.uboTone), DrawFullscreen]
  }

  /** prepareGlobals, hi-Z, sky preparation and the G-buffer (renderer.cpp:412-417). */
  function HeadPasses(f: FrameState): seq<Cmd> {
    [View(PrepareGlobals)] + HiZCmds(f) + [View(PrepareSky)] + GBufferCmds(f)
  }

  /** SSAO, fog and irradiance preparation, then the lighting of sceneLinear (renderer.cpp:421-430). */
  function LightingPasses(f: FrameState): seq<Cmd> {
    SsaoCmds(f) + [View(PrepareFog)] + IrradianceCmds(f)
    + [Framebuffer([Att(SceneLinear, Discard)], Some(Att(ZBuffer, Readonly))),
       Uniforms(f.shadowPso, f.shadowUbo), DrawFullscreen,
       Uniforms(f.ambientPso, f.uboCompose), DrawFullscreen,
       View(DrawLights), View(DrawSky)]
  }

  /** Stash, water, sun and moon, translucent and reflections (renderer.cpp:432-441). */
  function ScenePasses(f: FrameState): seq<Cmd> {
    StashCmds(f)
    + [Framebuffer([Att(SceneLinear, Preserve), Att(GbufDiffuse, Clear(0.0)), Att(GbufNormal, Preserve)],
                   Some(Att(ZBuffer, Preserve))),
       View(DrawWater),
       Framebuffer([Att(SceneLinear, Preserve)], Some(Att(ZBuffer, Preserve))),
       View(DrawSunMoon), View(DrawTranslucent),
       Framebuffer([Att(SceneLinear, Preserve)], None)]
    + ReflectionCmds(f)
  }

  /** Everything between the shadow maps and the medium pass (renderer.cpp:420-441). */
  function BodyPasses(f: FrameState): seq<Cmd> {
    LightingPasses(f) + ScenePasses(f)
  }

  /** Underwater when the camera is submerged, fog otherwise (renderer.cpp:442-448). */
  function MediumCmds(f: FrameState, inWater: bool): seq<Cmd> {
    if inWater then UnderwaterCmds(f) else [View(DrawFog)]
  }

  /** The full pass sequence of draw for a light elevation and a camera in or out of water (renderer.cpp:412-452). */
  function FullFrame(f: FrameState, result: Target, lightY: real, inWater: bool): seq<Cmd> {
    HeadPasses(f) + ShadowMapCmds(f, lightY) + BodyPasses(f) + MediumCmds(f, inWater) + ToneCmds(f, result)
  }

  /** Renderer::draw(result, cmd, fId) (renderer.cpp:387-453). */
  function FrameCmds(f: FrameState, result: Target, wv: Option<WorldView>, cam: Option<Camera>): seq<Cmd> {
    if wv.None? || cam.None? then BlankFrame(result)
    else FullFrame(f, result, wv.value.lightY, cam.value.inWater)
  }

  /** The overlay the swapchain draw puts over the frame: the UI, then the inventory when open (renderer.cpp:339-351). */
  function OverlayCmds(result: Target, inventoryOpen: bool): seq<Cmd> {
    [Framebuffer([Att(result, Preserve)], None), DrawUi]
    + (if inventoryOpen
       then [Framebuffer([Att(result, Preserve)], Some(Att(ZBuffer, Clear(1.0)))), DrawInventory,
             Framebuffer([Att(result, Preserve)], None), DrawInventoryCounters]
       else [])
  }

  /**
   * Renderer::draw for a swapchain image (renderer.cpp:329-352): the frame, or only a clear while
   * a video plays, followed by the overlay.
   */
  function PresentCmds(f: FrameState, imgId: nat, wv: Option<WorldView>, cam: Option<Camera>,
                       videoActive: bool, inventoryOpen: bool): seq<Cmd> {
    (if videoActive then BlankFrame(Swapchain(imgId)) else FrameCmds(f, Swapchain(imgId), wv, cam))
    + OverlayCmds(Swapchain(imgId), inventoryOpen)
  }

  /** c belongs to the overlay: the UI layer, the inventory or its counters. */
  predicate OverlayDraw(c: Cmd) {
    c.DrawUi? || c.DrawInventory? || c.DrawInventoryCounters?
  }

  lemma NoOverlayInHiZ(f: FrameState)
    ensures forall c :: c in HiZCmds(f) ==> !OverlayDraw(c)
  {
    if f.meshShading {
      MipCmdsShape(f.uboMip, MipDispatches(W(f.hiZ), H(f.hiZ), |f.uboMip|));
    }
  }

  lemma NoOverlayInHead(f: FrameState)
    ensures forall c :: c in HeadPasses(f) ==> !OverlayDraw(c)
  {
    NoOverlayInHiZ(f);
    assert HeadPasses(f) == [View(PrepareGlobals)] + HiZCmds(f) + [View(PrepareSky)] + GBufferCmds(f);
  }

  lemma NoOverlayInShadows(f: FrameState, lightY: real)
    ensures forall c :: c in ShadowMapCmds(f, lightY) ==> !OverlayDraw(c)
  {
    CascadesKinds(ShadowLayers, lightY, f.minShadowY);
  }

  lemma NoOverlayInBody(f: FrameState)
    ensures forall c :: c in BodyPasses(f) ==> !OverlayDraw(c)
  {
    assert forall c :: c in LightingPasses(f) ==> !OverlayDraw(c);
    assert forall c :: c in ScenePasses(f) ==> !OverlayDraw(c);
  }

  /** No pass of a frame draws the overlay. */
  lemma FrameHasNoOverlay(f: FrameState, result: Target, wv: Option<WorldView>, cam: Option<Camera>)
    ensures forall c :: c in FrameCmds(f, result, wv, cam) ==> !OverlayDraw(c)
  {
    if wv.Some? && cam.Some? {
      var head, shadows, body := HeadPasses(f), ShadowMapCmds(f, wv.value.lightY), BodyPasses(f);
      var medium, tone := MediumCmds(f, cam.value.inWater), ToneCmds(f, result);
      NoOverlayInHead(f);
      NoOverlayInShadows(f, wv.value.lightY);
      NoOverlayInBody(f);
      assert FrameCmds(f, result, wv, cam) == head + shadows + body + medium + tone;
    }
  }

  /** The overlay after any commands that draw no overlay of their own. */
  lemma OverlayAfter(frame: seq<Cmd>, result: Target, inventoryOpen: bool)
    requires forall c :: c in frame ==> !OverlayDraw(c)
    ensures var r := frame + OverlayCmds(result, inventoryOpen);
      r[..|frame|] == frame && DrawUi in r[|frame|..] &&
      (DrawInventory in r <==> inventoryOpen) && (DrawInventoryCounters in r <==> inventoryOpen)
  {
    var overlay := OverlayCmds(result, inventoryOpen);
    var r := frame + overlay;
    assert r[|frame|..] == overlay;
    assert DrawInventory in r <==> DrawInventory in overlay;
    assert DrawInventoryCounters in r <==> DrawInventoryCounters in overlay;
  }

  /**
   * A swapchain draw ends with the overlay, after the whole frame, and draws the inventory and
   * its counters exactly when the inventory is open (renderer.cpp:339-351).
   */
  lemma InventoryIffOpen(f: FrameState, imgId: nat, wv: Option<WorldView>, cam: Option<Camera>,
                         videoActive: bool, inventoryOpen: bool)
    ensures var frame := if videoActive then BlankFrame(Swapchain(imgId)) else FrameCmds(f, Swapchain(imgId), wv, cam);
      var r := PresentCmds(f, imgId, wv, cam, videoActive, inventoryOpen);
      r[..|frame|] == frame && DrawUi in r[|frame|..] &&
      (DrawInventory in r <==> inventoryOpen) && (DrawInventoryCounters in r <==> inventoryOpen)
  {
    var frame := if videoActive then BlankFrame(Swapchain(imgId)) else FrameCmds(f, Swapchain(imgId), wv, cam);
    FrameHasNoOverlay(f, Swapchain(imgId), wv, cam);
    OverlayAfter(frame, Swapchain(imgId), inventoryOpen);
  }

  /** c is a framebuffer with t among its attachments. */
  predicate RendersInto(c: Cmd, t: Target) {
    c.Framebuffer? &&
    ((exists i :: 0 <= i < |c.colors| && c.colors[i].target == t) || (c.depth.Some? && c.depth.value.target == t))
  }

  /** An image that is neither a destination nor a shadow cascade. */
  predicate Internal(t: Target) {
    !IsDestination(t) && !t.ShadowMap?
  }

  /** A command that draws neither a cascade nor fog and renders only into internal images. */
  predicate Plain(c: Cmd) {
    !(c.View? && (c.step.DrawShadow? || c.step == DrawFog)) &&
    (c.Framebuffer? ==>
      (forall i :: 0 <= i < |c.colors| ==> Internal(c.colors[i].target)) &&
      (c.depth.Some? ==> Internal(c.depth.value.target)))
  }

  lemma PlainRendersInternal(c: Cmd, t: Target)
    requires Plain(c) && !Internal(t)
    ensures !RendersInto(c, t)
  {
  }

  lemma PlainHiZ(f: FrameState)
    ensures forall c :: c in HiZCmds(f) ==> Plain(c)
  {
    if f.meshShading {
      MipCmdsShape(f.uboMip, MipDispatches(W(f.hiZ), H(f.hiZ), |f.uboMip|));
    }
  }

  lemma PlainGBuffer(f: FrameState)
    ensures forall c :: c in GBufferCmds(f) ==> Plain(c)
  {
  }

  lemma PlainLighting(f: FrameState)
    ensures forall c :: c in LightingPasses(f) ==> Plain(c)
  {
  }

  lemma PlainScene(f: FrameState)
    ensures forall c :: c in ScenePasses(f) ==> Plain(c)
  {
  }

  /** The cascades render only into shadow maps and draw no fog. */
  lemma CascadesRenderShadowMaps(n: nat, lightY: real, minShadowY: real, t: Target)
    requires !t.ShadowMap?
    ensures forall c :: c in CascadesCmds(n, lightY, minShadowY) ==> !RendersInto(c, t)
    ensures View(DrawFog) !in CascadesCmds(n, lightY, minShadowY)
  {
    CascadesKinds(n, lightY, minShadowY);
  }

  /** Without a world view or a camera the frame only clears the result (renderer.cpp:390-393). */
  lemma BlankWithoutCollaborators(f: FrameState, result: Target, wv: Option<WorldView>, cam: Option<Camera>)
    requires wv.None? || cam.None?
    ensures FrameCmds(f, result, wv, cam) == [Framebuffer([Att(result, Clear(0.0))], None)]
  {
  }

  /** The head and the body record only plain commands. */
  lemma PlainHeadAndBody(f: FrameState)
    ensures forall c :: c in HeadPasses(f) + BodyPasses(f) ==> Plain(c)
  {
    PlainHiZ(f);
    PlainGBuffer(f);
    PlainLighting(f);
    PlainScene(f);
  }

  /** Commands before the tail of a concatenation come from its prefix parts. */
  lemma NothingBeforeTailRendersInto(head: seq<Cmd>, shadows: seq<Cmd>, body: seq<Cmd>, medium: seq<Cmd>,
                                     tail: seq<Cmd>, t: Target)
    requires !Internal(t)
    requires forall c :: c in head + body ==> Plain(c)
    requires forall c :: c in shadows + medium ==> !RendersInto(c, t)
    ensures var r := head + shadows + body + medium + tail;
      forall i :: 0 <= i < |r| - |tail| ==> !RendersInto(r[i], t)
  {
    var pre := head + shadows + body + medium;
    var r := pre + tail;
    assert head + shadows + body + medium + tail == r;
    forall i | 0 <= i < |r| - |tail|
      ensures !RendersInto(r[i], t)
    {
      assert r[i] == pre[i];
      assert r[i] in pre;
      if r[i] !in shadows + medium {
        assert r[i] in head + body;
        PlainRendersInternal(r[i], t);
      }
    }
  }

  /**
   * Tonemapping into the result closes the frame, and no earlier command renders into the
   * result (renderer.cpp:450-452).
   */
  lemma TonemappingIsLast(f: FrameState, result: Target, wv: WorldView, cam: Camera)
    requires IsDestination(result)
    ensures var r := FrameCmds(f, result, Some(wv), Some(cam));
      |r| >= 3 && r[|r| - 3..] == ToneCmds(f, result) && RendersInto(r[|r| - 3], result) &&
      forall i :: 0 <= i < |r| - 3 ==> !RendersInto(r[i], result)
  {
    var r := FrameCmds(f, result, Some(wv), Some(cam));
    var head, shadows, body := HeadPasses(f), ShadowMapCmds(f, wv.lightY), BodyPasses(f);
    var medium, tone := MediumCmds(f, cam.inWater), ToneCmds(f, result);
    assert r == head + shadows + body + medium + tone;
    assert forall c :: c in head + body ==> Plain(c) by {
      PlainHeadAndBody(f);
    }
    assert forall c :: c in shadows + medium ==> !RendersInto(c, result) by {
      ShadowsAndMediumMissDestination(f, wv.lightY, cam.inWater, result);
    }
    assert |tone| == 3 && RendersInto(tone[0], result) by {
      assert tone[0].colors[0].target == result;
    }
    LastFromParts(r, head, shadows, body, medium, tone, result);
  }

  /** Neither the cascades nor the medium pass render into a destination. */
  lemma ShadowsAndMediumMissDestination(f: FrameState, lightY: real, inWater: bool, t: Target)
    requires IsDestination(t)
    ensures forall c :: c in ShadowMapCmds(f, lightY) + MediumCmds(f, inWater) ==> !RendersInto(c, t)
  {
    var shadows, medium := ShadowMapCmds(f, lightY), MediumCmds(f, inWater);
    assert forall c :: c in shadows ==> !RendersInto(c, t) by {
      CascadesRenderShadowMaps(ShadowLayers, lightY, f.minShadowY, t);
    }
    assert forall c :: c in medium ==> !c.Framebuffer?;
  }

  /** A tail that renders into t closes r, and nothing before it does, when the parts allow it. */
  lemma LastFromParts(r: seq<Cmd>, head: seq<Cmd>, shadows: seq<Cmd>, body: seq<Cmd>, medium: seq<Cmd>,
                      tail: seq<Cmd>, t: Target)
    requires r == head + shadows + body + medium + tail
    requires !Internal(t)
    requires forall c :: c in head + body ==> Plain(c)
    requires forall c :: c in shadows + medium ==> !RendersInto(c, t)
    requires |tail| == 3 && RendersInto(tail[0], t)
    ensures |r| >= 3 && r[|r| - 3..] == tail && RendersInto(r[|r| - 3], t)
    ensures forall i :: 0 <= i < |r| - 3 ==> !RendersInto(r[i], t)
  {
    NothingBeforeTailRendersInto(head, shadows, body, medium, tail, t);
    assert r[|r| - 3..] == tail;
  }

  /** Fog can only come from the medium part of a concatenation whose other parts are plain. */
  lemma FogOnlyInMedium(head: seq<Cmd>, shadows: seq<Cmd>, body: seq<Cmd>, medium: seq<Cmd>, tail: seq<Cmd>)
    requires forall c :: c in head + body ==> Plain(c)
    requires View(DrawFog) !in shadows && View(DrawFog) !in tail
    ensures View(DrawFog) in head + shadows + body + medium + tail <==> View(DrawFog) in medium
  {
    assert !Plain(View(DrawFog));
  }

  /** The part just before a tail of three sits right before it. */
  lemma PartBeforeTail(pre: seq<Cmd>, part: seq<Cmd>, tail: seq<Cmd>)
    requires |tail| == 3
    ensures var r := pre + part + tail;
      r[|r| - 3 - |part|..|r| - 3] == part && r[|r| - 3..] == tail
  {
    var r := pre + part + tail;
    assert r[|r| - 3 - |part|..|r| - 3] == part;
  }

  /** Where the medium part sits in front of a three-command tail. */
  lemma MediumPosition(pre: seq<Cmd>, f: FrameState, inWater: bool, tail: seq<Cmd>)
    requires |pre| >= 3 && |tail| == 3
    ensures var r := pre + MediumCmds(f, inWater) + tail;
      |r| >= 7 &&
      (r[|r| - 7..|r| - 3] == UnderwaterCmds(f) <==> inWater) &&
      (!inWater ==> r[|r| - 4] == View(DrawFog))
  {
    var medium := MediumCmds(f, inWater);
    PartBeforeTail(pre, medium, tail);
    if !inWater {
      var r := pre + medium + tail;
      assert r[|r| - 4] == View(DrawFog);
      assert r[|r| - 7..|r| - 3][3] == View(DrawFog);
    }
  }

  /** Fog is drawn exactly when the camera is not in water (renderer.cpp:442-448). */
  lemma FogIffDry(f: FrameState, result: Target, wv: WorldView, cam: Camera)
    ensures View(DrawFog) in FrameCmds(f, result, Some(wv), Some(cam)) <==> !cam.inWater
  {
    var head, shadows, body := HeadPasses(f), ShadowMapCmds(f, wv.lightY), BodyPasses(f);
    assert forall c :: c in head + body ==> Plain(c) by {
      PlainHeadAndBody(f);
    }
    assert View(DrawFog) !in shadows by {
      CascadesRenderShadowMaps(ShadowLayers, wv.lightY, f.minShadowY, Capture);
    }
    FogOnlyInMedium(head, shadows, body, MediumCmds(f, cam.inWater), ToneCmds(f, result));
  }

  /**
   * Right before tonemapping the frame runs the underwater pass exactly when the camera is in
   * water, and fog otherwise (renderer.cpp:442-448).
   */
  lemma UnderwaterOrFog(f: FrameState, result: Target, wv: WorldView, cam: Camera)
    ensures var r := FrameCmds(f, result, Some(wv), Some(cam));
      |r| >= 7 &&
      (r[|r| - 7..|r| - 3] == UnderwaterCmds(f) <==> cam.inWater) &&
      (!cam.inWater ==> r[|r| - 4] == View(DrawFog))
  {
    var pre := HeadPasses(f) + ShadowMapCmds(f, wv.lightY) + BodyPasses(f);
    assert |BodyPasses(f)| >= 3;
    MediumPosition(pre, f, cam.inWater, ToneCmds(f, result));
  }

  /**
   * Every pipeline the renderer holds is unset or one of its own pass: the shadow resolve, SSAO,
   * ambient compose, water reflection, irradiance and tonemapping fields are assigned only
   * those pipelines (renderer.cpp:145-165, 179-186).
   */
  predicate PipelinesInRole(shadowPso: Option<Pso>, ssaoPso: Option<Pso>, ambientPso: Option<Pso>,
                            reflectionsPso: Option<Pso>, irradiancePso: Option<Pso>, tonePso: Option<Pso>) {
    (shadowPso.None? || shadowPso.value in {ShadowResolveRq, ShadowResolveSh, ShadowResolve}) &&
    (ssaoPso.None? || ssaoPso.value == Ssao) &&
    (ambientPso.None? || ambientPso.value in {AmbientComposeSsao, AmbientCompose}) &&
    (reflectionsPso.None? || reflectionsPso.value in {WaterReflectionSSR, WaterReflection}) &&
    (irradiancePso.None? || irradiancePso.value == Irradiance) &&
    (tonePso.None? || tonePso.value == Tonemapping)
  }

  /** The pipelines of a frame snapshot are in their roles. */
  predicate Roles(f: FrameState) {
    PipelinesInRole(f.shadowPso, f.ssaoPso, f.ambientPso, f.reflectionsPso, f.irradiancePso, f.tonePso)
  }

  /** c binds one of the two underwater pipelines. */
  predicate Underwater(c: Cmd) {
    c.Uniforms? && (c.pso == Some(UnderwaterT) || c.pso == Some(UnderwaterS))
  }

  lemma DryHead(f: FrameState)
    ensures forall c :: c in HeadPasses(f) ==> !Underwater(c)
  {
    if f.meshShading {
      MipCmdsShape(f.uboMip, MipDispatches(W(f.hiZ), H(f.hiZ), |f.uboMip|));
    }
  }

  lemma DryShadows(f: FrameState, lightY: real)
    ensures forall c :: c in ShadowMapCmds(f, lightY) ==> !Underwater(c)
  {
    CascadesKinds(ShadowLayers, lightY, f.minShadowY);
  }

  lemma DryLighting(f: FrameState)
    requires Roles(f)
    ensures forall c :: c in LightingPasses(f) ==> !Underwater(c)
  {
  }

  lemma DryScene(f: FrameState)
    requires Roles(f)
    ensures forall c :: c in ScenePasses(f) ==> !Underwater(c)
  {
  }

  /** No pass outside the medium part binds an underwater pipeline. */
  lemma NoUnderwaterOutsideMedium(f: FrameState, result: Target, lightY: real)
    requires Roles(f)
    ensures forall c :: c in HeadPasses(f) + ShadowMapCmds(f, lightY) + BodyPasses(f) + ToneCmds(f, result) ==>
      !Underwater(c)
  {
    DryHead(f);
    DryShadows(f, lightY);
    DryLighting(f);
    DryScene(f);
  }

  /**
   * Both underwater pipelines are bound somewhere in the frame exactly when the camera is in
   * water, and no underwater pipeline is bound at all when it is dry (renderer.cpp:442-448).
   */
  lemma UnderwaterIffWet(f: FrameState, result: Target, wv: WorldView, cam: Camera)
    requires Roles(f)
    ensures var r := FrameCmds(f, result, Some(wv), Some(cam));
      (Uniforms(Some(UnderwaterT), f.underUbo) in r <==> cam.inWater) &&
      (Uniforms(Some(UnderwaterS), f.underUbo) in r <==> cam.inWater) &&
      (forall c :: c in r && Underwater(c) ==> cam.inWater)
  {
    var head, shadows, body := HeadPasses(f), ShadowMapCmds(f, wv.lightY), BodyPasses(f);
    var medium, tone := MediumCmds(f, cam.inWater), ToneCmds(f, result);
    var r := FrameCmds(f, result, Some(wv), Some(cam));
    assert r == head + shadows + body + medium + tone;
    NoUnderwaterOutsideMedium(f, result, wv.lightY);
    forall c | c in r && Underwater(c)
      ensures c in medium
    {
      assert c !in head + shadows + body + tone;
    }
    assert !cam.inWater ==> forall c :: c in medium ==> !Underwater(c);
  }

  /** The cascade part is the only source of cascade draws and cascade renders. */
  lemma CascadesOnlyInShadowPart(head: seq<Cmd>, shadows: seq<Cmd>, body: seq<Cmd>, medium: seq<Cmd>, tail: seq<Cmd>)
    requires forall c :: c in head + body ==> Plain(c)
    requires forall c :: c in medium + tail ==> !(c.View? && c.step.DrawShadow?)
    requires forall c, i: nat :: c in medium + tail ==> !RendersInto(c, ShadowMap(i))
    ensures var r := head + shadows + body + medium + tail;
      (forall i: nat :: View(DrawShadow(i)) in r <==> View(DrawShadow(i)) in shadows) &&
      (forall c, i: nat :: c in r && RendersInto(c, ShadowMap(i)) ==> c in shadows)
  {
    var r := head + shadows + body + medium + tail;
    forall c | c in r
      ensures c in shadows || (c in head + body && Plain(c)) || c in medium + tail
    {
    }
    forall c, i: nat | c in head + body
      ensures !RendersInto(c, ShadowMap(i))
    {
      PlainRendersInternal(c, ShadowMap(i));
    }
  }

  /**
   * A cascade is drawn exactly when shadows are on and the light is above the minimum elevation;
   * with shadows on, every cascade map is cleared, with shadows off none is touched
   * (renderer.cpp:569-579).
   */
  lemma CascadesGated(f: FrameState, result: Target, wv: WorldView, cam: Camera)
    requires IsDestination(result)
    ensures var r := FrameCmds(f, result, Some(wv), Some(cam));
      (forall i: nat :: View(DrawShadow(i)) in r <==>
        f.shadowResolution > 0 && wv.lightY > f.minShadowY && i < ShadowLayers) &&
      (forall i: nat :: i < ShadowLayers && f.shadowResolution > 0 ==>
        Framebuffer([], Some(Att(ShadowMap(i), Clear(0.0)))) in r) &&
      (f.shadowResolution == 0 ==> forall c, i: nat :: c in r ==> !RendersInto(c, ShadowMap(i)))
  {
    var r := FrameCmds(f, result, Some(wv), Some(cam));
    var head, shadows, body := HeadPasses(f), ShadowMapCmds(f, wv.lightY), BodyPasses(f);
    var medium, tone := MediumCmds(f, cam.inWater), ToneCmds(f, result);
    var on, drawn := f.shadowResolution > 0, wv.lightY > f.minShadowY;
    assert r == head + shadows + body + medium + tone;
    assert forall c :: c in head + body ==> Plain(c) by {
      PlainHeadAndBody(f);
    }
    assert (forall c: Cmd :: c in medium + tone ==> !(c.View? && c.step.DrawShadow?)) &&
      (forall c, i: nat :: c in medium + tone ==> !RendersInto(c, ShadowMap(i))) by {
      TailOffShadowMaps(f, cam.inWater, result);
    }
    assert (forall i: nat :: View(DrawShadow(i)) in shadows <==> on && drawn && i < ShadowLayers) &&
      (forall i: nat :: i < ShadowLayers && on ==> Framebuffer([], Some(Att(ShadowMap(i), Clear(0.0)))) in shadows) &&
      (!on ==> shadows == []) by {
      ShadowPartGated(f, wv.lightY);
    }
    GatedFromParts(r, head, shadows, body, medium, tone, on, drawn);
  }

  /** The gating of the whole frame follows from the gating of its cascade part. */
  lemma GatedFromParts(r: seq<Cmd>, head: seq<Cmd>, shadows: seq<Cmd>, body: seq<Cmd>, medium: seq<Cmd>,
                       tail: seq<Cmd>, on: bool, drawn: bool)
    requires r == head + shadows + body + medium + tail
    requires forall c :: c in head + body ==> Plain(c)
    requires forall c: Cmd :: c in medium + tail ==> !(c.View? && c.step.DrawShadow?)
    requires forall c, i: nat :: c in medium + tail ==> !RendersInto(c, ShadowMap(i))
    requires forall i: nat :: View(DrawShadow(i)) in shadows <==> on && drawn && i < ShadowLayers
    requires forall i: nat :: i < ShadowLayers && on ==> Framebuffer([], Some(Att(ShadowMap(i), Clear(0.0)))) in shadows
    requires !on ==> shadows == []
    ensures forall i: nat :: View(DrawShadow(i)) in r <==> on && drawn && i < ShadowLayers
    ensures forall i: nat :: i < ShadowLayers && on ==> Framebuffer([], Some(Att(ShadowMap(i), Clear(0.0)))) in r
    ensures !on ==> forall c, i: nat :: c in r ==> !RendersInto(c, ShadowMap(i))
  {
    CascadesOnlyInShadowPart(head, shadows, body, medium, tail);
  }

  /** The medium and tonemapping passes neither draw nor render into a cascade. */
  lemma TailOffShadowMaps(f: FrameState, inWater: bool, result: Target)
    requires IsDestination(result)
    ensures forall c :: c in MediumCmds(f, inWater) + ToneCmds(f, result) ==> !(c.View? && c.step.DrawShadow?)
    ensures forall c, i: nat :: c in MediumCmds(f, inWater) + ToneCmds(f, result) ==> !RendersInto(c, ShadowMap(i))
  {
    var tone := ToneCmds(f, result);
    forall c, i: nat | c in MediumCmds(f, inWater) + tone
      ensures !RendersInto(c, ShadowMap(i))
    {
      if c == tone[0] {
        assert c.colors == [Att(result, Discard)];
      }
    }
  }

  /** drawShadowMap alone: what it draws and clears, in terms of the shadow resolution. */
  lemma ShadowPartGated(f: FrameState, lightY: real)
    ensures forall i: nat :: View(DrawShadow(i)) in ShadowMapCmds(f, lightY) <==>
      f.shadowResolution > 0 && lightY > f.minShadowY && i < ShadowLayers
    ensures forall i: nat :: i < ShadowLayers && f.shadowResolution > 0 ==>
      Framebuffer([], Some(Att(ShadowMap(i), Clear(0.0)))) in ShadowMapCmds(f, lightY)
    ensures f.shadowResolution == 0 ==> ShadowMapCmds(f, lightY) == []
  {
    CascadesShape(ShadowLayers, lightY, f.minShadowY);
  }
}
