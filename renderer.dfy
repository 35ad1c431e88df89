/**
 * The Renderer object (game/graphics/renderer.cpp:28-665): the targets and descriptor sets it
 * owns, the variants it selects, and the commands it records for a frame. GPU objects are
 * handles; device calls that do work (waitIdle, submit, fence waits) are appended to gpuLog.
 */
module Renderer {
  import opened Wrappers
  import opened Gpu
  import Pot
  import opened HiZ
  import opened Variants
  import opened Binder
  import opened Frame
  import Passes

  /** The settings renderer.cpp reads; shadowResolution is never assigned in the file. */
  datatype Settings = Settings(shadowResolution: U32, zEnvMappingEnabled: bool, zCloudShadowScale: bool)

  /** Renderer::hiz: the main hi-Z pyramid and the fixed 64x64 shadow pyramid. */
  datatype HiZState = HiZState(
    hiZ: Image, uboPot: Desc, uboMip: seq<Desc>,
    smProj: Image, uboReproj: Desc, hiZSm1: Image, uboPotSm1: Desc, uboMipSm1: seq<Desc>)

  /** Renderer::shadow: the shadow-resolve pipeline and its descriptors. */
  datatype ShadowState = ShadowState(composePso: Option<Pso>, ubo: Desc)

  /** Renderer::water. */
  datatype WaterState = WaterState(reflectionsPso: Option<Pso>, ubo: Desc, underUbo: Desc)

  /** Renderer::ssao, including the ambient compose pass it feeds. */
  datatype SsaoState = SsaoState(
    ssaoBuf: Image, ssaoPso: Option<Pso>, uboSsao: Desc, ambientComposePso: Option<Pso>, uboCompose: Desc)

  /** Renderer::irradiance. */
  datatype IrradianceState = IrradianceState(lut: Image, pso: Option<Pso>, ubo: Desc)

  /** Renderer::tonemapping. */
  datatype ToneState = ToneState(pso: Option<Pso>, uboTone: Desc)

  /** A culling frustum: cleared, or made for a target of the given size (the matrix is not modelled). */
  datatype Frustum = Cleared | Made(w: U32, h: U32)

  /** The frusta draw prepares: the two shadow cascades and the main view. */
  datatype Frusta = Frusta(shadow0: Frustum, shadow1: Frustum, main: Frustum)

  /**
   * The hi-Z size resetSwapchain computes for a w x h swapchain: padded to powers of two, then
   * shrunk to a tile. The swapchain size is taken as the uint32 bits nextPot works on.
   */
  ghost function HiZTile(w: bv32, h: bv32): Size {
    ShrinkToTile(Size(Pot.NextPotOf(w) as int, Pot.NextPotOf(h) as int))
  }

  /**
   * For swapchain sizes whose powers of two fit, the padded base is at least the swapchain size
   * and the shrunk tile is between 1x1 and 64x64 (renderer.cpp:83-91).
   */
  lemma HiZTileBounds(w: bv32, h: bv32)
    requires 1 <= w <= 0x8000_0000 && 1 <= h <= 0x8000_0000
    ensures w <= Pot.NextPotOf(w) && h <= Pot.NextPotOf(h)
    ensures 1 <= HiZTile(w, h).w <= 64 && 1 <= HiZTile(w, h).h <= 64
  {
    var pw := PaddedBounds(w);
    var ph := PaddedBounds(h);
    ShrinkBounds(Size(pw, ph));
  }

  /** The padded size of x is not below x and, as an integer, at least 1. */
  lemma PaddedBounds(x: bv32) returns (p: U32)
    requires 1 <= x <= 0x8000_0000
    ensures x <= Pot.NextPotOf(x) && p == Pot.NextPotOf(x) as int && 1 <= p
  {
    Pot.NextPotIsLeast(x, 0x8000_0000);
    PositiveAsInt(Pot.NextPotOf(x));
    p := Pot.NextPotOf(x) as int;
  }

  /** A non-zero uint32 is a positive integer. */
  lemma PositiveAsInt(a: bv32)
    requires 1 <= a
    ensures 1 <= a as int
  {
  }

  /** What setShadowMaps receives: one entry per cascade, true where the map is not empty. */
  function ShownMaps(maps: seq<Image>): seq<bool> {
    if |maps| == 0 then [] else ShownMaps(maps[..|maps| - 1]) + [maps[|maps| - 1].Image?]
  }

  /** The world view is handed one entry per cascade, set exactly where the map is not empty. */
  lemma {:induction false} ShownMapsAt(maps: seq<Image>)
    ensures |ShownMaps(maps)| == |maps|
    ensures forall i :: 0 <= i < |maps| ==> (ShownMaps(maps)[i] <==> maps[i].Image?)
  {
    if |maps| > 0 {
      ShownMapsAt(maps[..|maps| - 1]);
    }
  }

  /** hiz.uboReproj slot 1 is bound only when the set exists (renderer.cpp:231-233). */
  function Reprojected(d: Desc, wv: Option<WorldView>): Desc {
    if wv.Some? && d.Desc? then Bind(d, ReprojSlots) else d
  }

  /** Renderer::hiz after prepareUniforms. */
  function PreparedHiZ(s: HiZState, wv: Option<WorldView>): HiZState {
    s.(uboReproj := Reprojected(s.uboReproj, wv))
  }

  /** Renderer::ssao after prepareUniforms: slot 4 of the compose set depends on cloud shadows. */
  function PreparedSsao(s: SsaoState, wv: Option<WorldView>, cloudShadowScale: bool): SsaoState {
    s.(uboSsao := Prepared(s.uboSsao, wv, SsaoSlots),
       uboCompose := Prepared(s.uboCompose, wv, ComposeSlots(cloudShadowScale)))
  }

  /** Renderer::tonemapping after prepareUniforms. */
  function PreparedTone(s: ToneState, wv: Option<WorldView>): ToneState {
    s.(uboTone := Prepared(s.uboTone, wv, ToneSlots))
  }

  /** Renderer::water after prepareUniforms. */
  function PreparedWater(s: WaterState, wv: Option<WorldView>): WaterState {
    s.(underUbo := Prepared(s.underUbo, wv, UnderwaterSlots), ubo := Prepared(s.ubo, wv, WaterSlots))
  }

  /** Renderer::irradiance after prepareUniforms. */
  function PreparedIrradiance(s: IrradianceState, wv: Option<WorldView>): IrradianceState {
    s.(ubo := Prepared(s.ubo, wv, IrradianceSlots))
  }

  /**
   * Renderer::shadow after prepareUniforms: the base slots, the non-empty cascades, then the
   * ray-query slots of setupTlas.
   */
  function PreparedShadow(s: ShadowState, maps: seq<Image>, wv: Option<WorldView>): ShadowState
    requires |maps| == ShadowLayers
  {
    if wv.None? then s
    else s.(ubo := Bind(Bind(Bind(s.ubo, ShadowBaseSlots), ShadowMapSlots(maps, ShadowLayers)),
                        TlasBinding(s.composePso, wv)))
  }

  /** Freshly created for pso p, then prepared, shadow.ubo has exactly the slots ShadowSlotBound names. */
  lemma PreparedShadowSlots(p: Pso, maps: seq<Image>, wv: WorldView, k: nat)
    requires |maps| == ShadowLayers
    ensures var d := PreparedShadow(ShadowState(Some(p), Fresh(p)), maps, Some(wv)).ubo;
      d.Desc? && d.layout == p && (k in d.slots <==> ShadowSlotBound(k, p, maps, Some(wv)))
  {
    assert PreparedShadow(ShadowState(Some(p), Fresh(p)), maps, Some(wv)).ubo == ShadowUboSteps(p, maps, Some(wv));
    ShadowUboSlot(p, maps, Some(wv), k);
  }

  /**
   * Every pipeline resetSwapchain and initSettings select is one of its own pass, so the frame of
   * a renderer that has been through both meets Frame.Roles.
   */
  lemma SelectedInRole(rayQuery: bool, nonUniformIndexing: bool, shadowResolution: U32, cloud: bool, env: bool)
    ensures Frame.PipelinesInRole(Some(ShadowResolveVariant(rayQuery, nonUniformIndexing, shadowResolution)),
      Some(Ssao), Some(AmbientVariant(cloud)), Some(ReflectionVariant(env)), Some(Irradiance), Some(Tonemapping))
  {
  }

  /** prepareUniforms leaves the empty sets of a renderer that has no pipelines yet empty. */
  lemma PreparedInitial(maps: seq<Image>, wv: Option<WorldView>)
    requires maps == [NoImage, NoImage]
    ensures var hiz := HiZState(NoImage, NoDesc, [], NoImage, NoDesc, NoImage, NoDesc, []);
      PreparedHiZ(hiz, wv) == hiz
    ensures PreparedShadow(ShadowState(None, NoDesc), maps, wv) == ShadowState(None, NoDesc)
    ensures PreparedTone(ToneState(None, NoDesc), wv) == ToneState(None, NoDesc)
    ensures PreparedIrradiance(IrradianceState(NoImage, None, NoDesc), wv) == IrradianceState(NoImage, None, NoDesc)
    ensures ShownMaps(maps) == [false, false]
  {
    ShownMapsAt(maps);
  }

  /**
   * The culling volumes draw prepares (renderer.cpp:398-409): the two cascade frusta are made
   * for their shadow maps only when the light is above the minimum elevation, the main one always.
   */
  function FrustaFor(lightY: real, minShadowY: real, maps: seq<Image>, zbuffer: Image): Frusta
    requires |maps| == ShadowLayers
  {
    var main := Made(W(zbuffer), H(zbuffer));
    if lightY > minShadowY then Frusta(Made(W(maps[0]), H(maps[0])), Made(W(maps[1]), H(maps[1])), main)
    else Frusta(Cleared, Cleared, main)
  }

  /**
   * The cascade frusta are made exactly when, with shadows on, drawShadowMap draws that cascade:
   * both follow the same light-elevation test.
   */
  lemma FrustaMatchCascades(f: FrameState, lightY: real, maps: seq<Image>, zbuffer: Image)
    requires |maps| == ShadowLayers && f.shadowResolution > 0
    ensures FrustaFor(lightY, f.minShadowY, maps, zbuffer).shadow0.Made? <==>
      View(DrawShadow(0)) in ShadowMapCmds(f, lightY)
    ensures FrustaFor(lightY, f.minShadowY, maps, zbuffer).shadow1.Made? <==>
      View(DrawShadow(1)) in ShadowMapCmds(f, lightY)
    ensures FrustaFor(lightY, f.minShadowY, maps, zbuffer).main == Made(W(zbuffer), H(zbuffer))
  {
    ShadowPartGated(f, lightY);
  }

  /** The cascade loop of prepareUniforms (renderer.cpp:255-259): slot 4 + r for each non-empty map. */
  method BindShadowMaps(d: Desc, shadowMap: seq<Image>) returns (ubo: Desc)
    requires |shadowMap| == ShadowLayers
    ensures ubo == Bind(d, ShadowMapSlots(shadowMap, ShadowLayers))
  {
    ubo := d;
    assert Bind(d, map[]) == d;
    for r := 0 to ShadowLayers
      invariant ubo == Bind(d, ShadowMapSlots(shadowMap, r))
    {
      if shadowMap[r].NoImage? {
        continue;
      }
      BindThenSet(d, ShadowMapSlots(shadowMap, r), 4 + r, Tex(ShadowMap(r)));
      ubo := Set(ubo, 4 + r, Tex(ShadowMap(r)));
    }
  }

  /** The loop of prepareUniforms that fills the array handed to setShadowMaps (renderer.cpp:292-297). */
  method ShadowMapPointers(shadowMap: seq<Image>) returns (sh: seq<bool>)
    requires |shadowMap| == ShadowLayers
    ensures sh == ShownMaps(shadowMap)
  {
    sh := [];
    for i := 0 to ShadowLayers
      invariant sh == ShownMaps(shadowMap[..i])
    {
      assert shadowMap[..i + 1][..i] == shadowMap[..i];
      sh := sh + [shadowMap[i].Image?];
    }
    assert shadowMap[..ShadowLayers] == shadowMap;
  }

  /**
   * The mesh-shading block of resetSwapchain (renderer.cpp:82-128): the scene pyramid, padded to
   * powers of two and shrunk to one 64 x 64 tile, and, with shadows on, the 64 x 64 pyramid of
   * the reprojected shadow map. Without shadows the shadow-pyramid sets keep their old value.
   */
  method BuildPyramids(w: U32, h: U32, smSize: U32, prev: HiZState) returns (s: HiZState)
    ensures var tile := HiZTile(w as bv32, h as bv32);
      s.hiZ == Image(tile.w, tile.h) &&
      s.uboPot == Desc(HiZPot, map[0 := Tex(ZBuffer), 1 := Tex(HiZ)]) &&
      s.uboMip == MipLinks(HiZ, MipCount(tile))
    ensures smSize > 0 ==>
      s.smProj == Image(smSize, smSize) &&
      s.uboReproj == Desc(HiZReproj, map[0 := Tex(ZBuffer)]) &&
      s.hiZSm1 == Image(64, 64) &&
      s.uboPotSm1 == Desc(HiZPot, map[0 := Tex(SmProj), 1 := Tex(HiZSm1)]) &&
      s.uboMipSm1 == MipLinks(HiZSm1, 6)
    ensures smSize == 0 ==>
      s.smProj == prev.smProj && s.uboReproj == prev.uboReproj && s.hiZSm1 == prev.hiZSm1 &&
      s.uboPotSm1 == prev.uboPotSm1 && s.uboMipSm1 == prev.uboMipSm1
  {
    s := ScenePyramid(w, h, prev);
    s := ShadowPyramid(smSize, s);
  }

  /** The scene pyramid of resetSwapchain (renderer.cpp:83-104): power-of-two padding, shrunk to a 64 x 64 tile. */
  method ScenePyramid(w: U32, h: U32, prev: HiZState) returns (s: HiZState)
    ensures var tile := HiZTile(w as bv32, h as bv32);
      s == prev.(hiZ := Image(tile.w, tile.h), uboPot := Desc(HiZPot, map[0 := Tex(ZBuffer), 1 := Tex(HiZ)]),
                 uboMip := MipLinks(HiZ, MipCount(tile)))
  {
    var pw := Pot.NextPot(w as bv32);
    var ph := Pot.NextPot(h as bv32);
    var hw, hh := Shrink(pw as int, ph as int);
    var mips, _, _ := BuildMipLinks(HiZ, hw, hh);
    s := prev.(hiZ := Image(hw, hh), uboPot := Set(Set(Fresh(HiZPot), 0, Tex(ZBuffer)), 1, Tex(HiZ)), uboMip := mips);
  }

  /** The shadow-map pyramid of resetSwapchain (renderer.cpp:106-127), built only with shadows on. */
  method ShadowPyramid(smSize: U32, prev: HiZState) returns (s: HiZState)
    ensures smSize > 0 ==>
      s == prev.(smProj := Image(smSize, smSize), uboReproj := Desc(HiZReproj, map[0 := Tex(ZBuffer)]),
                 hiZSm1 := Image(64, 64), uboPotSm1 := Desc(HiZPot, map[0 := Tex(SmProj), 1 := Tex(HiZSm1)]),
                 uboMipSm1 := MipLinks(HiZSm1, 6))
    ensures smSize == 0 ==> s == prev
  {
    s := prev;
    if smSize > 0 {
      var mipsSm, _, _ := BuildMipLinks(HiZSm1, 64, 64);
      ShadowPyramidHasSixLevels();
      s := s.(smProj := Image(smSize, smSize), uboReproj := Set(Fresh(HiZReproj), 0, Tex(ZBuffer)),
              hiZSm1 := Image(64, 64), uboPotSm1 := Set(Set(Fresh(HiZPot), 0, Tex(SmProj)), 1, Tex(HiZSm1)),
              uboMipSm1 := mipsSm);
    }
  }

  /**
   * Renderer::setupTlas (renderer.cpp:306-322): the ray-query slots of shadow.ubo, bound only
   * with a world view that has a TLAS and the ray-query resolve pipeline.
   */
  method SetupTlas(s: ShadowState, wv: Option<WorldView>) returns (r: ShadowState)
    ensures r == s.(ubo := Bind(s.ubo, TlasBinding(s.composePso, wv)))
  {
    r := s;
    if wv.None? {
      assert Bind(s.ubo, map[]) == s.ubo;
      return;
    }
    if !wv.value.hasTlas {
      assert Bind(s.ubo, map[]) == s.ubo;
      return;
    }
    if s.composePso == Some(ShadowResolveRq) {
      r := s.(ubo := Bind(s.ubo, TlasSlots));
    } else {
      assert Bind(s.ubo, map[]) == s.ubo;
    }
  }

  /** The swapchain-sized attachments of the renderer, recreated together by resetSwapchain. */
  datatype Attachments = Attachments(sceneLinear: Image, zbuffer: Image, sceneOpaque: Image, sceneDepth: Image,
                                     gbufDiffuse: Image, gbufNormal: Image)

  class Renderer {
    const device: Device
    const engine: Engine
    /** Camera::minShadowY: the light elevation below which no cascade is drawn. */
    const minShadowY: real

    var settings: Settings
    var shadowFormat: TextureFormat
    var zBufferFormat: TextureFormat

    var att: Attachments
    var shadowMap: seq<Image>
    var uboStash: Desc

    var hiz: HiZState
    var shadow: ShadowState
    var water: WaterState
    var ssao: SsaoState
    var irradiance: IrradianceState
    var tonemapping: ToneState

    var frusta: Frusta
    /** The shadow maps last handed to the world view (true for a non-null texture). */
    var viewShadowMaps: seq<bool>
    /** Device operations issued so far. */
    var gpuLog: seq<GpuOp>

    /** One shadow-map slot per cascade. */
    predicate Valid()
      reads this`shadowMap
    {
      |shadowMap| == ShadowLayers
    }

    /** No target has been allocated yet: the state before the first resetSwapchain. */
    predicate Unsized()
      reads this`att, this`shadowMap, this`uboStash, this`frusta
    {
      att == Attachments(NoImage, NoImage, NoImage, NoImage, NoImage, NoImage) &&
      shadowMap == [NoImage, NoImage] && uboStash == NoDesc && frusta == Frusta(Cleared, Cleared, Cleared)
    }

    /** The state a frame reads. */
    function State(): FrameState
      reads this`settings, this`hiz, this`ssao, this`irradiance, this`shadow, this`zBufferFormat,
        this`uboStash, this`water, this`att, this`tonemapping
    {
      FrameState(
        engine.meshShading,
        hiz.hiZ, hiz.uboPot, hiz.uboMip,
        settings.shadowResolution, minShadowY,
        settings.zCloudShadowScale, ssao.ssaoPso, ssao.uboSsao, ssao.ssaoBuf,
        irradiance.pso, irradiance.ubo,
        shadow.composePso, shadow.ubo,
        ssao.ambientComposePso, ssao.uboCompose,
        zBufferFormat in device.samplerFormats, uboStash,
        water.reflectionsPso, water.ubo, att.gbufDiffuse,
        water.underUbo,
        tonemapping.pso, tonemapping.uboTone)
    }

    /**
     * Renderer::Renderer (renderer.cpp:28-62): pick the shadow and z-buffer formats, then apply
     * the settings. A format for which no entry qualifies keeps its initial value.
     */
    constructor (device: Device, engine: Engine, minShadowY: real, shadowResolution: U32,
                 shadowFormat0: TextureFormat, zBufferFormat0: TextureFormat,
                 envSetting: int, cloudSetting: int, wv: Option<WorldView>)
      ensures Valid()
      ensures shadowFormat == if FirstUsable(ShadowPrefs, device).Some? then FirstUsable(ShadowPrefs, device).value else shadowFormat0
      ensures zBufferFormat == if FirstUsable(ZPrefs, device).Some? then FirstUsable(ZPrefs, device).value else zBufferFormat0
      ensures settings == Settings(shadowResolution, envSetting != 0, cloudSetting != 0)
      ensures ssao.ambientComposePso == Some(AmbientVariant(cloudSetting != 0))
      ensures gpuLog == [WaitIdle]
      ensures Unsized()
      ensures hiz == HiZState(NoImage, NoDesc, [], NoImage, NoDesc, NoImage, NoDesc, [])
      ensures var p := AmbientVariant(cloudSetting != 0);
        ssao == PreparedSsao(SsaoState(NoImage, None, NoDesc, Some(p), Fresh(p)), wv, cloudSetting != 0)
      ensures var p := ReflectionVariant(envSetting != 0);
        water == PreparedWater(WaterState(Some(p), Fresh(p), NoDesc), wv)
      ensures shadow == ShadowState(None, NoDesc) && tonemapping == ToneState(None, NoDesc)
      ensures irradiance == IrradianceState(NoImage, None, NoDesc)
      ensures viewShadowMaps == if wv.None? then [] else [false, false]
    {
      this.device := device;
      this.engine := engine;
      this.minShadowY := minShadowY;
      settings := Settings(shadowResolution, false, false);
      var sf := ScanFormats(device, ShadowPrefs, shadowFormat0);
      var zf := ScanFormats(device, ZPrefs, zBufferFormat0);
      shadowFormat, zBufferFormat := sf, zf;
      att := Attachments(NoImage, NoImage, NoImage, NoImage, NoImage, NoImage);
      shadowMap := [NoImage, NoImage];
      uboStash := NoDesc;
      hiz := HiZState(NoImage, NoDesc, [], NoImage, NoDesc, NoImage, NoDesc, []);
      shadow := ShadowState(None, NoDesc);
      water := WaterState(None, NoDesc, NoDesc);
      ssao := SsaoState(NoImage, None, NoDesc, None, NoDesc);
      irradiance := IrradianceState(NoImage, None, NoDesc);
      tonemapping := ToneState(None, NoDesc);
      frusta := Frusta(Cleared, Cleared, Cleared);
      viewShadowMaps := [];
      gpuLog := [];
      new;
      assert Unsized();
      InitSettings(envSetting, cloudSetting, wv);
      PreparedInitial([NoImage, NoImage], wv);
    }

    /**
     * The rebuild step of initSettings (renderer.cpp:189-194): wait for the GPU, create the
     * water and compose sets for the selected pipelines, and rebind everything.
     */
    method RecreateSets(wv: Option<WorldView>)
      requires Valid() && ssao.ambientComposePso.Some? && water.reflectionsPso.Some?
      modifies this`ssao, this`water, this`gpuLog, this`hiz, this`tonemapping, this`shadow, this`irradiance,
        this`viewShadowMaps
      ensures gpuLog == old(gpuLog) + [WaitIdle]
      ensures ssao == PreparedSsao(old(ssao).(uboCompose := Fresh(old(ssao.ambientComposePso.value))), wv,
        settings.zCloudShadowScale)
      ensures water == PreparedWater(old(water).(ubo := Fresh(old(water.reflectionsPso.value))), wv)
      ensures hiz == PreparedHiZ(old(hiz), wv) && tonemapping == PreparedTone(old(tonemapping), wv)
      ensures shadow == PreparedShadow(old(shadow), shadowMap, wv)
      ensures irradiance == PreparedIrradiance(old(irradiance), wv)
      ensures viewShadowMaps == if wv.None? then old(viewShadowMaps) else ShownMaps(shadowMap)
    {
      gpuLog := gpuLog + [WaitIdle];
      water := water.(ubo := Fresh(water.reflectionsPso.value));
      ssao := ssao.(uboCompose := Fresh(ssao.ambientComposePso.value));
      PrepareUniforms(wv);
    }

    /**
     * Renderer::initSettings (renderer.cpp:170-196), as written: prevCompose saves the reflection
     * pipeline, so the rebuild guard holds on every call; the compose and water sets are
     * recreated for the selected pipelines and everything is rebound each time.
     */
    method InitSettings(envSetting: int, cloudSetting: int, wv: Option<WorldView>)
      requires Valid()
      modifies this`settings, this`ssao, this`water, this`gpuLog, this`hiz, this`tonemapping,
        this`shadow, this`irradiance, this`viewShadowMaps
      ensures settings == old(settings).(zEnvMappingEnabled := envSetting != 0, zCloudShadowScale := cloudSetting != 0)
      ensures ssao.ambientComposePso == Some(AmbientVariant(cloudSetting != 0))
      ensures water.reflectionsPso == Some(ReflectionVariant(envSetting != 0))
      ensures gpuLog == old(gpuLog) + [WaitIdle]
      ensures ssao == PreparedSsao(old(ssao).(ambientComposePso := Some(AmbientVariant(cloudSetting != 0)),
        uboCompose := Fresh(AmbientVariant(cloudSetting != 0))), wv, cloudSetting != 0)
      ensures water == PreparedWater(old(water).(reflectionsPso := Some(ReflectionVariant(envSetting != 0)),
        ubo := Fresh(ReflectionVariant(envSetting != 0))), wv)
      ensures hiz == PreparedHiZ(old(hiz), wv) && tonemapping == PreparedTone(old(tonemapping), wv)
      ensures shadow == PreparedShadow(old(shadow), shadowMap, wv)
      ensures irradiance == PreparedIrradiance(old(irradiance), wv)
      ensures viewShadowMaps == if wv.None? then old(viewShadowMaps) else ShownMaps(shadowMap)
    {
      settings := settings.(zEnvMappingEnabled := envSetting != 0, zCloudShadowScale := cloudSetting != 0);
      var prevCompose := water.reflectionsPso;
      if settings.zCloudShadowScale {
        ssao := ssao.(ambientComposePso := Some(AmbientComposeSsao));
      } else {
        ssao := ssao.(ambientComposePso := Some(AmbientCompose));
      }
      var prevRefl := water.reflectionsPso;
      if settings.zEnvMappingEnabled {
        water := water.(reflectionsPso := Some(WaterReflectionSSR));
      } else {
        water := water.(reflectionsPso := Some(WaterReflection));
      }
      if ssao.ambientComposePso != prevCompose || water.reflectionsPso != prevRefl {
        RecreateSets(wv);
      }
    }

    /**
     * initSettings with the compose pipeline saved before it is reassigned (renderer.cpp:178
     * corrected): the sets are recreated and rebound only when a selected pipeline changed.
     */
    method InitSettingsIntended(envSetting: int, cloudSetting: int, wv: Option<WorldView>)
      requires Valid()
      modifies this`settings, this`ssao, this`water, this`gpuLog, this`hiz, this`tonemapping,
        this`shadow, this`irradiance, this`viewShadowMaps
      ensures settings == old(settings).(zEnvMappingEnabled := envSetting != 0, zCloudShadowScale := cloudSetting != 0)
      ensures ssao.ambientComposePso == Some(AmbientVariant(cloudSetting != 0))
      ensures water.reflectionsPso == Some(ReflectionVariant(envSetting != 0))
      ensures var rebuild := IntendedGuard(old(ssao.ambientComposePso), old(water.reflectionsPso), cloudSetting != 0, envSetting != 0);
        gpuLog == old(gpuLog) + (if rebuild then [WaitIdle] else [])
      ensures !IntendedGuard(old(ssao.ambientComposePso), old(water.reflectionsPso), cloudSetting != 0, envSetting != 0) ==>
        ssao == old(ssao) && water == old(water) && hiz == old(hiz) && tonemapping == old(tonemapping) &&
        shadow == old(shadow) && irradiance == old(irradiance) && viewShadowMaps == old(viewShadowMaps)
      ensures IntendedGuard(old(ssao.ambientComposePso), old(water.reflectionsPso), cloudSetting != 0, envSetting != 0) ==>
        ssao == PreparedSsao(old(ssao).(ambientComposePso := Some(AmbientVariant(cloudSetting != 0)),
          uboCompose := Fresh(AmbientVariant(cloudSetting != 0))), wv, cloudSetting != 0) &&
        water == PreparedWater(old(water).(reflectionsPso := Some(ReflectionVariant(envSetting != 0)),
          ubo := Fresh(ReflectionVariant(envSetting != 0))), wv) &&
        hiz == PreparedHiZ(old(hiz), wv) && shadow == PreparedShadow(old(shadow), shadowMap, wv) &&
        tonemapping == PreparedTone(old(tonemapping), wv) && irradiance == PreparedIrradiance(old(irradiance), wv) &&
        viewShadowMaps == (if wv.None? then old(viewShadowMaps) else ShownMaps(shadowMap))
    {
      settings := settings.(zEnvMappingEnabled := envSetting != 0, zCloudShadowScale := cloudSetting != 0);
      var prevCompose := ssao.ambientComposePso;
      if settings.zCloudShadowScale {
        ssao := ssao.(ambientComposePso := Some(AmbientComposeSsao));
      } else {
        ssao := ssao.(ambientComposePso := Some(AmbientCompose));
      }
      var prevRefl := water.reflectionsPso;
      if settings.zEnvMappingEnabled {
        water := water.(reflectionsPso := Some(WaterReflectionSSR));
      } else {
        water := water.(reflectionsPso := Some(WaterReflection));
      }
      if ssao.ambientComposePso != prevCompose || water.reflectionsPso != prevRefl {
        RecreateSets(wv);
      }
    }

    /**
     * Renderer::prepareUniforms (renderer.cpp:223-304): without a world view nothing changes;
     * otherwise every set is bound to its slots, shadow.ubo getting the base slots, the non-empty
     * cascades and, through setupTlas, the ray-query slots.
     */
    method PrepareUniforms(wv: Option<WorldView>)
      requires Valid()
      modifies this`hiz, this`ssao, this`tonemapping, this`shadow, this`water, this`irradiance,
        this`viewShadowMaps
      ensures hiz == PreparedHiZ(old(hiz), wv)
      ensures ssao == PreparedSsao(old(ssao), wv, settings.zCloudShadowScale)
      ensures tonemapping == PreparedTone(old(tonemapping), wv)
      ensures shadow == PreparedShadow(old(shadow), shadowMap, wv)
      ensures water == PreparedWater(old(water), wv)
      ensures irradiance == PreparedIrradiance(old(irradiance), wv)
      ensures viewShadowMaps == if wv.None? then old(viewShadowMaps) else ShownMaps(shadowMap)
    {
      if wv.None? {
        return;
      }
      if hiz.uboReproj.Desc? {
        hiz := hiz.(uboReproj := Bind(hiz.uboReproj, ReprojSlots));
      }
      ssao := PreparedSsao(ssao, wv, settings.zCloudShadowScale);
      tonemapping := PreparedTone(tonemapping, wv);
      var shadowUbo := BindShadowMaps(Bind(shadow.ubo, ShadowBaseSlots), shadowMap);
      var sh := SetupTlas(shadow.(ubo := shadowUbo), wv);
      shadow := sh;
      water := PreparedWater(water, wv);
      irradiance := PreparedIrradiance(irradiance, wv);
      var shown := ShadowMapPointers(shadowMap);
      viewShadowMaps := shown;
    }

    /** Renderer::onWorldChanged (renderer.cpp:198-204): rebind everything for the new world. */
    method OnWorldChanged(wv: Option<WorldView>)
      requires Valid()
      modifies this`hiz, this`ssao, this`tonemapping, this`shadow, this`water, this`irradiance,
        this`viewShadowMaps
      ensures hiz == PreparedHiZ(old(hiz), wv) && ssao == PreparedSsao(old(ssao), wv, settings.zCloudShadowScale)
      ensures tonemapping == PreparedTone(old(tonemapping), wv)
      ensures shadow == PreparedShadow(old(shadow), shadowMap, wv)
      ensures water == PreparedWater(old(water), wv) && irradiance == PreparedIrradiance(old(irradiance), wv)
      ensures viewShadowMaps == if wv.None? then old(viewShadowMaps) else ShownMaps(shadowMap)
    {
      PrepareUniforms(wv);
    }

    /** The shadow-map loop of resetSwapchain (renderer.cpp:130-133). */
    method AllocateShadowMaps()
      requires Valid()
      modifies this`shadowMap
      ensures Valid()
      ensures shadowMap == if settings.shadowResolution > 0
        then [Image(settings.shadowResolution, settings.shadowResolution), Image(settings.shadowResolution, settings.shadowResolution)]
        else old(shadowMap)
    {
      var smSize := settings.shadowResolution;
      if smSize > 0 {
        for i := 0 to ShadowLayers
          invariant |shadowMap| == ShadowLayers
          invariant forall j :: 0 <= j < i ==> shadowMap[j] == Image(smSize, smSize)
        {
          shadowMap := shadowMap[i := Image(smSize, smSize)];
        }
      }
    }

    /** The swapchain-sized targets of resetSwapchain (renderer.cpp:79-80, 135-143). */
    method ResizeTargets(w: U32, h: U32)
      modifies this`att, this`uboStash
      ensures att == Attachments(Image(w, h), Image(w, h), Image(w, h), Image(w, h), Image(w, h), Image(w, h))
      ensures uboStash == Desc(Stash, map[0 := Tex(SceneLinear), 1 := Tex(ZBuffer)])
    {
      att := Attachments(Image(w, h), Image(w, h), Image(w, h), Image(w, h), Image(w, h), Image(w, h));
      uboStash := Set(Set(Fresh(Stash), 0, Tex(SceneLinear)), 1, Tex(ZBuffer));
    }

    /**
     * The pipelines and sets of resetSwapchain (renderer.cpp:145-165): the shadow-resolve variant
     * for the current capabilities and settings, and fresh, unbound sets for every pass.
     */
    method CreatePasses(w: U32, h: U32)
      modifies this`shadow, this`water, this`ssao, this`irradiance, this`tonemapping
      ensures shadow == ShadowState(Some(ShadowResolveVariant(engine.rayQuery, device.nonUniformIndexing, settings.shadowResolution)),
        Fresh(ShadowResolveVariant(engine.rayQuery, device.nonUniformIndexing, settings.shadowResolution)))
      ensures water == old(water).(underUbo := Fresh(UnderwaterT))
      ensures ssao == old(ssao).(ssaoBuf := Image(w, h), ssaoPso := Some(Ssao), uboSsao := Fresh(Ssao))
      ensures irradiance == IrradianceState(Image(3, 2), Some(Irradiance), Fresh(Irradiance))
      ensures tonemapping == ToneState(Some(Tonemapping), Fresh(Tonemapping))
    {
      var pso: Pso;
      if engine.rayQuery && device.nonUniformIndexing && settings.shadowResolution > 0 {
        pso := ShadowResolveRq;
      } else if settings.shadowResolution > 0 {
        pso := ShadowResolveSh;
      } else {
        pso := ShadowResolve;
      }
      shadow := ShadowState(Some(pso), Fresh(pso));
      water := water.(underUbo := Fresh(UnderwaterT));
      ssao := ssao.(ssaoBuf := Image(w, h), ssaoPso := Some(Ssao), uboSsao := Fresh(Ssao));
      irradiance := IrradianceState(Image(3, 2), Some(Irradiance), Fresh(Irradiance));
      tonemapping := ToneState(Some(Tonemapping), Fresh(Tonemapping));
    }

    /** The image part of resetSwapchain (renderer.cpp:68-143): wait for the GPU, then the targets, hi-Z pyramids, shadow maps. */
    method ResizeImages(w: U32, h: U32)
      requires Valid()
      modifies this`gpuLog, this`att, this`shadowMap, this`uboStash, this`hiz
      ensures Valid()
      ensures gpuLog == old(gpuLog) + [WaitIdle]
      ensures att == Attachments(Image(w, h), Image(w, h), Image(w, h), Image(w, h), Image(w, h), Image(w, h))
      ensures engine.meshShading ==> var tile := HiZTile(w as bv32, h as bv32);
        hiz.hiZ == Image(tile.w, tile.h) && hiz.uboMip == MipLinks(HiZ, MipCount(tile)) &&
        hiz.uboPot == Desc(HiZPot, map[0 := Tex(ZBuffer), 1 := Tex(HiZ)])
      ensures engine.meshShading && settings.shadowResolution > 0 ==>
        hiz.uboMipSm1 == MipLinks(HiZSm1, 6) && hiz.hiZSm1 == Image(64, 64)
      ensures !engine.meshShading ==> hiz == old(hiz)
      ensures shadowMap == if settings.shadowResolution > 0
        then [Image(settings.shadowResolution, settings.shadowResolution), Image(settings.shadowResolution, settings.shadowResolution)]
        else old(shadowMap)
      ensures uboStash == Desc(Stash, map[0 := Tex(SceneLinear), 1 := Tex(ZBuffer)])
    {
      gpuLog := gpuLog + [WaitIdle];
      ResizeTargets(w, h);
      if engine.meshShading {
        hiz := BuildPyramids(w, h, settings.shadowResolution, hiz);
      }
      AllocateShadowMaps();
    }

    /** The pass part of resetSwapchain (renderer.cpp:145-167): pipelines, fresh sets, then prepareUniforms. */
    method RecreatePasses(w: U32, h: U32, wv: Option<WorldView>)
      requires Valid()
      modifies this`hiz, this`shadow, this`water, this`ssao, this`irradiance, this`tonemapping, this`viewShadowMaps
      ensures hiz == PreparedHiZ(old(hiz), wv)
      ensures var p := ShadowResolveVariant(engine.rayQuery, device.nonUniformIndexing, settings.shadowResolution);
        shadow == PreparedShadow(ShadowState(Some(p), Fresh(p)), shadowMap, wv)
      ensures water == PreparedWater(old(water).(underUbo := Fresh(UnderwaterT)), wv)
      ensures ssao == PreparedSsao(SsaoState(Image(w, h), Some(Ssao), Fresh(Ssao), old(ssao.ambientComposePso), old(ssao.uboCompose)),
        wv, settings.zCloudShadowScale)
      ensures irradiance == PreparedIrradiance(IrradianceState(Image(3, 2), Some(Irradiance), Fresh(Irradiance)), wv)
      ensures tonemapping == PreparedTone(ToneState(Some(Tonemapping), Fresh(Tonemapping)), wv)
      ensures viewShadowMaps == if wv.None? then old(viewShadowMaps) else ShownMaps(shadowMap)
    {
      CreatePasses(w, h);
      PrepareUniforms(wv);
    }

    /**
     * Renderer::resetSwapchain (renderer.cpp:68-168) for a w x h swapchain: wait for the GPU,
     * resize every target, rebuild the hi-Z pyramids, select the shadow-resolve variant, create
     * the sets and bind them.
     */
    method ResetSwapchain(w: U32, h: U32, wv: Option<WorldView>)
      requires Valid()
      modifies this`gpuLog, this`att, this`shadowMap, this`uboStash, this`hiz, this`shadow,
        this`water, this`ssao, this`irradiance, this`tonemapping, this`viewShadowMaps
      ensures Valid()
      ensures gpuLog == old(gpuLog) + [WaitIdle]
      ensures att == Attachments(Image(w, h), Image(w, h), Image(w, h), Image(w, h), Image(w, h), Image(w, h))
      ensures uboStash == Desc(Stash, map[0 := Tex(SceneLinear), 1 := Tex(ZBuffer)])
      ensures engine.meshShading ==> var tile := HiZTile(w as bv32, h as bv32);
        hiz.hiZ == Image(tile.w, tile.h) && hiz.uboMip == MipLinks(HiZ, MipCount(tile))
      ensures !engine.meshShading ==> hiz == PreparedHiZ(old(hiz), wv)
      ensures shadowMap == if settings.shadowResolution > 0
        then [Image(settings.shadowResolution, settings.shadowResolution), Image(settings.shadowResolution, settings.shadowResolution)]
        else old(shadowMap)
      ensures var p := ShadowResolveVariant(engine.rayQuery, device.nonUniformIndexing, settings.shadowResolution);
        shadow == PreparedShadow(ShadowState(Some(p), Fresh(p)), shadowMap, wv)
      ensures ssao == PreparedSsao(SsaoState(Image(w, h), Some(Ssao), Fresh(Ssao), old(ssao.ambientComposePso), old(ssao.uboCompose)),
        wv, settings.zCloudShadowScale)
      ensures water == PreparedWater(old(water).(underUbo := Fresh(UnderwaterT)), wv)
      ensures tonemapping == PreparedTone(ToneState(Some(Tonemapping), Fresh(Tonemapping)), wv)
      ensures irradiance == PreparedIrradiance(IrradianceState(Image(3, 2), Some(Irradiance), Fresh(Irradiance)), wv)
      ensures viewShadowMaps == if wv.None? then old(viewShadowMaps) else ShownMaps(shadowMap)
    {
      ResizeImages(w, h);
      RecreatePasses(w, h, wv);
    }

    /** The culling volumes of draw (renderer.cpp:398-409); the static updFr is always true. */
    method UpdateFrusta(view: WorldView)
      requires Valid()
      modifies this`frusta
      ensures frusta == FrustaFor(view.lightY, minShadowY, shadowMap, att.zbuffer)
    {
      if view.lightY > minShadowY {
        frusta := frusta.(shadow0 := Made(W(shadowMap[0]), H(shadowMap[0])));
        frusta := frusta.(shadow1 := Made(W(shadowMap[1]), H(shadowMap[1])));
      } else {
        frusta := frusta.(shadow0 := Cleared, shadow1 := Cleared);
      }
      frusta := frusta.(main := Made(W(att.zbuffer), H(att.zbuffer)));
    }

    /**
     * Renderer::draw(result, cmd, fId) (renderer.cpp:387-453): a blank frame without a world view
     * or a camera; otherwise the frusta are updated and the full pass sequence is recorded.
     */
    method Draw(result: Target, enc: Encoder, wv: Option<WorldView>, cam: Option<Camera>)
      requires Valid()
      modifies enc, this`frusta
      ensures frusta == if wv.None? || cam.None? then old(frusta)
        else FrustaFor(wv.value.lightY, minShadowY, shadowMap, att.zbuffer)
      ensures enc.cmds == old(enc.cmds) + FrameCmds(State(), result, wv, cam)
    {
      if wv.None? || cam.None? {
        enc.Push(Framebuffer([Att(result, Clear(0.0))], None));
        return;
      }
      UpdateFrusta(wv.value);
      var f := State();
      Passes.RecordFrame(f, result, wv.value.lightY, cam.value.inWater, enc);
    }

    /**
     * Renderer::draw for swapchain image imgId (renderer.cpp:329-352): the frame, or a clear
     * while a video plays, then the UI layer and, with the inventory open, the inventory and its
     * counters.
     */
    method DrawSwapchain(imgId: nat, enc: Encoder, wv: Option<WorldView>, cam: Option<Camera>,
                         videoActive: bool, inventoryOpen: bool)
      requires Valid()
      modifies enc, this`frusta
      ensures frusta == if videoActive || wv.None? || cam.None? then old(frusta)
        else FrustaFor(wv.value.lightY, minShadowY, shadowMap, att.zbuffer)
      ensures enc.cmds == old(enc.cmds) + PresentCmds(State(), imgId, wv, cam, videoActive, inventoryOpen)
    {
      ghost var c0 := enc.cmds;
      var result := Swapchain(imgId);
      if !videoActive {
        Draw(result, enc, wv, cam);
      } else {
        enc.Push(Framebuffer([Att(result, Clear(0.0))], None));
      }
      ghost var frame := if videoActive then BlankFrame(result) else FrameCmds(State(), result, wv, cam);
      assert enc.cmds == c0 + frame;
      Passes.DrawOverlay(result, inventoryOpen, enc);
      AppendAssoc(c0, frame, OverlayCmds(result, inventoryOpen));
    }

    /**
     * Renderer::screenshoot (renderer.cpp:648-665): wait for the GPU, record one frame into a new
     * image of the z-buffer's size, submit it and wait on its fence.
     */
    method Screenshoot(wv: Option<WorldView>, cam: Option<Camera>) returns (img: Image)
      requires Valid()
      modifies this`gpuLog, this`frusta
      ensures frusta == if wv.None? || cam.None? then old(frusta)
        else FrustaFor(wv.value.lightY, minShadowY, shadowMap, att.zbuffer)
      ensures img == Image(W(att.zbuffer), H(att.zbuffer))
      ensures gpuLog == old(gpuLog) + [WaitIdle, Submit(FrameCmds(State(), Capture, wv, cam)), FenceWait]
    {
      gpuLog := gpuLog + [WaitIdle];
      img := Image(W(att.zbuffer), H(att.zbuffer));
      var enc := new Encoder();
      Draw(Capture, enc, wv, cam);
      assert enc.cmds == FrameCmds(State(), Capture, wv, cam);
      gpuLog := gpuLog + [Submit(enc.cmds)];
      gpuLog := gpuLog + [FenceWait];
      assert gpuLog == old(gpuLog) + [WaitIdle, Submit(enc.cmds), FenceWait];
    }
  }
}
