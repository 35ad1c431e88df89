/**
 * The descriptor slots prepareUniforms and setupTlas bind (game/graphics/renderer.cpp:223-322),
 * as slot maps, and what is bound under which condition.
 */
module Binder {
  import opened Wrappers
  import opened Gpu

  /** Resources::ShadowLayers: the number of shadow cascades. */
  const ShadowLayers: nat := 2

  /** What a run of set() calls leaves bound: the old slots, overridden by the new ones. */
  lemma BindSlots(d: Desc, m: map<nat, Res>, k: nat)
    requires d.Desc?
    ensures Bind(d, m).Desc? && Bind(d, m).layout == d.layout
    ensures k in Bind(d, m).slots <==> k in d.slots || k in m
    ensures k in m ==> Bind(d, m).slots[k] == m[k]
    ensures k !in m && k in d.slots ==> Bind(d, m).slots[k] == d.slots[k]
  {
  }

  /** hiz.uboReproj slot 1: the main-view globals (renderer.cpp:231-233). */
  const ReprojSlots: map<nat, Res> := map[1 := GlobalUbo]

  /** ssao.uboSsao (renderer.cpp:235-239). */
  const SsaoSlots: map<nat, Res> :=
    map[0 := Tex(SsaoBuf), 1 := Tex(GbufDiffuse), 2 := Tex(GbufNormal), 3 := Tex(ZBuffer), 4 := GlobalUbo]

  /** ssao.uboCompose: slot 4 carries the SSAO buffer only with cloud shadows on (renderer.cpp:241-246). */
  function ComposeSlots(cloudShadowScale: bool): map<nat, Res> {
    var base := map[0 := Tex(GbufDiffuse), 1 := Tex(GbufNormal), 2 := Tex(ZBuffer), 3 := Tex(IrradianceLut)];
    if cloudShadowScale then base[4 := Tex(SsaoBuf)] else base
  }

  /** The compose set samples the SSAO buffer exactly when cloud shadows are on. */
  lemma ComposeSlotsBound(cloudShadowScale: bool)
    ensures 4 in ComposeSlots(cloudShadowScale) <==> cloudShadowScale
    ensures ComposeSlots(cloudShadowScale).Keys == if cloudShadowScale then {0, 1, 2, 3, 4} else {0, 1, 2, 3}
    ensures cloudShadowScale ==> ComposeSlots(cloudShadowScale)[4] == Tex(SsaoBuf)
  {
  }

  /** tonemapping.uboTone (renderer.cpp:248). */
  const ToneSlots: map<nat, Res> := map[0 := Tex(SceneLinear)]

  /** shadow.ubo slots 0-3 (renderer.cpp:250-253). */
  const ShadowBaseSlots: map<nat, Res> :=
    map[0 := GlobalUbo, 1 := Tex(GbufDiffuse), 2 := Tex(GbufNormal), 3 := Tex(ZBuffer)]

  /** The shadow-map slots 4 + r for the first n cascades whose map is not empty (renderer.cpp:255-259). */
  function ShadowMapSlots(maps: seq<Image>, n: nat): map<nat, Res>
    requires n <= |maps|
  {
    if n == 0 then map[]
    else
      var m := ShadowMapSlots(maps, n - 1);
      if maps[n - 1].Image? then m[3 + n := Tex(ShadowMap(n - 1))] else m
  }

  /** After the first n cascades, slot k is bound iff it is 4 + r for a non-empty map r < n, to that map. */
  lemma {:induction false} ShadowMapSlotsBound(maps: seq<Image>, n: nat)
    requires n <= |maps|
    ensures forall k :: k in ShadowMapSlots(maps, n) <==> 4 <= k < 4 + n && maps[k - 4].Image?
    ensures forall k :: k in ShadowMapSlots(maps, n) ==> ShadowMapSlots(maps, n)[k] == Tex(ShadowMap(k - 4))
  {
    if n > 0 {
      ShadowMapSlotsBound(maps, n - 1);
    }
  }

  /** Shadow-map slot 4 + r is bound exactly when map r exists and is not empty. */
  lemma ShadowSlotBoundIffMap(maps: seq<Image>, r: nat)
    requires |maps| == ShadowLayers
    ensures 4 + r in ShadowMapSlots(maps, ShadowLayers) <==> r < ShadowLayers && maps[r].Image?
  {
    ShadowMapSlotsBound(maps, ShadowLayers);
  }

  /** water.underUbo (renderer.cpp:261-262). */
  const UnderwaterSlots: map<nat, Res> := map[0 := GlobalUbo, 1 := Tex(ZBuffer)]

  /** irradiance.ubo (renderer.cpp:264-266). */
  const IrradianceSlots: map<nat, Res> := map[0 := Tex(IrradianceLut), 1 := GlobalUbo, 2 := SkyLut]

  /** water.ubo (renderer.cpp:277-288). */
  const WaterSlots: map<nat, Res> := map[
    0 := GlobalUbo, 1 := Tex(SceneOpaque), 2 := Tex(GbufDiffuse), 3 := Tex(GbufNormal),
    4 := Tex(ZBuffer), 5 := Tex(SceneDepth), 6 := SkyLut,
    7 := CloudsDay(0), 8 := CloudsDay(1), 9 := CloudsNight(0), 10 := CloudsNight(1)]

  /** The ray-query slots setupTlas binds on shadow.ubo (renderer.cpp:315-320). */
  const TlasSlots: map<nat, Res> := map[
    6 := SceneTlas, 7 := BilinearSampler, 8 := BindlessTex, 9 := BindlessVbo,
    10 := BindlessIbo, 11 := BindlessIboOffset]

  /**
   * What setupTlas binds: the TLAS slots when there is a world view with a TLAS and the
   * shadow-resolve pipeline is the ray-query one, nothing otherwise (renderer.cpp:306-322).
   */
  function TlasBinding(composePso: Option<Pso>, wv: Option<WorldView>): map<nat, Res> {
    if wv.Some? && wv.value.hasTlas && composePso == Some(ShadowResolveRq) then TlasSlots else map[]
  }

  /** Slots 6-11 are bound, to the TLAS and the bindless arrays, exactly for the ray-query variant with a TLAS. */
  lemma TlasBindingBound(composePso: Option<Pso>, wv: Option<WorldView>)
    ensures forall k :: k in TlasBinding(composePso, wv) <==>
      6 <= k <= 11 && wv.Some? && wv.value.hasTlas && composePso == Some(ShadowResolveRq)
    ensures forall k :: k in TlasBinding(composePso, wv) ==> TlasBinding(composePso, wv)[k] == TlasSlots[k]
  {
  }

  /** The cascades and the TLAS never share a slot of shadow.ubo. */
  lemma ShadowSlotsDisjoint(maps: seq<Image>, composePso: Option<Pso>, wv: Option<WorldView>)
    requires |maps| == ShadowLayers
    ensures forall k :: k in ShadowMapSlots(maps, ShadowLayers) ==> k !in TlasBinding(composePso, wv)
    ensures forall k :: k in ShadowMapSlots(maps, ShadowLayers) ==> k !in ShadowBaseSlots
  {
    ShadowMapSlotsBound(maps, ShadowLayers);
    TlasBindingBound(composePso, wv);
  }

  /**
   * The slots of shadow.ubo that end up bound: 0-3, 4 + r for each non-empty map r, and the TLAS
   * slots 6-11 for the ray-query variant with a TLAS present.
   */
  predicate ShadowSlotBound(k: nat, composePso: Pso, maps: seq<Image>, wv: Option<WorldView>)
    requires |maps| == ShadowLayers
  {
    k <= 3 || (4 <= k < 4 + ShadowLayers && maps[k - 4].Image?) ||
    (6 <= k <= 11 && wv.Some? && wv.value.hasTlas && composePso == ShadowResolveRq)
  }

  /** The three binding steps of shadow.ubo, in order. */
  function ShadowUboSteps(composePso: Pso, maps: seq<Image>, wv: Option<WorldView>): Desc
    requires |maps| == ShadowLayers
  {
    var d1 := Bind(Fresh(composePso), ShadowBaseSlots);
    var d0 := Bind(d1, ShadowMapSlots(maps, ShadowLayers));
    Bind(d0, TlasBinding(Some(composePso), wv))
  }

  /** Slot k is bound after the three steps exactly when ShadowSlotBound says so. */
  lemma ShadowUboSlot(composePso: Pso, maps: seq<Image>, wv: Option<WorldView>, k: nat)
    requires |maps| == ShadowLayers
    ensures ShadowUboSteps(composePso, maps, wv).Desc? && ShadowUboSteps(composePso, maps, wv).layout == composePso
    ensures k in ShadowUboSteps(composePso, maps, wv).slots <==> ShadowSlotBound(k, composePso, maps, wv)
  {
    var d1 := Bind(Fresh(composePso), ShadowBaseSlots);
    var sm := ShadowMapSlots(maps, ShadowLayers);
    var d0 := Bind(d1, sm);
    var tl := TlasBinding(Some(composePso), wv);
    ShadowMapSlotsBound(maps, ShadowLayers);
    TlasBindingBound(Some(composePso), wv);
    assert d1.Desc? && (k in d1.slots <==> k <= 3) by {
      BindSlots(Fresh(composePso), ShadowBaseSlots, k);
      assert k in ShadowBaseSlots <==> k <= 3;
    }
    assert d0.Desc? && (k in d0.slots <==> k in d1.slots || k in sm) by {
      BindSlots(d1, sm, k);
    }
    assert ShadowUboSteps(composePso, maps, wv).Desc? &&
      (k in ShadowUboSteps(composePso, maps, wv).slots <==> k in d0.slots || k in tl) by {
      BindSlots(d0, tl, k);
    }
  }

  /** A run of set() calls that prepareUniforms makes only when there is a world view. */
  function Prepared(d: Desc, wv: Option<WorldView>, m: map<nat, Res>): Desc {
    if wv.Some? then Bind(d, m) else d
  }

  /** Binding the same slots again changes nothing: prepareUniforms may run any number of times. */
  lemma BindIsIdempotent(d: Desc, m: map<nat, Res>)
    ensures Bind(Bind(d, m), m) == Bind(d, m)
  {
    if d.Desc? {
      assert (d.slots + m) + m == d.slots + m;
    }
  }

  /** One more set() after a run of them is the run with that slot added. */
  lemma BindThenSet(d: Desc, m: map<nat, Res>, k: nat, r: Res)
    ensures Set(Bind(d, m), k, r) == Bind(d, m[k := r])
  {
    if d.Desc? {
      assert (d.slots + m)[k := r] == d.slots + m[k := r];
    }
  }
}
