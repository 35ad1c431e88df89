/**
 * The renderer's choices: depth formats from preference lists (game/graphics/renderer.cpp:32-55),
 * shading variants (145-151, 179-186) and the descriptor rebuild guard of initSettings (188-195).
 */
module Variants {
  import opened Wrappers
  import opened Gpu

  /** Shadow-map formats, cheapest first. */
  const ShadowPrefs: seq<TextureFormat> := [Depth16, Depth24x8, Depth32F]

  /** Z-buffer formats, most precise first. */
  const ZPrefs: seq<TextureFormat> := [Depth32F, Depth24x8, Depth16]

  /** prefs[i] is usable and no entry before it is. */
  predicate FirstUsableAt(prefs: seq<TextureFormat>, d: Device, i: int) {
    0 <= i < |prefs| && Usable(d, prefs[i]) && forall j :: 0 <= j < i ==> !Usable(d, prefs[j])
  }

  /** The first entry of prefs the device can both render depth into and sample, if any. */
  function FirstUsable(prefs: seq<TextureFormat>, d: Device): Option<TextureFormat> {
    if |prefs| == 0 then None
    else if Usable(d, prefs[0]) then Some(prefs[0])
    else FirstUsable(prefs[1..], d)
  }

  /**
   * FirstUsable finds nothing exactly when no entry is usable, and otherwise returns the entry
   * at the first usable position.
   */
  lemma {:induction false} FirstUsableSpec(prefs: seq<TextureFormat>, d: Device)
    ensures FirstUsable(prefs, d).None? <==> forall i :: 0 <= i < |prefs| ==> !Usable(d, prefs[i])
    ensures FirstUsable(prefs, d).Some? ==>
      exists i :: FirstUsableAt(prefs, d, i) && prefs[i] == FirstUsable(prefs, d).value
    decreases |prefs|
  {
    if |prefs| > 0 && !Usable(d, prefs[0]) {
      var rest := prefs[1..];
      FirstUsableSpec(rest, d);
      assert forall i :: 1 <= i < |prefs| ==> prefs[i] == rest[i - 1];
      if FirstUsable(rest, d).Some? {
        var j :| FirstUsableAt(rest, d, j) && rest[j] == FirstUsable(rest, d).value;
        assert FirstUsableAt(prefs, d, j + 1);
      }
    } else if |prefs| > 0 {
      assert FirstUsableAt(prefs, d, 0);
    }
  }

  /** The entry FirstUsableAt picks out is the one FirstUsable returns. */
  lemma {:induction false} FirstUsableIsAt(prefs: seq<TextureFormat>, d: Device, i: int)
    requires FirstUsableAt(prefs, d, i)
    ensures FirstUsable(prefs, d) == Some(prefs[i])
    decreases |prefs|
  {
    if i > 0 {
      assert FirstUsableAt(prefs[1..], d, i - 1) by {
        assert forall j :: 0 <= j < i - 1 ==> prefs[1..][j] == prefs[j + 1];
      }
      FirstUsableIsAt(prefs[1..], d, i - 1);
    }
  }

  /**
   * The format scan of the constructor: walk prefs and keep the first usable entry (`break`).
   * When none is usable, the field keeps the value it had.
   */
  method ScanFormats(d: Device, prefs: seq<TextureFormat>, current: TextureFormat)
    returns (f: TextureFormat)
    ensures FirstUsable(prefs, d).Some? ==> f == FirstUsable(prefs, d).value
    ensures FirstUsable(prefs, d).None? ==> f == current
    ensures f != current ==> Usable(d, f) && f in prefs
  {
    f := current;
    var i := 0;
    while i < |prefs|
      invariant 0 <= i <= |prefs|
      invariant forall j :: 0 <= j < i ==> !Usable(d, prefs[j])
      invariant f == current
    {
      if Usable(d, prefs[i]) {
        f := prefs[i];
        FirstUsableIsAt(prefs, d, i);
        break;
      }
      i := i + 1;
    }
    FirstUsableSpec(prefs, d);
  }

  /** The shadow format is Depth16 whenever usable, the z-buffer format Depth32F whenever usable. */
  lemma PreferredFormatsWin(d: Device)
    ensures Usable(d, Depth16) ==> FirstUsable(ShadowPrefs, d) == Some(Depth16)
    ensures Usable(d, Depth32F) ==> FirstUsable(ZPrefs, d) == Some(Depth32F)
    ensures !Usable(d, Depth16) && Usable(d, Depth24x8) ==> FirstUsable(ShadowPrefs, d) == Some(Depth24x8)
    ensures !Usable(d, Depth32F) && Usable(d, Depth24x8) ==> FirstUsable(ZPrefs, d) == Some(Depth24x8)
  {
  }

  /** The shadow-resolve pipeline resetSwapchain selects (renderer.cpp:145-151). */
  function ShadowResolveVariant(rayQuery: bool, nonUniformIndexing: bool, shadowResolution: U32): (p: Pso)
    ensures p == ShadowResolveRq <==> rayQuery && nonUniformIndexing && shadowResolution > 0
    ensures p == ShadowResolveSh <==> !(rayQuery && nonUniformIndexing) && shadowResolution > 0
    ensures p == ShadowResolve <==> shadowResolution == 0
  {
    if rayQuery && nonUniformIndexing && shadowResolution > 0 then ShadowResolveRq
    else if shadowResolution > 0 then ShadowResolveSh
    else ShadowResolve
  }

  /** The ambient compose pipeline: with SSAO when cloud shadows are on (renderer.cpp:179-181). */
  function AmbientVariant(cloudShadowScale: bool): Pso {
    if cloudShadowScale then AmbientComposeSsao else AmbientCompose
  }

  /** The water reflection pipeline: screen-space when env mapping is on (renderer.cpp:184-186). */
  function ReflectionVariant(envMapping: bool): Pso {
    if envMapping then WaterReflectionSSR else WaterReflection
  }

  /** Descriptor sets are rebuilt when the compose or the reflection pipeline differs from before. */
  function RebuildGuard(prevCompose: Option<Pso>, prevRefl: Option<Pso>, compose: Pso, refl: Pso): bool {
    Some(compose) != prevCompose || Some(refl) != prevRefl
  }

  /**
   * The guard as initSettings evaluates it: both saved values are the old reflection pipeline
   * (renderer.cpp:178 and 183).
   */
  function AsWrittenGuard(oldCompose: Option<Pso>, oldRefl: Option<Pso>, cloud: bool, env: bool): bool {
    RebuildGuard(oldRefl, oldRefl, AmbientVariant(cloud), ReflectionVariant(env))
  }

  /** The guard with the compose pipeline saved before it is reassigned. */
  function IntendedGuard(oldCompose: Option<Pso>, oldRefl: Option<Pso>, cloud: bool, env: bool): bool {
    RebuildGuard(oldCompose, oldRefl, AmbientVariant(cloud), ReflectionVariant(env))
  }

  /** As written, the guard holds on every call: a compose pipeline is never a reflection pipeline. */
  lemma AsWrittenGuardAlwaysFires(oldCompose: Option<Pso>, oldRefl: Option<Pso>, cloud: bool, env: bool)
    ensures AsWrittenGuard(oldCompose, oldRefl, cloud, env)
  {
  }

  /** Concretely: calling initSettings twice with the same settings rebuilds on the second call too. */
  lemma AsWrittenRebuildsOnUnchangedSettings(cloud: bool, env: bool)
    ensures AsWrittenGuard(Some(AmbientVariant(cloud)), Some(ReflectionVariant(env)), cloud, env)
  {
    AsWrittenGuardAlwaysFires(Some(AmbientVariant(cloud)), Some(ReflectionVariant(env)), cloud, env);
  }

  /**
   * With the intended guard, once the pipelines reflect settings (cloud0, env0), a later call
   * rebuilds exactly when a setting changed.
   */
  lemma IntendedGuardFiresIffChanged(cloud0: bool, env0: bool, cloud: bool, env: bool)
    ensures IntendedGuard(Some(AmbientVariant(cloud0)), Some(ReflectionVariant(env0)), cloud, env)
      <==> cloud != cloud0 || env != env0
  {
  }

  /** Before the first call (both pipelines unset) the intended guard fires. */
  lemma IntendedGuardFiresFirst(cloud: bool, env: bool)
    ensures IntendedGuard(None, None, cloud, env)
  {
  }
}
