/**
 * The GPU-side vocabulary of the renderer, as opaque handles: capability flags, images that are
 * only their size, descriptor sets that are only their slot bindings, and the commands an encoder
 * records. None of this does GPU work; it names what the renderer asks the device for.
 */
module Gpu {
  import opened Wrappers

  const U32Mod: int := 0x1_0000_0000

  /** uint32_t, as an integer in its range. */
  type U32 = x: int | 0 <= x < 0x1_0000_0000

  /** Depth formats the renderer chooses among (game/graphics/renderer.cpp:32-49). */
  datatype TextureFormat = Depth16 | Depth24x8 | Depth32F

  /** What the device reports: depth-attachment and sampling support per format, and bindless indexing. */
  datatype Device = Device(
    depthFormats: set<TextureFormat>,
    samplerFormats: set<TextureFormat>,
    nonUniformIndexing: bool)

  /** Engine switches read from Gothic::inst(): doMeshShading() and doRayQuery(). */
  datatype Engine = Engine(meshShading: bool, rayQuery: bool)

  /** A format the device can both render depth into and sample from. */
  predicate Usable(d: Device, f: TextureFormat) {
    f in d.depthFormats && f in d.samplerFormats
  }

  /** An image handle: empty, or allocated with a width and height. */
  datatype Image = NoImage | Image(w: U32, h: U32)

  /** Width and height of a handle; an empty handle reports 0. */
  function W(i: Image): U32 {
    if i.Image? then i.w else 0
  }

  function H(i: Image): U32 {
    if i.Image? then i.h else 0
  }

  /** The images the renderer owns, plus the frame's destination (a swapchain image or a capture). */
  datatype Target =
    | SceneLinear | ZBuffer | SceneOpaque | SceneDepth | GbufDiffuse | GbufNormal
    | SsaoBuf | IrradianceLut | ShadowMap(layer: nat) | HiZ | SmProj | HiZSm1
    | Swapchain(image: nat) | Capture

  /** Pipelines (Shaders::inst() members) the renderer binds. */
  datatype Pso =
    | HiZPot | HiZMip | HiZReproj | Stash
    | ShadowResolveRq | ShadowResolveSh | ShadowResolve
    | AmbientComposeSsao | AmbientCompose
    | WaterReflectionSSR | WaterReflection
    | UnderwaterT | UnderwaterS | Ssao | Irradiance | Tonemapping

  /** Resources a descriptor slot can hold. Samplers are not modelled, except the one bound alone. */
  datatype Res =
    | Tex(t: Target)
    | Mip(t: Target, level: nat)
    | GlobalUbo
    | SkyLut
    | CloudsDay(layer: nat)
    | CloudsNight(layer: nat)
    | SceneTlas
    | BilinearSampler
    | BindlessTex | BindlessVbo | BindlessIbo | BindlessIboOffset

  /** A descriptor set: empty (default-constructed), or created for a pipeline with its bound slots. */
  datatype Desc = NoDesc | Desc(layout: Pso, slots: map<nat, Res>)

  /** device.descriptors(pso): a new set with no slot bound. */
  function Fresh(p: Pso): Desc {
    Desc(p, map[])
  }

  /** desc.set(slot, res). On an empty set it binds nothing. */
  function Set(d: Desc, slot: nat, r: Res): Desc {
    if d.Desc? then d.(slots := d.slots[slot := r]) else d
  }

  /** A run of set() calls on distinct slots, given as the slot map they bind. */
  function Bind(d: Desc, m: map<nat, Res>): Desc {
    if d.Desc? then d.(slots := d.slots + m) else d
  }

  /** Load operation of a framebuffer attachment (all stores in the source preserve). */
  datatype Load = Discard | Preserve | Readonly | Clear(value: real)

  datatype Att = Att(target: Target, load: Load)

  /** Calls into the world view that record commands. */
  datatype ViewStep =
    | PrepareGlobals | DrawHiZOccluders | PrepareSky | DrawGBuffer | DrawShadow(layer: nat)
    | PrepareFog | DrawLights | DrawSky | DrawWater | DrawSunMoon | DrawTranslucent | DrawFog

  /** One recorded command. */
  datatype Cmd =
    | Framebuffer(colors: seq<Att>, depth: Option<Att>)
    | Uniforms(pso: Option<Pso>, desc: Desc)
    | DrawFullscreen
    | Dispatch(dw: U32, dh: U32)
    | DispatchThreads(tw: U32, th: U32)
    | DispatchMesh(mw: U32, mh: U32)
    | View(step: ViewStep)
    | DrawUi
    | DrawInventory
    | DrawInventoryCounters

  /** Device-level operations: waitIdle, submit of a command buffer, and a fence wait. */
  datatype GpuOp = WaitIdle | Submit(cmds: seq<Cmd>) | FenceWait

  /** What the renderer reads from the world view: the main light's elevation and whether a TLAS exists. */
  datatype WorldView = WorldView(lightY: real, hasTlas: bool)

  /** What the renderer reads from the camera: whether it is submerged. */
  datatype Camera = Camera(inWater: bool)

  /** Recording parts one after another records their concatenation. */
  lemma AppendParts(c0: seq<Cmd>, a: seq<Cmd>, b: seq<Cmd>, c: seq<Cmd>, d: seq<Cmd>)
    ensures c0 + a + b + c + d == c0 + (a + b + c + d)
  {
  }

  lemma AppendFive(c0: seq<Cmd>, a: seq<Cmd>, b: seq<Cmd>, c: seq<Cmd>, d: seq<Cmd>, e: seq<Cmd>)
    ensures c0 + a + b + c + d + e == c0 + (a + b + c + d + e)
  {
  }

  lemma AppendAssoc(a: seq<Cmd>, b: seq<Cmd>, c: seq<Cmd>)
    ensures a + b + c == a + (b + c)
  {
  }

  lemma AppendThree(c0: seq<Cmd>, a: seq<Cmd>, b: seq<Cmd>, c: seq<Cmd>)
    ensures c0 + a + b + c == c0 + (a + b + c)
  {
  }

  /** A command encoder: the commands recorded into it so far. */
  class Encoder {
    var cmds: seq<Cmd>

    constructor ()
      ensures cmds == []
    {
      cmds := [];
    }

    method Push(c: Cmd)
      modifies this
      ensures cmds == old(cmds) + [c]
    {
      cmds := cmds + [c];
    }
  }
}
