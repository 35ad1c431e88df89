# OpenGothic renderer control logic, in Dafny

This project models three pieces of OpenGothic.

The main piece is the control logic of `Renderer` (game/graphics/renderer.cpp). It covers:

- how the renderer picks its depth and shadow formats;
- how it sizes its targets and the hierarchical-depth (hi-Z) pyramids when the swapchain is reset;
- which pipeline variants it selects;
- which descriptor slots it binds, and under which conditions;
- the ordered list of passes it records for a frame.

GPU objects are opaque handles. An image is only its size. A descriptor set is only the pipeline it was created for and the slots bound in it. Recorded commands are appended to an `Encoder`. Device operations that do work (waitIdle, submit, a fence wait) are appended to the renderer's `gpuLog`. The world view, the camera and the engine switches (`doMeshShading`, `doRayQuery`) are inputs.

The two smaller pieces are:

- **The landscape constructor** (game/graphics/mesh/landscape.cpp). It keeps the drawable sub-meshes as blocks, each with the identity object matrix. With ray query on, it also joins their index lists into one buffer and builds the BLAS (bottom-level acceleration structure) from it.
- **The sound-effect table** (game/game/definitions/sounddefinitions.cpp). It stores every `C_SFX` script instance under its symbol name, and a later instance replaces an earlier one with the same name. A lookup returns the stored record, or one shared default record when the name is missing.

Module layout:

- `Pot`: nextPot, on `bv32`, so the uint32 wrap-around is the machine's.
- `Variants`: format choice, pipeline variants and the initSettings rebuild guard.
- `HiZ`: the shrink loop, the mip chains and the drawHiZ dispatch sizes.
- `Binder`: descriptor slot maps.
- `Frame`: the command sequence of a frame, as functions of a `FrameState` snapshot, plus the ordering and gating lemmas.
- `Passes`: the pass functions, as methods that record into an encoder. Each is proved to record exactly what `Frame` specifies.
- `Renderer`: the `Renderer` class and its state-changing operations.
- `Landscape` and `SoundDefs`: the two smaller pieces.

The constructor (renderer.cpp:38-55) has no abort: when no entry of a preference list qualifies, the field keeps its previous value. `Variants.ScanFormats` models exactly that.

## Model

| member | source | states |
|---|---|---|
| Pot.NextPot | game/graphics/renderer.cpp:17-26 | For 1 <= x <= 2^31, the result is a power of two, not below x, whose half is below x. For x = 0 and x > 2^31, uint32 wrap-around makes it 0. |
| Pot.NextPotIsLeast | game/graphics/renderer.cpp:17-26 | The rounded value is at most every power of two that is >= x. A power of two is returned unchanged. |
| Pot.SmearedIsNextPot | game/graphics/renderer.cpp:18-24 | Smearing the top bit of x - 1 downwards and adding one gives the least power of two >= x in range, and 0 outside it. |
| Pot.RoundingIsUnique | game/graphics/renderer.cpp:17-26 | At most one power of two rounds x up. |
| Pot.RoundingExists | game/graphics/renderer.cpp:17-26 | Every x in 1..2^31 has a power of two that rounds it up. |
| Variants.FirstUsableSpec | game/graphics/renderer.cpp:32-55 | The scan finds nothing iff no entry supports both depth rendering and sampling. Otherwise it returns the entry at the first position that does. |
| Variants.FirstUsableIsAt | game/graphics/renderer.cpp:38-43 | If position i is usable and no earlier one is, the scan returns entry i. |
| Variants.ScanFormats | game/graphics/renderer.cpp:38-43 | The loop with `break` returns the first usable entry. With no usable entry, the field keeps its previous value. A changed value is always usable and in the list. |
| Variants.PreferredFormatsWin | game/graphics/renderer.cpp:32-55 | The shadow list takes Depth16 whenever it is usable, then Depth24x8. The z-buffer list takes Depth32F whenever it is usable, then Depth24x8. |
| Variants.ShadowResolveVariant | game/graphics/renderer.cpp:145-151 | Three iffs. Ray-query variant iff ray query, non-uniform indexing and shadows on. Shadow-map variant iff shadows on without that pair. Plain variant iff shadows off. |
| Variants.AsWrittenGuardAlwaysFires | game/graphics/renderer.cpp:178-189 | As written, the rebuild guard holds for every old state and every setting. |
| Variants.AsWrittenRebuildsOnUnchangedSettings | game/graphics/renderer.cpp:178-195 | A second initSettings with unchanged settings still rebuilds the sets. |
| Variants.IntendedGuardFiresIffChanged | game/graphics/renderer.cpp:178-189 | With the compose pipeline saved before reassignment, the guard fires iff a setting changed. |
| Variants.IntendedGuardFiresFirst | game/graphics/renderer.cpp:188-189 | With no pipeline selected yet, the guard fires. |
| HiZ.Max1 | game/graphics/renderer.cpp:100-101 | std::max(1u, a) is at least 1 and at least a, and equals a when a >= 1. |
| HiZ.HalfUp | game/graphics/renderer.cpp:89-90 | One shrink step is max(1, ((a + 1) mod 2^32) / 2), including the wrap of 0xFFFFFFFF + 1. |
| HiZ.ShrinkToTile | game/graphics/renderer.cpp:88-91 | The shrunk size is at most 64x64. A size already within 64x64 is unchanged. A shrunk one is at least 1x1. |
| HiZ.Shrink | game/graphics/renderer.cpp:86-91 | The while loop ends at the ShrinkToTile size, with both dimensions <= 64. |
| HiZ.ShrinkBounds | game/graphics/renderer.cpp:86-91 | From a base of at least 1x1, the tile is between 1x1 and 64x64. |
| HiZ.MipLevels | game/graphics/renderer.cpp:99-105 | The chain is non-empty and starts at the base size. |
| HiZ.LevelsShape | game/graphics/renderer.cpp:99-105 | Each level but the last is above 1x1 and is followed by its max(1, floor(x/2)) halving. The last level is at most 1x1, and exactly 1x1 after at least one halving. |
| HiZ.SquareChainLength | game/graphics/renderer.cpp:118-126 | A 2^k x 2^k base takes exactly k halvings. |
| HiZ.ShadowPyramidHasSixLevels | game/graphics/renderer.cpp:118-126 | The 64x64 shadow pyramid has 6 mip descriptors, and its last level is 1x1. |
| HiZ.MipDispatches | game/graphics/renderer.cpp:498-504 | One dispatch size per mip descriptor. |
| HiZ.DispatchesSnoc | game/graphics/renderer.cpp:498-503 | Dispatch n uses the running size after n unclamped floor halvings, clamped to at least 1. |
| HiZ.DispatchesMatchLevels | game/graphics/renderer.cpp:498-504 | The sizes drawHiZ dispatches are exactly levels 1.. of the chain resetSwapchain builds from the same base. |
| HiZ.MipLinksAt | game/graphics/renderer.cpp:102-104 | Descriptor i is a hiZMip set whose slot 0 reads level i and slot 1 writes level i + 1, and it binds nothing else. |
| HiZ.BuildMipLinks | game/graphics/renderer.cpp:98-105 | The loop emplaces one link per halving, in order, and stops at a size of at most 1x1. |
| Binder.BindSlots | game/graphics/renderer.cpp:250-253 | A run of set() calls keeps the layout. Slot k is bound iff it was bound before or is set now, and a newly set slot overrides the old one. |
| Binder.ComposeSlotsBound | game/graphics/renderer.cpp:241-246 | The compose set binds slots 0-3, and slot 4 (the SSAO buffer) iff cloud shadows are on. |
| Binder.ShadowMapSlotsBound | game/graphics/renderer.cpp:255-259 | After the first n cascades, slot k is bound iff k = 4 + r for a non-empty map r < n, and it holds map r. |
| Binder.ShadowSlotBoundIffMap | game/graphics/renderer.cpp:255-259 | Slot 4 + r is bound iff map r exists and is non-empty. |
| Binder.TlasBindingBound | game/graphics/renderer.cpp:306-322 | Slots 6-11 are bound, to the TLAS, the sampler and the bindless arrays, iff there is a world view, it has a TLAS and the ray-query variant is active. Nothing else is bound. |
| Binder.ShadowSlotsDisjoint | game/graphics/renderer.cpp:250-320 | The cascade slots overlap neither the base slots 0-3 nor the TLAS slots. |
| Binder.ShadowUboSlot | game/graphics/renderer.cpp:250-320 | After the three binding steps, slot k of shadow.ubo is bound exactly as ShadowSlotBound says. |
| Binder.BindIsIdempotent | game/graphics/renderer.cpp:223-304 | Binding the same slots twice equals binding them once. |
| Binder.BindThenSet | game/graphics/renderer.cpp:255-259 | One more set() after a run is the run with that slot added. |
| Frame.MipCmds | game/graphics/renderer.cpp:499-504 | The mip loop records two commands per descriptor. |
| Frame.MipCmdsShape | game/graphics/renderer.cpp:499-504 | Step i binds descriptor i with hiZMip, then dispatches at size i. Nothing else is recorded: every bind is of hiZMip. |
| Frame.DrawHiZStep | game/graphics/renderer.cpp:499-504 | One iteration extends the recorded mip commands by exactly step i. |
| Frame.HiZDispatchesFollowChain | game/graphics/renderer.cpp:485-504 | With the pyramid resetSwapchain built, drawHiZ records 5 + 2n commands, and mip dispatch i covers level i + 1 of the chain. |
| Frame.CascadesShape | game/graphics/renderer.cpp:573-578 | Map i is cleared iff i < n. It is drawn iff i < n and the light is above the minimum elevation. |
| Frame.CascadesKinds | game/graphics/renderer.cpp:573-578 | The cascade loop records only shadow-map depth clears and shadow draws. |
| Frame.CascadesRenderShadowMaps | game/graphics/renderer.cpp:573-578 | The cascades render into no image other than a shadow map, and draw no fog. |
| Frame.ShadowPartGated | game/graphics/renderer.cpp:569-579 | drawShadowMap emits nothing with shadows off. With shadows on, every map is cleared, and map i is drawn iff the light is above the minimum elevation. |
| Frame.BlankWithoutCollaborators | game/graphics/renderer.cpp:390-393 | Without a world view or a camera, the frame is a single clear of the result. |
| Frame.PlainHeadAndBody | game/graphics/renderer.cpp:412-441 | Every pass other than the shadow maps, the medium and tonemapping renders only into internal images, and draws no cascade and no fog. |
| Frame.TonemappingIsLast | game/graphics/renderer.cpp:450-452 | The frame ends with the tonemapping pass into the result, and no earlier command renders into the result. |
| Frame.FogIffDry | game/graphics/renderer.cpp:442-448 | Fog is drawn somewhere in the frame iff the camera is not in water. |
| Frame.UnderwaterOrFog | game/graphics/renderer.cpp:441-452 | Right before tonemapping, the frame holds the underwater pass iff the camera is in water, and fog otherwise. |
| Frame.DryHead | game/graphics/renderer.cpp:412-417 | prepareGlobals, drawHiZ, sky preparation and drawGBuffer bind no underwater pipeline. |
| Frame.DryShadows | game/graphics/renderer.cpp:569-579 | drawShadowMap binds no underwater pipeline. |
| Frame.NoUnderwaterOutsideMedium | game/graphics/renderer.cpp:412-452 | With every pipeline field in its role, no part of the frame except the medium pass binds underwater.T or underwater.S. |
| Frame.UnderwaterIffWet | game/graphics/renderer.cpp:442-448 | With every pipeline field in its role, underwater.T and underwater.S are each bound with water.underUbo in the frame iff the camera is in water. A dry frame binds no underwater pipeline at all. |
| Frame.FrameHasNoOverlay | game/graphics/renderer.cpp:387-453 | No pass of a frame draws the UI layer, the inventory or its counters. |
| Frame.InventoryIffOpen | game/graphics/renderer.cpp:329-352 | A swapchain draw is the frame (or the video clear) followed by the overlay, which draws the UI. The inventory and its counters are drawn iff the inventory is open. |
| Frame.CascadesGated | game/graphics/renderer.cpp:569-579 | Across the whole frame, cascade i is drawn iff shadows are on, the light is above the minimum elevation and i < ShadowLayers. With shadows on every map is cleared. With shadows off no command touches a map. |
| Passes.DrawHiZMips | game/graphics/renderer.cpp:498-504 | The loop records MipCmds for the descriptors at the unclamped-halving sizes. |
| Passes.DrawHiZ | game/graphics/renderer.cpp:485-504 | Records the drawHiZ commands, which are nothing without mesh shading. |
| Passes.DrawGBuffer | game/graphics/renderer.cpp:526-538 | Records the G-buffer framebuffer for the mesh-shading case or the other case, then the G-buffer draw. |
| Passes.DrawShadowMap | game/graphics/renderer.cpp:569-579 | The cascade loop records the ShadowMapCmds sequence, whose gating Frame.ShadowPartGated states. |
| Passes.PrepareSSAO | game/graphics/renderer.cpp:600-616 | Records the SSAO dispatch only with cloud shadows on. |
| Passes.PrepareIrradiance | game/graphics/renderer.cpp:623-628 | Records the irradiance dispatch. |
| Passes.StashSceneAux | game/graphics/renderer.cpp:475-483 | Records the stash pass only when the z-buffer format can be sampled. |
| Passes.DrawReflections | game/graphics/renderer.cpp:551-559 | Records the reflection pipeline, then a mesh dispatch over the G-buffer with mesh shading, or a full-screen draw without it. |
| Passes.DrawUnderwater | game/graphics/renderer.cpp:561-567 | Records the two underwater full-screen draws. |
| Passes.DrawHead | game/graphics/renderer.cpp:412-417 | Records globals, hi-Z, sky preparation and the G-buffer, in that order. |
| Passes.DrawCompose | game/graphics/renderer.cpp:424-428 | Records the sceneLinear framebuffer over the read-only z-buffer, then the shadow resolve, the ambient light, the lights and the sky. |
| Passes.DrawLighting | game/graphics/renderer.cpp:420-428 | Records SSAO, fog preparation, irradiance, then the lighting of sceneLinear. |
| Passes.DrawScene | game/graphics/renderer.cpp:430-441 | Records stash, water, sun and moon, translucent geometry, then reflections. |
| Passes.DrawBody | game/graphics/renderer.cpp:420-441 | Records the lighting passes, then the scene passes. |
| Passes.DrawMedium | game/graphics/renderer.cpp:442-448 | Records the underwater pass when the camera is in water, and fog otherwise. |
| Passes.DrawTonemapping | game/graphics/renderer.cpp:450-472 | Records the result framebuffer, the tonemapping pipeline and a full-screen draw. |
| Passes.RecordFrame | game/graphics/renderer.cpp:411-452 | Records the full pass sequence, whose order and gating the Frame lemmas state. |
| Passes.DrawOverlay | game/graphics/renderer.cpp:339-351 | Records the UI layer, then the inventory and its counters only when the inventory is open. |
| Renderer.HiZTileBounds | game/graphics/renderer.cpp:83-91 | The padded base is not below the swapchain size, and the hi-Z tile is between 1x1 and 64x64. |
| Renderer.PaddedBounds | game/graphics/renderer.cpp:83-84 | The padded size is not below the swapchain size, and it is a positive integer. |
| Renderer.ShownMapsAt | game/graphics/renderer.cpp:293-298 | The world view gets one entry per cascade, set iff that map is non-empty. |
| Renderer.ShadowMapPointers | game/graphics/renderer.cpp:293-297 | The loop builds the ShownMaps array. |
| Renderer.BindShadowMaps | game/graphics/renderer.cpp:255-259 | The loop with `continue` binds exactly the ShadowMapSlots of the non-empty maps. |
| Renderer.PreparedShadowSlots | game/graphics/renderer.cpp:250-322 | A freshly created shadow.ubo, once prepared, keeps its pipeline and has exactly the slots ShadowSlotBound names. |
| Renderer.FrustaMatchCascades | game/graphics/renderer.cpp:398-409 | With shadows on, the cascade frusta are made iff drawShadowMap draws that cascade. The main frustum always matches the z-buffer. |
| Renderer.BuildPyramids | game/graphics/renderer.cpp:82-128 | hi-Z is the shrunk power-of-two tile, with one mip link per halving. With shadows on, the 64x64 shadow pyramid has its six links. Without shadows, the shadow-pyramid fields keep their old value. |
| Renderer.ScenePyramid | game/graphics/renderer.cpp:83-105 | The scene pyramid is sized HiZTile(w, h), its pot set reads the z-buffer, and it gets MipLinks over its chain. |
| Renderer.ShadowPyramid | game/graphics/renderer.cpp:107-127 | Builds the shadow pyramid only when smSize > 0, and leaves the state unchanged otherwise. |
| Renderer.SetupTlas | game/graphics/renderer.cpp:306-322 | Binds TlasBinding on shadow.ubo, which is nothing without a world view, without a TLAS, or for a non-ray-query variant. |
| Renderer.Renderer.constructor | game/graphics/renderer.cpp:28-62 | Each format is the first usable entry of its list, or its initial value when none is usable. The settings are applied, and the variants follow them. The compose and water sets are created for the selected variants and prepared. No target, shadow map, frustum or pyramid exists yet (`Unsized`), and the shadow, tonemapping and irradiance pipelines and sets are still unset. |
| Renderer.SelectedInRole | game/graphics/renderer.cpp:145-186 | Every pipeline resetSwapchain and initSettings select belongs to its own pass, which is the hypothesis of Frame.UnderwaterIffWet. |
| Renderer.PreparedInitial | game/graphics/renderer.cpp:223-304 | prepareUniforms leaves the hi-Z, shadow, tonemapping and irradiance state of a renderer with no swapchain yet unchanged, and shows no shadow map. |
| Renderer.Renderer.RecreateSets | game/graphics/renderer.cpp:189-194 | The rebuild step of initSettings: one GPU wait, the water and compose sets created for the selected pipelines, then every set prepared as prepareUniforms leaves it. |
| Renderer.Renderer.InitSettings | game/graphics/renderer.cpp:170-196 | As written: it selects the variants, always waits for the GPU, recreates the compose and water sets, and rebinds everything through prepareUniforms. |
| Renderer.Renderer.InitSettingsIntended | game/graphics/renderer.cpp:170-196 | Corrected: the compose pipeline is saved before it is reassigned. The GPU wait, the recreated sets and the rebinding happen iff a selected pipeline changed. Otherwise every set is left as it was. After a rebuild every set is prepared as prepareUniforms leaves it. |
| Renderer.Renderer.PrepareUniforms | game/graphics/renderer.cpp:223-304 | Without a world view nothing changes. Otherwise every set gets its slots: the SSAO slot only with cloud shadows, the cascades only for non-empty maps, the TLAS slots as SetupTlas says. |
| Renderer.Renderer.OnWorldChanged | game/graphics/renderer.cpp:198-204 | Rebinds every set for the current world view. |
| Renderer.Renderer.AllocateShadowMaps | game/graphics/renderer.cpp:130-133 | With shadows on, every cascade map is smSize x smSize. Otherwise the maps are kept. |
| Renderer.Renderer.ResizeTargets | game/graphics/renderer.cpp:135-143 | All six attachments are w x h (lines 79-80 for sceneLinear and zbuffer), and the stash set reads sceneLinear and zbuffer. |
| Renderer.Renderer.CreatePasses | game/graphics/renderer.cpp:145-165 | Selects the shadow-resolve variant, creates fresh sets for it and for the other passes, and sizes the SSAO buffer to w x h. |
| Renderer.Renderer.ResizeImages | game/graphics/renderer.cpp:68-143 | Waits for the GPU, resizes the targets, builds the pyramids only with mesh shading, and allocates the shadow maps. |
| Renderer.Renderer.RecreatePasses | game/graphics/renderer.cpp:145-167 | Creates the pipelines and sets, then binds them as prepareUniforms does. |
| Renderer.Renderer.ResetSwapchain | game/graphics/renderer.cpp:68-168 | The whole reset: one waitIdle, resized targets, the hi-Z tile with mesh shading, the shadow maps, the selected variant, and every set freshly created and prepared. |
| Renderer.Renderer.UpdateFrusta | game/graphics/renderer.cpp:398-409 | The cascade frusta are made above the minimum light elevation and cleared otherwise. The main one is always made. |
| Renderer.Renderer.Draw | game/graphics/renderer.cpp:387-453 | Records FrameCmds for the current state: a blank frame without collaborators, the full pass sequence otherwise. The frusta are updated only in the second case. |
| Renderer.Renderer.DrawSwapchain | game/graphics/renderer.cpp:329-352 | Records the frame, or a clear while a video plays, then the overlay. The frusta are updated exactly when a full frame is drawn. |
| Renderer.Renderer.Screenshoot | game/graphics/renderer.cpp:648-665 | Returns an image of the z-buffer's size. The frusta are updated exactly when a full frame is drawn. The device log gains a waitIdle, the submit of exactly one recorded frame into that image, and a fence wait. |
| Landscape.Identity | game/graphics/mesh/landscape.cpp:18-19 | The matrix is the 4x4 identity. |
| Landscape.BlockIffKept | game/graphics/mesh/landscape.cpp:22-34 | A sub-mesh yields a block iff it is in the mesh and passes the filter of lines 24-28: not AdditiveLight, non-empty indices, a present and non-empty texture. |
| Landscape.BlocksOfAppend | game/graphics/mesh/landscape.cpp:22-34 | Blocks follow sub-mesh order: the blocks of a + b are those of a, then those of b. |
| Landscape.BlocksWellFormed | game/graphics/mesh/landscape.cpp:22-35 | There are no more blocks than sub-meshes. Every block is non-empty and carries the identity matrix. |
| Landscape.JoinedAppend | game/graphics/mesh/landscape.cpp:37-38 | Joining is in block order and composes over concatenation. |
| Landscape.JoinedLength | game/graphics/mesh/landscape.cpp:37-38 | The joined list's length is the sum of the blocks' index counts. |
| Landscape.JoinedHoldsBlock | game/graphics/mesh/landscape.cpp:37-42 | Block k's indices sit in the joined list right after those of blocks 0..k-1. |
| Landscape.Landscape.constructor | game/graphics/mesh/landscape.cpp:10-45 | One block per kept sub-mesh, in order. With ray query, the joined buffer and a BLAS over the vertices and that buffer. Without it, neither. |
| SoundDefs.TableHasName | game/game/definitions/sounddefinitions.cpp:11-16 | A name is in the table iff some C_SFX symbol has it. |
| SoundDefs.TableLastWins | game/game/definitions/sounddefinitions.cpp:11-16 | The stored record is the instance of the last symbol with that name. |
| SoundDefs.TableLookup | game/game/definitions/sounddefinitions.cpp:19-25 | A lookup gives the last symbol's instance, or the default when no symbol has the name. |
| SoundDefs.SoundDefinitions.constructor | game/game/definitions/sounddefinitions.cpp:8-17 | The map holds the table of the symbols stored in order, with later ones overwriting. |
| SoundDefs.SoundDefinitions.Get | game/game/definitions/sounddefinitions.cpp:19-25 | A found name returns the instance of its last symbol. A missing name returns the single shared default record. Lookup reads the table and changes nothing. |

## Left out

- GPU work: allocation, sampling and dispatch. Images, descriptor sets and pipelines are handles. waitIdle, submit and fence waits are `gpuLog` entries, and commands are `Encoder` entries. Samplers are not modelled, except the bilinear sampler bound alone at slot 7.
- Floating-point numerics: tonemapping parameters (renderer.cpp:456-469), the SSAO matrices (604-610), camera clip info and shadow matrices (206-221), and frustum matrices. Light elevation is an abstract `real` compared against `minShadowY`.
- The world view's own side effects: updateLight, visibilityPass, preFrameUpdate, and the setHiZ, setGbuffer, setSceneImages and setupUbo calls (renderer.cpp:300-303). Only the shadow-map array handed to setShadowMaps is modelled.
- dbgDraw (renderer.cpp:354-385), which a static `false` switches off.
- The unreachable debug tail of screenshoot after line 665.
- The commented-out shadow hi-Z reprojection (renderer.cpp:111, 506-523).
- Log output and event binding (renderer.cpp:57-60, 64-66, 201).
- The video-brightness, contrast and gamma settings (renderer.cpp:174-176). They only feed tonemapping floats.
- `settings.shadowResolution` is never assigned in renderer.cpp. It is a constructor input, and so is the initial value of each format field.
- `Resources::ShadowLayers` is not part of this model. It is fixed at 2, matching the two cascade frusta of renderer.cpp:401-402.
- The six swapchain-sized attachments are grouped in one `Attachments` field that resetSwapchain replaces as a whole. The order of their allocation inside resetSwapchain is not modelled.
- The draw passes read a `FrameState` snapshot of the renderer instead of its fields. Recording a frame never writes those fields.
- Renderer.Renderer.ResetSwapchain: the hiz.uboPot set and the shadow-pyramid sets are stated by Renderer.Renderer.ResizeImages and Renderer.BuildPyramids, not repeated in ResetSwapchain's own contract.
- Renderer.Renderer.ResizeImages: states the shadow pyramid's hiZSm1 image and its mip links. The smProj, uboReproj and uboPotSm1 values are stated by Renderer.BuildPyramids.
- Renderer.Renderer.Draw: before the first resetSwapchain the pipeline pointers are null, and drawing or binding then dereferences them (for example `*shadow.composePso` at renderer.cpp:586 and `*ssao.ssaoPso` at 614). The model does not capture that failure: it records `Uniforms(None, NoDesc)`, and binding into an empty set binds nothing.
- Renderer.Renderer.Draw: the UI, inventory and video widgets are reduced to their gating flags (renderer.cpp:334-351).
- Landscape: vertex upload, `Resources::loadMaterial`, `Bounds::assign`, `visual.get` and the device's BLAS build are not part of this model. The loaded material and the index lists are inputs. The vertex buffer is its vertex count, and the BLAS is the pair of vertex count and joined indices.
- SoundDefs: loading Sfx.dat into the Daedalus VM and initialising instances (sounddefinitions.cpp:9-14) are not part of this model. The symbols arrive as a sequence of initialised instances. The field defaults of C_SFX are not visible here, so the shared default record is zeros and empty strings.

## Findings

Renderer.Renderer.InitSettings and the constructor follow the code as written. On the constructor's first call both guards fire (Variants.IntendedGuardFiresFirst), so the two versions differ only on later calls.


| source | as written | input that shows it | evidently intended | confidence | as-written member | corrected member |
|---|---|---|---|---|---|---|
| game/graphics/renderer.cpp:178-189 | `prevCompose` is initialised from `water.reflectionsPso`, so line 188 compares a compose pipeline with a reflection pipeline. That is always unequal, so the sets are rebuilt, with a device waitIdle, on every initSettings call. | Call initSettings twice with the same zCloudShadowScale and zEnvMappingEnabled: the second call still rebuilds. | Save `ssao.ambientComposePso` in `prevCompose`, so the rebuild happens only when a setting changed (Variants.IntendedGuardFiresIffChanged). | not executed | Variants.AsWrittenRebuildsOnUnchangedSettings | Renderer.Renderer.InitSettingsIntended |
