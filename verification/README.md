# Sprite-sheet snow renderer — a Dafny model

This project models the integer, time and state logic of a small OpenGL ES /
EGL renderer that draws a layered winter scene on Android, together with its
desktop demo loop. The modelled parts are these:

- **Sprite grid** (`sprite_grid.dfy`). A frame index names a cell `(frame / COLS, frame % COLS)`
  of an 8 x 16 sprite sheet. That cell owns the texture rectangle
  `[Col/COLS, (Col+1)/COLS] x [Row/ROWS, (Row+1)/ROWS]`, which the snow shader samples through
  `TexCoord * uvScale + uvOffset`.
- **Animation clock** (`animation_clock.dfy`). The frame advances by one step when at least 1/24 s
  has passed since the last advance. `LastTime` is then reset to the current time, so any surplus
  time is dropped.
- **Compositor** (`compositor.dfy`). Each iteration of the demo loop ticks the clock and then
  issues four 6-index draws: background, far snow, cartoon, near snow. Before each of the last
  three draws it sets a blend function, and it never resets the GL blend state.
- **Shader build** (`shader_build.dfy`). The compile / link / create-program pipelines of both
  platform renderers and of the desktop demo. They are modelled as a machine over the set of live
  GL shader and program objects. The GL driver is an oracle that supplies names and
  success answers.
- **Surface** (`surface.dfy`). The first-match EGL config search, surface initialisation, and the
  guarded teardown chain that resets every handle to its "none" value.
- **Textures** (`textures.dfy`). The demo loader maps a channel count to an upload format and
  returns id 0 when decoding fails. The renderer keeps a texture slot that is filled lazily, at
  most once.
- **Quad geometry** (`quad_geometry.dfy`). The four-vertex, six-index quad.
- **Renderers** (`renderers.dfy`). Constructor order, destructor, and the sequence-frame
  renderer's `render`.
- **App loop** (`app_loop.dfy`). `handleCmd`, the motion-event filter, and the main loop, which
  drains looper events and then renders one tick.

Time and texture coordinates are exact `real`s, and frame arithmetic is on unbounded integers. GL
and EGL handles are naturals, with 0 standing for "no object" (`EGL_NO_DISPLAY`, a failed
`glCreateShader`, and so on). The driver, the image decoder, the clock and the platform's event
queue do not appear as code. They are parameters: a created name, a success flag, a time stamp,
a poll result. The C `assert`s of the renderers are modelled for both builds: a parameter
`debugAsserts` says whether they are compiled in. The exceptions are the link assert and the texture
assert (see "## Left out"). In a debug build a failed assert stops the
process; in a release build execution carries on past it.

Some consequences of the code that the model makes explicit:

- **Periodic ticks.** Ticks at 60 Hz for two seconds advance a 24 fps layer 40 times, not
  `floor(2 * 24) = 48` times, because `LastTime` is reset to the current time and the surplus is
  dropped. An advance happens once every `ceil(FrameTime / period)` = 3 ticks
  (`AnimationClock.PeriodicTickLaw`, `AnimationClock.SixtyHertzForTwoSeconds`).
- **Orphaned vertex shader.** `__createProgram` does not release the vertex shader when the
  fragment compile fails, and successful builds never delete their shaders either
  (`ShaderBuild.CreateProgramOrphans`, `Renderers.LifetimeLeaksShaders`).
- **Background blending.** The background is not drawn opaque. From the second iteration on, it
  inherits the near-snow layer's additive `(SRC_ALPHA, ONE)` blend
  (`Compositor.BackgroundInheritsSnowBlend`).
- **Source revisions.** The sequence-frame renderer's `.cpp` uses a `loadTexture(std::string)`
  with a shared-pointer slot, while its header declares a different name. The model follows the
  `.cpp`. `main.cpp` calls `renderBlendingSnow`, which no header declares. The model treats it as
  an abstract render tick that records which renderer was ticked.

## Model

| member | source | states |
|---|---|---|
| SpriteGrid.CellOf | app/src/main/cpp/RawOpenGL.cpp:235-236 | the (Row, Col) of a valid frame is a valid cell of the ROWS x COLS grid and frame = Row*COLS + Col |
| SpriteGrid.FrameOf | app/src/main/cpp/RawOpenGL.cpp:235-236 | row-major numbering of a valid cell is a valid frame index |
| SpriteGrid.FrameCellFrame | app/src/main/cpp/RawOpenGL.cpp:235-236 | splitting a frame into (Row, Col) and renumbering gives the frame back |
| SpriteGrid.CellFrameCell | app/src/main/cpp/RawOpenGL.cpp:235-236 | every cell of the grid is the split of exactly its row-major frame, so the split is onto |
| SpriteGrid.CellOfInjective | app/src/main/cpp/RawOpenGL.cpp:235-236 | distinct frames split into distinct cells |
| SpriteGrid.FrameRect | app/src/main/cpp/RawOpenGL.cpp:237-244 | a frame's UV rectangle has width 1/COLS and height 1/ROWS, lies in [0,1]^2, and uvScale = (U1-U0, V1-V0) = (1/COLS, 1/ROWS) |
| SpriteGrid.DistinctFramesDisjoint | app/src/main/cpp/RawOpenGL.cpp:237-240 | rectangles of distinct frames do not overlap (they share at most an edge) |
| SpriteGrid.Tiling | app/src/main/cpp/RawOpenGL.cpp:237-240 | every point of [0,1)^2 lies in the half-open rectangle of exactly one frame |
| SpriteGrid.SampleStaysInRect | app/src/main/cpp/RawOpenGL.cpp:31 | the shader's TexCoord*uvScale+uvOffset maps [0,1]^2 into the rectangle, (0,0) to its lower and (1,1) to its upper corner |
| SpriteGrid.SampleStaysInFrame | app/src/main/cpp/RawOpenGL.cpp:31 | with a frame's uniforms, the snow shader samples only inside that frame's cell |
| AnimationClock.Advance | app/src/main/cpp/RawOpenGL.cpp:220 | the next frame index is always a valid frame of the sheet |
| AnimationClock.Tick | app/src/main/cpp/RawOpenGL.cpp:215-221 | a tick earlier than FrameTime after LastTime changes neither frame nor LastTime; a later one sets LastTime to now and advances exactly one frame |
| AnimationClock.TickKeepsFrameValid | app/src/main/cpp/RawOpenGL.cpp:208-220 | the frame index stays in [0, ROWS*COLS) across ticks |
| AnimationClock.LateTickIsOneStep | app/src/main/cpp/RawOpenGL.cpp:217-221 | however late a tick is, it produces the same single step |
| AnimationClock.StepsFromZero | app/src/main/cpp/RawOpenGL.cpp:208-220 | starting from frame 0, n advances give frame n mod (ROWS*COLS) |
| AnimationClock.FullCycleReturnsToZero | app/src/main/cpp/RawOpenGL.cpp:208-220 | after exactly ROWS*COLS advances the frame is 0 again |
| AnimationClock.PeriodicTickLaw | app/src/main/cpp/RawOpenGL.cpp:210-221 | with ticks every p seconds the clock advances once every ceil(FrameTime/p) ticks: after n ticks frame = (n / k) mod (ROWS*COLS) and LastTime is the time of the k*(n/k)-th tick |
| AnimationClock.SixtyHertzForTwoSeconds | app/src/main/cpp/RawOpenGL.cpp:211-221 | 120 ticks at 60 Hz leave a 24 fps sheet on frame 40 |
| AnimationClock.HalfPeriodTickIsIdle | app/src/main/cpp/RawOpenGL.cpp:215-221 | a tick 1/48 s after the last advance changes nothing |
| AnimationClock.DoublePeriodTickIsOneStep | app/src/main/cpp/RawOpenGL.cpp:215-221 | a tick 1/12 s after the last advance moves exactly one frame |
| Compositor.UniformsFor | app/src/main/cpp/RawOpenGL.cpp:237-244 | the snow uniforms are uvOffset = (U0, V0) and uvScale = (U1-U0, V1-V0) of the current frame's rectangle, with scale (1/COLS, 1/ROWS) |
| Compositor.Iterate | app/src/main/cpp/RawOpenGL.cpp:213-269 | one iteration ticks the clock first, then issues four 6-index draws (background, far snow, cartoon, near snow), each with its own layer's program and texture; the background sees the inherited blend state, snow uses (SRC_ALPHA, ONE), the cartoon (SRC_ALPHA, ONE_MINUS_SRC_ALPHA); both snow layers get the same uniforms of the new frame, and the state left behind is (SRC_ALPHA, ONE) enabled |
| Compositor.SnowDrawsSampleCurrentFrame | app/src/main/cpp/RawOpenGL.cpp:237-264 | in every iteration both snow draws carry uniforms under which the shader's TexCoord*uvScale+uvOffset, for any TexCoord in [0,1]^2, lies in the rectangle of the frame the clock has just reached (the shader line is RawOpenGL.cpp:31) |
| Compositor.Run | app/src/main/cpp/RawOpenGL.cpp:213-273 | a run of n iterations issues 4n draws and keeps the frame index valid |
| Compositor.BackgroundInheritsSnowBlend | app/src/main/cpp/RawOpenGL.cpp:226-261 | in a run, the first background draw sees the starting blend state and every later one sees (SRC_ALPHA, ONE), since blending is never reset |
| Compositor.FirstTwoFramesDiffer | app/src/main/cpp/RawOpenGL.cpp:226-234 | from a fresh GL context, the first background is drawn unblended and the second additively |
| Compositor.RunDrawOrder | app/src/main/cpp/RawOpenGL.cpp:226-269 | every iteration of a run keeps the fixed layer order, the blend per layer, and identical UV uniforms for far and near snow |
| Compositor.RunBindings | app/src/main/cpp/RawOpenGL.cpp:226-269 | in every iteration of a run, background, far snow, cartoon and near snow are each drawn with their own program and texture |
| Compositor.RunClock | app/src/main/cpp/RawOpenGL.cpp:213-221 | the clock after a run is the clock ticked at each loop time in turn, and blending is left at (SRC_ALPHA, ONE) |
| Textures.UploadFormat | app/src/main/cpp/RawOpenGL.cpp:91-97 | 1 channel uploads as RED, 4 as RGBA, every other count as RGB |
| Textures.UploadFormatFaithful | app/src/main/cpp/RawOpenGL.cpp:91-97 | the upload format matches the buffer's channel count exactly for 1, 3 and 4 channels, and misreads every other count |
| Textures.LoadTextureRaw | app/src/main/cpp/RawOpenGL.cpp:82-114 | a failed decode returns texture id 0 and uploads nothing; a successful one uploads width x height in the mapped format with repeat wrap, trilinear filtering and mipmaps into the generated id, and returns that id |
| Textures.LoadIntoSlot | app/src/main/cpp/SequenceFrameRenderer.cpp:43-53 | a filled slot is left alone and the asset loader is not called; an empty slot takes the loader's answer, which may be null |
| Textures.SecondLoadIsNoOp | app/src/main/cpp/SequenceFrameRenderer.cpp:45 | loading into a slot that a first load filled keeps the same asset and loads nothing |
| Textures.SlotPopulatedOnce | app/src/main/cpp/SequenceFrameRenderer.cpp:43-53 | over repeated loads an empty slot ends with the loader's first non-null answer; the loader runs up to and including that success and never after, and a failed load leaves the slot empty for a retry |
| ShaderBuild.CompileShader | app/src/main/cpp/SequenceFrameRenderer.cpp:143-160 | a nonzero result exactly when creation and compilation succeed; on either failure it returns 0 and no new shader stays allocated (Renderer.cpp:114-131 is the same code) |
| ShaderBuild.CompileShaderUnchecked | app/src/main/cpp/RawOpenGL.cpp:65-80 | the demo returns the created shader name even when compilation fails, and the shader stays allocated |
| ShaderBuild.LinkProgram | app/src/main/cpp/Renderer.cpp:133-151 | a nonzero program exactly when creation and linking succeed; a failed link deletes the program and returns 0; shaders are never released; there is no precondition on the shader names |
| ShaderBuild.LinkProgramChecked | app/src/main/cpp/SequenceFrameRenderer.cpp:162-181 | with both shader handles nonzero, as its assert demands: a nonzero program exactly when creation and linking succeed, the new program added to the live set, a failed link leaving the program set unchanged, shaders never released |
| ShaderBuild.CheckedLinkAgrees | app/src/main/cpp/SequenceFrameRenderer.cpp:162-181 | on nonzero shader handles the sequence-frame renderer's checked link and CRenderer's link (Renderer.cpp:133-151) give the same program and objects |
| ShaderBuild.LinkProgramRaw | app/src/main/cpp/RawOpenGL.cpp:116-136 | the demo's link deletes both shaders only when glCreateProgram returns 0; a failed link deletes only the program; a successful one returns the name glCreateProgram gave, newly added to the program set |
| ShaderBuild.CreateProgram | app/src/main/cpp/SequenceFrameRenderer.cpp:210-222 | the link step is the checked one, reached only with two nonzero shader handles; a vertex failure changes nothing; a fragment failure keeps m_ProgramHandle and leaves the vertex shader allocated; otherwise the handle is the name glCreateProgram returned when the link succeeds and 0 when it fails, and both shaders stay allocated; the handle changes only if both compiles succeed (Renderer.cpp:194-206 is the same code) |
| ShaderBuild.CreateProgramOrphans | app/src/main/cpp/SequenceFrameRenderer.cpp:143-222 | the objects left allocated besides the stored program: none after a vertex failure, the vertex shader after a fragment failure, both shaders otherwise |
| ShaderBuild.VertexFailureSkipsFragment | app/src/main/cpp/SequenceFrameRenderer.cpp:210-216 | after a vertex failure the fragment stage is never reached: its driver answers do not affect the outcome |
| ShaderBuild.BuildRaw | app/src/main/cpp/RawOpenGL.cpp:165-167 | the demo's build yields a program exactly when glCreateProgram and the link succeed |
| ShaderBuild.RawAgreesOnSuccess | app/src/main/cpp/RawOpenGL.cpp:65-136 | when both compiles succeed and a program is created, the demo's build and the renderers' build leave the same objects and return the same program |
| ShaderBuild.RawKeepsFailedShader | app/src/main/cpp/RawOpenGL.cpp:65-80 | a shader that failed to compile stays allocated in the demo's build but not in the renderers' |
| ShaderBuild.RawCreateFailureReleasesShaders | app/src/main/cpp/RawOpenGL.cpp:116-136 | when glCreateProgram fails the demo's build leaves no object behind, while the renderers' build keeps both shaders |
| Surface.FailedQueryRejects | app/src/main/cpp/SequenceFrameRenderer.cpp:111-120 | a config whose attribute query fails is rejected whatever its other attributes |
| Surface.ChooseConfig | app/src/main/cpp/SequenceFrameRenderer.cpp:105-121 | the chosen config is the first in enumeration order whose four queries succeed with R=G=B=8 and depth 24 (Renderer.cpp:71-85 is the same search) |
| Surface.InitSurface | app/src/main/cpp/SequenceFrameRenderer.cpp:78-141 | initialisation uses the first suitable config, issues one eglMakeCurrent of the new surface and context, stores display, surface and context unchecked; its assert stops the process exactly in a debug build when making them current fails, before any field is assigned, and a release build stores the session regardless |
| Surface.Teardown | app/src/main/cpp/SequenceFrameRenderer.cpp:23-38 | with a live display: exactly 2 calls plus one per live context or surface, namely unbind first, destroy the context exactly if there is one, the surface exactly if there is one, context before surface, terminate last, and reset all three handles; with no display: no call and no change |
| Surface.TeardownIdempotent | app/src/main/cpp/Renderer.cpp:12-27 | a second teardown issues no EGL call and changes nothing |
| Surface.TeardownReleasesEachOnce | app/src/main/cpp/SequenceFrameRenderer.cpp:26-37 | each live EGL object is released exactly once and the display terminated exactly once |
| QuadGeometry.QuadIndicesWellFormed | app/src/main/cpp/SequenceFrameRenderer.cpp:235-238 | six indices, all in [0,4), using every vertex |
| QuadGeometry.TrianglesShareDiagonal | app/src/main/cpp/SequenceFrameRenderer.cpp:235-238 | the two triangles share exactly the edge 0-2 and together cover all four corners |
| QuadGeometry.TriangleArea2Corners | app/src/main/cpp/SequenceFrameRenderer.cpp:235-238 | the index buffer draws triangles (0,1,2) and (0,2,3) of any four vertices |
| QuadGeometry.SeqFrameQuadWound | app/src/main/cpp/SequenceFrameRenderer.cpp:227-238 | both triangles of the renderer's quad wind counter-clockwise, and their areas add up to the quad's 1 x 1 |
| QuadGeometry.FullScreenQuadWound | app/src/main/cpp/RawOpenGL.cpp:181-192 | both triangles of the demo's full-screen quad wind counter-clockwise, and their areas add up to the quad's 2 x 2 |
| QuadGeometry.QuadUvCorners | app/src/main/cpp/SequenceFrameRenderer.cpp:227-233 | every vertex of both quads carries a corner of uv space, and in each quad the four vertices carry four distinct corners (RawOpenGL.cpp:181-187 for the demo's quad) |
| Renderers.Construct | app/src/main/cpp/Renderer.cpp:107-112 | construction runs surface init, then program creation starting from handle 0, then VAO creation; it stops exactly when a debug build's surface assert fires, with no field assigned and no GL object made; a release build always runs all three steps (SequenceFrameRenderer.cpp:14-19 is the same) |
| Renderers.ReleaseBuildNeverAborts | app/src/main/cpp/SequenceFrameRenderer.cpp:14-19 | without asserts (the eglMakeCurrent assert is at line 136), construction runs all three steps whatever eglMakeCurrent answers |
| Renderers.Destroy | app/src/main/cpp/SequenceFrameRenderer.cpp:21-41 | the destructor runs the EGL teardown chain and passes the program to glDeleteProgram, never the shader objects |
| Renderers.LifetimeLeaksShaders | app/src/main/cpp/SequenceFrameRenderer.cpp:14-41 | after a construction that builds a program (in either build) and its destruction, of the shader and program objects exactly the two shaders were never passed to a delete call |
| Renderers.NewSeqFrame | app/src/main/cpp/SequenceFrameRenderer.cpp:14-19 | a freshly constructed sequence-frame renderer has an empty texture slot |
| Renderers.LoadTexture | app/src/main/cpp/SequenceFrameRenderer.cpp:43-53 | loadTexture fills an empty slot with the loader's answer and leaves a filled one and the rest of the renderer unchanged |
| Renderers.RenderSeqFrame | app/src/main/cpp/SequenceFrameRenderer.cpp:55-76 | render fails its texture assert exactly when the slot is empty; otherwise it draws 6 indices with the renderer's program, VAO and slot texture under (SRC_ALPHA, ONE_MINUS_SRC_ALPHA), and it stops on the swap assert exactly in a debug build when the swap fails |
| Renderers.FreshRendererCannotDraw | app/src/main/cpp/SequenceFrameRenderer.cpp:14-19 | since construction loads no texture, the first render of a fresh renderer hits its texture assert |
| Renderers.LoadedTextureIsStable | app/src/main/cpp/SequenceFrameRenderer.cpp:43-76 | once a texture is loaded, later loads keep it and every render draws it |
| AppLoop.HandleCmd | app/src/main/cpp/main.cpp:16-34 | INIT_WINDOW stores a fresh renderer and orphans the previous one; TERM_WINDOW with a renderer nulls the pointer and deletes exactly that renderer; TERM_WINDOW with none and every other command change nothing |
| AppLoop.DoubleInitLeaks | app/src/main/cpp/main.cpp:20-30 | INIT, INIT, TERM leaves the first renderer allocated and unreachable |
| AppLoop.MotionFilter | app/src/main/cpp/main.cpp:45-50 | a source is accepted exactly when its class byte (source & CLASS_MASK) is the pointer or the joystick class, so an accepted source has a nonzero class byte |
| AppLoop.MotionFilterByClassByte | app/src/main/cpp/main.cpp:47-49 | the verdict depends only on source & CLASS_MASK |
| AppLoop.MotionFilterOnDevices | app/src/main/cpp/main.cpp:45-50 | touchscreen, mouse and joystick sources pass; keyboard, d-pad and gamepad sources do not |
| AppLoop.Classify | app/src/main/cpp/main.cpp:74-92 | TIMEOUT and WAKE end polling; the error label and CALLBACK keep polling; every other result goes to dispatch |
| AppLoop.ClassifyCorrected | app/src/main/cpp/main.cpp:82-91 | with the poll error code as the error label, no looper status code is ever dispatched |
| AppLoop.PollErrorMisclassified | app/src/main/cpp/main.cpp:82-91 | as written a poll error goes to dispatch and identifier 4 is swallowed; the corrected switch does the opposite |
| AppLoop.Drain | app/src/main/cpp/main.cpp:66-93 | the inner loop consumes events up to and including the first TIMEOUT or WAKE and stops only there; the sources it processes are exactly the non-null sources of the consumed events that reach the default case, in order |
| AppLoop.DispatchesMembers | app/src/main/cpp/main.cpp:73-91 | a source is processed exactly when some event that reaches the default case carries it |
| AppLoop.DrainDispatchesOnlyDefaultCase | app/src/main/cpp/main.cpp:73-91 | for either error label, every processed source comes from a consumed event that the switch sent to its default case |
| AppLoop.DrainStopsAtFirstStop | app/src/main/cpp/main.cpp:66-81 | events after the one that ends polling do not affect the iteration |
| AppLoop.CorrectedDispatchesOnlyIdents | app/src/main/cpp/main.cpp:86-91 | with the corrected switch, every dispatched source comes from a consumed event that carries a non-null source and no status code |
| AppLoop.SwitchesAgreeWithoutIdentFour | app/src/main/cpp/main.cpp:70-91 | on events the looper can deliver (a null source with every negative result), the as-written and the corrected switch drain identically unless an identifier 4 occurs |
| AppLoop.IdentFourSwallowed | app/src/main/cpp/main.cpp:81-91 | an event with identifier 4 and a source is ignored by the as-written switch and dispatched by the corrected one |
| AppLoop.Process | app/src/main/cpp/main.cpp:87-90 | processing a command source runs handleCmd on its command, and an input source leaves the renderer bookkeeping unchanged |
| AppLoop.ProcessAll | app/src/main/cpp/main.cpp:87-91 | processing dispatched sources keeps the renderer pointer either null or pointing at a live renderer |
| AppLoop.ProcessAllSnoc | app/src/main/cpp/main.cpp:65-91 | processing one more source continues from the state the earlier ones left |
| AppLoop.ProcessAllFollowsLastWindowCmd | app/src/main/cpp/main.cpp:16-34 | after a batch of sources the renderer pointer follows its last INIT_WINDOW or TERM_WINDOW: with none the state is unchanged, after TERM it is null, after INIT it points to a live renderer allocated during the batch |
| AppLoop.Iteration | app/src/main/cpp/main.cpp:62-99 | the state after an iteration is that of processing exactly the sources the drain dispatched; the render tick happens at most once per iteration, only after polling has finished, only when userData is non-null, and on the renderer userData points to |
| AppLoop.RunApp | app/src/main/cpp/main.cpp:62-100 | the loop body runs at least once and at most once per delivered batch; a run has no more render ticks than iterations, and none on a null renderer; a single-iteration run is cut short exactly when its polling never finished |
| AppLoop.RunAppExit | app/src/main/cpp/main.cpp:62-100 | the loop ends after the first iteration that leaves destroyRequested set: every earlier iteration finished polling with destroyRequested clear, and the last batch accounts for the exit (destroy requested, still polling, or batches exhausted) |
| AppLoop.ProcessAllAppend | app/src/main/cpp/main.cpp:65-91 | processing two lists of dispatched sources one after the other is processing their concatenation |
| AppLoop.StateAfterBatches | app/src/main/cpp/main.cpp:62-100 | iterating the loop body over a list of batches keeps the renderer pointer null or pointing at a live renderer |
| AppLoop.BatchesProcessInOrder | app/src/main/cpp/main.cpp:62-100 | iterating over batches leaves the state of processing, in order, every source their drains dispatched |
| AppLoop.RunAppContinues | app/src/main/cpp/main.cpp:62-100 | when the first iteration finishes polling with destroyRequested clear and more batches follow, the loop carries its state into the next iteration and ends where the run from the next batch ends |
| AppLoop.RunAppFollowsBatches | app/src/main/cpp/main.cpp:62-100 | a run ends in the state of running the loop body on exactly the batches it entered |
| AppLoop.RunAppState | app/src/main/cpp/main.cpp:62-100 | a run ends in the state of processing, in order, every source dispatched in the iterations it entered, so the renderer bookkeeping is carried from one iteration to the next |
| AppLoop.RunAppExplained | app/src/main/cpp/main.cpp:62-100 | every iteration before the last finished polling with destroyRequested clear, and the last batch accounts for why the loop ended |
| AppLoop.RunAppLastTick | app/src/main/cpp/main.cpp:94-100 | a run that did not stop mid-poll and still holds a renderer ended on a render tick of that renderer |

## Left out

- GL, EGL and GLFW calls themselves are not modelled: pixel uploads, GLSL sources and compilation, uniform-location lookups, VAO/VBO contents, clears and swaps. They are foreign driver calls, so each appears only as an oracle answer (a created name, a success flag).
- `CTextureAsset::loadAsset` (TextureAsset.cpp) is not modelled. Its result appears only as the optional asset handed to `LoadIntoSlot`.
- UtilAsset.cpp / UtilAsset.h (file I/O, stb_image), ShaderSource.h and Common.h (logging) are not part of this model.
- Floating point is not modelled: time is an exact `real` rather than a `double`, and UV coordinates are exact rather than `float`.
- The desktop demo's window and GLAD set-up, its vertex-buffer set-up and its cleanup after the loop (RawOpenGL.cpp:138-158, 194-206, 275-283) are not modelled: this is platform glue and resource release at exit. Its loop runs over a finite sequence of tick times instead of `glfwWindowShouldClose`, and the scene's program and texture names are inputs.
- `CRenderer::render` and the buffer contents of `__createTriangleVAO` / `__createQuadVAO` are not modelled. The first draws a fixed coloured triangle; the others only produce the VAO name, which `Renderers.Construct` takes as an input.
- `eglChooseConfig`'s own attribute filtering and the `EGL_NATIVE_VISUAL_ID` query are not modelled. The model starts from the list of configs that the filtering returns.
- `renderBlendingSnow` has no body in any file, so the model records only which renderer each tick reaches.
- `destroyRequested` is set inside the platform glue, not in the app's own code. The model reads it as an input per loop iteration.
- Surface.ChooseConfig: requires that a suitable config exists. The source dereferences the end iterator when none does, and that case has no defined behaviour to model.
- ShaderBuild.LinkProgramChecked: the source's `assert` on the shader handles is modelled as a precondition, not as a debug-build stop. `__createProgram` only reaches the link with two nonzero handles, so the precondition always holds there.
- Renderers.Construct: does not model failures of `glGenVertexArrays`. The VAO name is taken as given.
- Renderers.Construct: in a release build with a failed eglMakeCurrent, the GL calls that follow run without a current context; the model still lets the driver oracle answer them.
- Renderers.LifetimeLeaksShaders: GL objects are tracked independently of the EGL context. The destructor issues its GL deletes after the context has been released and destroyed (SequenceFrameRenderer.cpp:25-28 before 39-40), and destroying an unshared context frees the objects it owns. So the claim is only that the shaders are never passed to a delete call, not that they outlive the context.
- Renderers.LifetimeLeaksShaders: buffer and vertex-array objects are not tracked in the GL object sets. The quad's vertex and index buffers (SequenceFrameRenderer.cpp:243-250), and CRenderer's vertex buffer, are never deleted either, so the renderer leaks more than the two shaders.
- Renderers.Destroy: the same applies. The program is modelled as removed by glDeleteProgram, although that call runs with no current context.
- Renderers.RenderSeqFrame: with an empty texture slot, a release build dereferences a null pointer. That has no defined behaviour, so `NoTexture` stands for both the debug-build stop and the release-build fault.
- AppLoop.Drain: a batch whose events never include TIMEOUT or WAKE stands for a loop that is still polling. The model does not decide whether the loop would ever stop.

## Findings

| source | as written | input that shows it | evidently intended | confidence | as-written member | corrected member |
|---|---|---|---|---|---|---|
| app/src/main/cpp/main.cpp:82 | the error case of the poll switch tests `ALOOPER_EVENT_ERROR` (an event bitmask flag, value 4) | `ALooper_pollOnce` returns `ALOOPER_POLL_ERROR` (-4): it falls to the default case, where the null source is skipped, so the error is never logged; a source registered with identifier 4 would be logged as an error and never processed (the app glue's own identifiers are 1 and 2, so it only affects other registrations) | the case tests `ALOOPER_POLL_ERROR` (-4), matching its log message "ALooper_pollOnce returned an error" | low, not executed | AppLoop.PollErrorMisclassified, AppLoop.IdentFourSwallowed | AppLoop.ClassifyCorrected |

The drain loop and the main loop take the error label as a parameter. Their contracts hold for
both labels. The corrected label's dispatch guarantee is `AppLoop.CorrectedDispatchesOnlyIdents`;
`AppLoop.SwitchesAgreeWithoutIdentFour` shows that on what the looper delivers the two labels
differ only when identifier 4 occurs.
