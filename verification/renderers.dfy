/**
 * The two platform renderers, CRenderer and CSequenceFrameRenderer: their
 * construction order, their destructor, and the sequence-frame renderer's
 * texture slot and draw.
 */
module Renderers {
  import opened Wrappers
  import opened Surface
  import opened ShaderBuild
  import opened Textures
  import Compositor
  import QuadGeometry

  /** The state both renderers share: EGL session, program and vertex array. */
  datatype RendererCore = RendererCore(session: EglSession, program: Handle, vao: Handle)

  /** The fields' initial values, before the constructor body runs. */
  const Unbuilt := RendererCore(NoSession, 0, 0)

  /** The constructor's steps, in the order they run. */
  datatype Phase = InitSurfacePhase | CreateProgramPhase | CreateVaoPhase

  /** A constructed renderer core, the GL objects after construction and the steps that ran. */
  datatype Constructed = Constructed(core: RendererCore, gl: GlObjects, phases: seq<Phase>, aborted: bool)

  /**
   * The constructor of either renderer: `__initRenderer`, then
   * `__createProgram`, then the vertex-array setup. `vao` is the name
   * glGenVertexArrays returns. In a debug build (`debugAsserts`) a failed
   * eglMakeCurrent stops the process inside `__initRenderer`, so the later
   * steps never run; a release build carries on with a context that is not
   * current.
   */
  method Construct(configs: seq<ConfigAttribs>, egl: EglOracle, gl: GlObjects, build: BuildOracle, vao: Handle,
                   debugAsserts: bool)
    returns (r: Constructed)
    requires exists j :: 0 <= j < |configs| && Suitable(configs[j])
    requires gl.Valid() && FreshOracle(gl, build)
    ensures r.aborted <==> debugAsserts && !egl.madeCurrent
    ensures r.aborted ==> r.phases == [InitSurfacePhase] && r.gl == gl && r.core == Unbuilt
    ensures !r.aborted ==> r.phases == [InitSurfacePhase, CreateProgramPhase, CreateVaoPhase]
    ensures !r.aborted ==> r.core.session == EglSession(egl.display, egl.surface, egl.context)
    ensures !r.aborted ==> r.core.program == CreateProgram(gl, build, 0).handle && r.core.vao == vao
    ensures !r.aborted ==> r.gl == CreateProgram(gl, build, 0).gl
    ensures r.core.program != 0 ==> VertOk(build) && FragOk(build) && LinkOk(build)
  {
    var init := InitSurface(configs, egl, debugAsserts);
    var core := Unbuilt.(session := init.session);
    if init.aborted {
      return Constructed(core, gl, [InitSurfacePhase], true);
    }
    var built := CreateProgram(gl, build, core.program);
    core := core.(program := built.handle);
    core := core.(vao := vao);
    r := Constructed(core, built.gl, [InitSurfacePhase, CreateProgramPhase, CreateVaoPhase], false);
  }

  /** A release build's constructor never stops, whatever eglMakeCurrent answers. */
  method ReleaseBuildNeverAborts(configs: seq<ConfigAttribs>, egl: EglOracle, gl: GlObjects, build: BuildOracle, vao: Handle)
    returns (phases: seq<Phase>)
    requires exists j :: 0 <= j < |configs| && Suitable(configs[j])
    requires gl.Valid() && FreshOracle(gl, build)
    ensures phases == [InitSurfacePhase, CreateProgramPhase, CreateVaoPhase]
  {
    var c := Construct(configs, egl, gl, build, vao, false);
    phases := c.phases;
  }

  /** A destroyed renderer: its final fields, the GL objects left, and the EGL calls issued. */
  datatype Destroyed = Destroyed(core: RendererCore, gl: GlObjects, calls: seq<EglCall>)

  /**
   * The destructor of either renderer: the EGL teardown chain, then
   * glDeleteVertexArrays and glDeleteProgram, issued whether or not a
   * display was live. The shader objects are not touched.
   */
  function Destroy(core: RendererCore, gl: GlObjects): (d: Destroyed)
    requires gl.Valid()
    ensures d.gl.Valid()
    ensures core.program !in d.gl.programs
    ensures d.gl.shaders == gl.shaders
    ensures d.gl.programs == gl.programs - {core.program}
    ensures d.calls == Teardown(core.session).calls
    ensures core.session.display != 0 ==> d.core.session == NoSession
  {
    var released := Teardown(core.session);
    Destroyed(core.(session := released.session), gl.(programs := gl.programs - {core.program}), released.calls)
  }

  /**
   * A renderer's whole lifetime leaks its two shader objects: after a
   * construction that builds a program and its destruction, of the shader
   * and program objects exactly the vertex and fragment shaders remain
   * allocated beyond what existed before. Buffer objects are not tracked.
   */
  method LifetimeLeaksShaders(configs: seq<ConfigAttribs>, egl: EglOracle, gl: GlObjects, build: BuildOracle, vao: Handle,
                              debugAsserts: bool)
    returns (leaked: set<Handle>)
    requires exists j :: 0 <= j < |configs| && Suitable(configs[j])
    requires gl.Valid() && FreshOracle(gl, build)
    requires !debugAsserts || egl.madeCurrent
    requires VertOk(build) && FragOk(build) && LinkOk(build)
    ensures leaked == {build.vert.created, build.frag.created}
  {
    var c := Construct(configs, egl, gl, build, vao, debugAsserts);
    var d := Destroy(c.core, c.gl);
    leaked := d.gl.Live() - gl.Live();
    assert c.core.program == build.program.created;
  }

  /** The sequence-frame renderer: the shared core plus its lazily filled texture slot. */
  datatype SeqFrameRenderer = SeqFrameRenderer(core: RendererCore, texture: Option<TextureAsset>)

  /** The sequence-frame renderer straight after construction: its texture slot is empty. */
  function NewSeqFrame(c: Constructed): (r: SeqFrameRenderer)
    ensures r.core == c.core && r.texture.None?
  {
    SeqFrameRenderer(c.core, None)
  }

  /** `loadTexture`: fills the slot from the asset loader's answer unless it is already filled. */
  function LoadTexture(r: SeqFrameRenderer, loaded: Option<TextureAsset>): (r': SeqFrameRenderer)
    ensures r'.core == r.core
    ensures r.texture.Some? ==> r' == r
    ensures r.texture.None? ==> r'.texture == loaded
  {
    r.(texture := LoadIntoSlot(r.texture, loaded).slot)
  }

  /** The draw `render` issues. */
  datatype SeqDraw = SeqDraw(program: Handle, blend: Compositor.BlendState, texture: nat, vao: Handle, indexCount: nat)

  /**
   * What one `render` call does: it asserts that a texture is loaded (an
   * empty slot stops a debug build and dereferences null in a release
   * build), and then draws and presents; in a debug build a failed swap
   * trips a second assert that stops the process, in a release build it
   * goes unnoticed.
   */
  datatype RenderOutcome = NoTexture | Drawn(draw: SeqDraw, swapAborts: bool)

  function RenderSeqFrame(r: SeqFrameRenderer, swapOk: bool, debugAsserts: bool): (o: RenderOutcome)
    ensures o.NoTexture? <==> r.texture.None?
    ensures o.Drawn? ==>
              && o.draw.program == r.core.program
              && o.draw.texture == r.texture.value.textureId
              && o.draw.vao == r.core.vao
              && o.draw.blend == Compositor.AlphaBlend
              && o.draw.indexCount == |QuadGeometry.QuadIndices|
              && (o.swapAborts <==> debugAsserts && !swapOk)
  {
    if r.texture.None? then NoTexture
    else
      var blend := Compositor.EnableBlend(Compositor.SrcAlpha, Compositor.OneMinusSrcAlpha);
      Drawn(SeqDraw(r.core.program, blend, r.texture.value.textureId, r.core.vao, 6), debugAsserts && !swapOk)
  }

  /** Nothing in a freshly constructed renderer loads a texture, so its first render cannot draw. */
  lemma FreshRendererCannotDraw(c: Constructed, swapOk: bool, debugAsserts: bool)
    ensures RenderSeqFrame(NewSeqFrame(c), swapOk, debugAsserts).NoTexture?
  {
  }

  /** Once a texture is loaded, later loads keep it, so every later render draws that same texture. */
  lemma LoadedTextureIsStable(r: SeqFrameRenderer, a: Option<TextureAsset>, b: Option<TextureAsset>, swapOk: bool,
                              debugAsserts: bool)
    requires LoadTexture(r, a).texture.Some?
    ensures RenderSeqFrame(LoadTexture(LoadTexture(r, a), b), swapOk, debugAsserts) ==
            RenderSeqFrame(LoadTexture(r, a), swapOk, debugAsserts)
    ensures RenderSeqFrame(LoadTexture(r, a), swapOk, debugAsserts).Drawn?
  {
  }
}
